/** `start_connector` (lines 941-962): start the local-client connector,
    retrying after each failure, at most `MaxAttempts` times. */
module Connector {

  const MaxAttempts: nat := 30
  const RetryDelaySeconds: nat := 10

  /** Every `connector.start()` call up to the `n`-th failed. */
  predicate FailedBefore(startSucceeds: nat -> bool, n: nat) {
    forall i :: 0 <= i < n ==> !startSucceeds(i)
  }

  /** The `start()` calls are numbered from 0; `startSucceeds(i)` says
      whether the `i`-th returns normally instead of raising. Returns the
      final value of `attempts`, whether a start succeeded, the total sleep
      and whether the exhaustion message (line 959) is printed. */
  method StartConnector(startSucceeds: nat -> bool)
    returns (attempts: nat, connected: bool, sleptSeconds: nat, exhausted: bool)
    ensures attempts <= MaxAttempts
    ensures FailedBefore(startSucceeds, attempts)
    ensures connected <==> attempts < MaxAttempts
    ensures connected ==> startSucceeds(attempts)
    ensures exhausted <==> attempts == MaxAttempts
    ensures exhausted <==> FailedBefore(startSucceeds, MaxAttempts)
    ensures sleptSeconds == RetryDelaySeconds * attempts
  {
    attempts := 0;
    connected := false;
    sleptSeconds := 0;
    while attempts < MaxAttempts
      invariant attempts <= MaxAttempts
      invariant FailedBefore(startSucceeds, attempts)
      invariant connected ==> attempts < MaxAttempts && startSucceeds(attempts)
      invariant sleptSeconds == RetryDelaySeconds * attempts
    {
      if startSucceeds(attempts) {
        connected := true;
        break;
      }
      attempts := attempts + 1;
      sleptSeconds := sleptSeconds + RetryDelaySeconds;
    }
    exhausted := attempts >= MaxAttempts;
  }
}
