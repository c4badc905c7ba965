/** The session state kept in the client's globals and the rules by which
    the connector's handlers and the two menu actions read and change it.
    Every local-client reply a handler awaits is an input. */
module SessionModel {
  import opened Common
  import opened Text
  import opened Backend
  import opened Registration

  /** The globals `summoner_name`, `summoner_tag`, `region`, `is_ready` and
      `current_phase` (lines 61-65). */
  datatype State = State(
    summonerName: Option<string>,
    summonerTag: Option<string>,
    region: Option<string>,
    isReady: bool,
    currentPhase: Option<string>)

  /** Their values at start-up. */
  const Initial: State := State(None, None, None, false, None)

  /** The `gameName` and `tagLine` keys of a current-summoner payload. */
  datatype SummonerData = SummonerData(gameName: Option<string>, tagLine: Option<string>)

  /** A `/lol-summoner/v1/current-summoner` request. */
  type SummonerFetch = Fetch<Reply<SummonerData>>

  /** A `/riotclient/region-locale` request; the body is its `region` key. */
  type RegionFetch = Fetch<Reply<Option<string>>>

  /** A `/lol-gameflow/v1/gameflow-phase` read: the decoded JSON value, with
      `None` for JSON `null`. */
  type PhaseFetch = Fetch<Option<string>>

  /** The payload of a gameflow push event: a string, or anything else. */
  datatype PhasePayload = PhaseText(phase: string) | NotText

  /** The region is absent or upper-case. */
  predicate RegionNormalized(s: State) {
    s.region.None? || IsUpperCase(s.region.value)
  }

  /** Lines 848-851 and 892-895: a 200 reply replaces the region by its
      upper-cased `region` key (empty when the key is missing); any other
      status and any exception leave it as it was. */
  function RegionAfter(region: Option<string>, resp: RegionFetch): (r: Option<string>)
    ensures resp.Fetched? && resp.value.status == 200 ==>
      r == Some(Upper(resp.value.body.GetOr("")))
    ensures !(resp.Fetched? && resp.value.status == 200) ==> r == region
    ensures r.Some? && r != region ==> IsUpperCase(r.value)
  {
    match resp
    case Fetched(Reply(200, field)) => Some(Upper(field.GetOr("")))
    case _ => region
  }

  /** The state after `fetch_summoner_info` and what it returned. */
  datatype FetchInfo = FetchInfo(state: State, found: bool)

  /** Lines 879-903: on a 200 reply the identity is overwritten by the
      payload's keys and the region is read; otherwise nothing changes and
      the result is false. */
  function FetchSummonerInfo(s: State, summoner: SummonerFetch, region: RegionFetch): (r: FetchInfo)
    ensures r.found <==> summoner.Fetched? && summoner.value.status == 200
    ensures !r.found ==> r.state == s
    ensures r.found ==>
      && r.state.summonerName == summoner.value.body.gameName
      && r.state.summonerTag == summoner.value.body.tagLine
      && r.state.region == RegionAfter(s.region, region)
    ensures r.state.isReady == s.isReady && r.state.currentPhase == s.currentPhase
  {
    match summoner
    case Fetched(Reply(200, d)) =>
      FetchInfo(s.(summonerName := d.gameName, summonerTag := d.tagLine,
                   region := RegionAfter(s.region, region)), true)
    case _ => FetchInfo(s, false)
  }

  /** The ready handler `connect` (lines 806-822): the session becomes ready,
      the phase is the initial read or `None` when it raised, and then the
      summoner information is fetched. */
  function Connect(s: State, phase: PhaseFetch, summoner: SummonerFetch, region: RegionFetch): (r: State)
    ensures r.isReady
    ensures r.currentPhase == (if phase.Fetched? then phase.value else None)
    ensures phase.Raised? ==> r.currentPhase.None?
    ensures var info := FetchSummonerInfo(s, summoner, region).state;
      r.summonerName == info.summonerName && r.summonerTag == info.summonerTag
      && r.region == info.region
  {
    var phaseNow := match phase case Fetched(p) => p case Raised => None;
    FetchSummonerInfo(s.(isReady := true, currentPhase := phaseNow), summoner, region).state
  }

  /** The handler `on_summoner_update` (lines 824-857). */
  function OnSummonerUpdate(s: State, data: Option<SummonerData>,
                            refetch: SummonerFetch, region: RegionFetch): (r: State)
    ensures data.None? ==> r == s
    ensures r.isReady == s.isReady && r.currentPhase == s.currentPhase
    ensures data.Some? && Truthy(data.value.gameName) && Truthy(data.value.tagLine) ==>
      r.summonerName == data.value.gameName && r.summonerTag == data.value.tagLine
    ensures data.Some? && !(Truthy(data.value.gameName) && Truthy(data.value.tagLine)) ==>
      if refetch.Fetched? && refetch.value.status == 200 then
        r.summonerName == refetch.value.body.gameName && r.summonerTag == refetch.value.body.tagLine
      else
        r.summonerName == data.value.gameName && r.summonerTag == data.value.tagLine
    ensures data.Some? ==> r.region == RegionAfter(s.region, region)
  {
    match data
    case None => s
    case Some(d) =>
      var named := s.(summonerName := d.gameName, summonerTag := d.tagLine);
      var refetched :=
        if Truthy(d.gameName) && Truthy(d.tagLine) then named
        else match refetch
          case Fetched(Reply(200, d2)) => named.(summonerName := d2.gameName, summonerTag := d2.tagLine)
          case _ => named;
      refetched.(region := RegionAfter(refetched.region, region))
  }

  /** The handler `on_gameflow_phase` (lines 859-875): only the phase
      changes; a string payload becomes the phase, anything else makes the
      handler read the phase, and an exception clears it. */
  function OnGameflowPhase(s: State, data: PhasePayload, refetch: PhaseFetch): (r: State)
    ensures r.summonerName == s.summonerName && r.summonerTag == s.summonerTag
    ensures r.region == s.region && r.isReady == s.isReady
    ensures data.PhaseText? ==> r.currentPhase == Some(data.phase)
    ensures data.NotText? && refetch.Fetched? ==> r.currentPhase == refetch.value
    ensures data.NotText? && refetch.Raised? ==> r.currentPhase.None?
  {
    match data
    case PhaseText(p) => s.(currentPhase := Some(p))
    case NotText =>
      match refetch
      case Fetched(p) => s.(currentPhase := p)
      case Raised => s.(currentPhase := None)
  }

  /** One invocation of a registered handler, with the replies it receives. */
  datatype Event =
    | ReadyEvent(phase: PhaseFetch, summoner: SummonerFetch, region: RegionFetch)
    | SummonerEvent(data: Option<SummonerData>, refetch: SummonerFetch, region: RegionFetch)
    | PhaseEvent(payload: PhasePayload, phaseRefetch: PhaseFetch)

  function Step(s: State, e: Event): State {
    match e
    case ReadyEvent(p, sm, rg) => Connect(s, p, sm, rg)
    case SummonerEvent(d, rf, rg) => OnSummonerUpdate(s, d, rf, rg)
    case PhaseEvent(d, rf) => OnGameflowPhase(s, d, rf)
  }

  /** Each handler invocation is taken as one atomic step, applied in the order of `events`. */
  function Run(s: State, events: seq<Event>): State
    decreases |events|
  {
    if events == [] then s else Run(Step(s, events[0]), events[1..])
  }

  /** Each handler keeps the region absent or upper-case. */
  lemma StepKeepsRegionNormalized(s: State, e: Event)
    requires RegionNormalized(s)
    ensures RegionNormalized(Step(s, e))
  {
  }

  /** Whatever the events and replies, the region stays absent or upper-case. */
  lemma {:induction false} RunKeepsRegionNormalized(s: State, events: seq<Event>)
    requires RegionNormalized(s)
    ensures RegionNormalized(Run(s, events))
    decreases |events|
  {
    if events != [] {
      StepKeepsRegionNormalized(s, events[0]);
      RunKeepsRegionNormalized(Step(s, events[0]), events[1..]);
    }
  }

  /** No handler ever sets `is_ready` back to false. */
  lemma {:induction false} RunKeepsReady(s: State, events: seq<Event>)
    requires s.isReady
    ensures Run(s, events).isReady
    decreases |events|
  {
    if events != [] {
      RunKeepsReady(Step(s, events[0]), events[1..]);
    }
  }

  /** `is_ready` changes only through the ready handler: without one, the
      session is exactly as ready as it was. */
  lemma {:induction false} ReadyOnlyThroughConnect(s: State, events: seq<Event>)
    requires forall i :: 0 <= i < |events| ==> !events[i].ReadyEvent?
    ensures Run(s, events).isReady == s.isReady
    decreases |events|
  {
    if events != [] {
      ReadyOnlyThroughConnect(Step(s, events[0]), events[1..]);
    }
  }

  /** After any run containing a ready event, the session is ready. */
  lemma {:induction false} ReadyAfterConnect(s: State, events: seq<Event>, i: nat)
    requires i < |events| && events[i].ReadyEvent?
    ensures Run(s, events).isReady
    decreases |events|
  {
    if i == 0 {
      RunKeepsReady(Step(s, events[0]), events[1..]);
    } else {
      ReadyAfterConnect(Step(s, events[0]), events[1..], i - 1);
    }
  }

  /** The gate of `register_action` (line 266). */
  predicate CanRegister(s: State) {
    s.isReady
  }

  /** The gate of `join_game_action` (line 325). */
  predicate CanJoin(s: State) {
    s.isReady && s.currentPhase.Some?
  }

  datatype JoinGameOutcome =
    | JoinNotReady                       // line 326
    | JoinCancelled                      // line 335
    | JoinRejected(error: JoinMatchError)  // lines 343-345 and 364-365
    | JoinScheduled(target: JoinTarget)  // lines 353-362: `join_lobby` is scheduled

  /** The password sent to `/joinmatch`, if any, and the outcome. */
  datatype JoinGameStep = JoinGameStep(password: Option<string>, outcome: JoinGameOutcome)

  /** `join_game_action` (lines 320-365) with the password dialog's answer
      and the backend's reply as inputs. It reads the state and changes
      nothing. */
  function JoinGame(s: State, pwd: Option<string>, resp: Fetch<HttpText>): (r: JoinGameStep)
    ensures r.outcome.JoinNotReady? <==> !CanJoin(s)
    ensures r.outcome.JoinCancelled? <==> CanJoin(s) && !Truthy(pwd)
    ensures r.password.Some? <==> CanJoin(s) && Truthy(pwd)
    ensures r.password.Some? ==> r.password.value == Strip(pwd.value)
    ensures r.password.Some? ==>
      match ReadJoinMatch(resp)
      case Ok(t) => r.outcome == JoinScheduled(t)
      case Err(e) => r.outcome == JoinRejected(e)
  {
    if !CanJoin(s) then JoinGameStep(None, JoinNotReady)
    else if !Truthy(pwd) then JoinGameStep(None, JoinCancelled)
    else
      var sent := Some(Strip(pwd.value));
      match ReadJoinMatch(resp)
      case Ok(t) => JoinGameStep(sent, JoinScheduled(t))
      case Err(e) => JoinGameStep(sent, JoinRejected(e))
  }

  /** Name and tag are both set and non-empty (line 271). */
  predicate HasIdentity(s: State) {
    Truthy(s.summonerName) && Truthy(s.summonerTag)
  }

  /** `register_action` gets past the identity step: the session is ready
      and has an identity, or the user agreed to type one in and it was
      accepted. */
  predicate IdentityKnown(s: State, consent: bool, manual: Option<string>) {
    CanRegister(s) && (HasIdentity(s) || (consent && ParseManualInput(manual).Some?))
  }

  /** The query of the `/otp` request: `otp_pass` and `summonersname`. */
  datatype OtpQuery = OtpQuery(code: string, summoners: string)

  datatype RegisterOutcome =
    | RegisterNotReady        // line 267
    | ManualEntryDeclined     // line 289
    | InvalidFormat           // line 282
    | RegisterCancelled       // line 303
    | Redeemed(result: OtpOutcome)  // lines 306-318

  /** The state afterwards (a manual entry is kept even when the
      registration then fails), the request sent, and the outcome. */
  datatype RegisterStep = RegisterStep(state: State, query: Option<OtpQuery>, outcome: RegisterOutcome)

  /** `register_action` (lines 261-318) with the dialogs' answers (the
      yes/no question, the manual `Name#Tag`, the code) and the backend's
      reply as inputs. */
  function Register(s: State, consent: bool, manual: Option<string>,
                    otp: Option<string>, resp: Fetch<HttpText>): (r: RegisterStep)
    ensures !CanRegister(s) ==> r == RegisterStep(s, None, RegisterNotReady)
    ensures r.outcome == RegisterNotReady <==> !CanRegister(s)
    ensures r.outcome == ManualEntryDeclined <==> CanRegister(s) && !HasIdentity(s) && !consent
    ensures r.outcome == InvalidFormat <==>
      CanRegister(s) && !HasIdentity(s) && consent && ParseManualInput(manual).None?
    ensures r.outcome == RegisterCancelled <==> IdentityKnown(s, consent, manual) && !Truthy(otp)
    ensures r.query.Some? <==> IdentityKnown(s, consent, manual) && Truthy(otp)
    ensures r.query.Some? <==> r.outcome.Redeemed?
    ensures r.state.region == s.region && r.state.isReady == s.isReady
    ensures r.state.currentPhase == s.currentPhase
    ensures CanRegister(s) && HasIdentity(s) ==> r.state == s
    ensures CanRegister(s) && !HasIdentity(s) && consent && ParseManualInput(manual).Some? ==>
      var (name, tag) := ParseManualInput(manual).value;
      r.state == s.(summonerName := Some(name), summonerTag := Some(tag))
    ensures r.state != s ==>
      && CanRegister(s) && !HasIdentity(s) && consent
      && r.state.summonerName.Some? && r.state.summonerTag.Some?
      && ParseManualInput(manual) == Some((r.state.summonerName.value, r.state.summonerTag.value))
    ensures r.query.Some? ==>
      && r.query.value.code == Strip(otp.value)
      && r.state.summonerName.Some? && r.state.summonerTag.Some?
      && r.query.value.summoners ==
         Display(r.state.summonerName.value, r.state.summonerTag.value, s.region)
      && r.outcome == Redeemed(ReadOtp(resp))
  {
    if !CanRegister(s) then RegisterStep(s, None, RegisterNotReady)
    else if !HasIdentity(s) && !consent then
      RegisterStep(s, None, ManualEntryDeclined)
    else if !HasIdentity(s) && ParseManualInput(manual).None? then
      RegisterStep(s, None, InvalidFormat)
    else
      var named :=
        if HasIdentity(s) then s
        else
          var (name, tag) := ParseManualInput(manual).value;
          s.(summonerName := Some(name), summonerTag := Some(tag));
      var display := Display(named.summonerName.value, named.summonerTag.value, named.region);
      if !Truthy(otp) then RegisterStep(named, None, RegisterCancelled)
      else RegisterStep(named, Some(OtpQuery(Strip(otp.value), display)), Redeemed(ReadOtp(resp)))
  }
}
