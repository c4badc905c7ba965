/** The client's session globals as one object whose handlers update its
    fields in place, each proved to make the transition `SessionModel`
    describes. */
module SessionState {
  import opened Common
  import opened Text
  import opened Backend
  import opened Registration
  import M = SessionModel

  class Session {
    var summonerName: Option<string>
    var summonerTag: Option<string>
    var region: Option<string>
    var isReady: bool
    var currentPhase: Option<string>

    /** The five fields read together. */
    function Snapshot(): M.State
      reads this
    {
      M.State(summonerName, summonerTag, region, isReady, currentPhase)
    }

    /** Lines 61-65. */
    constructor ()
      ensures Snapshot() == M.Initial
    {
      summonerName, summonerTag, region := None, None, None;
      isReady, currentPhase := false, None;
    }

    /** The region read shared by lines 847-853 and 891-897. */
    method ReadRegion(resp: M.RegionFetch)
      modifies this`region
      ensures region == M.RegionAfter(old(region), resp)
    {
      if resp.Fetched? && resp.value.status == 200 {
        region := Some(Upper(resp.value.body.GetOr("")));
      }
    }

    /** `fetch_summoner_info` (lines 879-903). */
    method FetchSummonerInfo(summoner: M.SummonerFetch, regionResp: M.RegionFetch) returns (found: bool)
      modifies this
      ensures M.FetchInfo(Snapshot(), found) == M.FetchSummonerInfo(old(Snapshot()), summoner, regionResp)
    {
      found := false;
      if summoner.Fetched? && summoner.value.status == 200 {
        summonerName := summoner.value.body.gameName;
        summonerTag := summoner.value.body.tagLine;
        ReadRegion(regionResp);
        found := true;
      }
    }

    /** The ready handler `connect` (lines 806-822). */
    method Connect(phase: M.PhaseFetch, summoner: M.SummonerFetch, regionResp: M.RegionFetch)
      modifies this
      ensures Snapshot() == M.Connect(old(Snapshot()), phase, summoner, regionResp)
    {
      isReady := true;
      if phase.Fetched? {
        currentPhase := phase.value;
      } else {
        currentPhase := None;
      }
      var _ := FetchSummonerInfo(summoner, regionResp);
    }

    /** `on_summoner_update` (lines 824-857). */
    method OnSummonerUpdate(data: Option<M.SummonerData>, refetch: M.SummonerFetch, regionResp: M.RegionFetch)
      modifies this
      ensures Snapshot() == M.OnSummonerUpdate(old(Snapshot()), data, refetch, regionResp)
    {
      if data.Some? {
        summonerName := data.value.gameName;
        summonerTag := data.value.tagLine;
        if !Truthy(summonerName) || !Truthy(summonerTag) {
          if refetch.Fetched? && refetch.value.status == 200 {
            summonerName := refetch.value.body.gameName;
            summonerTag := refetch.value.body.tagLine;
          }
        }
        ReadRegion(regionResp);
      }
    }

    /** `on_gameflow_phase` (lines 859-875). */
    method OnGameflowPhase(data: M.PhasePayload, refetch: M.PhaseFetch)
      modifies this
      ensures Snapshot() == M.OnGameflowPhase(old(Snapshot()), data, refetch)
    {
      match data {
        case PhaseText(p) =>
          currentPhase := Some(p);
        case NotText =>
          if refetch.Fetched? {
            currentPhase := refetch.value;
          } else {
            currentPhase := None;
          }
      }
    }

    /** `register_action` (lines 261-318): may store a manually entered
      identity, and reports the request it sent and the outcome. */
    method RegisterAction(consent: bool, manual: Option<string>, otp: Option<string>,
                          resp: Fetch<HttpText>) returns (query: Option<M.OtpQuery>, outcome: M.RegisterOutcome)
      modifies this
      ensures M.RegisterStep(Snapshot(), query, outcome) ==
              M.Register(old(Snapshot()), consent, manual, otp, resp)
    {
      query := None;
      if !isReady {
        outcome := M.RegisterNotReady;
        return;
      }
      if !Truthy(summonerName) || !Truthy(summonerTag) {
        if !consent {
          outcome := M.ManualEntryDeclined;
          return;
        }
        var parsed := ParseManualInput(manual);
        if parsed.None? {
          outcome := M.InvalidFormat;
          return;
        }
        summonerName := Some(parsed.value.0);
        summonerTag := Some(parsed.value.1);
      }
      var display := Display(summonerName.value, summonerTag.value, region);
      if !Truthy(otp) {
        outcome := M.RegisterCancelled;
        return;
      }
      query := Some(M.OtpQuery(Strip(otp.value), display));
      outcome := M.Redeemed(ReadOtp(resp));
    }

    /** `join_game_action` (lines 320-365): reads the session and changes
      nothing. */
    method JoinGameAction(pwd: Option<string>, resp: Fetch<HttpText>)
      returns (password: Option<string>, outcome: M.JoinGameOutcome)
      ensures M.JoinGameStep(password, outcome) == M.JoinGame(Snapshot(), pwd, resp)
    {
      password := None;
      if !isReady || currentPhase.None? {
        outcome := M.JoinNotReady;
        return;
      }
      if !Truthy(pwd) {
        outcome := M.JoinCancelled;
        return;
      }
      password := Some(Strip(pwd.value));
      var read := ReadJoinMatch(resp);
      if read.Ok? {
        outcome := M.JoinScheduled(read.value);
      } else {
        outcome := M.JoinRejected(read.error);
      }
    }
  }
}
