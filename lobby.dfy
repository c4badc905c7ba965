/** `do_join_lobby`: find the custom lobby owned by the target summoner and
    join it with the password. The lobby list and the join reply are inputs. */
module Lobby {
  import opened Common
  import opened Text

  /** A custom-game entry of `/lol-lobby/v2/lobby/custom/available`: its `id`
      (as it is formatted into the endpoint) and its `ownerDisplayName`;
      either key may be missing. */
  datatype CustomGame = CustomGame(id: Option<string>, ownerDisplayName: Option<string>)

  /** `g.get('ownerDisplayName', '')`. */
  function OwnerName(g: CustomGame): string {
    g.ownerDisplayName.GetOr("")
  }

  /** Line 386: the owner's name, lower-cased, equals `"{summoner} #{tag}"`
      lower-cased. The space before `#` is part of the rule. */
  predicate IsExactOwner(g: CustomGame, summoner: string, tag: string) {
    Lower(OwnerName(g)) == Lower(summoner + " #" + tag)
  }

  /** Lines 393-394: the owner's name, lower-cased, starts with the
      lower-cased summoner followed by `#`; the tag plays no part. */
  predicate IsPrefixOwner(g: CustomGame, summoner: string) {
    StartsWith(Lower(OwnerName(g)), Lower(summoner) + "#")
  }

  /** Lines 385-388: the first lobby in list order under the exact rule. */
  function FindExact(games: seq<CustomGame>, summoner: string, tag: string): (r: Option<nat>)
    ensures r.Some? ==> r.value < |games| && IsExactOwner(games[r.value], summoner, tag)
    ensures r.Some? ==> forall j :: 0 <= j < r.value ==> !IsExactOwner(games[j], summoner, tag)
    ensures r.None? ==> forall j :: 0 <= j < |games| ==> !IsExactOwner(games[j], summoner, tag)
  {
    First(games, (g: CustomGame) => IsExactOwner(g, summoner, tag))
  }

  /** Lines 392-397: the first lobby in list order under the prefix rule. */
  function FindPrefix(games: seq<CustomGame>, summoner: string): (r: Option<nat>)
    ensures r.Some? ==> r.value < |games| && IsPrefixOwner(games[r.value], summoner)
    ensures r.Some? ==> forall j :: 0 <= j < r.value ==> !IsPrefixOwner(games[j], summoner)
    ensures r.None? ==> forall j :: 0 <= j < |games| ==> !IsPrefixOwner(games[j], summoner)
  {
    First(games, (g: CustomGame) => IsPrefixOwner(g, summoner))
  }

  /** Lines 381-399: the exact rule wins; the prefix rule is consulted only
      when no lobby at all matches exactly. */
  function SelectLobby(games: seq<CustomGame>, summoner: string, tag: string): (r: Option<nat>)
    ensures r.Some? ==> r.value < |games|
    ensures r.Some? && IsExactOwner(games[r.value], summoner, tag) ==>
      forall j :: 0 <= j < r.value ==> !IsExactOwner(games[j], summoner, tag)
    ensures r.Some? && !IsExactOwner(games[r.value], summoner, tag) ==>
      && IsPrefixOwner(games[r.value], summoner)
      && (forall j :: 0 <= j < |games| ==> !IsExactOwner(games[j], summoner, tag))
      && (forall j :: 0 <= j < r.value ==> !IsPrefixOwner(games[j], summoner))
    ensures r.None? <==>
      forall j :: 0 <= j < |games| ==>
        !IsExactOwner(games[j], summoner, tag) && !IsPrefixOwner(games[j], summoner)
  {
    match FindExact(games, summoner, tag)
    case Some(i) => Some(i)
    case None => FindPrefix(games, summoner)
  }

  const LobbyPath: string := "/lol-lobby/v2/lobby/custom/"
  const JoinSuffix: string := "/join"
  const UnknownError: string := "Unknown error"

  /** Line 407: `/lol-lobby/v2/lobby/custom/{id}/join`. */
  function JoinEndpoint(id: string): (e: string)
    ensures |e| == |LobbyPath| + |id| + |JoinSuffix|
    ensures StartsWith(e, LobbyPath) && e[|LobbyPath|..|e| - |JoinSuffix|] == id
    ensures e[|e| - |JoinSuffix|..] == JoinSuffix
  {
    var e := LobbyPath + id + JoinSuffix;
    assert e[..|LobbyPath|] == LobbyPath;
    e
  }

  /** Line 408: the JSON body of the join request. */
  datatype JoinBody = JoinBody(asSpectator: bool, password: string)

  /** The `POST` the sequencer issues. */
  datatype JoinCall = JoinCall(endpoint: string, body: JoinBody)

  /** The `message` key of the join reply's JSON body: missing, JSON
      `null`, or a string. */
  datatype MessageField = NoMessage | NullMessage | Message(text: string)

  /** The join reply: its status and the `message` key of its JSON body. */
  datatype JoinReply = JoinReply(status: int, message: MessageField)

  /** Lines 418 and 421: `error_msg.get('message', 'Unknown error')` as it
      is formatted into the dialog; a `null` message prints as `None`. */
  function ErrorText(m: MessageField): string {
    match m
    case NoMessage => UnknownError
    case NullMessage => "None"
    case Message(s) => s
  }

  datatype JoinOutcome =
    | Joined(summoner: string, tag: string)       // lines 412-415
    | LobbyNotFound(summoner: string, tag: string)  // lines 399-403
    | JoinFailed(message: string)                   // lines 416-421
    | JoinError                                     // lines 422-427: a request raised

  /** What the sequencer sent, if anything, and how it ended. */
  datatype JoinStep = JoinStep(call: Option<JoinCall>, outcome: JoinOutcome)

  /** Lines 375-427: list the lobbies, select one, join it with the pin as
      password, and classify the reply. */
  function DoJoinLobby(summoner: string, tag: string, pin: string,
                       games: Fetch<seq<CustomGame>>, reply: Fetch<JoinReply>): (r: JoinStep)
    ensures games.Raised? ==> r == JoinStep(None, JoinError)
    ensures games.Fetched? && SelectLobby(games.value, summoner, tag).None? ==>
      r == JoinStep(None, LobbyNotFound(summoner, tag))
    ensures r.call.Some? <==>
      && games.Fetched?
      && SelectLobby(games.value, summoner, tag).Some?
      && games.value[SelectLobby(games.value, summoner, tag).value].id.Some?
    ensures r.call.Some? ==>
      var g := games.value[SelectLobby(games.value, summoner, tag).value];
      r.call.value == JoinCall(JoinEndpoint(g.id.value), JoinBody(false, pin))
    ensures r.outcome.Joined? <==> r.call.Some? && reply.Fetched? && reply.value.status == 200
    ensures r.outcome.Joined? ==> r.outcome == Joined(summoner, tag)
    ensures r.outcome.JoinFailed? <==> r.call.Some? && reply.Fetched? && reply.value.status != 200
    ensures r.outcome.JoinFailed? ==> r.outcome.message == ErrorText(reply.value.message)
    ensures r.outcome.LobbyNotFound? <==>
      games.Fetched? && SelectLobby(games.value, summoner, tag).None?
    ensures r.outcome.JoinError? <==>
      || games.Raised?
      || (SelectLobby(games.value, summoner, tag).Some? && (r.call.None? || reply.Raised?))
  {
    match games
    case Raised => JoinStep(None, JoinError)
    case Fetched(list) =>
      match SelectLobby(list, summoner, tag)
      case None => JoinStep(None, LobbyNotFound(summoner, tag))
      case Some(i) =>
        match list[i].id
        case None => JoinStep(None, JoinError)   // `match['id']` raised
        case Some(id) =>
          var call := JoinCall(JoinEndpoint(id), JoinBody(false, pin));
          match reply
          case Raised => JoinStep(Some(call), JoinError)
          case Fetched(jr) =>
            if jr.status == 200 then JoinStep(Some(call), Joined(summoner, tag))
            else JoinStep(Some(call), JoinFailed(ErrorText(jr.message)))
  }

  /** A lobby that matches exactly is chosen even when an earlier lobby
      matches only by prefix. */
  lemma ExactBeatsEarlierPrefix(games: seq<CustomGame>, summoner: string, tag: string, k: nat)
    requires k < |games| && IsExactOwner(games[k], summoner, tag)
    ensures SelectLobby(games, summoner, tag).Some?
    ensures IsExactOwner(games[SelectLobby(games, summoner, tag).value], summoner, tag)
    ensures SelectLobby(games, summoner, tag).value <= k
  {
  }

  /** An owner shown as `{summoner}#{x}` (no space) never matches the exact
      rule, whatever the tag, and always matches the prefix rule, whatever
      `x` is. */
  lemma CompactOwnerName(summoner: string, x: string, tag: string, id: Option<string>)
    ensures !IsExactOwner(CustomGame(id, Some(summoner + "#" + x)), summoner, tag)
    ensures IsPrefixOwner(CustomGame(id, Some(summoner + "#" + x)), summoner)
  {
    var owner := summoner + "#" + x;
    var target := summoner + " #" + tag;
    assert Lower(owner)[|summoner|] == '#' by {
      assert owner[|summoner|] == '#';
    }
    assert Lower(target)[|summoner|] == ' ' by {
      assert target[|summoner|] == ' ';
    }
    assert owner == (summoner + "#") + x;
    LowerConcat(summoner + "#", x);
    LowerConcat(summoner, "#");
    assert Lower("#") == "#";
    assert Lower(owner)[..|summoner| + 1] == Lower(summoner) + "#";
  }

  /** When no lobby matches exactly, the first lobby owned by
      `{summoner}#...` is chosen whatever tag follows the `#`: the fallback
      can pick another player's lobby with the same name. */
  lemma FallbackIgnoresTag(games: seq<CustomGame>, summoner: string, other: string, tag: string)
    requires |games| > 0 && games[0].ownerDisplayName == Some(summoner + "#" + other)
    requires forall j :: 0 <= j < |games| ==> !IsExactOwner(games[j], summoner, tag)
    ensures SelectLobby(games, summoner, tag) == Some(0)
  {
    CompactOwnerName(summoner, other, tag, games[0].id);
    assert games[0] == CustomGame(games[0].id, Some(summoner + "#" + other));
  }

  /** An owner named `Ana #NA1` matches `Ana`/`NA1` by the exact rule; an
      owner named `Ana#NA1-smurf` matches `Ana`/`NA1-smurf` only by the prefix
      rule. */
  lemma MatchExamples()
    ensures var g := CustomGame(Some("7"), Some("Ana #NA1"));
      IsExactOwner(g, "Ana", "NA1") && SelectLobby([g], "Ana", "NA1") == Some(0)
    ensures var g := CustomGame(Some("8"), Some("Ana#NA1-smurf"));
      !IsExactOwner(g, "Ana", "NA1-smurf") && SelectLobby([g], "Ana", "NA1-smurf") == Some(0)
  {
    assert "Ana" + " #" + "NA1" == "Ana #NA1";
    assert "Ana" + "#" + "NA1-smurf" == "Ana#NA1-smurf";
    CompactOwnerName("Ana", "NA1-smurf", "NA1-smurf", Some("8"));
  }
}
