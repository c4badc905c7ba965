# League of Leagues client: session, join and registration rules

This project models the decision and parsing rules of the League of Leagues
tray client (`leagueofleagues_client.py`). The client attaches to the local
League client through `lcu_driver`, tracks the player's session in five
globals, and lets the user register a summoner with a code from the League of
Leagues bot or join a custom lobby whose password the backend hands out.
Every HTTP reply, every local-client reply and every dialog answer is an
input value. `Fetch<T>` is either `Fetched(value)` or `Raised`, the path of an
exception.

Modules:

- `Common`: `Option`, `Result`, `Fetch`, `Reply` and Python truthiness of an optional string.
- `Text`: Python's `strip`, `lower`, `upper`, `split(c, 1)`, `startswith` and `in`, over `seq<char>`.
- `Backend`: the `/auth` decision, the `/joinmatch` body parser and the `/otp` acceptance rule.
- `Registration`: how a typed-in `Name#Tag` is read, and how the summoner string `name#tag[,REGION]` is built.
- `Lobby`: `do_join_lobby`. It holds the exact owner match, the prefix fallback, the join endpoint and body, and how the join reply is classified.
- `SessionModel`: the session globals as a `State` value. It has the handlers `connect`, `on_summoner_update`, `on_gameflow_phase` and `fetch_summoner_info` as transitions, runs of handler events, and the menu actions `register_action` and `join_game_action` as decisions over a snapshot.
- `SessionState`: class `Session`. Its fields are the globals and its methods update them in place. Each method is proved to make exactly the `SessionModel` transition.
- `Connector`: the `start_connector` retry loop, as a method with a `while` loop.
- `Shell`: the `center_window` arithmetic and the `dict.fromkeys` de-duplication of icon paths.

The model follows the code, including where it does less than a session manager of this kind might be expected to:

- `is_ready` is never set back to false and nothing is reset on disconnection (`SessionModel.RunKeepsReady`).
- There is no job queue and no "not connected" error. Joining is scheduled with `root.after` and `create_task`, which are not modelled.
- When the retries run out, the loop prints a message once and the thread ends. No error reaches a caller.
- `authenticate` returns `False` both for a 404 with "User not found" and for every other failure. The two cases differ only in the branch taken (`Backend.AuthBranchOf`), not in the result.
- The `/joinmatch` body is stripped before it is split.

The exact lobby rule compares the owner name with `"{summoner} #{tag}"`, with a space before `#`. The prefix rule compares with `"{summoner}#"`, with no space. This asymmetry is kept as written. `Lobby.CompactOwnerName` proves that an owner shown as `name#anything` can never match exactly. `Lobby.FallbackIgnoresTag` proves that such a lobby is then chosen by the fallback whatever its tag. So the join can pick the lobby of a different player who has the same name.

## Model

| member | source | states |
|---|---|---|
| `Text.Strip` | leagueofleagues_client.py:348 | `str.strip()`: the result has no whitespace at either end, and a string already without edge whitespace is returned unchanged |
| `Text.StripIsInnerPart` | leagueofleagues_client.py:348 | the stripped string is a contiguous part of the input and everything cut off on both sides is whitespace, which with `Strip`'s contract fixes the result uniquely |
| `Text.SplitFirst` | leagueofleagues_client.py:349-350 | unpacking `split(c, 1)` fails exactly when `c` does not occur; otherwise the left part contains no `c` and left + `c` + right is the input |
| `Text.SplitFirstOfJoin` | leagueofleagues_client.py:349-350 | splitting `a + c + b` at the first `c` gives back `a` and `b` whenever `c` is not in `a` |
| `Text.Lower` | leagueofleagues_client.py:386 | ASCII lower-casing keeps the length; each upper-case ASCII letter becomes its lower-case letter (code point plus 32) and every other character is unchanged |
| `Text.Upper` | leagueofleagues_client.py:851 | ASCII upper-casing keeps the length; each lower-case ASCII letter becomes its upper-case letter (code point minus 32) and every other character is unchanged, so no lower-case letter remains |
| `Text.StartsWith` | leagueofleagues_client.py:393 | `s.startswith(p)`: `p` is no longer than `s` and equals its first `|p|` characters |
| `Text.Contains` | leagueofleagues_client.py:249 | Python's substring test `sub in s`: `s` starts with `sub`, or its tail contains it |
| `Text.ContainsAt` | leagueofleagues_client.py:249 | `sub in s` holds whenever `sub` occurs at some offset of `s` |
| `Text.ContainsOffset` | leagueofleagues_client.py:249 | conversely, whenever `sub in s` holds, the lemma returns an offset at which `sub` occurs in `s` |
| `Backend.AuthBranchOf` | leagueofleagues_client.py:242-256 | the branch `authenticate` takes: an exception, a 404 whose text contains "User not found", status 200, or any other status; each is characterised in both directions |
| `Backend.Authenticate` | leagueofleagues_client.py:242-256 | `authenticate` returns true if and only if the request returned and its status is 200 |
| `Backend.NotFoundIsRefused` | leagueofleagues_client.py:249-251 | a 404 reply containing "User not found" takes the not-registered branch and yields false |
| `Backend.ParseJoinBody` | leagueofleagues_client.py:347-350 | a parsed body gives name, tag and pin with `name#tag,pin` equal to the stripped body, no `#` in the name and no `,` before the pin; pin and tag may contain further separators |
| `Backend.ParseJoinBodyOfText` | leagueofleagues_client.py:347-350 | round trip: a body `name#tag,pin` with `#`-free and `,`-free name, `,`-free tag and no edge whitespace parses back to exactly that name, tag and pin |
| `Backend.ParseJoinBodyUnique` | leagueofleagues_client.py:347-350 | any body whose stripped form is `name#tag,pin`, with the same restrictions, parses to exactly those parts |
| `Backend.MalformedJoinBody` | leagueofleagues_client.py:348-350 | parsing fails if and only if the stripped body has no `,` or has no `#` before its first `,` |
| `Backend.WellFormedJoinBodyExample` | leagueofleagues_client.py:347-350 | `Ana#NA1,abc123` parses to name `Ana`, tag `NA1`, pin `abc123` |
| `Backend.MalformedJoinBodyExample` | leagueofleagues_client.py:349 | `malformed` (no comma) does not parse |
| `Backend.ReadJoinMatch` | leagueofleagues_client.py:338-365 | an exception is a request failure; a non-200 status or an empty body is an invalid response; a 200 with a non-empty body is a target exactly when the body parses, and a parse failure otherwise (caught at line 364) |
| `Backend.BlankJoinBodyIsMalformed` | leagueofleagues_client.py:343-349 | a body of whitespace only passes the emptiness test and then fails to parse |
| `Backend.ReadOtp` | leagueofleagues_client.py:306-318 | the code is accepted if and only if the status is 200 and the stripped text is non-empty; the saved token is the stripped text; an exception is an error |
| `Registration.ParseManualInput` | leagueofleagues_client.py:281-287 | the input is refused if and only if it is missing or has no `#` (which covers the empty input); the accepted name and tag have no edge whitespace |
| `Registration.ManualInputOfJoined` | leagueofleagues_client.py:285-287 | for any input `name#tag` with a `#`-free name, the result is the stripped name and the stripped tag |
| `Registration.Display` | leagueofleagues_client.py:291-294 | the summoner string `name#tag`, followed by `,region` only when the region is set and non-empty |
| `Registration.DisplayRoundTrip` | leagueofleagues_client.py:291-294 | the display string splits at its first `#` into the name and the rest; the rest is the tag, or `tag,region` exactly when the region is set and non-empty |
| `Common.First` | leagueofleagues_client.py:385-397 | `next(...)` returns the index of the first element satisfying the test, or nothing when none does |
| `Lobby.OwnerName` | leagueofleagues_client.py:386 | `g.get('ownerDisplayName', '')`: the owner name, or empty when the key is missing |
| `Lobby.IsExactOwner` | leagueofleagues_client.py:382-386 | the exact rule: the lower-cased owner name equals lower(`summoner #tag`), with the space before `#` |
| `Lobby.IsPrefixOwner` | leagueofleagues_client.py:393-394 | the prefix rule: the lower-cased owner name starts with lower(`summoner`) + `#`; the tag plays no part |
| `Lobby.FindExact` | leagueofleagues_client.py:382-388 | the first lobby, in list order, whose lower-cased owner name (a missing one read as empty) equals lower(`summoner #tag`); none when no lobby does |
| `Lobby.FindPrefix` | leagueofleagues_client.py:390-397 | the first lobby whose lower-cased owner name starts with lower(`summoner`) + `#`; none when no lobby does |
| `Lobby.SelectLobby` | leagueofleagues_client.py:380-399 | an exact match is always the first one; a prefix match is chosen only when no lobby matches exactly, and is the first prefix match; nothing is chosen if and only if no lobby matches either rule |
| `Lobby.JoinEndpoint` | leagueofleagues_client.py:406-407 | the endpoint is `/lol-lobby/v2/lobby/custom/`, then the id, then `/join` |
| `Lobby.ErrorText` | leagueofleagues_client.py:417-421 | the text shown for a failed join: the reply's `message`, `Unknown error` when the key is missing, `None` when it is JSON `null` |
| `Lobby.DoJoinLobby` | leagueofleagues_client.py:374-427 | the outcome is not-found if and only if the lobby list was read and no lobby matches, and then no join request is sent; a request is sent if and only if a lobby was selected and has an `id`, to that lobby's endpoint with `{asSpectator: false, password: pin}`; status 200 is success and any other status is a failure carrying `ErrorText` of the reply's `message`; the outcome is an error if and only if the list read raised, or a lobby was selected but had no `id` or the join request raised |
| `Lobby.ExactBeatsEarlierPrefix` | leagueofleagues_client.py:384-397 | if any lobby matches exactly, an exact match at or before it is chosen, even if an earlier lobby matches by prefix |
| `Lobby.CompactOwnerName` | leagueofleagues_client.py:382-394 | an owner named `summoner#x` never matches the exact rule for any tag and always matches the prefix rule |
| `Lobby.FallbackIgnoresTag` | leagueofleagues_client.py:390-397 | with no exact match, a first lobby owned by `summoner#other` is chosen whatever `other` is |
| `Lobby.MatchExamples` | leagueofleagues_client.py:382-397 | `Ana #NA1` matches `Ana`/`NA1` exactly; `Ana#NA1-smurf` matches `Ana`/`NA1-smurf` only through the prefix rule |
| `SessionModel.RegionAfter` | leagueofleagues_client.py:846-853 | only a 200 reply changes the region, to the upper-cased `region` key (empty when missing); a changed region is upper-case |
| `SessionModel.FetchSummonerInfo` | leagueofleagues_client.py:879-903 | returns true exactly on a 200 reply, which overwrites name and tag with the payload's keys and reads the region; otherwise nothing changes; readiness and phase are never touched |
| `SessionModel.Connect` | leagueofleagues_client.py:806-822 | afterwards the session is ready; the phase is the initial read, or none when that read raised; identity and region are those `fetch_summoner_info` produces |
| `SessionModel.OnSummonerUpdate` | leagueofleagues_client.py:824-857 | falsy event data changes nothing; a complete name and tag are taken from the event without a re-fetch; an incomplete one is replaced by the re-fetch only on status 200; the region follows the region rule; readiness and phase are never touched |
| `SessionModel.OnGameflowPhase` | leagueofleagues_client.py:859-875 | only the phase changes: a string payload becomes the phase; otherwise the re-read value does, and an exception clears it |
| `SessionModel.StepKeepsRegionNormalized` | leagueofleagues_client.py:846-853 | every handler keeps the region absent or upper-case |
| `SessionModel.RunKeepsRegionNormalized` | leagueofleagues_client.py:803-903 | over any sequence of handler invocations, the region stays absent or upper-case |
| `SessionModel.RunKeepsReady` | leagueofleagues_client.py:806-810 | once ready, the session stays ready through any sequence of handler invocations |
| `SessionModel.ReadyOnlyThroughConnect` | leagueofleagues_client.py:806-810 | without a ready event, a run leaves readiness as it was |
| `SessionModel.ReadyAfterConnect` | leagueofleagues_client.py:806-810 | any run containing a ready event ends ready |
| `SessionModel.Step` | leagueofleagues_client.py:806-875 | one handler invocation: the ready event runs `connect`, a current-summoner event `on_summoner_update`, a gameflow event `on_gameflow_phase` |
| `SessionModel.Run` | leagueofleagues_client.py:806-875 | handler invocations applied one after another, in arrival order |
| `SessionModel.CanRegister` | leagueofleagues_client.py:266 | the gate of `register_action`: the session is ready |
| `SessionModel.CanJoin` | leagueofleagues_client.py:325 | the gate of `join_game_action`: the session is ready and has a phase |
| `SessionModel.HasIdentity` | leagueofleagues_client.py:271 | name and tag are both set and non-empty |
| `SessionModel.IdentityKnown` | leagueofleagues_client.py:266-289 | `register_action` gets past the identity step: ready, and either an identity is known or the user agreed to type one and it was accepted |
| `SessionModel.JoinGame` | leagueofleagues_client.py:320-365 | refused if and only if the session is not ready or has no phase; cancelled if and only if the password is missing or empty; otherwise the stripped password is sent and the outcome is the scheduled target or the backend error |
| `SessionModel.Register` | leagueofleagues_client.py:261-318 | each outcome is characterised in both directions: not ready if and only if the gate fails; declined if and only if an identity was missing and the user said no; invalid format if and only if it was missing, the user agreed and the entry was refused; cancelled if and only if the identity step passed and the code is missing or empty; the `/otp` request is sent if and only if the identity step passed and the code is non-empty, with the stripped code and the display of the identity and region, and its reply decides the outcome; an accepted manual entry replaces exactly name and tag by the parsed parts, and nothing else ever changes |
| `SessionState.Session.constructor` | leagueofleagues_client.py:61-65 | a new session has no identity, no region, no phase and is not ready |
| `SessionState.Session.ReadRegion` | leagueofleagues_client.py:847-853 | the region field becomes what the region rule gives |
| `SessionState.Session.FetchSummonerInfo` | leagueofleagues_client.py:879-903 | the fields and the result are exactly `SessionModel.FetchSummonerInfo` of the old fields |
| `SessionState.Session.Connect` | leagueofleagues_client.py:806-822 | the fields are exactly `SessionModel.Connect` of the old fields |
| `SessionState.Session.OnSummonerUpdate` | leagueofleagues_client.py:824-857 | the fields are exactly `SessionModel.OnSummonerUpdate` of the old fields |
| `SessionState.Session.OnGameflowPhase` | leagueofleagues_client.py:859-875 | the fields are exactly `SessionModel.OnGameflowPhase` of the old fields |
| `SessionState.Session.RegisterAction` | leagueofleagues_client.py:261-318 | the fields, the request and the outcome are exactly `SessionModel.Register` of the old fields |
| `SessionState.Session.JoinGameAction` | leagueofleagues_client.py:320-365 | reads the fields only; the password sent and the outcome are `SessionModel.JoinGame` of the current fields |
| `Connector.StartConnector` | leagueofleagues_client.py:941-959 | at most 30 `start()` calls, stopping at the first success; `attempts` counts the failures before it and never exceeds 30; the exhaustion message is printed if and only if `attempts` is 30, which happens exactly when all 30 calls fail; the loop sleeps 10 seconds per failure |
| `Shell.CenterWindow` | leagueofleagues_client.py:111-118 | a window under 100 pixels in either direction gets 300x200, any other keeps its size; each offset is half the leftover space, rounded down |
| `Shell.Dedup` | leagueofleagues_client.py:719 | the result has no duplicates and has the same elements as the input |
| `Shell.DedupKeepsFirstOccurrenceOrder` | leagueofleagues_client.py:719 | the result lists the elements in the order of their first occurrences |

## Left out

- Tkinter dialogs, the window and its timer (`ensure_root_window`, `show_dialog`, `ask_for_input`, the update dialogs, `process_events`) are UI toolkit calls. The answers to their dialogs are inputs.
- The tray icon and its image (`create_tray_icon`, `create_tray_image`) are image-library and filesystem calls. Only the path de-duplication is modelled.
- Config persistence (`get_config_path`, `load_config`, `save_config`, `delete_config`) is file I/O. A saved token appears only as the `Registered(token)` outcome.
- `check_client_version` and `main` are not modelled. That includes the start-up authentication with a stored id and the deletion of the config when it fails. They are network, UI and process control.
- The HTTP requests and the `lcu_driver` requests are left out. Their status codes and decoded bodies are inputs, and exceptions are `Raised`.
- Thread and event-loop scheduling is concurrency and is left out. That covers `threading.Thread`, `root.after`, `create_task`, `time.sleep` and `os._exit`. Scheduled work is reported as an outcome (`JoinScheduled`). The guard `if connector and root` in `schedule_join` is taken to pass. The sleeps of the retry loop are only counted.
- Logging with `print` is left out, and so is the text of exception messages.
- `Text.Lower` and `Text.Upper` change ASCII letters only. Python's `lower` and `upper` also map non-ASCII letters.
- `SessionModel.RegionAfter` treats a JSON `null` region as a missing key (empty region). In the source, `None.upper()` raises and the region is then left as it was.
- `SessionModel.Connect` and `SessionState.Session.Connect` model the initial phase read of lines 814-815 as a string or JSON `null` only. The source does not check the status and stores whatever the reply decodes to, so an error object from a non-200 reply becomes `current_phase` and also passes the join gate of line 325.
- `SessionModel.OnGameflowPhase` models a re-read phase as a string or JSON `null` only. The source would also store a number or an object.
- `SessionModel.OnSummonerUpdate` takes event data to be either falsy or a mapping. A truthy non-mapping payload raises in the source and is caught at line 856; that case is not modelled.
- `Lobby.DoJoinLobby` takes a lobby's `id` as the text it formats to in the endpoint. A non-200 join reply whose body fails to decode is treated like any other exception.
- `Lobby.DoJoinLobby` treats an `ownerDisplayName` present with the value JSON `null` as missing (read as empty). In the source, `None.lower()` raises at line 386 when no earlier lobby matches exactly, and the join ends in the error dialog of lines 422-427. The model reads the owner as empty and goes on to a later exact match or to the prefix rule. A JSON `null` `message` is modelled (`Lobby.ErrorText`).
- `Connector.StartConnector` treats a normal return of `connector.start()` as success. In the source, `start()` then keeps running the connector's event loop.
