/** The remote backend's request/response rules: `/auth`, `/joinmatch` and
    `/otp`. Each reply is an input; `Raised` is the exception path. */
module Backend {
  import opened Common
  import opened Text

  /** A plain-text HTTP reply: `resp.status_code` and `resp.text`. */
  datatype HttpText = HttpText(status: int, text: string)

  /** The marker of a definitive "not registered" reply from `/auth`. */
  const UserNotFound: string := "User not found"

  /** Which branch of `authenticate` a reply takes. */
  datatype AuthBranch =
    | Authenticated      // status 200
    | NotRegistered      // 404 carrying the marker
    | Refused(status: int)  // any other status
    | AuthError          // the request raised

  function AuthBranchOf(resp: Fetch<HttpText>): (b: AuthBranch)
    ensures b.AuthError? <==> resp.Raised?
    ensures b.NotRegistered? <==>
      resp.Fetched? && resp.value.status == 404 && Contains(resp.value.text, UserNotFound)
    ensures b.Authenticated? <==> resp.Fetched? && resp.value.status == 200
    ensures b.Refused? ==> resp.Fetched? && b.status == resp.value.status != 200
  {
    match resp
    case Raised => AuthError
    case Fetched(r) =>
      if r.status == 404 && Contains(r.text, UserNotFound) then NotRegistered
      else if r.status == 200 then Authenticated
      else Refused(r.status)
  }

  /** `authenticate(discord_id)`: true exactly on a 200 reply. */
  function Authenticate(resp: Fetch<HttpText>): (ok: bool)
    ensures ok <==> resp.Fetched? && resp.value.status == 200
  {
    AuthBranchOf(resp).Authenticated?
  }

  /** A 404 whose text contains "User not found" anywhere takes the
      not-registered branch, and `authenticate` returns false. */
  lemma NotFoundIsRefused(text: string, k: nat)
    requires k + |UserNotFound| <= |text| && text[k..k + |UserNotFound|] == UserNotFound
    ensures AuthBranchOf(Fetched(HttpText(404, text))) == NotRegistered
    ensures !Authenticate(Fetched(HttpText(404, text)))
  {
    ContainsAt(text, UserNotFound, k);
  }

  /** What `/joinmatch` names: the lobby owner's name and tag and the lobby
      password. */
  datatype JoinTarget = JoinTarget(summoner: string, tag: string, pin: string)

  /** The body `name#tag,pin` as the source writes it back. */
  function JoinBodyText(t: JoinTarget): string {
    t.summoner + "#" + t.tag + "," + t.pin
  }

  /** Lines 348-350: strip the body, unpack `split(',', 1)` and then
      `split('#', 1)` of the left part; `None` where an unpacking raises.
      The pin may contain further commas and `#`, the tag may contain `#`. */
  function ParseJoinBody(text: string): (r: Option<JoinTarget>)
    ensures r.Some? ==> JoinBodyText(r.value) == Strip(text)
    ensures r.Some? ==> '#' !in r.value.summoner && ',' !in r.value.summoner + "#" + r.value.tag
  {
    match SplitFirst(Strip(text), ',')
    case None => None
    case Some((info, pin)) =>
      match SplitFirst(info, '#')
      case None => None
      case Some((name, tag)) =>
        assert name + "#" + tag == info;
        Some(JoinTarget(name, tag, pin))
  }

  /** Round trip: a body made of a `#`-free name, a `,`-free tag and any pin
      parses back to exactly those parts once stripping leaves it alone. */
  lemma ParseJoinBodyOfText(t: JoinTarget)
    requires '#' !in t.summoner && ',' !in t.summoner && ',' !in t.tag
    requires NoEdgeSpace(JoinBodyText(t))
    ensures ParseJoinBody(JoinBodyText(t)) == Some(t)
  {
    var info := t.summoner + "#" + t.tag;
    assert JoinBodyText(t) == info + [','] + t.pin;
    assert ',' !in info by {
      assert info == t.summoner + ['#'] + t.tag;
    }
    SplitFirstOfJoin(info, t.pin, ',');
    assert info == t.summoner + ['#'] + t.tag;
    SplitFirstOfJoin(t.summoner, t.tag, '#');
  }

  /** Conversely every successful parse is that round trip: parsing is
      determined by the stripped body alone. */
  lemma ParseJoinBodyUnique(text: string, t: JoinTarget)
    requires '#' !in t.summoner && ',' !in t.summoner && ',' !in t.tag
    requires Strip(text) == JoinBodyText(t)
    ensures ParseJoinBody(text) == Some(t)
  {
    StripIdempotent(text);
    ParseJoinBodyOfText(t);
  }

  /** A body fails to parse exactly when its stripped form has no `,`, or
      has no `#` before its first `,`. */
  lemma MalformedJoinBody(text: string)
    ensures var s := Strip(text);
      ParseJoinBody(text).None? <==>
        (',' !in s || '#' !in s[..IndexOf(s, ',').value])
  {
    var s := Strip(text);
    if ',' in s {
      var i := IndexOf(s, ',').value;
      assert SplitFirst(s, ',') == Some((s[..i], s[i + 1..]));
    }
  }

  /** `Ana#NA1,abc123` parses to name `Ana`, tag `NA1` and pin `abc123`. */
  lemma WellFormedJoinBodyExample()
    ensures ParseJoinBody("Ana#NA1,abc123") == Some(JoinTarget("Ana", "NA1", "abc123"))
  {
    var t := JoinTarget("Ana", "NA1", "abc123");
    assert JoinBodyText(t) == "Ana#NA1,abc123";
    assert NoEdgeSpace(JoinBodyText(t)) by {
      assert JoinBodyText(t)[0] == 'A' && JoinBodyText(t)[13] == '3';
    }
    ParseJoinBodyOfText(t);
  }

  /** `malformed` has no comma, so it does not parse. */
  lemma MalformedJoinBodyExample()
    ensures ParseJoinBody("malformed").None?
  {
    var s := "malformed";
    assert NoEdgeSpace(s) by {
      assert s[0] == 'm' && s[8] == 'd';
    }
    assert ',' !in s by {
      assert s == ['m', 'a', 'l', 'f', 'o', 'r', 'm', 'e', 'd'];
    }
    MalformedJoinBody(s);
  }

  /** Why a join-match request did not produce a target. */
  datatype JoinMatchError =
    | InvalidResponse   // line 343: status not 200, or an empty body
    | MalformedBody     // line 349 or 350 raised, caught at line 364
    | RequestFailed     // `requests.get` raised, caught at line 364

  /** Lines 340-350 with the exception handler at 364. */
  function ReadJoinMatch(resp: Fetch<HttpText>): (r: Result<JoinTarget, JoinMatchError>)
    ensures resp.Raised? <==> r == Err(RequestFailed)
    ensures r == Err(InvalidResponse) <==>
      resp.Fetched? && (resp.value.status != 200 || resp.value.text == "")
    ensures r.Ok? ==>
      resp.Fetched? && resp.value.status == 200 && ParseJoinBody(resp.value.text) == Some(r.value)
    ensures r == Err(MalformedBody) <==>
      resp.Fetched? && resp.value.status == 200 && resp.value.text != ""
      && ParseJoinBody(resp.value.text).None?
  {
    match resp
    case Raised => Err(RequestFailed)
    case Fetched(reply) =>
      if reply.status != 200 || reply.text == "" then Err(InvalidResponse)
      else match ParseJoinBody(reply.text)
        case None => Err(MalformedBody)
        case Some(t) => Ok(t)
  }

  /** A body of whitespace only passes the emptiness test but then stripping
      leaves nothing to split: a parse failure, not a result. */
  lemma BlankJoinBodyIsMalformed(text: string)
    requires text != "" && Strip(text) == ""
    ensures ReadJoinMatch(Fetched(HttpText(200, text))) == Err(MalformedBody)
  {
  }

  /** The outcome of redeeming a registration code at `/otp`. */
  datatype OtpOutcome =
    | Registered(token: string)   // saved with `save_config`
    | Rejected                    // "Invalid registration code or server error"
    | OtpError                    // the request raised

  /** Line 311: the reply is accepted only on status 200 with a body that is
      not blank; the saved token is the stripped body. */
  function ReadOtp(resp: Fetch<HttpText>): (r: OtpOutcome)
    ensures r.OtpError? <==> resp.Raised?
    ensures r.Registered? <==>
      resp.Fetched? && resp.value.status == 200 && Strip(resp.value.text) != ""
    ensures r.Registered? ==>
      r.token == Strip(resp.value.text) && r.token != "" && NoEdgeSpace(r.token)
  {
    match resp
    case Raised => OtpError
    case Fetched(reply) =>
      var token := Strip(reply.text);
      if reply.status == 200 && token != "" then Registered(token) else Rejected
  }
}
