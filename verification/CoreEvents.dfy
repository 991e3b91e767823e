/** What the VPN client makes of the Core library's events (src/client/core-client.hpp). */
module CoreEvents {
  import opened Outcomes
  import opened RequestQueue

  // ---------------------------------------------------------------- tokens

  /** The position of the first `d`, or the length. */
  function Find(s: string, d: char): (i: nat)
    ensures i <= |s| && (i < |s| ==> s[i] == d) && d !in s[..i]
  {
    if s == [] || s[0] == d then 0
    else
      var i := 1 + Find(s[1..], d);
      assert s[..i] == [s[0]] + s[1..][..i - 1];
      i
  }

  /** The pieces `std::getline` yields: an empty rest yields nothing more. */
  function Tokens(s: string, d: char): seq<string> {
    if s == [] then []
    else
      var i := Find(s, d);
      if i == |s| then [s] else [s[..i]] + Tokens(s[i + 1..], d)
  }

  /** What is left after the first piece. */
  function Rest(s: string, d: char): string {
    var i := Find(s, d);
    if i == |s| then [] else s[i + 1..]
  }

  lemma TokensUnfold(s: string, d: char)
    requires s != []
    ensures var toks := Tokens(s, d);
      |toks| > 0 && toks[0] == s[..Find(s, d)] && toks[1..] == Tokens(Rest(s, d), d) && |Rest(s, d)| < |s|
  {
    if Find(s, d) == |s| {
      assert s[..|s|] == s;
    }
  }

  // ---------------------------------------------------------------- CR_TEXT

  datatype CrText = CrText(valid: bool, challenge: string, response: bool, echo: bool)

  /** Where the token loop of the parser stands. */
  datatype CrState = CrState(found: bool, flagsParsed: bool, text: CrText)

  const CR_START: CrState := CrState(false, false, CrText(false, "", false, false))

  function CrStep(st: CrState, tok: string): CrState {
    if !st.found && tok == "CR_TEXT" then st.(found := true)
    else if st.found && !st.flagsParsed then
      st.(flagsParsed := true, text := st.text.(response := 'R' in tok, echo := 'E' !in tok))
    else if st.found && st.flagsParsed && st.text.challenge == [] then st.(text := st.text.(challenge := tok))
    else st
  }

  function CrFold(st: CrState, toks: seq<string>): CrState
    decreases |toks|
  {
    if toks == [] then st else CrFold(CrStep(st, toks[0]), toks[1..])
  }

  function ParsedCrText(req: string): CrText {
    var st := CrFold(CR_START, Tokens(req, ':'));
    st.text.(valid := st.found && st.flagsParsed && st.text.challenge != [])
  }

  method ParseCrText(req: string) returns (r: CrText)
    ensures r == ParsedCrText(req)
  {
    var found, flagsParsed := false, false;
    var challenge, response, echo := "", false, false;
    var rest := req;
    while rest != []
      invariant CrFold(CrState(found, flagsParsed, CrText(false, challenge, response, echo)), Tokens(rest, ':')) ==
                CrFold(CR_START, Tokens(req, ':'))
      decreases |rest|
    {
      TokensUnfold(rest, ':');
      var i := Find(rest, ':');
      var tok := rest[..i];
      rest := if i == |rest| then [] else rest[i + 1..];
      if !found && tok == "CR_TEXT" {
        found := true;
      } else if found && !flagsParsed {
        flagsParsed := true;
        response := 'R' in tok;
        echo := 'E' !in tok;
      } else if found && flagsParsed && challenge == [] {
        challenge := tok;
      }
    }
    r := CrText(found && flagsParsed && challenge != [], challenge, response, echo);
  }

  /** The first non-empty piece of the challenge text. */
  function FirstPiece(toks: seq<string>): string {
    if toks == [] then [] else if toks[0] != [] then toks[0] else FirstPiece(toks[1..])
  }

  lemma {:induction false} CrFoldText(st: CrState, toks: seq<string>)
    requires st.found && st.flagsParsed
    ensures CrFold(st, toks) == if st.text.challenge != [] then st
                                else st.(text := st.text.(challenge := FirstPiece(toks)))
    decreases |toks|
  {
    if toks != [] {
      CrFoldText(CrStep(st, toks[0]), toks[1..]);
    }
  }

  lemma TokensStep(head: string, tail: string, d: char)
    requires d !in head
    ensures Tokens(head + [d] + tail, d) == [head] + Tokens(tail, d)
  {
    var s := head + [d] + tail;
    var i := Find(s, d);
    assert s[|head|] == d;
    assert forall j :: 0 <= j < i ==> s[j] == s[..i][j] && s[..i][j] in s[..i];
    assert forall j :: 0 <= j < |head| ==> s[j] == head[j] && head[j] in head;
    assert i == |head|;
    assert s[..i] == head && s[i + 1..] == tail;
  }

  lemma {:induction false} FirstPieceOfText(text: string)
    ensures FirstPiece(Tokens(text, ':')) == [] <==> forall c :: c in text ==> c == ':'
    ensures text != [] && ':' !in text ==> FirstPiece(Tokens(text, ':')) == text
    decreases |text|
  {
    if text != [] {
      TokensUnfold(text, ':');
      var i := Find(text, ':');
      assert text[0] in text;
      if i == 0 {
        FirstPieceOfText(text[1..]);
        assert FirstPiece(Tokens(text, ':')) == FirstPiece(Tokens(text[1..], ':'));
        assert text == [':'] + text[1..];
        assert forall c :: c in text <==> c == ':' || c in text[1..];
      } else {
        assert text[..i][0] == text[0] && text[0] in text[..i];
        assert i < |text| ==> text[i] in text;
        assert i == |text| ==> text[..i] == text;
      }
    }
  }

  /**
   * A composed challenge is read back: the flags exactly, the text up to its first non-empty piece.  It is
   * rejected exactly when the text has nothing but colons.
   */
  lemma CrTextRoundTrip(flags: string, text: string)
    requires ':' !in flags
    ensures var r := ParsedCrText("CR_TEXT" + [':'] + (flags + [':'] + text));
      && r.response == ('R' in flags) && r.echo == ('E' !in flags)
      && (r.valid <==> exists c :: c in text && c != ':')
      && r.challenge == FirstPiece(Tokens(text, ':'))
      && (text != [] && ':' !in text ==> r.valid && r.challenge == text)
  {
    TokensStep("CR_TEXT", flags + [':'] + text, ':');
    TokensStep(flags, text, ':');
    FirstPieceOfText(text);
    var toks := ["CR_TEXT"] + ([flags] + Tokens(text, ':'));
    assert toks[1..] == [flags] + Tokens(text, ':') && toks[1..][1..] == Tokens(text, ':');
    var st := CrStep(CrStep(CR_START, "CR_TEXT"), flags);
    assert CrFold(CR_START, toks) == CrFold(st, Tokens(text, ':'));
    CrFoldText(st, Tokens(text, ':'));
  }

  // ---------------------------------------------------------------- AUTH_PENDING

  /** The last token after the first "timeout", if there is one. */
  function TimeoutToken(toks: seq<string>): Option<string> {
    if toks == [] then None
    else if toks[0] == "timeout" then (if |toks| == 1 then None else Some(toks[|toks| - 1]))
    else TimeoutToken(toks[1..])
  }

  /** The timeout in seconds, one hour by default; a negative number wraps around. */
  function PendingTimeout(atoi: string -> int, info: string): U32 {
    match TimeoutToken(Tokens(info, ' '))
    case None => 3600
    case Some(tok) => atoi(tok) % TWO32
  }

  /** The token loop: once "timeout" was seen every later token overwrites the value. */
  function TimeoutFold(atoi: string -> int, found: bool, timeout: U32, toks: seq<string>): U32
    decreases |toks|
  {
    if toks == [] then timeout
    else if !found && toks[0] == "timeout" then TimeoutFold(atoi, true, timeout, toks[1..])
    else if found then TimeoutFold(atoi, found, atoi(toks[0]) % TWO32, toks[1..])
    else TimeoutFold(atoi, found, timeout, toks[1..])
  }

  lemma {:induction false} TimeoutFoldIsLast(atoi: string -> int, found: bool, timeout: U32, toks: seq<string>)
    ensures found && toks != [] ==> TimeoutFold(atoi, found, timeout, toks) == atoi(toks[|toks| - 1]) % TWO32
    ensures !found ==> TimeoutFold(atoi, found, timeout, toks) ==
                       match TimeoutToken(toks) case None => timeout case Some(tok) => atoi(tok) % TWO32
    decreases |toks|
  {
    if toks != [] {
      TimeoutFoldIsLast(atoi, found, if found then atoi(toks[0]) % TWO32 else timeout, toks[1..]);
      TimeoutFoldIsLast(atoi, true, timeout, toks[1..]);
    }
  }

  method ParsePendingTimeout(atoi: string -> int, info: string) returns (timeout: U32)
    ensures timeout == PendingTimeout(atoi, info)
  {
    timeout := 3600;
    var found := false;
    var rest := info;
    while rest != []
      invariant TimeoutFold(atoi, found, timeout, Tokens(rest, ' ')) ==
        TimeoutFold(atoi, false, 3600, Tokens(info, ' '))
      decreases |rest|
    {
      TokensUnfold(rest, ' ');
      var i := Find(rest, ' ');
      var tok := rest[..i];
      rest := if i == |rest| then [] else rest[i + 1..];
      if !found && "timeout" == tok {
        found := true;
      } else if found {
        timeout := atoi(tok) % TWO32;
      }
    }
    TimeoutFoldIsLast(atoi, false, 3600, Tokens(info, ' '));
  }

  /** One hour unless a timeout is given; a single number after the word is it. */
  lemma TimeoutIsRead(atoi: string -> int, info: string, number: string)
    requires number != [] && ' ' !in number
    ensures PendingTimeout(atoi, "timeout" + [' '] + number) == atoi(number) % TWO32
    ensures "timeout" !in Tokens(info, ' ') ==> PendingTimeout(atoi, info) == 3600
  {
    TokensStep("timeout", number, ' ');
    forall j | 0 <= j < |number| ensures number[j] != ' ' {
      assert number[j] in number;
    }
    assert Tokens(number, ' ') == [number];
    NoTimeoutToken(Tokens(info, ' '));
  }

  lemma {:induction false} NoTimeoutToken(toks: seq<string>)
    ensures "timeout" !in toks ==> TimeoutToken(toks).None?
  {
    if toks != [] && "timeout" !in toks {
      assert toks[0] in toks;
      NoTimeoutToken(toks[1..]);
    }
  }

  // ---------------------------------------------------------------- the event machine

  datatype Status =
    | CfgRequireUser | ConnInit | ConnConnecting | ConnConnected | ConnDisconnecting | ConnDisconnected
    | ConnFailed | ConnAuthFailed | ConnReconnecting | SessAuthChallenge | SessAuthUrl

  /** What the Core library decodes a dynamic challenge cookie to. */
  datatype Challenge = Challenge(text: string, echo: bool)

  /** Core events by name, with the information each carries. */
  datatype CoreEvent =
    | DynamicChallenge(cookie: string, parsed: Option<Challenge>)
    | AuthPending(info: string)
    | ProxyNeedCreds
    | Info(text: string)
    | CompressError
    | TunSetupFailed | TunIfaceCreate | TunIfaceDisabled
    | Connecting | Connected | Reconnecting
    | AuthFailed | CertVerifyFail | TlsVersionMin | TlsSigAlg | TlsAlertMisc
    | ConnectionTimeout | InactiveTimeout | ProxyError | ClientHalt
    | Disconnected
    | Logged     // Warn, CompressionEnabled, GetConfig, Wait, WaitProxy, Resolve and unknown events: log only

  const USER_PASSWORD: Code := 1
  const HTTP_PROXY_CREDS: Code := 2
  const PK_PASSPHRASE: Code := 3
  const CHALLENGE_STATIC: Code := 4
  const CHALLENGE_DYNAMIC: Code := 5
  const CHALLENGE_AUTH_PENDING: Code := 6
  const PASSWORD_ONLY: Code := 10

  datatype Client = Client(
    dcCookie: string, failedSignalSent: bool, runStatus: Status, initialConnection: bool, authPendingTimeout: U32)

  const NEW_CLIENT: Client := Client("", false, ConnInit, true, 0)

  /** What `INFO` carries. */
  datatype InfoKind = OpenUrl | CrTextRequest | Plain | Ignored

  function KindOfInfo(text: string, pending: bool): InfoKind {
    if "OPEN_URL:" <= text then OpenUrl
    else if "WEB_AUTH:" <= text then (if ':' in text[9..] then OpenUrl else Ignored)
    else if pending && "CR_TEXT:" <= text then CrTextRequest
    else Plain
  }

  /** The outcome of one event: new client, new queue, the status changes sent, and whether it threw. */
  datatype Reaction = Reaction(client: Client, queue: Queue, sent: seq<Status>, threw: bool)

  function Fail(c: Client, q: Queue, status: Status): Reaction {
    Reaction(c.(runStatus := status, failedSignalSent := true), q, [status], false)
  }

  function Move(c: Client, q: Queue, status: Status): Reaction {
    Reaction(c.(runStatus := status), q, [status], false)
  }

  /** Something of this group has been asked for, as far as the 32 bit count tells. */
  predicate Asked(q: Queue, group: Code) {
    Count(q.slots, CREDENTIALS, group) % TWO32 > 0
  }

  /**
   * The callback the backend installs for provided responses: with a client object installed it forwards the
   * reply to the first pending authentication, and fails when that has not been given yet.
   */
  datatype Forward = Silent | Reply(text: string) | Fails

  function Forwarded(installed: bool, q: Queue): Forward {
    if !installed || !Asked(q, CHALLENGE_AUTH_PENDING) then Silent
    else
      match Response(q.slots, CREDENTIALS, CHALLENGE_AUTH_PENDING, "auth_pending")
      case Ok(text) => Reply(text)
      case Err(_) => Fails
  }

  function Callback(installed: bool): Queue -> bool {
    q => !Forwarded(installed, q).Fails?
  }

  /** The challenge slot, then the cookie slot, which is filled at once. */
  function ChallengeQueued(q: Queue, cookie: string, ch: Challenge): Queue {
    Added(Added(q, CREDENTIALS, CHALLENGE_DYNAMIC, "dynamic_challenge", ch.text, !ch.echo),
          CREDENTIALS, CHALLENGE_DYNAMIC, "dynamic_challenge_cookie", "", true)
  }

  function ChallengeStored(q: Queue, cookie: string, ch: Challenge): Result<Queue> {
    var asked := Added(q, CREDENTIALS, CHALLENGE_DYNAMIC, "dynamic_challenge", ch.text, !ch.echo);
    var id := Counter(asked, CREDENTIALS, CHALLENGE_DYNAMIC);
    Updated(ChallengeQueued(q, cookie, ch), CREDENTIALS, CHALLENGE_DYNAMIC, id, cookie)
  }

  /** The status only moves when storing the cookie and the callback it triggers both return normally. */
  function ReactToChallenge(installed: bool, c: Client, q: Queue, cookie: string, ch: Challenge): Reaction {
    var noted := c.(dcCookie := cookie);
    match ChallengeStored(q, cookie, ch)
    case Err(_) => Reaction(noted, ChallengeQueued(q, cookie, ch), [], true)
    case Ok(r) =>
      if Forwarded(installed, r).Fails? then Reaction(noted, r, [], true) else Move(noted, r, CfgRequireUser)
  }

  function ReactToCrText(c: Client, q: Queue, text: string): Reaction {
    var cr := ParsedCrText(text);
    if !cr.valid then Fail(c, q, ConnAuthFailed)
    else if cr.response then
      Reaction(c.(runStatus := SessAuthChallenge),
               Added(q, CREDENTIALS, CHALLENGE_AUTH_PENDING, "auth_pending", cr.challenge, cr.echo),
               [CfgRequireUser], false)
    else Reaction(c, q, [], false)
  }

  function React(atoi: string -> int, installed: bool, c: Client, q: Queue, ev: CoreEvent): (r: Reaction)
    ensures !ev.DynamicChallenge? && !ev.ProxyNeedCreds? && !ev.Info? ==> r.queue == q
  {
    match ev
    case DynamicChallenge(cookie, Some(ch)) => ReactToChallenge(installed, c, q, cookie, ch)
    case DynamicChallenge(cookie, None) => Reaction(c.(dcCookie := cookie), q, [], false)
    case AuthPending(info) => Reaction(c.(authPendingTimeout := PendingTimeout(atoi, info)), q, [], false)
    case ProxyNeedCreds =>
      Move(c, Added(Added(q, CREDENTIALS, HTTP_PROXY_CREDS, "http_proxy_user", "HTTP proxy username", false),
                    CREDENTIALS, HTTP_PROXY_CREDS, "http_proxy_pass", "HTTP proxy password", true), CfgRequireUser)
    case Info(text) =>
      (match KindOfInfo(text, c.authPendingTimeout != 0)
       case OpenUrl => Move(c, q, SessAuthUrl)
       case CrTextRequest => ReactToCrText(c, q, text)
       case _ => Reaction(c, q, [], false))
    case CompressError => Fail(c, q, ConnFailed)
    case TunSetupFailed => Fail(c, q, ConnFailed)
    case TunIfaceCreate => Fail(c, q, ConnFailed)
    case TunIfaceDisabled => Fail(c, q, ConnFailed)
    case Connecting => if c.runStatus == ConnReconnecting then Reaction(c, q, [], false) else Move(c, q, ConnConnecting)
    case Connected => Move(c.(initialConnection := false), q, ConnConnected)
    case Reconnecting => if c.initialConnection then Reaction(c, q, [], false) else Move(c, q, ConnReconnecting)
    case AuthFailed => Fail(c, q, ConnAuthFailed)
    case CertVerifyFail => Fail(c, q, ConnFailed)
    case TlsVersionMin => Fail(c, q, ConnFailed)
    case TlsSigAlg => Fail(c, q, ConnFailed)
    case TlsAlertMisc => Fail(c, q, ConnFailed)
    case ConnectionTimeout => Move(c, q, ConnDisconnecting)
    case InactiveTimeout => Move(c, q, ConnDisconnecting)
    case ProxyError => Fail(c, q, ConnFailed)
    case ClientHalt => Move(c, q, ConnFailed)
    case Disconnected =>
      if c.failedSignalSent || c.runStatus in {ConnAuthFailed, CfgRequireUser} then Reaction(c, q, [], false)
      else Move(c, q, ConnDisconnected)
    case Logged => Reaction(c, q, [], false)
  }

  // ---------------------------------------------------------------- the object

  class CoreVpnClient {
    const atoi: string -> int
    const userInputQ: RequiresQueue
    var dcCookie: string
    var failedSignalSent: bool
    var runStatus: Status
    var initialConnection: bool
    var authPendingTimeout: U32
    var sent: seq<Status>     // status changes sent so far

    constructor (atoi: string -> int, userInputQ: RequiresQueue)
      ensures Value() == NEW_CLIENT && sent == []
      ensures this.atoi == atoi && this.userInputQ == userInputQ
    {
      this.atoi, this.userInputQ := atoi, userInputQ;
      dcCookie, failedSignalSent, runStatus, initialConnection, authPendingTimeout := "", false, ConnInit, true, 0;
      sent := [];
    }

    function Value(): Client
      reads this
    {
      Client(dcCookie, failedSignalSent, runStatus, initialConnection, authPendingTimeout)
    }

    method StatusChange(status: Status)
      modifies this`sent
      ensures sent == old(sent) + [status]
    {
      sent := sent + [status];
    }

    method OnDynamicChallenge(installed: bool, cookie: string, parsed: Option<Challenge>) returns (ok: bool)
      modifies this, userInputQ
      ensures old(sent) <= sent
      ensures Reaction(Value(), userInputQ.Value(), sent[|old(sent)|..], !ok) ==
              React(atoi, installed, old(Value()), old(userInputQ.Value()), DynamicChallenge(cookie, parsed))
    {
      dcCookie := cookie;
      if parsed.None? {
        return true;
      }
      ok := StoreChallenge(installed, parsed.value);
      if ok {
        StatusChange(CfgRequireUser);
        runStatus := CfgRequireUser;
      }
    }

    /** Question and cookie go into the queue; storing the cookie runs the callback. */
    method StoreChallenge(installed: bool, ch: Challenge) returns (ok: bool)
      modifies userInputQ
      ensures var stored := ChallengeStored(old(userInputQ.Value()), dcCookie, ch);
        && userInputQ.Value() == QueueAfter(ChallengeQueued(old(userInputQ.Value()), dcCookie, ch), stored)
        && (ok <==> stored.Ok? && !Forwarded(installed, stored.value).Fails?)
    {
      var _ := userInputQ.RequireAdd(CREDENTIALS, CHALLENGE_DYNAMIC, "dynamic_challenge", ch.text, !ch.echo);
      var id := userInputQ.RequireAdd(CREDENTIALS, CHALLENGE_DYNAMIC, "dynamic_challenge_cookie", "", true);
      ok := userInputQ.UpdateEntry(CREDENTIALS, CHALLENGE_DYNAMIC, id, dcCookie, Callback(installed));
    }

    method OnProxyNeedCreds(ghost installed: bool)
      modifies this, userInputQ
      ensures old(sent) <= sent
      ensures Reaction(Value(), userInputQ.Value(), sent[|old(sent)|..], false) ==
              React(atoi, installed, old(Value()), old(userInputQ.Value()), ProxyNeedCreds)
    {
      var _ := userInputQ.RequireAdd(CREDENTIALS, HTTP_PROXY_CREDS, "http_proxy_user", "HTTP proxy username", false);
      var _ := userInputQ.RequireAdd(CREDENTIALS, HTTP_PROXY_CREDS, "http_proxy_pass", "HTTP proxy password", true);
      StatusChange(CfgRequireUser);
      runStatus := CfgRequireUser;
    }

    method OnInfo(ghost installed: bool, text: string)
      modifies this, userInputQ
      ensures old(sent) <= sent
      ensures Reaction(Value(), userInputQ.Value(), sent[|old(sent)|..], false) ==
              React(atoi, installed, old(Value()), old(userInputQ.Value()), Info(text))
    {
      match KindOfInfo(text, authPendingTimeout != 0) {
        case OpenUrl =>
          StatusChange(SessAuthUrl);
          runStatus := SessAuthUrl;
        case CrTextRequest =>
          var cr := ParseCrText(text);
          if !cr.valid {
            runStatus := ConnAuthFailed;
            StatusChange(runStatus);
            failedSignalSent := true;
          } else if cr.response {
            var _ := userInputQ.RequireAdd(CREDENTIALS, CHALLENGE_AUTH_PENDING, "auth_pending", cr.challenge, cr.echo);
            StatusChange(CfgRequireUser);
            runStatus := SessAuthChallenge;
          }
        case _ =>
      }
    }

    /** The branches that only move the status. */
    method OnStatusEvent(ghost installed: bool, ev: CoreEvent)
      requires !ev.DynamicChallenge? && !ev.ProxyNeedCreds? && !ev.Info?
      modifies this
      ensures old(sent) <= sent
      ensures Reaction(Value(), userInputQ.Value(), sent[|old(sent)|..], false) ==
              React(atoi, installed, old(Value()), old(userInputQ.Value()), ev)
    {
      match ev {
        case AuthPending(info) =>
          authPendingTimeout := ParsePendingTimeout(atoi, info);
        case CompressError | TunSetupFailed | TunIfaceCreate | TunIfaceDisabled | CertVerifyFail | TlsVersionMin
           | TlsSigAlg | TlsAlertMisc | ProxyError =>
          StatusChange(ConnFailed);
          runStatus := ConnFailed;
          failedSignalSent := true;
        case AuthFailed =>
          StatusChange(ConnAuthFailed);
          runStatus := ConnAuthFailed;
          failedSignalSent := true;
        case Connecting =>
          if ConnReconnecting != runStatus {
            StatusChange(ConnConnecting);
            runStatus := ConnConnecting;
          }
        case Connected =>
          StatusChange(ConnConnected);
          runStatus := ConnConnected;
          initialConnection := false;
        case Reconnecting =>
          if !initialConnection {
            StatusChange(ConnReconnecting);
            runStatus := ConnReconnecting;
          }
        case ConnectionTimeout | InactiveTimeout =>
          StatusChange(ConnDisconnecting);
          runStatus := ConnDisconnecting;
        case ClientHalt =>
          StatusChange(ConnFailed);
          runStatus := ConnFailed;
        case Disconnected =>
          if !failedSignalSent && ConnAuthFailed != runStatus && CfgRequireUser != runStatus {
            StatusChange(ConnDisconnected);
            runStatus := ConnDisconnected;
          }
        case _ =>
      }
    }

    /** `installed` tells whether the backend object holds a client object while the event is handled. */
    method Event(installed: bool, ev: CoreEvent) returns (ok: bool)
      modifies this, userInputQ
      ensures old(sent) <= sent
      ensures Reaction(Value(), userInputQ.Value(), sent[|old(sent)|..], !ok) ==
              React(atoi, installed, old(Value()), old(userInputQ.Value()), ev)
    {
      ok := true;
      if ev.DynamicChallenge? {
        ok := OnDynamicChallenge(installed, ev.cookie, ev.parsed);
      } else if ev.ProxyNeedCreds? {
        OnProxyNeedCreds(installed);
      } else if ev.Info? {
        OnInfo(installed, ev.text);
      } else {
        OnStatusEvent(installed, ev);
      }
    }
  }
}
