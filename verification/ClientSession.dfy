/**
 * The backend client's use of the input queue: what it asks for, when it connects and which credentials
 * it reads back (src/client/openvpn3-service-client.cpp).
 */
module ClientSession {
  import opened Outcomes
  import opened TextFilter
  import opened RequestQueue
  import opened CoreEvents

  datatype AuthFlow = PasswordOnly | UsernamePassword

  /** The outcome of parsing and evaluating the profile. */
  datatype Eval =
    | PreParseFails
    | EvalFails
    | ExternalPkiRequired
    | Evaluated(autologin: bool, staticChallenge: string, staticEcho: bool, pkPasswordRequired: bool)

  datatype Creds = Creds(
    username: string, password: string, response: string, cookie: string, proxyUser: string, proxyPass: string)

  const NO_CREDS: Creds := Creds("", "", "", "", "", "")

  datatype Session = Session(
    registered: bool,
    content: bool,                              // a profile has been fetched
    vpnclient: Option<Client>,
    queue: Queue,
    pkPassword: string,
    creds: Creds,
    connects: nat,                              // client threads started
    challenges: seq<(string, Challenge)>,       // dynamic challenges received, with their cookies
    replies: seq<string>)                       // replies to pending authentications sent to the server

  const NEW_SESSION: Session := Session(false, false, None, EMPTY, "", NO_CREDS, 0, [], [])

  /** What is fixed for one process. */
  datatype Setup = Setup(flow: AuthFlow, profileUsername: string, atoi: string -> int)

  // ---------------------------------------------------------------- initialize_client

  /** The slots for the login itself, asked for once. */
  function WithLogin(flow: AuthFlow, q: Queue): (r: Queue)
    ensures q.slots <= r.slots
  {
    match flow
    case PasswordOnly =>
      if Asked(q, PASSWORD_ONLY) then q
      else Added(q, CREDENTIALS, PASSWORD_ONLY, "password", "Auth Password", true)
    case UsernamePassword =>
      if Asked(q, USER_PASSWORD) then q
      else Added(Added(q, CREDENTIALS, USER_PASSWORD, "username", "Auth User name", false),
                 CREDENTIALS, USER_PASSWORD, "password", "Auth Password", true)
  }

  /** The static challenge is asked for again on every call. */
  function WithStaticChallenge(q: Queue, text: string, echo: bool): (r: Queue)
    ensures q.slots <= r.slots
  {
    if text == [] then q else Added(q, CREDENTIALS, CHALLENGE_STATIC, "static_challenge", text, !echo)
  }

  function WithPassphrase(q: Queue, needed: bool): (r: Queue)
    ensures q.slots <= r.slots
  {
    if needed then Added(q, CREDENTIALS, PK_PASSPHRASE, "pk_passphrase", "Private key passphrase", true) else q
  }

  /** The key password the evaluation runs with, read from the queue once it has been asked for. */
  function KeyPassword(s: Session): Result<string> {
    if Asked(s.queue, PK_PASSPHRASE) then Response(s.queue.slots, CREDENTIALS, PK_PASSPHRASE, "pk_passphrase")
    else Ok(s.pkPassword)
  }

  function QueueAfterEval(flow: AuthFlow, q: Queue, pk: string, eval: Eval): (r: Queue)
    requires eval.Evaluated?
    ensures q.slots <= r.slots
  {
    var login := if eval.autologin then q
                 else WithStaticChallenge(WithLogin(flow, q), eval.staticChallenge, eval.staticEcho);
    WithPassphrase(login, eval.pkPasswordRequired && pk == [])
  }

  /** `initialize_client`: the session after it and whether it returned normally. */
  function Initialized(setup: Setup, s: Session, eval: Eval): (r: (Session, bool))
    ensures s.queue.slots <= r.0.queue.slots
    ensures r.0 == s.(vpnclient := r.0.vpnclient, pkPassword := r.0.pkPassword, queue := r.0.queue)
  {
    if !s.content then (s, false)
    else
      var restarted := s.(vpnclient := Some(NEW_CLIENT));
      match KeyPassword(s)
      case Err(_) => (restarted, false)
      case Ok(pk) =>
        var t := restarted.(pkPassword := pk);
        match eval
        case PreParseFails => (t, false)
        case EvalFails => (t.(vpnclient := None), false)
        case ExternalPkiRequired => (t, false)
        case Evaluated(_, _, _, _) => (t.(queue := QueueAfterEval(setup.flow, s.queue, pk, eval)), true)
  }

  // ---------------------------------------------------------------- connect

  /** The user's name and password, if a login was asked for. */
  function LoginCreds(setup: Setup, q: Queue, c: Creds): Result<Creds> {
    if Asked(q, USER_PASSWORD) then
      var username :- Response(q.slots, CREDENTIALS, USER_PASSWORD, "username");
      var password :- if Asked(q, CHALLENGE_DYNAMIC) then Ok(c.password)
                      else Response(q.slots, CREDENTIALS, USER_PASSWORD, "password");
      var response :-
        if Asked(q, CHALLENGE_STATIC) then Response(q.slots, CREDENTIALS, CHALLENGE_STATIC, "static_challenge")
                      else Ok(c.response);
      Ok(c.(username := username, password := password, response := response))
    else if Asked(q, PASSWORD_ONLY) then
      var password :- Response(q.slots, CREDENTIALS, PASSWORD_ONLY, "password");
      Ok(c.(username := setup.profileUsername, password := password))
    else Ok(c)
  }

  function ChallengeCreds(q: Queue, c: Creds): Result<Creds> {
    if !Asked(q, CHALLENGE_DYNAMIC) then Ok(c)
    else
      var cookie :- Response(q.slots, CREDENTIALS, CHALLENGE_DYNAMIC, "dynamic_challenge_cookie");
      var response :- Response(q.slots, CREDENTIALS, CHALLENGE_DYNAMIC, "dynamic_challenge");
      Ok(c.(cookie := cookie, response := response))
  }

  function ProxyCreds(q: Queue, c: Creds): Result<Creds> {
    if !Asked(q, HTTP_PROXY_CREDS) then Ok(c)
    else
      var user :- Response(q.slots, CREDENTIALS, HTTP_PROXY_CREDS, "http_proxy_user");
      var pass :- Response(q.slots, CREDENTIALS, HTTP_PROXY_CREDS, "http_proxy_pass");
      Ok(c.(proxyUser := user, proxyPass := pass))
  }

  /** All credentials `connect()` reads from the queue. */
  function AssembledCreds(setup: Setup, q: Queue, c: Creds): Result<Creds> {
    var c1 :- LoginCreds(setup, q, c);
    var c2 :- ChallengeCreds(q, c1);
    ProxyCreds(q, c2)
  }

  // ---------------------------------------------------------------- cb_connect

  datatype Gate = Proceed | Quiet | Busy

  /** One look at the run status of an existing client. */
  function GateOf(status: Status): Gate {
    match status
    case CfgRequireUser => Proceed
    case ConnInit => Proceed
    case ConnDisconnecting => Busy
    case ConnReconnecting => Busy
    case _ => Quiet
  }

  /** The status is read again up to five more times while the connection is changing state. */
  function GateAfter(observe: nat -> Status, looks: nat): Gate
    decreases 6 - looks
  {
    if looks >= 6 then Busy
    else if GateOf(observe(looks)) != Busy then GateOf(observe(looks))
    else GateAfter(observe, looks + 1)
  }

  /** The first look that finds the connection settled decides, if it is one of the first six. */
  lemma {:induction false} FirstSettledLook(observe: nat -> Status, looks: nat, k: nat)
    requires looks <= k <= 6 && (k < 6 ==> GateOf(observe(k)) != Busy)
    requires forall j :: looks <= j < k ==> observe(j) == ConnDisconnecting || observe(j) == ConnReconnecting
    ensures GateAfter(observe, looks) == if k < 6 then GateOf(observe(k)) else Busy
    decreases k - looks
  {
    if looks < k {
      FirstSettledLook(observe, looks + 1, k);
    }
  }

  /** How a call ends. */
  datatype Reply = Threw | Returned

  /** Some credentials are handed to the Core library, which may refuse them. */
  predicate HandsOver(q: Queue) {
    Asked(q, USER_PASSWORD) || Asked(q, PASSWORD_ONLY) || Asked(q, CHALLENGE_DYNAMIC) || Asked(q, HTTP_PROXY_CREDS)
  }

  /** The client is started once nothing is missing; `accepted` is the Core library's verdict on the credentials. */
  function Launched(setup: Setup, t: Session, accepted: bool): (r: (Session, Reply))
    ensures r.0 == t.(creds := r.0.creds, connects := r.0.connects)
  {
    if !AllDone(t.queue.slots) then (t, Threw)
    else
      match AssembledCreds(setup, t.queue, t.creds)
      case Err(_) => (t, Threw)
      case Ok(creds) =>
        if HandsOver(t.queue) && !accepted then (t.(creds := creds), Threw)
        else (t.(creds := creds, connects := t.connects + 1), Returned)
  }

  /** The rest of `cb_connect` once the gate has been passed. */
  function ConnectFrom(setup: Setup, s: Session, eval: Eval, accepted: bool): (r: (Session, Reply))
    ensures r.0.queue == Initialized(setup, s, eval).0.queue
    ensures r.0.challenges == s.challenges && r.0.replies == s.replies && r.0.registered == s.registered
  {
    var (t, ok) := Initialized(setup, s, eval);
    if ok then Launched(setup, t, accepted) else (t, Threw)
  }

  function Connected(setup: Setup, s: Session, observe: nat -> Status, eval: Eval,
                     accepted: bool): (r: (Session, Reply))
    ensures r.0.queue == s.queue || r.0.queue == Initialized(setup, s, eval).0.queue
    ensures r.0.challenges == s.challenges && r.0.replies == s.replies && r.0.registered == s.registered
  {
    if !s.registered then (s, Threw)
    else if s.vpnclient.Some? && GateAfter(observe, 0) == Quiet then (s, Returned)
    else if s.vpnclient.Some? && GateAfter(observe, 0) == Busy then (s, Threw)
    else ConnectFrom(setup, s, eval, accepted)
  }

  // ---------------------------------------------------------------- the other steps

  /** Authorising any method call drops a client object whose connection has ended. */
  function Entered(s: Session): (r: Session)
    ensures r == s.(vpnclient := r.vpnclient)
  {
    if s.vpnclient.Some? && s.vpnclient.value.runStatus in {CfgRequireUser, ConnDisconnected, ConnFailed}
    then s.(vpnclient := None)
    else s
  }

  function Registered(setup: Setup, s: Session, tokenMatches: bool, fetched: bool, eval: Eval): (r: (Session, Reply))
    ensures r.0.queue == s.queue ||
            r.0.queue == Initialized(setup, s.(registered := true, content := fetched), eval).0.queue
    ensures r.0.challenges == s.challenges && r.0.replies == s.replies
  {
    if s.registered || !tokenMatches then (s, Threw)
    else
      var (t, ok) := Initialized(setup, s.(registered := true, content := fetched), eval);
      (t, if ok then Returned else Threw)
  }

  /** What the callback sends to the server. */
  function Replies(f: Forward): seq<string> {
    if f.Reply? then [f.text] else []
  }

  /** A value from the front-end; the callback runs after it has been stored. */
  function Provided(s: Session, kind: Code, group: Code, id: U32, value: string): (r: (Session, Reply))
    ensures SameShape(s.queue.slots, r.0.queue.slots) && r.0.challenges == s.challenges
    ensures r.0 == s.(queue := r.0.queue, replies := r.0.replies)
  {
    match (if value == [] then Err("No value provided") else Updated(s.queue, kind, group, id, value))
    case Err(_) => (s, Threw)
    case Ok(q) =>
      var f := Forwarded(s.vpnclient.Some?, q);
      (s.(queue := q, replies := s.replies + Replies(f)), if f.Fails? then Threw else Returned)
  }

  /** An event that stores a cookie runs the callback too. */
  function EventReplies(installed: bool, q: Queue, ev: CoreEvent): seq<string> {
    if ev.DynamicChallenge? && ev.parsed.Some? && ChallengeStored(q, ev.cookie, ev.parsed.value).Ok?
    then Replies(Forwarded(installed, ChallengeStored(q, ev.cookie, ev.parsed.value).value))
    else []
  }

  /** The client object an event happens to: the current one, or an older one whose thread is still running. */
  function Affected(s: Session, older: Option<Client>): Option<Client> {
    if older.Some? then older else s.vpnclient
  }

  function Happened(setup: Setup, s: Session, older: Option<Client>, ev: CoreEvent): Session {
    match Affected(s, older)
    case None => s
    case Some(c) =>
      var r := React(setup.atoi, s.vpnclient.Some?, c, s.queue, ev);
      s.(queue := r.queue,
         vpnclient := if older.Some? then s.vpnclient else Some(r.client),
         challenges := if ev.DynamicChallenge? && ev.parsed.Some? then s.challenges + [(ev.cookie, ev.parsed.value)]
                       else s.challenges,
         replies := s.replies + EventReplies(s.vpnclient.Some?, s.queue, ev))
  }

  datatype Step =
    | Register(tokenMatches: bool, fetched: bool, eval: Eval)
    | Connect(observe: nat -> Status, eval: Eval, accepted: bool)
    | Provide(kind: Code, group: Code, id: U32, value: string)
    | OtherCall                       // Ready, Ping, Pause, Resume, Restart and the queue's read-only calls
    | Event(older: Option<Client>, ev: CoreEvent)

  function Next(setup: Setup, s: Session, step: Step): Session {
    match step
    case Register(tokenMatches, fetched, eval) => Registered(setup, Entered(s), tokenMatches, fetched, eval).0
    case Connect(observe, eval, accepted) => Connected(setup, Entered(s), observe, eval, accepted).0
    case Provide(kind, group, id, value) => Provided(Entered(s), kind, group, id, value).0
    case OtherCall => Entered(s)
    case Event(older, ev) => Happened(setup, s, older, ev)
  }

  // ---------------------------------------------------------------- credential groups are complete

  /** The names `connect()`, `initialize_client()` and the callback read from a group of credentials. */
  function Names(group: Code): seq<string> {
    if group == USER_PASSWORD then ["username", "password"]
    else if group == PASSWORD_ONLY then ["password"]
    else if group == CHALLENGE_STATIC then ["static_challenge"]
    else if group == CHALLENGE_DYNAMIC then ["dynamic_challenge", "dynamic_challenge_cookie"]
    else if group == HTTP_PROXY_CREDS then ["http_proxy_user", "http_proxy_pass"]
    else if group == PK_PASSPHRASE then ["pk_passphrase"]
    else if group == CHALLENGE_AUTH_PENDING then ["auth_pending"]
    else []
  }

  ghost predicate HasName(slots: seq<Slot>, group: Code, name: string) {
    exists j :: 0 <= j < |slots| && InGroup(slots[j], CREDENTIALS, group) && slots[j].name == name
  }

  ghost predicate GroupComplete(slots: seq<Slot>, group: Code) {
    forall n :: n in Names(group) ==> HasName(slots, group, n)
  }

  /** A group of credentials that is not empty holds every name that is read from it. */
  ghost predicate Complete(slots: seq<Slot>) {
    forall i :: 0 <= i < |slots| && slots[i].kind == CREDENTIALS ==> GroupComplete(slots, slots[i].group)
  }

  lemma HasNameGrows(a: seq<Slot>, b: seq<Slot>, group: Code, name: string)
    requires HasName(a, group, name) || HasName(b, group, name)
    ensures HasName(a + b, group, name)
  {
    if HasName(a, group, name) {
      var j :| 0 <= j < |a| && InGroup(a[j], CREDENTIALS, group) && a[j].name == name;
      assert (a + b)[j] == a[j];
    } else {
      var j :| 0 <= j < |b| && InGroup(b[j], CREDENTIALS, group) && b[j].name == name;
      assert (a + b)[|a| + j] == b[j];
    }
  }

  /** Complete groups stay complete when complete groups are appended. */
  lemma CompleteAppend(a: seq<Slot>, b: seq<Slot>)
    requires Complete(a) && Complete(b)
    ensures Complete(a + b)
  {
    forall i | 0 <= i < |a + b| && (a + b)[i].kind == CREDENTIALS ensures GroupComplete(a + b, (a + b)[i].group) {
      var g := (a + b)[i].group;
      assert GroupComplete(a, g) || GroupComplete(b, g) by {
        if i < |a| { assert (a + b)[i] == a[i]; } else { assert (a + b)[i] == b[i - |a|]; }
      }
      forall n | n in Names(g) ensures HasName(a + b, g, n) {
        HasNameGrows(a, b, g, n);
      }
    }
  }

  lemma CompleteShape(a: seq<Slot>, b: seq<Slot>)
    requires Complete(a) && SameShape(a, b)
    ensures Complete(b)
  {
    forall i | 0 <= i < |b| && b[i].kind == CREDENTIALS ensures GroupComplete(b, b[i].group) {
      forall n | n in Names(b[i].group) ensures HasName(b, b[i].group, n) {
        assert GroupComplete(a, a[i].group) && HasName(a, a[i].group, n);
        var j :| 0 <= j < |a| && InGroup(a[j], CREDENTIALS, a[i].group) && a[j].name == n;
        assert b[j].name == n;
      }
    }
  }

  lemma SingleComplete(s: Slot)
    requires s.kind == CREDENTIALS ==> Names(s.group) == [s.name] || Names(s.group) == []
    ensures Complete([s])
  {
    if s.kind == CREDENTIALS {
      forall n | n in Names(s.group) ensures HasName([s], s.group, n) {
        assert [s][0].name == n;
      }
    }
  }

  lemma PairComplete(s: Slot, t: Slot)
    requires s.kind == t.kind == CREDENTIALS && s.group == t.group && Names(s.group) == [s.name, t.name]
    ensures Complete([s, t])
  {
    forall n | n in Names(s.group) ensures HasName([s, t], s.group, n) {
      assert [s, t][0].name == n || [s, t][1].name == n;
    }
  }

  lemma AddSingle(q: Queue, group: Code, name: string, description: string, hidden: bool)
    requires Complete(q.slots) && (Names(group) == [name] || Names(group) == [])
    ensures Complete(Added(q, CREDENTIALS, group, name, description, hidden).slots)
  {
    var s := Added(q, CREDENTIALS, group, name, description, hidden).slots[|q.slots|];
    SingleComplete(s);
    CompleteAppend(q.slots, [s]);
  }

  lemma AddPair(q: Queue, group: Code, n1: string, d1: string, h1: bool, n2: string, d2: string, h2: bool)
    requires Complete(q.slots) && Names(group) == [n1, n2]
    ensures Complete(Added(Added(q, CREDENTIALS, group, n1, d1, h1), CREDENTIALS, group, n2, d2, h2).slots)
  {
    var r := Added(q, CREDENTIALS, group, n1, d1, h1);
    var t := Added(r, CREDENTIALS, group, n2, d2, h2);
    var s1, s2 := t.slots[|q.slots|], t.slots[|q.slots| + 1];
    PairComplete(s1, s2);
    CompleteAppend(q.slots, [s1, s2]);
    assert t.slots == q.slots + [s1, s2];
  }

  lemma InitializedComplete(setup: Setup, s: Session, eval: Eval)
    requires Complete(s.queue.slots)
    ensures Complete(Initialized(setup, s, eval).0.queue.slots)
  {
    if s.content && KeyPassword(s).Ok? && eval.Evaluated? {
      var q := s.queue;
      if !eval.autologin {
        AddPair(q, USER_PASSWORD, "username", "Auth User name", false, "password", "Auth Password", true);
        AddSingle(q, PASSWORD_ONLY, "password", "Auth Password", true);
        q := WithLogin(setup.flow, q);
        AddSingle(q, CHALLENGE_STATIC, "static_challenge", eval.staticChallenge, !eval.staticEcho);
        q := WithStaticChallenge(q, eval.staticChallenge, eval.staticEcho);
      }
      AddSingle(q, PK_PASSPHRASE, "pk_passphrase", "Private key passphrase", true);
    }
  }

  lemma ChallengeComplete(installed: bool, c: Client, q: Queue, cookie: string, ch: Challenge)
    requires Complete(q.slots)
    ensures Complete(ReactToChallenge(installed, c, q, cookie, ch).queue.slots)
  {
    AddPair(q, CHALLENGE_DYNAMIC, "dynamic_challenge", ch.text, !ch.echo, "dynamic_challenge_cookie", "", true);
    CompleteShape(ChallengeQueued(q, cookie, ch).slots, ReactToChallenge(installed, c, q, cookie, ch).queue.slots);
  }

  lemma InfoComplete(c: Client, q: Queue, text: string)
    requires Complete(q.slots)
    ensures Complete(ReactToCrText(c, q, text).queue.slots)
  {
    var cr := ParsedCrText(text);
    AddSingle(q, CHALLENGE_AUTH_PENDING, "auth_pending", cr.challenge, cr.echo);
  }

  lemma EventComplete(setup: Setup, installed: bool, c: Client, q: Queue, ev: CoreEvent)
    requires Complete(q.slots)
    ensures Complete(React(setup.atoi, installed, c, q, ev).queue.slots)
  {
    if ev.DynamicChallenge? {
      if ev.parsed.Some? {
        ChallengeComplete(installed, c, q, ev.cookie, ev.parsed.value);
      }
    } else if ev.ProxyNeedCreds? {
      AddPair(q, HTTP_PROXY_CREDS, "http_proxy_user", "HTTP proxy username", false,
              "http_proxy_pass", "HTTP proxy password", true);
    } else if ev.Info? {
      InfoComplete(c, q, ev.text);
    }
  }

  lemma StepComplete(setup: Setup, s: Session, step: Step)
    requires Complete(s.queue.slots)
    ensures Complete(Next(setup, s, step).queue.slots)
  {
    match step {
      case Register(tokenMatches, fetched, eval) =>
        InitializedComplete(setup, Entered(s).(registered := true, content := fetched), eval);
      case Connect(observe, eval, accepted) =>
        InitializedComplete(setup, Entered(s), eval);
      case Provide(kind, group, id, value) =>
        CompleteShape(s.queue.slots, Next(setup, s, step).queue.slots);
      case OtherCall =>
      case Event(older, ev) =>
        if Affected(s, older).Some? {
          EventComplete(setup, s.vpnclient.Some?, Affected(s, older).value, s.queue, ev);
        }
    }
  }

  ghost predicate IsSessionRun(setup: Setup, ss: seq<Session>, steps: seq<Step>) {
    && |ss| == |steps| + 1 && ss[0] == NEW_SESSION
    && forall i :: 0 <= i < |steps| ==> Follows(setup, ss, steps, i)
  }

  ghost predicate Follows(setup: Setup, ss: seq<Session>, steps: seq<Step>, i: nat)
    requires |ss| == |steps| + 1 && i < |steps|
  {
    ss[i + 1] == Next(setup, ss[i], steps[i])
  }

  lemma NextComplete(setup: Setup, ss: seq<Session>, steps: seq<Step>, i: nat)
    requires |ss| == |steps| + 1 && i < |steps| && Follows(setup, ss, steps, i) && Complete(ss[i].queue.slots)
    ensures Complete(ss[i + 1].queue.slots)
  {
    StepComplete(setup, ss[i], steps[i]);
  }

  lemma {:induction false} RunComplete(setup: Setup, ss: seq<Session>, steps: seq<Step>, i: nat)
    requires IsSessionRun(setup, ss, steps) && i <= |steps|
    ensures Complete(ss[i].queue.slots)
  {
    if i > 0 {
      var k := i - 1;
      RunComplete(setup, ss, steps, k);
      assert Follows(setup, ss, steps, k);
      NextComplete(setup, ss, steps, k);
    }
  }

  // ---------------------------------------------------------------- connect() finds what it reads

  lemma {:induction false} CountIsPresence(slots: seq<Slot>, kind: Code, group: Code)
    ensures Count(slots, kind, group) > 0 <==> exists i :: 0 <= i < |slots| && InGroup(slots[i], kind, group)
  {
    if slots != [] {
      var init := slots[..|slots| - 1];
      CountIsPresence(init, kind, group);
      assert forall i :: 0 <= i < |init| ==> init[i] == slots[i];
      if i :| 0 <= i < |init| && InGroup(init[i], kind, group) {
        assert InGroup(slots[i], kind, group);
      }
    }
  }

  /** Once everything is provided, every name of a group that was asked for has a value. */
  lemma AskedHasResponses(q: Queue, group: Code)
    requires Complete(q.slots) && AllDone(q.slots) && Asked(q, group)
    ensures forall n :: n in Names(group) ==> Response(q.slots, CREDENTIALS, group, n).Ok?
  {
    CountIsPresence(q.slots, CREDENTIALS, group);
    var i :| 0 <= i < |q.slots| && InGroup(q.slots[i], CREDENTIALS, group);
    assert GroupComplete(q.slots, group);
    forall n | n in Names(group) ensures FindName(q.slots, CREDENTIALS, group, n) < |q.slots| {
      assert HasName(q.slots, group, n);
    }
  }

  lemma LoginIsFound(setup: Setup, q: Queue, c: Creds)
    requires Complete(q.slots) && AllDone(q.slots)
    ensures LoginCreds(setup, q, c).Ok?
  {
    if Asked(q, USER_PASSWORD) {
      AskedHasResponses(q, USER_PASSWORD);
      assert "username" in Names(USER_PASSWORD) && "password" in Names(USER_PASSWORD);
      if Asked(q, CHALLENGE_STATIC) {
        AskedHasResponses(q, CHALLENGE_STATIC);
        assert "static_challenge" in Names(CHALLENGE_STATIC);
      }
    } else if Asked(q, PASSWORD_ONLY) {
      AskedHasResponses(q, PASSWORD_ONLY);
      assert "password" in Names(PASSWORD_ONLY);
    }
  }

  lemma ChallengeIsFound(q: Queue, c: Creds)
    requires Complete(q.slots) && AllDone(q.slots)
    ensures ChallengeCreds(q, c).Ok?
  {
    if Asked(q, CHALLENGE_DYNAMIC) {
      AskedHasResponses(q, CHALLENGE_DYNAMIC);
      assert "dynamic_challenge" in Names(CHALLENGE_DYNAMIC) && "dynamic_challenge_cookie" in Names(CHALLENGE_DYNAMIC);
    }
  }

  lemma ProxyIsFound(q: Queue, c: Creds)
    requires Complete(q.slots) && AllDone(q.slots)
    ensures ProxyCreds(q, c).Ok?
  {
    if Asked(q, HTTP_PROXY_CREDS) {
      AskedHasResponses(q, HTTP_PROXY_CREDS);
      assert "http_proxy_user" in Names(HTTP_PROXY_CREDS) && "http_proxy_pass" in Names(HTTP_PROXY_CREDS);
    }
  }

  lemma CredsAreFound(setup: Setup, q: Queue, c: Creds)
    requires Complete(q.slots) && AllDone(q.slots)
    ensures AssembledCreds(setup, q, c).Ok?
  {
    LoginIsFound(setup, q, c);
    ChallengeIsFound(q, LoginCreds(setup, q, c).value);
    ProxyIsFound(q, ChallengeCreds(q, LoginCreds(setup, q, c).value).value);
  }

  /**
   * In every run, a Connect call that gets past the check that everything is provided starts the client,
   * unless the Core library refuses credentials: none of its reads of a credential by name fails.
   */
  lemma ConnectPassesAllReads(setup: Setup, ss: seq<Session>, steps: seq<Step>, i: nat, eval: Eval, accepted: bool)
    requires IsSessionRun(setup, ss, steps) && i <= |steps|
    ensures var s := Entered(ss[i]);
      var (t, ok) := Initialized(setup, s, eval);
      && (ConnectFrom(setup, s, eval, accepted).1 == Returned <==>
            ok && AllDone(t.queue.slots) && (accepted || !HandsOver(t.queue)))
      && (ok && AllDone(t.queue.slots) ==> AssembledCreds(setup, t.queue, t.creds).Ok?)
  {
    RunComplete(setup, ss, steps, i);
    var s := Entered(ss[i]);
    InitializedComplete(setup, s, eval);
    var (t, ok) := Initialized(setup, s, eval);
    if AllDone(t.queue.slots) {
      CredsAreFound(setup, t.queue, t.creds);
    }
  }

  // ---------------------------------------------------------------- progress

  function LoginGroup(flow: AuthFlow): Code {
    if flow == PasswordOnly then PASSWORD_ONLY else USER_PASSWORD
  }

  /** The profile asks for nothing the queue does not already hold. */
  predicate NothingMore(setup: Setup, s: Session, pk: string, eval: Eval)
    requires eval.Evaluated?
  {
    && (eval.autologin || (Asked(s.queue, LoginGroup(setup.flow)) && eval.staticChallenge == []))
    && !(eval.pkPasswordRequired && pk == [])
  }

  /** Initialising again leaves the queue alone exactly then; otherwise it appends a slot without a value. */
  lemma InitializeAddsNothing(setup: Setup, s: Session, eval: Eval)
    requires s.content && KeyPassword(s).Ok? && eval.Evaluated?
    ensures var q := Initialized(setup, s, eval).0.queue;
      if NothingMore(setup, s, KeyPassword(s).value, eval) then q == s.queue
      else |q.slots| > |s.queue.slots| && !q.slots[|q.slots| - 1].provided
  {
  }

  /**
   * With everything provided so far, a Connect call past the gate starts the client if and only if the profile
   * asks for nothing more and the Core library does not refuse the credentials; in particular the repeated
   * initialisation does not ask for the login again.
   */
  lemma ConnectProgress(setup: Setup, ss: seq<Session>, steps: seq<Step>, i: nat, observe: nat -> Status, eval: Eval,
                        accepted: bool)
    requires IsSessionRun(setup, ss, steps) && i <= |steps| && eval.Evaluated?
    requires var s := Entered(ss[i]);
      s.registered && s.content && AllDone(s.queue.slots) && (s.vpnclient.Some? ==> GateAfter(observe, 0) == Proceed)
    ensures var s := Entered(ss[i]);
      var (t, reply) := Connected(setup, s, observe, eval, accepted);
      && KeyPassword(s).Ok?
      && (reply == Returned <==> NothingMore(setup, s, KeyPassword(s).value, eval) && (accepted || !HandsOver(s.queue)))
      && (reply == Returned ==> t.connects == s.connects + 1 && t.queue == s.queue)
  {
    RunComplete(setup, ss, steps, i);
    var s := Entered(ss[i]);
    if Asked(s.queue, PK_PASSPHRASE) {
      AskedHasResponses(s.queue, PK_PASSPHRASE);
      assert "pk_passphrase" in Names(PK_PASSPHRASE);
    }
    InitializeAddsNothing(setup, s, eval);
    ConnectPassesAllReads(setup, ss, steps, i, eval, accepted);
  }

  /** With a static challenge and without autologin no Connect call ever starts the client: each asks anew. */
  lemma StaticChallengeBlocks(setup: Setup, s: Session, eval: Eval, accepted: bool)
    requires eval.Evaluated? && !eval.autologin && eval.staticChallenge != []
    ensures ConnectFrom(setup, s, eval, accepted).1 == Threw
    ensures ConnectFrom(setup, s, eval, accepted).0.connects == s.connects
  {
    if s.content && KeyPassword(s).Ok? {
      InitializeAddsNothing(setup, s, eval);
    }
  }

  /** Neither does it with a required key passphrase of which the filter leaves nothing. */
  lemma EmptyPassphraseBlocks(setup: Setup, s: Session, eval: Eval, accepted: bool)
    requires eval.Evaluated? && eval.pkPasswordRequired && KeyPassword(s) == Ok("")
    ensures ConnectFrom(setup, s, eval, accepted).1 == Threw
    ensures ConnectFrom(setup, s, eval, accepted).0.connects == s.connects
  {
    if s.content {
      InitializeAddsNothing(setup, s, eval);
    }
  }
}
