/**
 * A proxy that asks for credentials, and a login with a password alone, from start to end
 * (src/client/openvpn3-service-client.cpp, src/client/core-client.hpp).
 */
module CredentialScenarios {
  import opened Outcomes
  import opened TextFilter
  import opened RequestQueue
  import opened CoreEvents
  import opened ClientSession
  import opened Questions
  import opened Credentials
  import LoginScenario
  import PendingScenario

  function SlotFor(id: U32, x: Question, value: Option<string>): Slot {
    Slot(id, CREDENTIALS, x.group, x.name, if value.Some? then FilterCtrlChars(value.value, true) else "",
         x.description, x.hidden, value.Some?)
  }

  /** A new session with its profile, before anything has been asked. */
  const FETCHED: Session := NEW_SESSION.(registered := true, content := true, vpnclient := Some(NEW_CLIENT))

  // ---------------------------------------------------------------- a proxy

  function ProxyQueue(user: Option<string>, pass: Option<string>): Queue {
    Queue([SlotFor(0, PROXY_USER, user), SlotFor(1, PROXY_PASSWORD, pass)], map[102 := 2])
  }

  lemma ProxyCounts(user: Option<string>, pass: Option<string>)
    ensures var slots := ProxyQueue(user, pass).slots;
      && Count(slots, CREDENTIALS, HTTP_PROXY_CREDS) == 2
      && forall g: Code :: g != HTTP_PROXY_CREDS ==> Count(slots, CREDENTIALS, g) == 0
  {
    var slots := ProxyQueue(user, pass).slots;
    assert slots[..1][..0] == [];
    forall g: Code | g != HTTP_PROXY_CREDS ensures Count(slots, CREDENTIALS, g) == 0 {
      assert Count(slots[..1], CREDENTIALS, g) == 0;
    }
    assert Count(slots[..1], CREDENTIALS, HTTP_PROXY_CREDS) == 1;
  }

  lemma ProxyIsAsked(setup: Setup)
    ensures Next(setup, FETCHED, Event(None, ProxyNeedCreds)) ==
      FETCHED.(vpnclient := Some(NEW_CLIENT.(runStatus := CfgRequireUser)), queue := ProxyQueue(None, None))
  {
    var q := Added(EMPTY, CREDENTIALS, HTTP_PROXY_CREDS, "http_proxy_user", "HTTP proxy username", false);
    assert q == Queue([SlotFor(0, PROXY_USER, None)], map[102 := 1]);
    var r := Added(q, CREDENTIALS, HTTP_PROXY_CREDS, "http_proxy_pass", "HTTP proxy password", true);
    assert r.reqids == map[102 := 2];
    assert r == ProxyQueue(None, None);
  }

  lemma ProxyIsFilled(user: string, pass: string)
    ensures Updated(ProxyQueue(None, None), CREDENTIALS, HTTP_PROXY_CREDS, 0, user) == Ok(ProxyQueue(Some(user), None))
    ensures Updated(ProxyQueue(Some(user), None), CREDENTIALS, HTTP_PROXY_CREDS, 1, pass) ==
      Ok(ProxyQueue(Some(user), Some(pass)))
  {
    var q, r := ProxyQueue(None, None), ProxyQueue(Some(user), None);
    assert Pending(q.slots[0], CREDENTIALS, HTTP_PROXY_CREDS) && Pending(r.slots[1], CREDENTIALS, HTTP_PROXY_CREDS);
    assert FindId(q.slots, CREDENTIALS, HTTP_PROXY_CREDS, 0) == 0;
    assert FindId(r.slots, CREDENTIALS, HTTP_PROXY_CREDS, 1) == 1;
    assert q.slots[0 := Filled(q.slots[0], user)] == r.slots;
    assert r.slots[1 := Filled(r.slots[1], pass)] == ProxyQueue(Some(user), Some(pass)).slots;
  }

  /** Nothing is forwarded: the session has no client object or no pending authentication. */
  lemma ProvidedOnly(setup: Setup, s: Session, q: Queue, group: Code, id: U32, value: string)
    requires value != [] && Updated(s.queue, CREDENTIALS, group, id, value) == Ok(q)
    requires Count(q.slots, CREDENTIALS, CHALLENGE_AUTH_PENDING) == 0
    ensures Next(setup, s, Provide(CREDENTIALS, group, id, value)) == Entered(s).(queue := q)
  {
    assert s.replies + [] == s.replies;
  }

  lemma ProxyTexts(user: string, pass: string)
    ensures var q := ProxyQueue(Some(user), Some(pass));
      && TextOf(q, HTTP_PROXY_CREDS, "http_proxy_user") == FilterCtrlChars(user, true)
      && TextOf(q, HTTP_PROXY_CREDS, "http_proxy_pass") == FilterCtrlChars(pass, true)
  {
    var slots := ProxyQueue(Some(user), Some(pass)).slots;
    assert "http_proxy_user" != "http_proxy_pass" by { assert "http_proxy_user"[11] != "http_proxy_pass"[11]; }
    assert slots[0].name == "http_proxy_user" && slots[1].name == "http_proxy_pass";
    assert FindName(slots, CREDENTIALS, HTTP_PROXY_CREDS, "http_proxy_user") == 0;
    assert FindName(slots, CREDENTIALS, HTTP_PROXY_CREDS, "http_proxy_pass") == 1;
  }

  lemma ProxyConnects(setup: Setup, s: Session, observe: nat -> Status, user: string, pass: string)
    requires s == FETCHED.(vpnclient := None, queue := ProxyQueue(Some(user), Some(pass)))
    ensures Next(setup, s, Connect(observe, PendingScenario.AUTOLOGIN, true)) ==
      s.(vpnclient := Some(NEW_CLIENT), connects := 1,
         creds := NO_CREDS.(proxyUser := FilterCtrlChars(user, true), proxyPass := FilterCtrlChars(pass, true)))
  {
    ProxyCounts(Some(user), Some(pass));
    ProxyTexts(user, pass);
    var (t, ok) := Initialized(setup, s, PendingScenario.AUTOLOGIN);
    assert ok && t == s.(vpnclient := Some(NEW_CLIENT));
    ProxyStarts(setup, t, user, pass);
  }

  lemma ProxyStarts(setup: Setup, t: Session, user: string, pass: string)
    requires t.queue == ProxyQueue(Some(user), Some(pass)) && t.creds == NO_CREDS
    ensures Launched(setup, t, true) ==
      (t.(connects := t.connects + 1,
          creds := NO_CREDS.(proxyUser := FilterCtrlChars(user, true), proxyPass := FilterCtrlChars(pass, true))),
       Returned)
  {
    ProxyCounts(Some(user), Some(pass));
    ProxyTexts(user, pass);
  }

  /**
   * A proxy that asks for credentials: the event drops the client with the next call, and once both are provided
   * Connect starts a new one with exactly that proxy user and that proxy password, filtered, and nothing else.
   */
  lemma ProxyReachesConnect(setup: Setup, ss: seq<Session>, steps: seq<Step>, user: string, pass: string)
    requires IsSessionRun(setup, ss, steps) && |steps| == 5
    requires steps[0] == Register(true, true, PendingScenario.AUTOLOGIN) && steps[1] == Event(None, ProxyNeedCreds)
    requires steps[2] == Provide(CREDENTIALS, HTTP_PROXY_CREDS, 0, user) && user != ""
    requires steps[3] == Provide(CREDENTIALS, HTTP_PROXY_CREDS, 1, pass) && pass != ""
    requires steps[4].Connect? && steps[4].eval == PendingScenario.AUTOLOGIN && steps[4].accepted
    ensures ss[5].connects == 1 && ss[5].vpnclient == Some(NEW_CLIENT)
    ensures ss[5].creds == Creds("", "", "", "", FilterCtrlChars(user, true), FilterCtrlChars(pass, true))
  {
    ProxyUpToProvided(setup, ss, steps, user, pass);
    assert Follows(setup, ss, steps, 4);
    ProxyConnects(setup, ss[4], steps[4].observe, user, pass);
  }

  lemma ProxyUpToProvided(setup: Setup, ss: seq<Session>, steps: seq<Step>, user: string, pass: string)
    requires IsSessionRun(setup, ss, steps) && |steps| >= 4
    requires steps[0] == Register(true, true, PendingScenario.AUTOLOGIN) && steps[1] == Event(None, ProxyNeedCreds)
    requires steps[2] == Provide(CREDENTIALS, HTTP_PROXY_CREDS, 0, user) && user != ""
    requires steps[3] == Provide(CREDENTIALS, HTTP_PROXY_CREDS, 1, pass) && pass != ""
    ensures ss[4] == FETCHED.(vpnclient := None, queue := ProxyQueue(Some(user), Some(pass)))
  {
    assert Follows(setup, ss, steps, 0) && Follows(setup, ss, steps, 1);
    assert ss[1] == FETCHED;
    ProxyIsAsked(setup);
    ProxyIsFilled(user, pass);
    ProxyCounts(Some(user), None);
    ProxyCounts(Some(user), Some(pass));
    ProvidedOnly(setup, ss[2], ProxyQueue(Some(user), None), HTTP_PROXY_CREDS, 0, user);
    assert Follows(setup, ss, steps, 2);
    ProvidedOnly(setup, ss[3], ProxyQueue(Some(user), Some(pass)), HTTP_PROXY_CREDS, 1, pass);
    assert Follows(setup, ss, steps, 3);
  }

  // ---------------------------------------------------------------- a password alone

  function PasswordQueue(value: Option<string>): Queue {
    Queue([SlotFor(0, ONLY_PASSWORD, value)], map[110 := 1])
  }

  lemma PasswordCounts(value: Option<string>)
    ensures forall g: Code :: Count(PasswordQueue(value).slots, CREDENTIALS, g) == if g == PASSWORD_ONLY then 1 else 0
  {
    var slots := PasswordQueue(value).slots;
    assert slots[..0] == [];
  }

  lemma PasswordIsAsked(setup: Setup, eval: Eval)
    requires setup.flow == PasswordOnly && LoginScenario.PlainLogin(eval)
    ensures Next(setup, NEW_SESSION, Register(true, true, eval)) == FETCHED.(queue := PasswordQueue(None))
  {
    var q := Added(EMPTY, CREDENTIALS, PASSWORD_ONLY, "password", "Auth Password", true);
    assert q == PasswordQueue(None);
  }

  lemma PasswordIsFilled(password: string)
    ensures Updated(PasswordQueue(None), CREDENTIALS, PASSWORD_ONLY, 0, password) == Ok(PasswordQueue(Some(password)))
  {
    var q := PasswordQueue(None);
    assert Pending(q.slots[0], CREDENTIALS, PASSWORD_ONLY);
    assert FindId(q.slots, CREDENTIALS, PASSWORD_ONLY, 0) == 0;
    assert q.slots[0 := Filled(q.slots[0], password)] == PasswordQueue(Some(password)).slots;
  }

  lemma PasswordConnects(setup: Setup, s: Session, observe: nat -> Status, eval: Eval, password: string)
    requires setup.flow == PasswordOnly && LoginScenario.PlainLogin(eval) && observe(0) == ConnInit
    requires s == FETCHED.(queue := PasswordQueue(Some(password)))
    ensures var t := Next(setup, s, Connect(observe, eval, true));
      && t.connects == 1
      && t.creds == NO_CREDS.(username := setup.profileUsername, password := FilterCtrlChars(password, true))
  {
    PasswordCounts(Some(password));
    assert GateAfter(observe, 0) == Proceed;
    assert FindName(s.queue.slots, CREDENTIALS, PASSWORD_ONLY, "password") == 0;
    var (t, ok) := Initialized(setup, s, eval);
    assert ok && t == s;
  }

  /**
   * Where the certificate names the user only a password is asked for; Connect hands over that password, filtered,
   * with the user name of the profile.
   */
  lemma PasswordReachesConnect(setup: Setup, ss: seq<Session>, steps: seq<Step>, password: string)
    requires IsSessionRun(setup, ss, steps) && |steps| == 3 && setup.flow == PasswordOnly
    requires steps[0].Register? && steps[0].tokenMatches && steps[0].fetched && LoginScenario.PlainLogin(steps[0].eval)
    requires steps[1] == Provide(CREDENTIALS, PASSWORD_ONLY, 0, password) && password != ""
    requires steps[2].Connect? && steps[2].observe(0) == ConnInit && steps[2].accepted
    requires LoginScenario.PlainLogin(steps[2].eval)
    ensures ss[3].connects == 1
    ensures ss[3].creds == Creds(setup.profileUsername, FilterCtrlChars(password, true), "", "", "", "")
  {
    assert Follows(setup, ss, steps, 0);
    PasswordIsAsked(setup, steps[0].eval);
    PasswordIsFilled(password);
    PasswordCounts(Some(password));
    ProvidedOnly(setup, ss[1], PasswordQueue(Some(password)), PASSWORD_ONLY, 0, password);
    assert Follows(setup, ss, steps, 1);
    PasswordConnects(setup, ss[2], steps[2].observe, steps[2].eval, password);
    assert Follows(setup, ss, steps, 2);
  }
}
