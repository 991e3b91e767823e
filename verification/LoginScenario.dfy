/** A login from start to end (src/client/openvpn3-service-client.cpp). */
module LoginScenario {
  import opened Outcomes
  import opened TextFilter
  import opened RequestQueue
  import opened CoreEvents
  import opened ClientSession

  /** The profile needs a user name and password and nothing else. */
  predicate PlainLogin(eval: Eval) {
    eval.Evaluated? && !eval.autologin && eval.staticChallenge == "" && !eval.pkPasswordRequired
  }

  function LoginSlot(id: U32, name: string, description: string, hidden: bool, value: Option<string>): Slot {
    Slot(id, CREDENTIALS, USER_PASSWORD, name, if value.Some? then FilterCtrlChars(value.value, true) else "",
         description, hidden, value.Some?)
  }

  /** The queue of a login before, between and after the user name and the password have been provided. */
  function LoginQueue(username: Option<string>, password: Option<string>): Queue {
    Queue([LoginSlot(0, "username", "Auth User name", false, username),
           LoginSlot(1, "password", "Auth Password", true, password)],
          map[101 := 2])
  }

  lemma LoginCounts(username: Option<string>, password: Option<string>)
    ensures var slots := LoginQueue(username, password).slots;
      && Count(slots, CREDENTIALS, USER_PASSWORD) == 2
      && forall g: Code :: g != USER_PASSWORD ==> Count(slots, CREDENTIALS, g) == 0
  {
    var slots := LoginQueue(username, password).slots;
    assert slots[..1][..0] == [];
    forall g: Code | g != USER_PASSWORD ensures Count(slots, CREDENTIALS, g) == 0 {
      assert Count(slots[..1], CREDENTIALS, g) == 0;
    }
    assert Count(slots[..1], CREDENTIALS, USER_PASSWORD) == 1;
  }

  lemma LoginIsAsked(setup: Setup, eval: Eval)
    requires setup.flow == UsernamePassword && PlainLogin(eval)
    ensures ClientSession.Registered(setup, NEW_SESSION, true, true, eval) ==
            (NEW_SESSION.(registered := true, content := true, vpnclient := Some(NEW_CLIENT),
              queue := LoginQueue(None, None)), Returned)
  {
    var q := Added(EMPTY, CREDENTIALS, USER_PASSWORD, "username", "Auth User name", false);
    assert ReqidIndex(CREDENTIALS, USER_PASSWORD) == 101;
    assert q == Queue([LoginSlot(0, "username", "Auth User name", false, None)], map[101 := 1]);
    var r := Added(q, CREDENTIALS, USER_PASSWORD, "password", "Auth Password", true);
    assert r.reqids == map[101 := 2];
    assert r == LoginQueue(None, None);
  }

  lemma LoginIsFilled(username: string, password: string)
    ensures Updated(LoginQueue(None, None), CREDENTIALS, USER_PASSWORD, 0, username) ==
      Ok(LoginQueue(Some(username), None))
    ensures Updated(LoginQueue(Some(username), None), CREDENTIALS, USER_PASSWORD, 1, password)
            == Ok(LoginQueue(Some(username), Some(password)))
  {
    var q, r := LoginQueue(None, None), LoginQueue(Some(username), None);
    assert Pending(q.slots[0], CREDENTIALS, USER_PASSWORD) && Pending(r.slots[1], CREDENTIALS, USER_PASSWORD);
    assert FindId(q.slots, CREDENTIALS, USER_PASSWORD, 0) == 0;
    assert FindId(r.slots, CREDENTIALS, USER_PASSWORD, 1) == 1;
    assert q.slots[0 := Filled(q.slots[0], username)] == r.slots;
    assert r.slots[1 := Filled(r.slots[1], password)] == LoginQueue(Some(username), Some(password)).slots;
  }

  lemma LoginIsRead(setup: Setup, username: string, password: string)
    ensures AssembledCreds(setup, LoginQueue(Some(username), Some(password)), NO_CREDS)
            == Ok(NO_CREDS.(username := FilterCtrlChars(username, true), password := FilterCtrlChars(password, true)))
  {
    LoginCounts(Some(username), Some(password));
    var slots := LoginQueue(Some(username), Some(password)).slots;
    assert "username" != "password" by { assert "username"[0] != "password"[0]; }
    assert FindName(slots, CREDENTIALS, USER_PASSWORD, "username") == 0;
    assert FindName(slots, CREDENTIALS, USER_PASSWORD, "password") == 1;
  }

  /**
   * A login from start to end: after registration the user's name and password are asked for, and once both
   * are provided Connect starts the client with exactly those two, filtered.
   */
  lemma LoginReachesConnect(setup: Setup, ss: seq<Session>, steps: seq<Step>, username: string, password: string)
    requires IsSessionRun(setup, ss, steps) && |steps| == 4 && setup.flow == UsernamePassword
    requires steps[0].Register? && steps[0].tokenMatches && steps[0].fetched && PlainLogin(steps[0].eval)
    requires steps[1] == Provide(CREDENTIALS, USER_PASSWORD, 0, username) && username != ""
    requires steps[2] == Provide(CREDENTIALS, USER_PASSWORD, 1, password) && password != ""
    requires steps[3].Connect? && steps[3].observe(0) == ConnInit && PlainLogin(steps[3].eval) && steps[3].accepted
    ensures ss[4].connects == 1
    ensures ss[4].creds ==
      NO_CREDS.(username := FilterCtrlChars(username, true), password := FilterCtrlChars(password, true))
  {
    UpToProvided(setup, ss, steps, username, password);
    assert Follows(setup, ss, steps, 3);
    LoginConnects(setup, steps[3].eval, ss[3], steps[3].observe, username, password);
  }

  lemma UpToProvided(setup: Setup, ss: seq<Session>, steps: seq<Step>, username: string, password: string)
    requires IsSessionRun(setup, ss, steps) && |steps| >= 3 && setup.flow == UsernamePassword
    requires steps[0].Register? && steps[0].tokenMatches && steps[0].fetched && PlainLogin(steps[0].eval)
    requires steps[1] == Provide(CREDENTIALS, USER_PASSWORD, 0, username) && username != ""
    requires steps[2] == Provide(CREDENTIALS, USER_PASSWORD, 1, password) && password != ""
    ensures ss[3] == NEW_SESSION.(registered := true, content := true, vpnclient := Some(NEW_CLIENT),
                                  queue := LoginQueue(Some(username), Some(password)))
  {
    LoginIsAsked(setup, steps[0].eval);
    assert Follows(setup, ss, steps, 0);
    LoginIsFilled(username, password);
    NothingForwarded(Some(username), None);
    ProvidedQuietly(setup, ss[1], LoginQueue(Some(username), None), 0, username);
    assert Follows(setup, ss, steps, 1);
    NothingForwarded(Some(username), Some(password));
    ProvidedQuietly(setup, ss[2], LoginQueue(Some(username), Some(password)), 1, password);
    assert Follows(setup, ss, steps, 2);
  }

  /** With a fresh client and no pending authentication a value is stored and nothing else happens. */
  lemma ProvidedQuietly(setup: Setup, s: Session, q: Queue, id: U32, value: string)
    requires s.vpnclient == Some(NEW_CLIENT) && value != []
    requires Updated(s.queue, CREDENTIALS, USER_PASSWORD, id, value) == Ok(q)
    requires Forwarded(true, q) == Silent
    ensures Next(setup, s, Provide(CREDENTIALS, USER_PASSWORD, id, value)) == s.(queue := q)
  {
    assert s.replies + [] == s.replies;
    assert Entered(s) == s;
  }

  lemma NothingForwarded(username: Option<string>, password: Option<string>)
    ensures Forwarded(true, LoginQueue(username, password)) == Silent
  {
    LoginCounts(username, password);
  }

  lemma LoginConnects(setup: Setup, eval: Eval, s: Session, observe: nat -> Status, username: string, password: string)
    requires setup.flow == UsernamePassword && PlainLogin(eval) && observe(0) == ConnInit
    requires s.registered && s.content && s.vpnclient == Some(NEW_CLIENT) && s.creds == NO_CREDS
    requires s.queue == LoginQueue(Some(username), Some(password))
    ensures var t := ClientSession.Connected(setup, s, observe, eval, true).0;
      && t.connects == s.connects + 1
      && t.creds == NO_CREDS.(username := FilterCtrlChars(username, true), password := FilterCtrlChars(password, true))
  {
    LoginCounts(Some(username), Some(password));
    LoginIsRead(setup, username, password);
    var (t, ok) := Initialized(setup, s, eval);
    assert ok && t.queue == s.queue && t.creds == s.creds && t.connects == s.connects;
    assert GateAfter(observe, 0) == Proceed;
  }
}
