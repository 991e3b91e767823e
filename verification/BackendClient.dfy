/** The backend client object of one VPN session (src/client/openvpn3-service-client.cpp). */
module BackendClient {
  import opened Outcomes
  import opened RequestQueue
  import opened CoreEvents
  import opened ClientSession

  /**
   * The run status is read again while the connection is changing state, at most six times in all.
   * `observe` gives what each look sees, since the client's own thread may move the status in between.
   */
  method WaitForGate(observe: nat -> Status) returns (gate: Gate)
    ensures gate == GateAfter(observe, 0)
  {
    var canContinue := false;
    var i := 0;
    while !canContinue
      invariant i <= 5
      invariant GateAfter(observe, 0) == if canContinue then Proceed else GateAfter(observe, i)
      decreases if canContinue then 0 else 6 - i
    {
      match observe(i) {
        case CfgRequireUser | ConnInit =>
          canContinue := true;
        case ConnDisconnecting | ConnReconnecting =>
          i := i + 1;
          if i > 5 {
            return Busy;
          }
        case _ =>
          return Quiet;
      }
    }
    gate := Proceed;
  }

  class BackendClientObject {
    const setup: Setup
    const userInputQ: RequiresQueue
    var registered: bool
    var content: bool
    var vpnclient: CoreVpnClient?
    var pkPassword: string
    var creds: Creds
    var connects: nat
    ghost var challenges: seq<(string, Challenge)>
    ghost var replies: seq<string>

    function Client(): Option<CoreEvents.Client>
      reads this, vpnclient
    {
      if vpnclient == null then None else Some(vpnclient.Value())
    }

    ghost function State(): Session
      reads this, userInputQ, vpnclient
    {
      Session(registered, content, Client(), userInputQ.Value(), pkPassword, creds, connects, challenges, replies)
    }

    /** The client object fills the same queue, in which no group of credentials is half asked for. */
    ghost predicate Valid()
      reads this, userInputQ
    {
      && (vpnclient != null ==> vpnclient.userInputQ == userInputQ && vpnclient.atoi == setup.atoi)
      && Complete(userInputQ.slots)
    }

    constructor (setup: Setup)
      ensures Valid() && State() == NEW_SESSION && this.setup == setup && fresh(userInputQ)
    {
      this.setup := setup;
      userInputQ := new RequiresQueue();
      registered, content, vpnclient, pkPassword, creds, connects := false, false, null, "", NO_CREDS, 0;
      challenges, replies := [], [];
    }

    /** Any authorised method call comes through here first. */
    method Authorize()
      requires Valid()
      modifies this`vpnclient
      ensures Valid() && State() == Entered(old(State()))
      ensures vpnclient == null || vpnclient == old(vpnclient)
    {
      if vpnclient != null {
        match vpnclient.runStatus {
          case CfgRequireUser | ConnDisconnected | ConnFailed =>
            vpnclient := null;
          case _ =>
        }
      }
    }

    // ---------------------------------------------------------------- initialize_client

    method RequireLogin()
      modifies userInputQ
      ensures userInputQ.Value() == WithLogin(setup.flow, old(userInputQ.Value()))
    {
      if setup.flow == PasswordOnly {
        var n := userInputQ.QueueCount(CREDENTIALS, PASSWORD_ONLY);
        if n == 0 {
          var _ := userInputQ.RequireAdd(CREDENTIALS, PASSWORD_ONLY, "password", "Auth Password", true);
        }
      } else {
        var n := userInputQ.QueueCount(CREDENTIALS, USER_PASSWORD);
        if n == 0 {
          var _ := userInputQ.RequireAdd(CREDENTIALS, USER_PASSWORD, "username", "Auth User name", false);
          var _ := userInputQ.RequireAdd(CREDENTIALS, USER_PASSWORD, "password", "Auth Password", true);
        }
      }
    }

    /** What the evaluated profile needs from the user. */
    method RequireInputs(eval: Eval)
      requires eval.Evaluated?
      modifies userInputQ
      ensures userInputQ.Value() == QueueAfterEval(setup.flow, old(userInputQ.Value()), pkPassword, eval)
    {
      if !eval.autologin {
        RequireLogin();
        if eval.staticChallenge != [] {
          var _ := userInputQ.RequireAdd(CREDENTIALS, CHALLENGE_STATIC, "static_challenge", eval.staticChallenge,
                                         !eval.staticEcho);
        }
      }
      if eval.pkPasswordRequired && |pkPassword| == 0 {
        var _ := userInputQ.RequireAdd(CREDENTIALS, PK_PASSPHRASE, "pk_passphrase", "Private key passphrase", true);
      }
    }

    method ReadKeyPassword() returns (ok: bool)
      modifies this`pkPassword
      ensures ok <==> KeyPassword(old(State())).Ok?
      ensures pkPassword == if ok then KeyPassword(old(State())).value else old(pkPassword)
    {
      var n := userInputQ.QueueCount(CREDENTIALS, PK_PASSPHRASE);
      if n > 0 {
        var r := userInputQ.GetResponse(CREDENTIALS, PK_PASSPHRASE, "pk_passphrase");
        if r.Err? {
          return false;
        }
        pkPassword := r.value;
      }
      ok := true;
    }

    method InitializeClient(eval: Eval) returns (ok: bool)
      requires Valid()
      modifies this`vpnclient, this`pkPassword, userInputQ
      ensures Valid() && (State(), ok) == Initialized(setup, old(State()), eval)
      ensures vpnclient == old(vpnclient) || vpnclient == null || fresh(vpnclient)
    {
      ghost var before := State();
      if !content {
        return false;
      }
      vpnclient := new CoreVpnClient(setup.atoi, userInputQ);
      ok := ReadKeyPassword();
      if !ok {
        return;
      }
      match eval {
        case PreParseFails | ExternalPkiRequired =>
          ok := false;
        case EvalFails =>
          vpnclient := null;
          ok := false;
        case Evaluated(_, _, _, _) =>
          RequireInputs(eval);
      }
      InitializedComplete(setup, before, eval);
    }

    // ---------------------------------------------------------------- connect

    method ReadLogin() returns (ok: bool)
      modifies this`creds
      ensures ok <==> LoginCreds(setup, userInputQ.Value(), old(creds)).Ok?
      ensures ok ==> creds == LoginCreds(setup, userInputQ.Value(), old(creds)).value
    {
      var users := userInputQ.QueueCount(CREDENTIALS, USER_PASSWORD);
      var passwords := userInputQ.QueueCount(CREDENTIALS, PASSWORD_ONLY);
      if users > 0 {
        var name := userInputQ.GetResponse(CREDENTIALS, USER_PASSWORD, "username");
        if name.Err? {
          return false;
        }
        creds := creds.(username := name.value);
        var dynamic := userInputQ.QueueCount(CREDENTIALS, CHALLENGE_DYNAMIC);
        if dynamic == 0 {
          var password := userInputQ.GetResponse(CREDENTIALS, USER_PASSWORD, "password");
          if password.Err? {
            return false;
          }
          creds := creds.(password := password.value);
        }
        var static_ := userInputQ.QueueCount(CREDENTIALS, CHALLENGE_STATIC);
        if static_ > 0 {
          var response := userInputQ.GetResponse(CREDENTIALS, CHALLENGE_STATIC, "static_challenge");
          if response.Err? {
            return false;
          }
          creds := creds.(response := response.value);
        }
      } else if passwords > 0 {
        creds := creds.(username := setup.profileUsername);
        var password := userInputQ.GetResponse(CREDENTIALS, PASSWORD_ONLY, "password");
        if password.Err? {
          return false;
        }
        creds := creds.(password := password.value);
      }
      ok := true;
    }

    method ReadChallenge() returns (ok: bool)
      modifies this`creds
      ensures ok <==> ChallengeCreds(userInputQ.Value(), old(creds)).Ok?
      ensures ok ==> creds == ChallengeCreds(userInputQ.Value(), old(creds)).value
    {
      var n := userInputQ.QueueCount(CREDENTIALS, CHALLENGE_DYNAMIC);
      if n > 0 {
        var cookie := userInputQ.GetResponse(CREDENTIALS, CHALLENGE_DYNAMIC, "dynamic_challenge_cookie");
        if cookie.Err? {
          return false;
        }
        creds := creds.(cookie := cookie.value);
        var response := userInputQ.GetResponse(CREDENTIALS, CHALLENGE_DYNAMIC, "dynamic_challenge");
        if response.Err? {
          return false;
        }
        creds := creds.(response := response.value);
      }
      ok := true;
    }

    method ReadProxy() returns (ok: bool)
      modifies this`creds
      ensures ok <==> ProxyCreds(userInputQ.Value(), old(creds)).Ok?
      ensures ok ==> creds == ProxyCreds(userInputQ.Value(), old(creds)).value
    {
      var n := userInputQ.QueueCount(CREDENTIALS, HTTP_PROXY_CREDS);
      if n > 0 {
        var user := userInputQ.GetResponse(CREDENTIALS, HTTP_PROXY_CREDS, "http_proxy_user");
        if user.Err? {
          return false;
        }
        creds := creds.(proxyUser := user.value);
        var pass := userInputQ.GetResponse(CREDENTIALS, HTTP_PROXY_CREDS, "http_proxy_pass");
        if pass.Err? {
          return false;
        }
        creds := creds.(proxyPass := pass.value);
      }
      ok := true;
    }

    /** Whether some credentials have to be handed to the Core library. */
    method ProvideCreds() returns (provide: bool)
      ensures provide <==> HandsOver(userInputQ.Value())
    {
      var users := userInputQ.QueueCount(CREDENTIALS, USER_PASSWORD);
      var passwords := userInputQ.QueueCount(CREDENTIALS, PASSWORD_ONLY);
      var dynamic := userInputQ.QueueCount(CREDENTIALS, CHALLENGE_DYNAMIC);
      var proxy := userInputQ.QueueCount(CREDENTIALS, HTTP_PROXY_CREDS);
      provide := users > 0 || passwords > 0 || dynamic > 0 || proxy > 0;
    }

    /**
     * Reads every credential that was asked for, hands them to the Core library and starts the client thread;
     * `accepted` is the library's verdict on them.
     */
    method Connect(accepted: bool) returns (ok: bool)
      modifies this`creds, this`connects
      ensures var all := AssembledCreds(setup, userInputQ.Value(), old(creds));
        && (ok <==> all.Ok? && (accepted || !HandsOver(userInputQ.Value())))
        && (all.Ok? ==> creds == all.value)
      ensures connects == if ok then old(connects) + 1 else old(connects)
    {
      ok := ReadLogin();
      if ok {
        ok := ReadChallenge();
      }
      if ok {
        ok := ReadProxy();
      }
      if ok {
        var provide := ProvideCreds();
        ok := accepted || !provide;
        if ok {
          connects := connects + 1;
        }
      }
    }

    /** `cb_connect`: past the check that everything is provided, no read fails. */
    method CbConnect(observe: nat -> Status, eval: Eval, accepted: bool) returns (reply: Reply)
      requires Valid()
      modifies this, userInputQ
      ensures Valid() && (State(), reply) == ClientSession.Connected(setup, old(State()), observe, eval, accepted)
      ensures vpnclient == old(vpnclient) || vpnclient == null || fresh(vpnclient)
    {
      if !registered {
        return Threw;
      }
      if vpnclient != null {
        var gate := WaitForGate(observe);
        if gate == Quiet {
          return Returned;
        }
        if gate == Busy {
          return Threw;
        }
      }
      reply := ConnectNow(eval, accepted);
    }

    method ConnectNow(eval: Eval, accepted: bool) returns (reply: Reply)
      requires Valid()
      modifies this, userInputQ
      ensures Valid() && (State(), reply) == ConnectFrom(setup, old(State()), eval, accepted)
      ensures vpnclient == old(vpnclient) || vpnclient == null || fresh(vpnclient)
    {
      var ok := InitializeClient(eval);
      if !ok {
        return Threw;
      }
      reply := Launch(accepted);
    }

    method Launch(accepted: bool) returns (reply: Reply)
      requires Valid()
      modifies this`creds, this`connects
      ensures Valid() && (State(), reply) == Launched(setup, old(State()), accepted)
    {
      var done := userInputQ.QueueAllDone();
      if !done {
        return Threw;
      }
      CredsAreFound(setup, userInputQ.Value(), creds);
      var started := Connect(accepted);
      reply := if started then Returned else Threw;
    }

    // ---------------------------------------------------------------- the other steps

    method CbRegistrationConfirmation(tokenMatches: bool, fetched: bool, eval: Eval) returns (reply: Reply)
      requires Valid()
      modifies this, userInputQ
      ensures Valid() && (State(), reply) == Registered(setup, old(State()), tokenMatches, fetched, eval)
      ensures vpnclient == old(vpnclient) || vpnclient == null || fresh(vpnclient)
    {
      if registered {
        return Threw;
      }
      registered := tokenMatches;
      if !registered {
        return Threw;
      }
      content := fetched;
      var ok := InitializeClient(eval);
      reply := if ok then Returned else Threw;
    }

    /** A response from the front-end, followed by the callback that forwards a pending authentication. */
    method UserInputProvide(kind: Code, group: Code, id: U32, value: string) returns (reply: Reply)
      requires Valid()
      modifies userInputQ, this`replies
      ensures Valid() && (State(), reply) == Provided(old(State()), kind, group, id, value)
    {
      ghost var before := State();
      ghost var r := if value == [] then Err("") else Updated(userInputQ.Value(), kind, group, id, value);
      var ok := userInputQ.ProvideResponse(kind, group, id, value, Callback(vpnclient != null));
      if r.Ok? {
        replies := replies + Replies(Forwarded(vpnclient != null, r.value));
      }
      CompleteShape(before.queue.slots, userInputQ.slots);
      reply := if ok then Returned else Threw;
    }

    /** The client object handles the event; what it adds to the record of challenges and replies follows. */
    method HandleEvent(source: CoreVpnClient, ev: CoreEvent)
      requires source.userInputQ == userInputQ && source.atoi == setup.atoi
      modifies source, userInputQ, this`challenges, this`replies
      ensures source.Value() ==
        React(setup.atoi, vpnclient != null, old(source.Value()), old(userInputQ.Value()), ev).client
      ensures userInputQ.Value() ==
        React(setup.atoi, vpnclient != null, old(source.Value()), old(userInputQ.Value()), ev).queue
      ensures challenges == old(challenges) +
        (if ev.DynamicChallenge? && ev.parsed.Some? then [(ev.cookie, ev.parsed.value)] else [])
      ensures replies == old(replies) + EventReplies(vpnclient != null, old(userInputQ.Value()), ev)
    {
      ghost var queue := userInputQ.Value();
      var _ := source.Event(vpnclient != null, ev);
      if ev.DynamicChallenge? && ev.parsed.Some? {
        challenges := challenges + [(ev.cookie, ev.parsed.value)];
      }
      replies := replies + EventReplies(vpnclient != null, queue, ev);
    }

    /** An event on the thread of the current client object, or of one that has been replaced meanwhile. */
    method ClientEvent(source: CoreVpnClient, ev: CoreEvent)
      requires Valid() && source.userInputQ == userInputQ && source.atoi == setup.atoi
      modifies source, userInputQ, this`challenges, this`replies
      ensures Valid()
      ensures State() ==
        Happened(setup, old(State()), if source == vpnclient then None else Some(old(source.Value())), ev)
    {
      EventComplete(setup, vpnclient != null, source.Value(), userInputQ.Value(), ev);
      HandleEvent(source, ev);
    }
  }
}
