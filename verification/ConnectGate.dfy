/**
 * When a Connect call does anything, and what a client process does only once
 * (src/client/openvpn3-service-client.cpp).
 */
module ConnectGate {
  import opened Outcomes
  import opened TextFilter
  import opened RequestQueue
  import opened CoreEvents
  import opened ClientSession

  // ---------------------------------------------------------------- what a Connect call does

  /** The status does not change while a Connect call looks at it. */
  ghost predicate Steady(s: Session, observe: nat -> Status) {
    s.vpnclient.Some? ==> forall k: nat :: observe(k) == s.vpnclient.value.runStatus
  }

  predicate ClientIn(s: Session, statuses: set<Status>) {
    s.vpnclient.Some? && s.vpnclient.value.runStatus in statuses
  }

  /** The session is running, pending or failed to authenticate: the call is ignored. */
  predicate Ignored(s: Session) {
    s.registered && ClientIn(s, {ConnConnecting, ConnConnected, ConnAuthFailed, SessAuthChallenge, SessAuthUrl})
  }

  /** The process is not registered, or the connection keeps changing state: the call throws. */
  predicate Refused(s: Session) {
    !s.registered || ClientIn(s, {ConnDisconnecting, ConnReconnecting})
  }

  /** There is no client object, or a fresh or ended one: the call sets up a new one. */
  predicate Restarts(s: Session) {
    s.registered && (s.vpnclient.None? || ClientIn(s, {CfgRequireUser, ConnInit, ConnDisconnected, ConnFailed}))
  }

  /**
   * Exactly one of the three happens.  In particular Connect returns normally without any effect if and only
   * if the session is running, pending or failed to authenticate.
   */
  lemma ConnectOutcome(setup: Setup, s: Session, observe: nat -> Status, eval: Eval, accepted: bool)
    requires Steady(Entered(s), observe)
    ensures Restarts(s) || Refused(s) || Ignored(s)
    ensures !(Restarts(s) && Refused(s)) && !(Restarts(s) && Ignored(s)) && !(Refused(s) && Ignored(s))
    ensures var r := ClientSession.Connected(setup, Entered(s), observe, eval, accepted);
      && (Restarts(s) ==> r == ConnectFrom(setup, Entered(s), eval, accepted))
      && (Refused(s) ==> r == (Entered(s), Threw))
      && (r == (Entered(s), Returned) <==> Ignored(s))
  {
    var e := Entered(s);
    if e.vpnclient.Some? {
      GateOfSteady(observe, e.vpnclient.value.runStatus, 0);
    }
    if Restarts(s) {
      StartCounts(setup, e, eval, accepted);
    }
  }

  lemma {:induction false} GateOfSteady(observe: nat -> Status, status: Status, looks: nat)
    requires forall k: nat :: observe(k) == status
    requires looks <= 6
    ensures GateAfter(observe, looks) == if looks == 6 then Busy else GateOf(status)
    decreases 6 - looks
  {
    if looks < 6 {
      GateOfSteady(observe, status, looks + 1);
    }
  }

  /** A start is counted, so a normal return without any effect is no start. */
  lemma StartCounts(setup: Setup, s: Session, eval: Eval, accepted: bool)
    ensures var r := ConnectFrom(setup, s, eval, accepted);
      r.1 == Returned ==> r.0.connects == s.connects + 1
  {
  }

  // ---------------------------------------------------------------- after a failed authentication

  /** The client object has reported a failed authentication. */
  predicate Blocked(s: Session) {
    s.registered && ClientIn(s, {ConnAuthFailed})
  }

  /**
   * The events of a client that failed to authenticate that move its status, from the event, the queue and
   * whether the client has been connected.  DISCONNECTED is none of them.
   */
  predicate MovesStatus(c: Client, q: Queue, ev: CoreEvent) {
    match ev
    case DynamicChallenge(cookie, parsed) =>
      && parsed.Some? && ChallengeStored(q, cookie, parsed.value).Ok?
      && !Forwarded(true, ChallengeStored(q, cookie, parsed.value).value).Fails?
    case Info(text) =>
      var kind := KindOfInfo(text, c.authPendingTimeout != 0);
      kind == OpenUrl || (kind == CrTextRequest && ParsedCrText(text).valid && ParsedCrText(text).response)
    case Reconnecting => !c.initialConnection
    case AuthFailed | AuthPending(_) | Disconnected | Logged => false
    case _ => true
  }

  /** Nothing but an event of the current client object can end the state. */
  predicate Moves(s: Session, step: Step) {
    step.Event? && step.older.None? && s.vpnclient.Some? && MovesStatus(s.vpnclient.value, s.queue, step.ev)
  }

  /** The first look of a Connect call sees the current status. */
  predicate SeesStatus(s: Session, step: Step) {
    step.Connect? && s.vpnclient.Some? ==> step.observe(0) == s.vpnclient.value.runStatus
  }

  lemma EventMoves(setup: Setup, c: Client, q: Queue, ev: CoreEvent)
    requires c.runStatus == ConnAuthFailed
    ensures React(setup.atoi, true, c, q, ev).client.runStatus != ConnAuthFailed <==> MovesStatus(c, q, ev)
  {
    if ev.Info? && KindOfInfo(ev.text, c.authPendingTimeout != 0) == CrTextRequest {
      assert React(setup.atoi, true, c, q, ev) == ReactToCrText(c, q, ev.text);
    }
  }

  /** One step ends the state if and only if it is an event of the current client that moves the status. */
  lemma BlockedStep(setup: Setup, s: Session, step: Step)
    requires Blocked(s) && SeesStatus(s, step)
    ensures Blocked(Next(setup, s, step)) <==> !Moves(s, step)
    ensures !Moves(s, step) ==> Next(setup, s, step).connects == s.connects
  {
    assert Entered(s) == s;
    if step.Connect? {
      BlockedConnect(setup, s, step);
    } else if step.Event? && step.older.None? {
      EventMoves(setup, s.vpnclient.value, s.queue, step.ev);
    }
  }

  lemma BlockedConnect(setup: Setup, s: Session, step: Step)
    requires Blocked(s) && step.Connect? && SeesStatus(s, step)
    ensures Entered(s) == s
    ensures ClientSession.Connected(setup, s, step.observe, step.eval, step.accepted) == (s, Returned)
  {
    assert GateAfter(step.observe, 0) == Quiet;
  }

  lemma {:induction false} BlockedLasts(setup: Setup, ss: seq<Session>, steps: seq<Step>, i: nat, j: nat)
    requires IsSessionRun(setup, ss, steps) && i <= j <= |steps| && Blocked(ss[i])
    requires forall k :: i <= k < j ==> SeesStatus(ss[k], steps[k]) && !Moves(ss[k], steps[k])
    ensures Blocked(ss[j]) && ss[j].connects == ss[i].connects
  {
    if i < j {
      BlockedLasts(setup, ss, steps, i, j - 1);
      BlockedStep(setup, ss[j - 1], steps[j - 1]);
      assert Follows(setup, ss, steps, j - 1);
    }
  }

  lemma {:induction false} ClientIsRegistered(setup: Setup, ss: seq<Session>, steps: seq<Step>, i: nat)
    requires IsSessionRun(setup, ss, steps) && i <= |steps| && ss[i].vpnclient.Some?
    ensures ss[i].registered
  {
    if i > 0 {
      assert Follows(setup, ss, steps, i - 1);
      if ss[i - 1].vpnclient.Some? {
        ClientIsRegistered(setup, ss, steps, i - 1);
      }
    }
  }

  /**
   * From an AUTH_FAILED event on, every Connect call returns normally without doing anything, until an event
   * of the client moves the status; a DISCONNECTED event does not.
   */
  lemma AuthFailedBlocksConnect(setup: Setup, ss: seq<Session>, steps: seq<Step>, i: nat, j: nat)
    requires IsSessionRun(setup, ss, steps) && i < j < |steps|
    requires ss[i].vpnclient.Some? && steps[i] == Event(None, AuthFailed)
    requires forall k :: i < k <= j ==> SeesStatus(ss[k], steps[k]) && !Moves(ss[k], steps[k])
    requires steps[j].Connect?
    ensures ss[j + 1] == ss[j] && ss[j].connects == ss[i].connects
    ensures ClientSession.Connected(setup, Entered(ss[j]), steps[j].observe, steps[j].eval, steps[j].accepted).1 ==
      Returned
  {
    ClientIsRegistered(setup, ss, steps, i);
    assert Follows(setup, ss, steps, i);
    BlockedLasts(setup, ss, steps, i + 1, j);
    BlockedConnect(setup, ss[j], steps[j]);
    assert Follows(setup, ss, steps, j);
  }

  // ---------------------------------------------------------------- one session per process

  /** The step in which the process tells the log service its session. */
  predicate AssignsSession(s: Session, step: Step) {
    step.Register? && !s.registered && step.tokenMatches
  }

  lemma {:induction false} RegisteredStays(setup: Setup, ss: seq<Session>, steps: seq<Step>, i: nat, j: nat)
    requires IsSessionRun(setup, ss, steps) && i <= j <= |steps| && ss[i].registered
    ensures ss[j].registered
  {
    if i < j {
      RegisteredStays(setup, ss, steps, i, j - 1);
      assert Follows(setup, ss, steps, j - 1);
    }
  }

  /** It does so at most once. */
  lemma SessionAssignedOnce(setup: Setup, ss: seq<Session>, steps: seq<Step>, i: nat, j: nat)
    requires IsSessionRun(setup, ss, steps) && i < j < |steps| && AssignsSession(ss[i], steps[i])
    ensures !AssignsSession(ss[j], steps[j])
  {
    assert Follows(setup, ss, steps, i);
    RegisteredStays(setup, ss, steps, i + 1, j);
  }
}
