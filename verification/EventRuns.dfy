/** What holds over every sequence of events of one client object (src/client/core-client.hpp). */
module EventRuns {
  import opened Outcomes
  import opened RequestQueue
  import opened CoreEvents

  /**
   * `events[i]` meets client `clients[i]`, whatever queue `queues[i]` other callers have left, and a backend
   * that has a client object installed or not; it sends `sent[i]` and leaves `clients[i + 1]`.
   */
  datatype Trace = Trace(
    clients: seq<Client>, queues: seq<Queue>, installed: seq<bool>, events: seq<CoreEvent>, sent: seq<seq<Status>>)

  ghost predicate Shaped(t: Trace) {
    && |t.clients| == |t.events| + 1 && |t.queues| == |t.installed| == |t.sent| == |t.events|
    && t.clients[0] == NEW_CLIENT
  }

  function ReactionAt(atoi: string -> int, t: Trace, i: nat): Reaction
    requires Shaped(t) && i < |t.events|
  {
    React(atoi, t.installed[i], t.clients[i], t.queues[i], t.events[i])
  }

  ghost predicate IsEventRun(atoi: string -> int, t: Trace) {
    && Shaped(t)
    && forall i :: 0 <= i < |t.events| ==>
         t.clients[i + 1] == ReactionAt(atoi, t, i).client && t.sent[i] == ReactionAt(atoi, t, i).sent
  }

  // ---------------------------------------------------------------- one event

  /** The events that set the flag for a reported failure; `pending` tells whether an authentication is pending. */
  predicate Flags(pending: bool, ev: CoreEvent) {
    match ev
    case CompressError | TunSetupFailed | TunIfaceCreate | TunIfaceDisabled | AuthFailed | CertVerifyFail
       | TlsVersionMin | TlsSigAlg | TlsAlertMisc | ProxyError => true
    case Info(text) => KindOfInfo(text, pending) == CrTextRequest && !ParsedCrText(text).valid
    case _ => false
  }

  predicate AsksForInput(ev: CoreEvent) {
    ev.DynamicChallenge? || ev.ProxyNeedCreds?
  }

  /** How an event changes the flags of a client. */
  predicate FlagsChange(atoi: string -> int, c: Client, ev: CoreEvent, d: Client) {
    && (d.failedSignalSent <==> c.failedSignalSent || Flags(c.authPendingTimeout != 0, ev))
    && (d.initialConnection <==> c.initialConnection && !ev.Connected?)
    && d.authPendingTimeout == (if ev.AuthPending? then PendingTimeout(atoi, ev.info) else c.authPendingTimeout)
  }

  /** How the status it leaves and the status it sends go together. */
  predicate StatusChange(c: Client, ev: CoreEvent, d: Client, sent: seq<Status>) {
    && |sent| <= 1
    && (sent == [] ==> d.runStatus == c.runStatus)
    && (sent != [] ==> d.runStatus == if ev.Info? && sent[0] == CfgRequireUser then SessAuthChallenge else sent[0])
    && (d.runStatus == ConnAuthFailed ==> c.runStatus == ConnAuthFailed || d.failedSignalSent)
  }

  predicate SuppressesDisconnect(c: Client) {
    c.failedSignalSent || c.runStatus == ConnAuthFailed || c.runStatus == CfgRequireUser
  }

  /** Which events send the statuses the results are about. */
  predicate StatusSent(c: Client, ev: CoreEvent, sent: seq<Status>) {
    && (ConnReconnecting in sent ==> !c.initialConnection)
    && (ev.Connected? ==> sent == [ConnConnected])
    && (ev.ClientHalt? ==> sent == [ConnFailed])
    && (sent == [CfgRequireUser] ==> AsksForInput(ev) || ev.Info?)
    && (AsksForInput(ev) && sent != [] ==> sent == [CfgRequireUser])
    && (sent == [ConnFailed] ==> Flags(c.authPendingTimeout != 0, ev) || ev.ClientHalt?)
    && (ConnDisconnected in sent ==> ev.Disconnected?)
    && (ev.Disconnected? ==> sent == if SuppressesDisconnect(c) then [] else [ConnDisconnected])
  }

  predicate Possible(atoi: string -> int, c: Client, ev: CoreEvent, d: Client, sent: seq<Status>) {
    FlagsChange(atoi, c, ev, d) && StatusChange(c, ev, d, sent) && StatusSent(c, ev, sent)
  }

  /** What a single event can do, whatever its kind. */
  lemma OneEvent(atoi: string -> int, installed: bool, c: Client, q: Queue, ev: CoreEvent)
    ensures var r := React(atoi, installed, c, q, ev);
      Possible(atoi, c, ev, r.client, r.sent)
  {
    if ev.Info? {
      InfoEvent(atoi, installed, c, q, ev.text);
    } else if ev.DynamicChallenge? {
      ChallengeEvent(atoi, installed, c, q, ev);
    }
  }

  lemma ChallengeReaction(atoi: string -> int, installed: bool, c: Client, q: Queue, ev: CoreEvent)
    requires ev.DynamicChallenge?
    ensures var r := React(atoi, installed, c, q, ev);
      || (r.client == c.(dcCookie := ev.cookie) && r.sent == [])
      || (r.client == c.(dcCookie := ev.cookie, runStatus := CfgRequireUser) && r.sent == [CfgRequireUser])
  {
  }

  lemma ChallengeIsPossible(atoi: string -> int, c: Client, ev: CoreEvent, d: Client, sent: seq<Status>)
    requires ev.DynamicChallenge?
    requires || (d == c.(dcCookie := ev.cookie) && sent == [])
             || (d == c.(dcCookie := ev.cookie, runStatus := CfgRequireUser) && sent == [CfgRequireUser])
    ensures Possible(atoi, c, ev, d, sent)
  {
  }

  lemma ChallengeEvent(atoi: string -> int, installed: bool, c: Client, q: Queue, ev: CoreEvent)
    requires ev.DynamicChallenge?
    ensures var r := React(atoi, installed, c, q, ev);
      Possible(atoi, c, ev, r.client, r.sent)
  {
    var r := React(atoi, installed, c, q, ev);
    ChallengeReaction(atoi, installed, c, q, ev);
    ChallengeIsPossible(atoi, c, ev, r.client, r.sent);
  }

  lemma InfoEvent(atoi: string -> int, installed: bool, c: Client, q: Queue, text: string)
    ensures var r := React(atoi, installed, c, q, Info(text));
      Possible(atoi, c, Info(text), r.client, r.sent)
  {
    if KindOfInfo(text, c.authPendingTimeout != 0) == CrTextRequest {
      assert React(atoi, installed, c, q, Info(text)) == ReactToCrText(c, q, text);
    }
  }

  /** The run described without the reaction itself. */
  ghost predicate PossibleRun(atoi: string -> int, t: Trace) {
    && Shaped(t)
    && forall i :: 0 <= i < |t.events| ==> Possible(atoi, t.clients[i], t.events[i], t.clients[i + 1], t.sent[i])
  }

  lemma EveryEvent(atoi: string -> int, t: Trace)
    requires IsEventRun(atoi, t)
    ensures PossibleRun(atoi, t)
  {
    forall i | 0 <= i < |t.events| ensures Possible(atoi, t.clients[i], t.events[i], t.clients[i + 1], t.sent[i]) {
      OneEvent(atoi, t.installed[i], t.clients[i], t.queues[i], t.events[i]);
    }
  }

  // ---------------------------------------------------------------- reconnecting

  lemma {:induction false} InitialUntilConnected(atoi: string -> int, t: Trace, i: nat)
    requires PossibleRun(atoi, t) && i <= |t.events|
    ensures t.clients[i].initialConnection <==> forall j :: 0 <= j < i ==> !t.events[j].Connected?
  {
    if i > 0 {
      InitialUntilConnected(atoi, t, i - 1);
      assert Possible(atoi, t.clients[i - 1], t.events[i - 1], t.clients[i], t.sent[i - 1]);
    }
  }

  /** No reconnecting status before the first connected one. */
  lemma NoReconnectBeforeConnected(atoi: string -> int, t: Trace, i: nat)
    requires IsEventRun(atoi, t) && i < |t.events| && ConnReconnecting in t.sent[i]
    ensures exists j :: 0 <= j < i && t.sent[j] == [ConnConnected]
  {
    EveryEvent(atoi, t);
    InitialUntilConnected(atoi, t, i);
    assert Possible(atoi, t.clients[i], t.events[i], t.clients[i + 1], t.sent[i]);
    var j :| 0 <= j < i && t.events[j].Connected?;
    assert Possible(atoi, t.clients[j], t.events[j], t.clients[j + 1], t.sent[j]);
  }

  // ---------------------------------------------------------------- the status

  /** The last event that sent a status, if any. */
  function LastSender(sent: seq<seq<Status>>): (r: Option<nat>)
    ensures r.Some? ==> r.value < |sent| && sent[r.value] != []
  {
    if sent == [] then None
    else if sent[|sent| - 1] != [] then Some(|sent| - 1)
    else LastSender(sent[..|sent| - 1])
  }

  /** The status that follows from what was sent. */
  ghost predicate StatusAsSent(t: Trace, i: nat)
    requires Shaped(t) && i <= |t.events|
  {
    match LastSender(t.sent[..i])
    case None => t.clients[i].runStatus == ConnInit
    case Some(j) =>
      && |t.sent[j]| == 1
      && t.clients[i].runStatus ==
           if t.events[j].Info? && t.sent[j] == [CfgRequireUser] then SessAuthChallenge else t.sent[j][0]
  }

  /**
   * The run status is the last status sent, except that an authentication challenge, the only thing an
   * `INFO` event sends "user input required" for, leaves the challenge status instead.
   */
  lemma StatusIsLastSent(atoi: string -> int, t: Trace, i: nat)
    requires IsEventRun(atoi, t) && i <= |t.events|
    ensures StatusAsSent(t, i)
  {
    EveryEvent(atoi, t);
    StatusFollowsSent(atoi, t, i);
  }

  lemma {:induction false} StatusFollowsSent(atoi: string -> int, t: Trace, i: nat)
    requires PossibleRun(atoi, t) && i <= |t.events|
    ensures StatusAsSent(t, i)
  {
    if i > 0 {
      StatusFollowsSent(atoi, t, i - 1);
      assert Possible(atoi, t.clients[i - 1], t.events[i - 1], t.clients[i], t.sent[i - 1]);
      assert t.sent[..i][..i - 1] == t.sent[..i - 1];
    }
  }

  // ---------------------------------------------------------------- the failure flag

  /** The timeout of the last AUTH_PENDING event, 0 before the first. */
  function LastTimeout(atoi: string -> int, events: seq<CoreEvent>): U32 {
    if events == [] then 0
    else if events[|events| - 1].AuthPending? then PendingTimeout(atoi, events[|events| - 1].info)
    else LastTimeout(atoi, events[..|events| - 1])
  }

  /** Event `i` reports a failure and sets the flag: a matter of the events alone. */
  predicate FlagsAt(atoi: string -> int, events: seq<CoreEvent>, i: nat)
    requires i < |events|
  {
    Flags(LastTimeout(atoi, events[..i]) != 0, events[i])
  }

  lemma {:induction false} TimeoutIsLast(atoi: string -> int, t: Trace, i: nat)
    requires PossibleRun(atoi, t) && i <= |t.events|
    ensures t.clients[i].authPendingTimeout == LastTimeout(atoi, t.events[..i])
  {
    if i > 0 {
      TimeoutIsLast(atoi, t, i - 1);
      assert Possible(atoi, t.clients[i - 1], t.events[i - 1], t.clients[i], t.sent[i - 1]);
      assert t.events[..i][..i - 1] == t.events[..i - 1];
    }
  }

  /** The flag is set if and only if an earlier event was one of those that set it. */
  lemma FlagIsHistory(atoi: string -> int, t: Trace, i: nat)
    requires IsEventRun(atoi, t) && i <= |t.events|
    ensures t.clients[i].failedSignalSent <==> exists j :: 0 <= j < i && FlagsAt(atoi, t.events, j)
  {
    EveryEvent(atoi, t);
    FlagFollowsEvents(atoi, t, i);
  }

  lemma {:induction false} FlagFollowsEvents(atoi: string -> int, t: Trace, i: nat)
    requires PossibleRun(atoi, t) && i <= |t.events|
    ensures t.clients[i].failedSignalSent <==> exists j :: 0 <= j < i && FlagsAt(atoi, t.events, j)
  {
    if i > 0 {
      FlagFollowsEvents(atoi, t, i - 1);
      TimeoutIsLast(atoi, t, i - 1);
      assert Possible(atoi, t.clients[i - 1], t.events[i - 1], t.clients[i], t.sent[i - 1]);
      assert FlagsAt(atoi, t.events, i - 1) <==> Flags(t.clients[i - 1].authPendingTimeout != 0, t.events[i - 1]);
    }
  }

  lemma {:induction false} AuthFailedIsFlagged(atoi: string -> int, t: Trace, i: nat)
    requires PossibleRun(atoi, t) && i <= |t.events| && t.clients[i].runStatus == ConnAuthFailed
    ensures t.clients[i].failedSignalSent
  {
    if i > 0 {
      assert Possible(atoi, t.clients[i - 1], t.events[i - 1], t.clients[i], t.sent[i - 1]);
      if t.clients[i - 1].runStatus == ConnAuthFailed {
        AuthFailedIsFlagged(atoi, t, i - 1);
      }
    }
  }

  /** The last status sent before event `i` asked the user for a challenge response or proxy credentials. */
  ghost predicate WaitsForUser(t: Trace, i: nat)
    requires Shaped(t) && i <= |t.events|
  {
    var last := LastSender(t.sent[..i]);
    last.Some? && AsksForInput(t.events[last.value])
  }

  lemma WaitingIsStatus(atoi: string -> int, t: Trace, i: nat)
    requires PossibleRun(atoi, t) && i <= |t.events|
    ensures t.clients[i].runStatus == CfgRequireUser <==> WaitsForUser(t, i)
  {
    StatusFollowsSent(atoi, t, i);
    var last := LastSender(t.sent[..i]);
    if last.Some? {
      var j := last.value;
      assert Possible(atoi, t.clients[j], t.events[j], t.clients[j + 1], t.sent[j]);
    }
  }

  /**
   * A DISCONNECTED event sends its status if and only if no earlier event set the failure flag and the
   * client is not waiting for the user; it sends nothing otherwise.
   */
  lemma DisconnectIsSent(atoi: string -> int, t: Trace, i: nat)
    requires IsEventRun(atoi, t) && i < |t.events| && t.events[i].Disconnected?
    ensures t.sent[i] == [ConnDisconnected] || t.sent[i] == []
    ensures t.sent[i] == [ConnDisconnected] <==>
      (forall j :: 0 <= j < i ==> !FlagsAt(atoi, t.events, j)) && !WaitsForUser(t, i)
  {
    EveryEvent(atoi, t);
    FlagFollowsEvents(atoi, t, i);
    WaitingIsStatus(atoi, t, i);
    if t.clients[i].runStatus == ConnAuthFailed {
      AuthFailedIsFlagged(atoi, t, i);
    }
    assert Possible(atoi, t.clients[i], t.events[i], t.clients[i + 1], t.sent[i]);
  }

  /** No disconnected status after an event that set the flag. */
  lemma NoDisconnectAfterFailure(atoi: string -> int, t: Trace, j: nat, i: nat)
    requires IsEventRun(atoi, t) && j < i < |t.events| && FlagsAt(atoi, t.events, j)
    ensures ConnDisconnected !in t.sent[i]
  {
    EveryEvent(atoi, t);
    assert Possible(atoi, t.clients[i], t.events[i], t.clients[i + 1], t.sent[i]);
    if t.events[i].Disconnected? {
      DisconnectIsSent(atoi, t, i);
    }
  }

  /**
   * After a failure has been reported a disconnected status can still follow, exactly when every failure so
   * far was a CLIENT_HALT, the one failure that does not set the flag, and the client is not waiting for
   * the user.
   */
  lemma DisconnectAfterReportedFailure(atoi: string -> int, t: Trace, j: nat, i: nat)
    requires IsEventRun(atoi, t) && j < i < |t.events| && t.sent[j] == [ConnFailed] && t.events[i].Disconnected?
    ensures t.sent[i] == [ConnDisconnected] <==>
      (forall k :: 0 <= k < i ==> !FlagsAt(atoi, t.events, k)) && !WaitsForUser(t, i)
    ensures t.sent[i] == [ConnDisconnected] ==> t.events[j].ClientHalt?
  {
    DisconnectIsSent(atoi, t, i);
    EveryEvent(atoi, t);
    TimeoutIsLast(atoi, t, j);
    assert Possible(atoi, t.clients[j], t.events[j], t.clients[j + 1], t.sent[j]);
    assert FlagsAt(atoi, t.events, j) <==> Flags(t.clients[j].authPendingTimeout != 0, t.events[j]);
  }

  lemma JustSent(t: Trace, j: nat)
    requires Shaped(t) && j < |t.events| && t.sent[j] != []
    ensures WaitsForUser(t, j + 1) <==> AsksForInput(t.events[j])
  {
    assert t.sent[..j + 1][|t.sent[..j + 1]| - 1] == t.sent[j];
    assert LastSender(t.sent[..j + 1]) == Some(j);
  }

  lemma HaltIsReported(atoi: string -> int, t: Trace, j: nat)
    requires IsEventRun(atoi, t) && j < |t.events| && t.events[j].ClientHalt?
    ensures t.sent[j] == [ConnFailed] && !FlagsAt(atoi, t.events, j)
  {
    EveryEvent(atoi, t);
    assert Possible(atoi, t.clients[j], t.events[j], t.clients[j + 1], t.sent[j]);
  }

  /** So it does when nothing was flagged and the next event after the halt is the disconnect. */
  lemma HaltIsFollowedByDisconnect(atoi: string -> int, t: Trace, j: nat)
    requires IsEventRun(atoi, t) && j + 1 < |t.events| && t.events[j].ClientHalt? && t.events[j + 1].Disconnected?
    requires forall k :: 0 <= k < j ==> !FlagsAt(atoi, t.events, k)
    ensures t.sent[j] == [ConnFailed] && t.sent[j + 1] == [ConnDisconnected]
  {
    HaltIsReported(atoi, t, j);
    JustSent(t, j);
    DisconnectIsSent(atoi, t, j + 1);
  }
}
