/** What single steps of a session do to the client object and the replies (src/client/openvpn3-service-client.cpp). */
module SessionSteps {
  import opened Outcomes
  import opened TextFilter
  import opened RequestQueue
  import opened CoreEvents
  import opened ClientSession
  import opened CredentialGroups
  import opened DynamicChallenges
  import opened AuthPending
  import opened Credentials

  // ---------------------------------------------------------------- setting up a client

  /** The key passphrase has not been asked for, or its first slot has a value. */
  ghost predicate PassphraseKnown(q: Queue) {
    var i := FindName(q.slots, CREDENTIALS, PK_PASSPHRASE, "pk_passphrase");
    Asked(q, PK_PASSPHRASE) ==> i < |q.slots| && q.slots[i].provided
  }

  lemma PassphraseIsRead(s: Session)
    ensures KeyPassword(s).Ok? <==> PassphraseKnown(s.queue)
    ensures KeyPassword(s).Ok? ==>
      KeyPassword(s).value == if Asked(s.queue, PK_PASSPHRASE) then TextOf(s.queue, PK_PASSPHRASE, "pk_passphrase")
                              else s.pkPassword
  {
    FoundText(s.queue, PK_PASSPHRASE, "pk_passphrase");
  }

  /**
   * Initialising a client succeeds exactly with a fetched profile that can be evaluated and a passphrase that is
   * not outstanding.  The old client object goes as soon as there is a profile; a new one stays behind unless the
   * evaluation itself fails.
   */
  lemma InitializeOutcome(setup: Setup, s: Session, eval: Eval)
    ensures var (t, ok) := Initialized(setup, s, eval);
      && (ok <==> s.content && PassphraseKnown(s.queue) && eval.Evaluated?)
      && (!ok ==> t.queue == s.queue)
      && t.vpnclient == (if !s.content then s.vpnclient
                         else if PassphraseKnown(s.queue) && eval.EvalFails? then None
                         else Some(Client("", false, ConnInit, true, 0)))
      && (t.pkPassword != s.pkPassword ==>
            s.content && Asked(s.queue, PK_PASSPHRASE)
              && t.pkPassword == TextOf(s.queue, PK_PASSPHRASE, "pk_passphrase"))
  {
    PassphraseIsRead(s);
  }

  /** A registration succeeds once, with the right token and a profile that can be set up; failing is final too. */
  lemma RegistersIff(setup: Setup, s: Session, tokenMatches: bool, fetched: bool, eval: Eval)
    ensures var (t, reply) := ClientSession.Registered(setup, s, tokenMatches, fetched, eval);
      && (reply == Returned <==>
            !s.registered && tokenMatches && fetched && PassphraseKnown(s.queue) && eval.Evaluated?)
      && (t.registered <==> s.registered || tokenMatches)
      && t.content == (if !s.registered && tokenMatches then fetched else s.content)
      && t.connects == s.connects && t.creds == s.creds
  {
    InitializeOutcome(setup, s.(registered := true, content := fetched), eval);
  }

  // ---------------------------------------------------------------- events

  /** The event of a client object that has been replaced leaves the current one alone. */
  lemma OlderClientIsIgnored(setup: Setup, s: Session, older: Client, ev: CoreEvent)
    ensures var t := Happened(setup, s, Some(older), ev);
      && t.vpnclient == s.vpnclient && t.connects == s.connects && t.creds == s.creds && t.registered == s.registered
      && t.queue == React(setup.atoi, s.vpnclient.Some?, older, s.queue, ev).queue
  {
  }

  /** An event of the current client object moves that object; without one nothing happens. */
  lemma CurrentClientMoves(setup: Setup, s: Session, ev: CoreEvent)
    ensures var t := Happened(setup, s, None, ev);
      if s.vpnclient.None? then t == s
      else
        var r := React(setup.atoi, true, s.vpnclient.value, s.queue, ev);
        && t.vpnclient == Some(r.client) && t.queue == r.queue
        && t.connects == s.connects && t.creds == s.creds && t.registered == s.registered
  {
  }

  /** Nothing but a dynamic challenge makes an event send a reply. */
  lemma OnlyChallengesReply(setup: Setup, s: Session, older: Option<Client>, ev: CoreEvent)
    requires !ev.DynamicChallenge?
    ensures Happened(setup, s, older, ev).replies == s.replies
  {
    assert s.replies + [] == s.replies;
  }

  lemma ForwardedOnChallenge(installed: bool, c: Client, q: Queue, cookie: string, ch: Challenge)
    requires Numbered(q) && Complete(q.slots) && |q.slots| + 2 < TWO32
    ensures var stored, i := ChallengeStored(q, cookie, ch), FirstPending(q.slots);
      stored.Ok? && Replies(Forwarded(installed, stored.value)) ==
        if installed && i < |q.slots| && q.slots[i].provided then [q.slots[i].value] else []
  {
    var n, q2 := |q.slots|, ChallengeQueued(q, cookie, ch);
    ChallengeSlots(q, cookie, ch);
    StoredIsComplete(installed, c, q, cookie, ch);
    ForwardedIs(installed, ChallengeStored(q, cookie, ch).value);
    AppendKeepsFirst(q.slots, q2.slots[n], Filled(q2.slots[n + 1], cookie));
  }

  lemma StoredIsComplete(installed: bool, c: Client, q: Queue, cookie: string, ch: Challenge)
    requires Complete(q.slots) && ChallengeStored(q, cookie, ch).Ok?
    ensures Complete(ChallengeStored(q, cookie, ch).value.slots)
  {
    ChallengeComplete(installed, c, q, cookie, ch);
    assert ReactToChallenge(installed, c, q, cookie, ch).queue == ChallengeStored(q, cookie, ch).value;
  }

  /**
   * A dynamic challenge that arrives after the pending authentication has been answered sends that answer to the
   * server once more; before, or without one, it sends nothing.
   */
  lemma ChallengeRepeatsReply(setup: Setup, s: Session, older: Option<Client>, cookie: string, ch: Challenge)
    requires Numbered(s.queue) && Complete(s.queue.slots) && |s.queue.slots| + 2 < TWO32
    requires Affected(s, older).Some?
    ensures var t, i := Happened(setup, s, older, DynamicChallenge(cookie, Some(ch))), FirstPending(s.queue.slots);
      t.replies == s.replies +
        (if s.vpnclient.Some? && i < |s.queue.slots| && s.queue.slots[i].provided then [s.queue.slots[i].value] else [])
  {
    ForwardedOnChallenge(s.vpnclient.Some?, Affected(s, older).value, s.queue, cookie, ch);
  }

  /**
   * Any call finds no client object left exactly when its connection has ended, failed or waits for the user: after
   * an event that asks for input the next call starts from nothing.
   */
  lemma CallsDropClient(setup: Setup, s: Session, ev: CoreEvent)
    requires s.vpnclient.Some?
    ensures var t, r := Happened(setup, s, None, ev), React(setup.atoi, true, s.vpnclient.value, s.queue, ev);
      var u := Next(setup, t, OtherCall);
      && (u.vpnclient == None <==> r.client.runStatus == CfgRequireUser || r.client.runStatus == ConnDisconnected
                                   || r.client.runStatus == ConnFailed)
      && (u.vpnclient != None ==> u == t) && u.queue == t.queue && u.registered == t.registered
  {
  }

  // ---------------------------------------------------------------- values

  /**
   * Without a pending authentication, or without a client object, a value is stored and nothing is sent; the call
   * throws exactly when the value is empty or has no slot waiting for it, and then nothing changes.
   */
  lemma ValueIsOnlyStored(s: Session, kind: Code, group: Code, id: U32, value: string)
    requires Complete(s.queue.slots) && |s.queue.slots| < TWO32
    requires s.vpnclient.None? || FirstPending(s.queue.slots) == |s.queue.slots|
    ensures var (t, reply) := Provided(s, kind, group, id, value);
      && t.replies == s.replies && t == s.(queue := t.queue)
      && (reply == Returned <==> value != "" && exists i: nat ::
            i < |s.queue.slots| && NamedFirst(s.queue.slots, i, kind, group, id) && !s.queue.slots[i].provided)
      && (reply == Threw ==> t == s)
      && (forall i: nat :: reply == Returned && i < |s.queue.slots| && NamedFirst(s.queue.slots, i, kind, group, id) ==>
            t.queue.slots == s.queue.slots[i :=
              s.queue.slots[i].(provided := true, value := FilterCtrlChars(value, true))])
  {
    UpdateSucceedsIff(s.queue, kind, group, id, value);
    assert s.replies + [] == s.replies;
    var r := Updated(s.queue, kind, group, id, value);
    if r.Ok? {
      CompleteShape(s.queue.slots, r.value.slots);
      ForwardedIs(s.vpnclient.Some?, r.value);
      NoneStaysNone(s.queue, r.value);
    }
  }

  lemma NoneStaysNone(q: Queue, r: Queue)
    requires SameShape(q.slots, r.slots)
    ensures FirstPending(r.slots) == FirstPending(q.slots)
  {
    FindSameShape(q.slots, r.slots, Slot(0, CREDENTIALS, CHALLENGE_AUTH_PENDING, "auth_pending", "", "", false, false));
  }
}
