/**
 * Pending authentications: which reply is sent, and what an unanswered one does to everything else that
 * provides a value (src/client/openvpn3-service-client.cpp, src/client/core-client.hpp).
 */
module AuthPending {
  import opened Outcomes
  import opened TextFilter
  import opened RequestQueue
  import opened CoreEvents
  import opened ClientSession
  import opened CredentialGroups
  import opened ConnectGate
  import opened DynamicChallenges

  /** The position of the first pending authentication, or the number of slots. */
  function FirstPending(slots: seq<Slot>): nat {
    FindName(slots, CREDENTIALS, CHALLENGE_AUTH_PENDING, "auth_pending")
  }

  /** There is a pending authentication and the first one has no reply yet. */
  predicate Unanswered(q: Queue) {
    var i := FirstPending(q.slots);
    i < |q.slots| && !q.slots[i].provided
  }

  // ---------------------------------------------------------------- the callback

  lemma AskedIsFound(q: Queue)
    requires Complete(q.slots) && |q.slots| < TWO32
    ensures Asked(q, CHALLENGE_AUTH_PENDING) <==> FirstPending(q.slots) < |q.slots|
  {
    CountIsPresence(q.slots, CREDENTIALS, CHALLENGE_AUTH_PENDING);
    CountWithinLength(q.slots, CREDENTIALS, CHALLENGE_AUTH_PENDING);
    if Asked(q, CHALLENGE_AUTH_PENDING) {
      var i :| 0 <= i < |q.slots| && InGroup(q.slots[i], CREDENTIALS, CHALLENGE_AUTH_PENDING);
      assert GroupComplete(q.slots, q.slots[i].group);
      assert "auth_pending" in Names(CHALLENGE_AUTH_PENDING);
      assert HasName(q.slots, CHALLENGE_AUTH_PENDING, "auth_pending");
    }
  }

  /** What the callback does, in terms of the first pending authentication. */
  lemma ForwardedIs(installed: bool, q: Queue)
    requires Complete(q.slots) && |q.slots| < TWO32
    ensures var i := FirstPending(q.slots);
      Forwarded(installed, q) ==
        if !installed || i == |q.slots| then Silent
        else if q.slots[i].provided then Reply(q.slots[i].value)
        else Fails
  {
    AskedIsFound(q);
  }

  // ---------------------------------------------------------------- slots are only added and filled in

  ghost predicate Grown(a: seq<Slot>, b: seq<Slot>) {
    && |a| <= |b|
    && forall i :: 0 <= i < |a| ==>
         b[i].kind == a[i].kind && b[i].group == a[i].group && b[i].name == a[i].name
           && (a[i].provided ==> b[i] == a[i])
  }

  lemma GrownKeepsName(a: seq<Slot>, b: seq<Slot>, group: Code, name: string)
    requires Grown(a, b) && FindName(a, CREDENTIALS, group, name) < |a|
    ensures FindName(b, CREDENTIALS, group, name) == FindName(a, CREDENTIALS, group, name)
  {
    var i := FindName(a, CREDENTIALS, group, name);
    assert forall j :: 0 <= j <= i ==> b[j].kind == a[j].kind && b[j].group == a[j].group && b[j].name == a[j].name;
  }

  lemma GrownKeepsFirst(a: seq<Slot>, b: seq<Slot>)
    requires Grown(a, b) && FirstPending(a) < |a|
    ensures FirstPending(b) == FirstPending(a)
  {
    GrownKeepsName(a, b, CHALLENGE_AUTH_PENDING, "auth_pending");
  }

  lemma ChallengeGrows(q: Queue, cookie: string, ch: Challenge)
    ensures Grown(q.slots, ChallengeQueued(q, cookie, ch).slots)
    ensures ChallengeStored(q, cookie, ch).Ok? ==> Grown(q.slots, ChallengeStored(q, cookie, ch).value.slots)
  {
  }

  lemma EventGrows(setup: Setup, installed: bool, c: Client, q: Queue, ev: CoreEvent)
    ensures Grown(q.slots, React(setup.atoi, installed, c, q, ev).queue.slots)
  {
    if ev.DynamicChallenge? && ev.parsed.Some? {
      ChallengeGrows(q, ev.cookie, ev.parsed.value);
    }
  }

  lemma PrefixGrows(a: seq<Slot>, b: seq<Slot>)
    requires a <= b
    ensures Grown(a, b)
  {
  }

  lemma ProvideGrows(s: Session, kind: Code, group: Code, id: U32, value: string)
    ensures Grown(s.queue.slots, Provided(s, kind, group, id, value).0.queue.slots)
  {
  }

  lemma StepGrows(setup: Setup, s: Session, step: Step)
    ensures Grown(s.queue.slots, Next(setup, s, step).queue.slots)
  {
    if step.Event? {
      if Affected(s, step.older).Some? {
        EventGrows(setup, s.vpnclient.Some?, Affected(s, step.older).value, s.queue, step.ev);
      }
    } else if step.Provide? {
      ProvideGrows(Entered(s), step.kind, step.group, step.id, step.value);
    } else {
      PrefixGrows(s.queue.slots, Next(setup, s, step).queue.slots);
    }
  }

  // ---------------------------------------------------------------- the replies

  /** Every reply sent so far is the value of the first pending authentication. */
  ghost predicate FirstReplies(s: Session) {
    forall k :: 0 <= k < |s.replies| ==> IsFirstReply(s.queue, s.replies[k])
  }

  predicate IsFirstReply(q: Queue, text: string) {
    var i := FirstPending(q.slots);
    i < |q.slots| && q.slots[i].provided && q.slots[i].value == text
  }

  lemma RepliesGrow(s: Session, t: Session, f: Forward)
    requires FirstReplies(s) && Grown(s.queue.slots, t.queue.slots)
    requires t.replies == s.replies + Replies(f)
    requires f.Reply? ==> exists installed :: f == Forwarded(installed, t.queue)
    ensures FirstReplies(t)
  {
    forall k | 0 <= k < |t.replies| ensures IsFirstReply(t.queue, t.replies[k]) {
      if k < |s.replies| {
        assert s.replies[k] == t.replies[k] && IsFirstReply(s.queue, s.replies[k]);
        GrownKeepsFirst(s.queue.slots, t.queue.slots);
      } else {
        assert f.Reply? && t.replies[k] == f.text;
      }
    }
  }

  lemma EventKeepsReplies(setup: Setup, s: Session, older: Option<Client>, ev: CoreEvent)
    requires FirstReplies(s)
    ensures FirstReplies(Happened(setup, s, older, ev))
  {
    if Affected(s, older).Some? {
      var installed, t := s.vpnclient.Some?, Happened(setup, s, older, ev);
      EventGrows(setup, installed, Affected(s, older).value, s.queue, ev);
      if ev.DynamicChallenge? && ev.parsed.Some? && ChallengeStored(s.queue, ev.cookie, ev.parsed.value).Ok? {
        assert t.queue == ChallengeStored(s.queue, ev.cookie, ev.parsed.value).value;
        RepliesGrow(s, t, Forwarded(installed, t.queue));
      } else {
        assert t.replies == s.replies + Replies(Silent);
        RepliesGrow(s, t, Silent);
      }
    }
  }

  lemma ProvideKeepsReplies(s: Session, kind: Code, group: Code, id: U32, value: string)
    requires FirstReplies(s)
    ensures FirstReplies(Provided(s, kind, group, id, value).0)
  {
    var t := Provided(s, kind, group, id, value).0;
    if value != [] && Updated(s.queue, kind, group, id, value).Ok? {
      RepliesGrow(s, t, Forwarded(s.vpnclient.Some?, t.queue));
    }
  }

  lemma StepKeepsReplies(setup: Setup, s: Session, step: Step)
    requires FirstReplies(s)
    ensures FirstReplies(Next(setup, s, step))
  {
    var e, t := Entered(s), Next(setup, s, step);
    assert FirstReplies(e);
    if step.Event? {
      EventKeepsReplies(setup, s, step.older, step.ev);
    } else if step.Provide? {
      ProvideKeepsReplies(e, step.kind, step.group, step.id, step.value);
    } else if step.Register? {
      PrefixGrows(s.queue.slots, t.queue.slots);
      RepliesGrow(s, t, Silent);
    } else if step.Connect? {
      PrefixGrows(s.queue.slots, t.queue.slots);
      RepliesGrow(s, t, Silent);
    }
  }

  lemma NextKeepsReplies(setup: Setup, ss: seq<Session>, steps: seq<Step>, i: nat)
    requires |ss| == |steps| + 1 && i < |steps| && Follows(setup, ss, steps, i) && FirstReplies(ss[i])
    ensures FirstReplies(ss[i + 1])
  {
    StepKeepsReplies(setup, ss[i], steps[i]);
  }

  /** In every run, whatever was challenged, only the first reply ever reaches the server. */
  lemma {:induction false} OnlyFirstReplyIsSent(setup: Setup, ss: seq<Session>, steps: seq<Step>, i: nat)
    requires IsSessionRun(setup, ss, steps) && i <= |steps|
    ensures FirstReplies(ss[i])
  {
    if i > 0 {
      OnlyFirstReplyIsSent(setup, ss, steps, i - 1);
      NextKeepsReplies(setup, ss, steps, i - 1);
    }
  }

  /**
   * With a client object and a pending authentication, every value provided for anything sends exactly one
   * reply, the first one once more, or fails because there is none yet; the value is stored in both cases.
   */
  lemma EachValueRepeatsReply(s: Session, kind: Code, group: Code, id: U32, value: string)
    requires Complete(s.queue.slots) && |s.queue.slots| < TWO32
    requires s.vpnclient.Some? && FirstPending(s.queue.slots) < |s.queue.slots|
    requires value != [] && Updated(s.queue, kind, group, id, value).Ok?
    ensures var (t, reply) := Provided(s, kind, group, id, value);
      var i := FirstPending(s.queue.slots);
      && t.queue == Updated(s.queue, kind, group, id, value).value
      && (reply == Threw <==> !t.queue.slots[i].provided)
      && t.replies == s.replies + (if reply == Threw then [] else [t.queue.slots[i].value])
  {
    var t := Provided(s, kind, group, id, value).0;
    CompleteShape(s.queue.slots, t.queue.slots);
    GrownKeepsFirst(s.queue.slots, t.queue.slots);
    ForwardedIs(true, t.queue);
  }

  /** So the answer to a second challenge is stored and the first reply is sent in its place. */
  lemma SecondReplyIsLost(s: Session, j: nat, value: string)
    requires Numbered(s.queue) && Complete(s.queue.slots) && |s.queue.slots| < TWO32 && s.vpnclient.Some?
    requires FirstPending(s.queue.slots) < j < |s.queue.slots| && s.queue.slots[FirstPending(s.queue.slots)].provided
    requires Pending(s.queue.slots[j], CREDENTIALS, CHALLENGE_AUTH_PENDING) && value != []
    ensures var (t, reply) := Provided(s, CREDENTIALS, CHALLENGE_AUTH_PENDING, s.queue.slots[j].id, value);
      && reply == Returned
      && t.queue.slots == s.queue.slots[j := Filled(s.queue.slots[j], value)]
      && t.replies == s.replies + [s.queue.slots[FirstPending(s.queue.slots)].value]
  {
    CountWithinLength(s.queue.slots, CREDENTIALS, CHALLENGE_AUTH_PENDING);
    UpdateFillsNamedSlot(s.queue, j, value);
    EachValueRepeatsReply(s, CREDENTIALS, CHALLENGE_AUTH_PENDING, s.queue.slots[j].id, value);
  }

  // ---------------------------------------------------------------- a dynamic challenge meanwhile

  lemma AppendKeepsFirst(slots: seq<Slot>, x: Slot, y: Slot)
    requires x.group != CHALLENGE_AUTH_PENDING && y.group != CHALLENGE_AUTH_PENDING
    ensures var i := FirstPending(slots);
      FirstPending(slots + [x, y]) == if i < |slots| then i else |slots| + 2
  {
    var all, i := slots + [x, y], FirstPending(slots);
    assert forall j :: 0 <= j < |slots| ==> all[j] == slots[j];
    assert all[|slots|] == x && all[|slots| + 1] == y;
  }

  lemma ChallengeKeepsFirst(q: Queue, cookie: string, ch: Challenge)
    requires Numbered(q) && |q.slots| + 2 <= TWO32
    ensures var r := ChallengeStored(q, cookie, ch);
      && r.Ok? && (Unanswered(r.value) <==> Unanswered(q))
      && (FirstPending(r.value.slots) == |r.value.slots| <==> FirstPending(q.slots) == |q.slots|)
  {
    ChallengeSlots(q, cookie, ch);
    var n, q2 := |q.slots|, ChallengeQueued(q, cookie, ch);
    AppendKeepsFirst(q.slots, q2.slots[n], Filled(q2.slots[n + 1], cookie));
  }

  lemma ChallengeThrowsIff(installed: bool, c: Client, q: Queue, cookie: string, ch: Challenge)
    requires Numbered(q) && Complete(q.slots) && |q.slots| + 2 < TWO32
    ensures var r := ReactToChallenge(installed, c, q, cookie, ch);
      && ChallengeStored(q, cookie, ch).Ok? && r.queue == ChallengeStored(q, cookie, ch).value
      && (r.threw <==> installed && Unanswered(q))
      && r.client == (if r.threw then c.(dcCookie := cookie) else c.(dcCookie := cookie, runStatus := CfgRequireUser))
      && r.sent == (if r.threw then [] else [CfgRequireUser])
  {
    ChallengeKeepsFirst(q, cookie, ch);
    ChallengeSlots(q, cookie, ch);
    ChallengeComplete(installed, c, q, cookie, ch);
    ForwardedIs(installed, ChallengeStored(q, cookie, ch).value);
  }

  /**
   * In every run a dynamic challenge throws out of the event handler if and only if a client object is
   * installed and the first pending authentication is unanswered.  The question and the cookie are stored
   * either way; when it throws, no status is sent and the run status stays.
   */
  lemma DynamicChallengeThrows(setup: Setup, ss: seq<Session>, steps: seq<Step>, i: nat, c: Client, cookie: string,
                               ch: Challenge)
    requires IsSessionRun(setup, ss, steps) && i <= |steps|
    requires forall j :: 0 <= j <= i ==> |ss[j].queue.slots| + 2 < TWO32
    ensures var s := ss[i];
      var r := React(setup.atoi, s.vpnclient.Some?, c, s.queue, DynamicChallenge(cookie, Some(ch)));
      && ChallengeStored(s.queue, cookie, ch).Ok? && r.queue == ChallengeStored(s.queue, cookie, ch).value
      && (r.threw <==> s.vpnclient.Some? && Unanswered(s.queue))
      && r.client == (if r.threw then c.(dcCookie := cookie) else c.(dcCookie := cookie, runStatus := CfgRequireUser))
      && r.sent == (if r.threw then [] else [CfgRequireUser])
  {
    RunKeepsPairs(setup, ss, steps, i);
    RunComplete(setup, ss, steps, i);
    ChallengeThrowsIff(ss[i].vpnclient.Some?, c, ss[i].queue, cookie, ch);
  }

  /** A dynamic challenge moves the status of a client that failed to authenticate unless it throws. */
  lemma ChallengeMovesIff(c: Client, q: Queue, cookie: string, parsed: Option<Challenge>)
    requires Numbered(q) && Complete(q.slots) && |q.slots| + 2 < TWO32
    ensures MovesStatus(c, q, DynamicChallenge(cookie, parsed)) <==> parsed.Some? && !Unanswered(q)
  {
    if parsed.Some? {
      ChallengeThrowsIff(true, c, q, cookie, parsed.value);
    }
  }
}
