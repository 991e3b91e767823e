/** A front-end pass over the queue of a client whose callback may fail (src/ovpn3cli/commands/session/helpers.cpp). */
module ClientPass {
  import opened Outcomes
  import opened RequestQueue
  import opened CoreEvents
  import opened ClientSession
  import opened FrontEnd
  import opened DynamicChallenges
  import opened AuthPending

  predicate Gives(slots: seq<Slot>, i: nat, answer: Slot -> string) {
    i < |slots| && answer(View(slots[i])) != []
  }

  /** The first position for which the user gives a value. */
  function FirstGiven(slots: seq<Slot>, at: seq<nat>, answer: Slot -> string): (f: Option<nat>)
    ensures f.Some? ==> f.value in at && Gives(slots, f.value, answer)
    ensures f.None? ==> forall i :: i in at ==> !Gives(slots, i, answer)
  {
    if at == [] then None
    else
      var init, last := at[..|at| - 1], at[|at| - 1];
      assert at == init + [last];
      var f := FirstGiven(slots, init, answer);
      if f.Some? then f else if Gives(slots, last, answer) then Some(last) else None
  }

  /** The positions are those of distinct missing credentials. */
  ghost predicate Asking(slots: seq<Slot>, at: seq<nat>) {
    NoDuplicates(at) && forall i :: i in at ==> i < |slots| && slots[i].kind == CREDENTIALS && !slots[i].provided
  }

  /** The first given value is for something else than the unanswered pending authentication. */
  predicate Misplaced(q: Queue, at: seq<nat>, answer: Slot -> string) {
    var f := FirstGiven(q.slots, at, answer);
    Unanswered(q) && f.Some? && f.value != FirstPending(q.slots)
  }

  /** What a pass over these positions makes of the queue, with a client object installed. */
  ghost predicate PassResult(q: Queue, at: seq<nat>, answer: Slot -> string, r: (Queue, bool)) {
    && (r.1 <==> !Misplaced(q, at, answer))
    && |r.0.slots| == |q.slots| && r.0.reqids == q.reqids
    && (!r.1 ==> OneFilled(q, FirstGiven(q.slots, at, answer), answer, r.0))
    && (r.1 ==> forall i :: 0 <= i < |q.slots| ==>
      r.0.slots[i] == if i in at then Answered(q.slots[i], answer) else q.slots[i])
  }

  ghost predicate OneFilled(q: Queue, f: Option<nat>, answer: Slot -> string, r: Queue) {
    f.Some? && f.value < |q.slots| && r == q.(slots := q.slots[f.value := Answered(q.slots[f.value], answer)])
  }

  lemma CallbackOf(q: Queue, r: Queue)
    requires Complete(q.slots) && |q.slots| < TWO32 && SameShape(q.slots, r.slots)
    ensures FirstPending(r.slots) == FirstPending(q.slots)
    ensures Callback(true)(r) <==> !Unanswered(r)
  {
    CompleteShape(q.slots, r.slots);
    ForwardedIs(true, r);
    FindSameShape(q.slots, r.slots, Slot(0, CREDENTIALS, CHALLENGE_AUTH_PENDING, "auth_pending", "", "", false, false));
  }

  lemma AnsweredPointwise(q: Queue, at: seq<nat>, answer: Slot -> string, r: Queue)
    requires at != [] && Asking(q.slots, at) && |r.slots| == |q.slots|
    requires forall i :: 0 <= i < |q.slots| ==>
      r.slots[i] == if i in at[..|at| - 1] then Answered(q.slots[i], answer) else q.slots[i]
    ensures var t := AnswerAt(r, at[|at| - 1], answer, Callback(true)).0;
      && t.reqids == r.reqids && at[|at| - 1] < |q.slots| && r.slots[at[|at| - 1]] == q.slots[at[|at| - 1]]
      && forall i :: 0 <= i < |q.slots| ==> t.slots[i] == if i in at then Answered(q.slots[i], answer) else q.slots[i]
  {
    var init, last := at[..|at| - 1], at[|at| - 1];
    assert at == init + [last];
    assert last in at && last !in init;
  }

  lemma ShapeOfAnswers(q: Queue, at: seq<nat>, answer: Slot -> string, r: Queue)
    requires |r.slots| == |q.slots|
    requires forall i :: 0 <= i < |q.slots| ==>
      r.slots[i] == if i in at then Answered(q.slots[i], answer) else q.slots[i]
    ensures SameShape(q.slots, r.slots)
  {
  }

  lemma GivenStep(q: Queue, at: seq<nat>, answer: Slot -> string, r: Queue)
    requires Complete(q.slots) && |q.slots| < TWO32 && at != [] && Asking(q.slots, at)
    requires var init := at[..|at| - 1]; PassResult(q, init, answer, (r, true)) && Asking(q.slots, init)
    ensures PassResult(q, at, answer, AnswerAt(r, at[|at| - 1], answer, Callback(true)))
  {
    var init, last := at[..|at| - 1], at[|at| - 1];
    assert at == init + [last];
    var t := AnswerAt(r, last, answer, Callback(true));
    AnsweredPointwise(q, at, answer, r);
    if Gives(q.slots, last, answer) {
      ShapeOfAnswers(q, at, answer, t.0);
      CallbackOf(q, t.0);
      UnansweredAfter(q, at, answer, t.0);
      if FirstGiven(q.slots, init, answer).None? {
        NothingGiven(q, init, answer, r);
      }
    }
  }

  /** The pending authentication is still unanswered unless its own answer was among those given. */
  lemma UnansweredAfter(q: Queue, at: seq<nat>, answer: Slot -> string, r: Queue)
    requires Asking(q.slots, at) && |r.slots| == |q.slots| && FirstPending(r.slots) == FirstPending(q.slots)
    requires forall i :: 0 <= i < |q.slots| ==>
      r.slots[i] == if i in at then Answered(q.slots[i], answer) else q.slots[i]
    ensures Unanswered(r) <==>
      Unanswered(q) && !(FirstPending(q.slots) in at && Gives(q.slots, FirstPending(q.slots), answer))
  {
  }

  lemma NothingGiven(q: Queue, at: seq<nat>, answer: Slot -> string, r: Queue)
    requires PassResult(q, at, answer, (r, true)) && FirstGiven(q.slots, at, answer).None?
    ensures r == q
  {
    forall i | 0 <= i < |q.slots| ensures r.slots[i] == q.slots[i] {
      assert i in at ==> !Gives(q.slots, i, answer);
    }
    assert r.slots == q.slots;
  }

  lemma {:induction false} DrainWithClient(q: Queue, at: seq<nat>, answer: Slot -> string)
    requires Complete(q.slots) && |q.slots| < TWO32 && Asking(q.slots, at)
    ensures PassResult(q, at, answer, Drained(q, at, answer, Callback(true)))
  {
    if at != [] {
      var init, last := at[..|at| - 1], at[|at| - 1];
      assert at == init + [last];
      assert forall i :: i in init ==> i in at;
      DrainWithClient(q, init, answer);
      var r := Drained(q, init, answer, Callback(true));
      if r.1 {
        GivenStep(q, at, answer, r.0);
      }
    }
  }

  /**
   * With a client object installed a pass ends in an error if and only if the first pending authentication is
   * unanswered and the first value the user gives is for something else; then exactly that value is stored.
   * Otherwise every missing credential has its answer.
   */
  lemma PassWithClient(q: Queue, answer: Slot -> string)
    requires Complete(q.slots) && |q.slots| < TWO32
    ensures var at := PassOrder(q.slots);
      var f := FirstGiven(q.slots, at, answer);
      var (r, ok) := Drained(q, at, answer, Callback(true));
      && (!ok <==> Unanswered(q) && f.Some? && f.value != FirstPending(q.slots))
      && (!ok ==> OneFilled(q, f, answer, r))
      && (ok ==> r == q.(slots := AnsweredAll(q.slots, answer)))
  {
    var at := PassOrder(q.slots);
    PassOrderElements(q.slots);
    DrainWithClient(q, at, answer);
    var (r, ok) := Drained(q, at, answer, Callback(true));
    if ok {
      assert r.slots == AnsweredAll(q.slots, answer);
    }
  }

  // ---------------------------------------------------------------- as calls of a session

  /** One value the front-end sends: a D-Bus call, so the authorisation may drop the client object first. */
  function AnswerCall(s: Session, i: nat, answer: Slot -> string): (Session, bool) {
    if i >= |s.queue.slots| then (s, true)
    else
      var slot := s.queue.slots[i];
      var (t, reply) := Provided(Entered(s), slot.kind, slot.group, slot.id, answer(View(slot)));
      (t, reply == Returned || answer(View(slot)) == [])
  }

  /** A pass over these positions, after the calls that list the groups and fetch the slots. */
  function SessionPass(s: Session, at: seq<nat>, answer: Slot -> string): (Session, bool) {
    if at == [] then (Entered(s), true)
    else
      var (t, ok) := SessionPass(s, at[..|at| - 1], answer);
      if ok then AnswerCall(t, at[|at| - 1], answer) else (t, false)
  }

  lemma AnswerCallIsAnswer(t: Session, i: nat, answer: Slot -> string)
    requires Numbered(t.queue) && |t.queue.slots| <= TWO32 && Entered(t) == t
    requires i < |t.queue.slots| && t.queue.slots[i].kind == CREDENTIALS && !t.queue.slots[i].provided
    ensures var (u, ok) := AnswerCall(t, i, answer);
      && (u.queue, ok) == AnswerAt(t.queue, i, answer, Callback(t.vpnclient.Some?))
      && u == t.(queue := u.queue, replies := u.replies) && Entered(u) == u
  {
    var slot := t.queue.slots[i];
    NamedUpdate(t.queue, CREDENTIALS, slot.group, i, answer(View(slot)));
    if answer(View(slot)) == [] {
      assert t.queue.slots[i := slot] == t.queue.slots;
    }
  }

  lemma {:induction false} SessionPassIsDrain(s: Session, at: seq<nat>, answer: Slot -> string)
    requires Numbered(s.queue) && |s.queue.slots| <= TWO32 && Asking(s.queue.slots, at)
    ensures var e := Entered(s);
      var (t, ok) := SessionPass(s, at, answer);
      && (t.queue, ok) == Drained(s.queue, at, answer, Callback(e.vpnclient.Some?))
      && t == e.(queue := t.queue, replies := t.replies) && Entered(t) == t
  {
    if at != [] {
      var init, last := at[..|at| - 1], at[|at| - 1];
      assert at == init + [last];
      assert last in at && last !in init && forall i :: i in init ==> i in at;
      SessionPassIsDrain(s, init, answer);
      var (t, ok) := SessionPass(s, init, answer);
      DrainedKeeps(s.queue, init, answer, Callback(Entered(s).vpnclient.Some?));
      if ok {
        AnswerCallIsAnswer(t, last, answer);
      }
    }
  }

  /**
   * In every state of every run: a pass of the front-end ends in an error if and only if the client object
   * survives the authorisation of its calls, the first pending authentication is unanswered, and the first
   * value given is for something else; then exactly that value is stored.  Otherwise everything is answered.
   */
  lemma PassInSession(setup: Setup, ss: seq<Session>, steps: seq<Step>, i: nat, answer: Slot -> string)
    requires IsSessionRun(setup, ss, steps) && i <= |steps|
    requires forall j :: 0 <= j <= i ==> |ss[j].queue.slots| < TWO32
    ensures var q, e := ss[i].queue, Entered(ss[i]);
      var at := PassOrder(q.slots);
      var f := FirstGiven(q.slots, at, answer);
      var (t, ok) := SessionPass(ss[i], at, answer);
      && t == e.(queue := t.queue, replies := t.replies)
      && (!ok <==> e.vpnclient.Some? && Unanswered(q) && f.Some? && f.value != FirstPending(q.slots))
      && (!ok ==> OneFilled(q, f, answer, t.queue))
      && (ok ==> t.queue == q.(slots := AnsweredAll(q.slots, answer)))
  {
    var q := ss[i].queue;
    RunKeepsPairs(setup, ss, steps, i);
    RunComplete(setup, ss, steps, i);
    PassOrderElements(q.slots);
    SessionPassIsDrain(ss[i], PassOrder(q.slots), answer);
    if Entered(ss[i]).vpnclient.Some? {
      PassWithClient(q, answer);
    } else {
      AnsweredEverywhere(q, answer, Callback(false));
    }
  }
}
