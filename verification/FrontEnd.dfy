/** The front-end draining the queue (src/dbus/requiresqueue-proxy.hpp, src/ovpn3cli/commands/session/helpers.cpp). */
module FrontEnd {
  import opened Outcomes
  import opened TextFilter
  import opened RequestQueue

  /** A slot as the front-end fetches it. */
  function View(s: Slot): Slot {
    s.(value := "", provided := false)
  }

  /** What asking the user does to a slot: only credentials are asked for, and an empty answer is refused. */
  function Answered(s: Slot, answer: Slot -> string): Slot {
    if s.kind == CREDENTIALS && !s.provided && answer(View(s)) != [] then Filled(s, answer(View(s))) else s
  }

  function AnsweredAll(slots: seq<Slot>, answer: Slot -> string): (r: seq<Slot>)
    ensures |r| == |slots|
  {
    seq(|slots|, i requires 0 <= i < |slots| => Answered(slots[i], answer))
  }

  /** The positions of the slots of a group that need a value. */
  function PendingAt(slots: seq<Slot>, kind: Code, group: Code): seq<nat> {
    if slots == [] then []
    else PendingAt(slots[..|slots| - 1], kind, group)
         + (if Pending(slots[|slots| - 1], kind, group) then [|slots| - 1] else [])
  }

  lemma {:induction false} PendingPositions(slots: seq<Slot>, kind: Code, group: Code)
    ensures var at, ids := PendingAt(slots, kind, group), PendingIds(slots, kind, group);
      && |at| == |ids| && NoDuplicates(at) && (forall j, k :: 0 <= j < k < |at| ==> at[j] < at[k])
      && (forall j :: 0 <= j < |at| ==>
        at[j] < |slots| && Pending(slots[at[j]], kind, group) && ids[j] == slots[at[j]].id)
      && (forall i :: 0 <= i < |slots| && Pending(slots[i], kind, group) ==> i in at)
  {
    if slots != [] {
      var init, last := slots[..|slots| - 1], slots[|slots| - 1];
      PendingPositions(init, kind, group);
      var at := PendingAt(slots, kind, group);
      forall i | 0 <= i < |slots| && Pending(slots[i], kind, group) ensures i in at {
        if i == |slots| - 1 {
          assert at[|at| - 1] == i;
        } else {
          assert Pending(init[i], kind, group);
        }
      }
    }
  }

  /** `QueueFetchAll`: the views of all pending slots of a group. */
  method QueueFetchAll(q: RequiresQueue, kind: Code, group: Code) returns (views: seq<Slot>, ok: bool)
    requires Numbered(q.Value()) && |q.slots| <= TWO32
    ensures ok
    ensures var at := PendingAt(q.slots, kind, group);
      |views| == |at| && forall j :: 0 <= j < |at| ==> at[j] < |q.slots| && views[j] == View(q.slots[at[j]])
  {
    var ids := q.QueueCheck(kind, group);
    PendingPositions(q.slots, kind, group);
    ghost var at := PendingAt(q.slots, kind, group);
    views := [];
    for j := 0 to |ids|
      invariant |views| == j && forall n :: 0 <= n < j ==> views[n] == View(q.slots[at[n]])
    {
      NamedSlot(q.Value(), kind, group, at[j]);
      var view := q.QueueFetch(kind, group, ids[j]);
      if view.Err? {
        return views, false;
      }
      views := views + [view.value];
    }
    ok := true;
  }

  /** The id of a pending slot names it. */
  lemma NamedSlot(q: Queue, kind: Code, group: Code, i: nat)
    requires Numbered(q) && |q.slots| <= TWO32 && i < |q.slots| && Pending(q.slots[i], kind, group)
    ensures FindId(q.slots, kind, group, q.slots[i].id) == i
  {
    CountWithinLength(q.slots, kind, group);
    UpdateFillsNamedSlot(q, i, "");
  }

  lemma NamedUpdate(q: Queue, kind: Code, group: Code, i: nat, value: string)
    requires Numbered(q) && |q.slots| <= TWO32 && i < |q.slots| && Pending(q.slots[i], kind, group)
    ensures Updated(q, kind, group, q.slots[i].id, value) ==
            Ok(q.(slots := q.slots[i := Filled(q.slots[i], value)]))
  {
    CountWithinLength(q.slots, kind, group);
    UpdateFillsNamedSlot(q, i, value);
  }

  // ---------------------------------------------------------------- answering one slot after another

  /** One slot answered; the answer fails when the service's callback does, after the value was stored. */
  function AnswerAt(q: Queue, i: nat, answer: Slot -> string, callback: Queue -> bool): (r: (Queue, bool))
    ensures |r.0.slots| == |q.slots|
  {
    if i >= |q.slots| then (q, true)
    else
      var s := q.slots[i];
      var r := q.(slots := q.slots[i := Answered(s, answer)]);
      (r, answer(View(s)) == [] || callback(r))
  }

  /** The slots at these positions are answered in this order, until one answer fails. */
  function Drained(q: Queue, at: seq<nat>, answer: Slot -> string, callback: Queue -> bool): (r: (Queue, bool))
    ensures |r.0.slots| == |q.slots|
  {
    if at == [] then (q, true)
    else
      var (r, ok) := Drained(q, at[..|at| - 1], answer, callback);
      if ok then AnswerAt(r, at[|at| - 1], answer, callback) else (r, false)
  }

  /** Nothing but the values of the slots at these positions changes. */
  lemma {:induction false} DrainedKeeps(q: Queue, at: seq<nat>, answer: Slot -> string, callback: Queue -> bool)
    requires Numbered(q)
    ensures var r := Drained(q, at, answer, callback).0;
      && Numbered(r) && r.reqids == q.reqids && SameShape(q.slots, r.slots)
      && forall i :: 0 <= i < |q.slots| && i !in at ==> r.slots[i] == q.slots[i]
  {
    if at != [] {
      var init := at[..|at| - 1];
      DrainedKeeps(q, init, answer, callback);
      assert forall i :: i in init ==> i in at;
      assert at[|at| - 1] in at;
      var r := Drained(q, at, answer, callback).0;
      ShapeKeepsNumbering(q, r.slots);
      assert r == q.(slots := r.slots);
    }
  }

  lemma {:induction false} DrainedAppend(q: Queue, a: seq<nat>, b: seq<nat>, answer: Slot -> string,
                                         callback: Queue -> bool)
    ensures Drained(q, a + b, answer, callback) ==
            if Drained(q, a, answer, callback).1 then Drained(Drained(q, a, answer, callback).0, b, answer, callback)
            else Drained(q, a, answer, callback)
  {
    if b == [] {
      assert a + b == a;
    } else {
      var init := b[..|b| - 1];
      assert (a + b)[..|a + b| - 1] == a + init;
      DrainedAppend(q, a, init, answer, callback);
    }
  }

  /** Asks for one value and provides it; an empty one is refused, which the front-end only reports. */
  method AnswerOne(q: RequiresQueue, view: Slot, answer: Slot -> string, callback: Queue -> bool,
                   ghost i: nat) returns (ok: bool)
    requires Numbered(q.Value()) && |q.slots| <= TWO32
    requires i < |q.slots| && q.slots[i].kind == CREDENTIALS && !q.slots[i].provided && view == View(q.slots[i])
    modifies q
    ensures (q.Value(), ok) == AnswerAt(old(q.Value()), i, answer, callback)
  {
    var value := answer(view);
    NamedUpdate(q.Value(), CREDENTIALS, view.group, i, value);
    var provided := q.ProvideResponse(CREDENTIALS, view.group, view.id, value, callback);
    ok := provided || value == [];
    assert value == [] ==> q.slots[i := q.slots[i]] == q.slots;
  }

  /** The inner loop of the front-end: the missing values of one group, up to the first answer that fails. */
  method AnswerGroup(q: RequiresQueue, group: Code, answer: Slot -> string, callback: Queue -> bool) returns (ok: bool)
    requires Numbered(q.Value()) && |q.slots| <= TWO32
    modifies q
    ensures (q.Value(), ok) == Drained(old(q.Value()), PendingAt(old(q.slots), CREDENTIALS, group), answer, callback)
  {
    var views, fetched := QueueFetchAll(q, CREDENTIALS, group);
    ghost var before, at := q.Value(), PendingAt(q.slots, CREDENTIALS, group);
    for j := 0 to |views|
      invariant (q.Value(), true) == Drained(before, at[..j], answer, callback)
    {
      StillPending(before, group, answer, callback, j);
      assert at[..j + 1][..j] == at[..j];
      ok := AnswerOne(q, views[j], answer, callback, at[j]);
      if !ok {
        DrainStops(before, at, j, answer, callback);
        return;
      }
    }
    assert at[..|at|] == at;
    ok := true;
  }

  lemma DrainStops(q: Queue, at: seq<nat>, j: nat, answer: Slot -> string, callback: Queue -> bool)
    requires j < |at| && !Drained(q, at[..j + 1], answer, callback).1
    ensures Drained(q, at, answer, callback) == Drained(q, at[..j + 1], answer, callback)
  {
    var a, b := at[..j + 1], at[j + 1..];
    DrainedAppend(q, a, b, answer, callback);
    assert a + b == at;
  }

  /** A slot of the group is untouched until its turn comes. */
  lemma StillPending(q: Queue, group: Code, answer: Slot -> string, callback: Queue -> bool, j: nat)
    requires Numbered(q) && j < |PendingAt(q.slots, CREDENTIALS, group)|
    ensures var at := PendingAt(q.slots, CREDENTIALS, group);
      && (forall n :: 0 <= n < |at| ==> at[n] < |q.slots|)
      && Pending(q.slots[at[j]], CREDENTIALS, group)
      && Drained(q, at[..j], answer, callback).0.slots[at[j]] == q.slots[at[j]]
      && Numbered(Drained(q, at[..j], answer, callback).0)
  {
    var at := PendingAt(q.slots, CREDENTIALS, group);
    PendingPositions(q.slots, CREDENTIALS, group);
    DrainedKeeps(q, at[..j], answer, callback);
    assert at[j] !in at[..j];
  }

  // ---------------------------------------------------------------- one pass over the groups

  /** The positions asked for when these groups are visited: the credentials among them. */
  function Positions(slots: seq<Slot>, groups: seq<(Code, Code)>): seq<nat> {
    if groups == [] then []
    else
      Positions(slots, groups[..|groups| - 1]) +
      (if groups[|groups| - 1].0 == CREDENTIALS then PendingAt(slots, CREDENTIALS, groups[|groups| - 1].1) else [])
  }

  /** The order in which a pass asks for the missing values. */
  function PassOrder(slots: seq<Slot>): seq<nat> {
    Positions(slots, PendingGroups(slots))
  }

  ghost predicate Askable(s: Slot, groups: seq<(Code, Code)>) {
    s.kind == CREDENTIALS && !s.provided && (CREDENTIALS, s.group) in groups
  }

  lemma {:induction false} PositionsElements(slots: seq<Slot>, groups: seq<(Code, Code)>)
    requires NoDuplicates(groups)
    ensures NoDuplicates(Positions(slots, groups))
    ensures forall i :: i in Positions(slots, groups) <==> 0 <= i < |slots| && Askable(slots[i], groups)
  {
    if groups != [] {
      var init, last := groups[..|groups| - 1], groups[|groups| - 1];
      assert groups == init + [last] && last !in init;
      PositionsElements(slots, init);
      PendingPositions(slots, CREDENTIALS, last.1);
      if last.0 == CREDENTIALS {
        PositionsStep(slots, init, last.1);
        assert last == (CREDENTIALS, last.1);
      }
    }
  }

  lemma PendingElements(slots: seq<Slot>, group: Code)
    ensures forall i :: i in PendingAt(slots, CREDENTIALS, group) <==>
      0 <= i < |slots| && Pending(slots[i], CREDENTIALS, group)
  {
    var at := PendingAt(slots, CREDENTIALS, group);
    PendingPositions(slots, CREDENTIALS, group);
    forall i | i in at ensures 0 <= i < |slots| && Pending(slots[i], CREDENTIALS, group) {
      var j :| 0 <= j < |at| && at[j] == i;
    }
  }

  lemma PositionsStep(slots: seq<Slot>, init: seq<(Code, Code)>, group: Code)
    requires (CREDENTIALS, group) !in init
    requires NoDuplicates(Positions(slots, init))
    requires forall i :: i in Positions(slots, init) <==> 0 <= i < |slots| && Askable(slots[i], init)
    ensures var at := Positions(slots, init) + PendingAt(slots, CREDENTIALS, group);
      NoDuplicates(at) && forall i :: i in at <==> 0 <= i < |slots| && Askable(slots[i], init + [(CREDENTIALS, group)])
  {
    var a, b := Positions(slots, init), PendingAt(slots, CREDENTIALS, group);
    PendingPositions(slots, CREDENTIALS, group);
    PendingElements(slots, group);
    forall i, j | 0 <= i < |a| && 0 <= j < |b| ensures a[i] != b[j] {
      assert a[i] in a && b[j] in b;
    }
  }

  /** A pass asks for every missing credential, each once. */
  lemma PassOrderElements(slots: seq<Slot>)
    ensures NoDuplicates(PassOrder(slots))
    ensures forall i :: i in PassOrder(slots) <==>
      0 <= i < |slots| && slots[i].kind == CREDENTIALS && !slots[i].provided
  {
    PendingGroupsElements(slots);
    PositionsElements(slots, PendingGroups(slots));
    forall i | 0 <= i < |slots| && slots[i].kind == CREDENTIALS && !slots[i].provided
      ensures Askable(slots[i], PendingGroups(slots))
    {
      assert Pending(slots[i], CREDENTIALS, slots[i].group);
      assert !RequestQueue.Done(slots, CREDENTIALS, slots[i].group);
    }
  }

  lemma {:induction false} PendingAtSame(a: seq<Slot>, b: seq<Slot>, group: Code)
    requires |a| == |b|
    requires forall i :: 0 <= i < |a| ==> (Pending(a[i], CREDENTIALS, group) <==> Pending(b[i], CREDENTIALS, group))
    ensures PendingAt(a, CREDENTIALS, group) == PendingAt(b, CREDENTIALS, group)
  {
    if a != [] {
      PendingAtSame(a[..|a| - 1], b[..|b| - 1], group);
      assert Pending(a[|a| - 1], CREDENTIALS, group) <==> Pending(b[|a| - 1], CREDENTIALS, group);
    }
  }

  /** The groups visited before do not change what a group is asked for. */
  lemma GroupUntouched(q: Queue, groups: seq<(Code, Code)>, n: nat, answer: Slot -> string, callback: Queue -> bool)
    requires Numbered(q) && NoDuplicates(groups) && n < |groups| && groups[n].0 == CREDENTIALS
    ensures var r := Drained(q, Positions(q.slots, groups[..n]), answer, callback).0;
      Numbered(r) && PendingAt(r.slots, CREDENTIALS, groups[n].1) == PendingAt(q.slots, CREDENTIALS, groups[n].1)
  {
    var before := groups[..n];
    var at := Positions(q.slots, before);
    PositionsElements(q.slots, before);
    DrainedKeeps(q, at, answer, callback);
    assert groups[n] == (CREDENTIALS, groups[n].1) && groups[n] !in before;
    var r := Drained(q, at, answer, callback).0;
    forall i | 0 <= i < |q.slots|
      ensures Pending(q.slots[i], CREDENTIALS, groups[n].1) <==> Pending(r.slots[i], CREDENTIALS, groups[n].1)
    {
      if i in at {
        assert q.slots[i].group != groups[n].1;
      }
    }
    PendingAtSame(r.slots, q.slots, groups[n].1);
  }

  /** The queue after the first `n` groups, and whether no answer has failed. */
  function PassAfter(q: Queue, groups: seq<(Code, Code)>, n: nat, answer: Slot -> string,
                     callback: Queue -> bool): (Queue, bool)
    requires n <= |groups|
  {
    Drained(q, Positions(q.slots, groups[..n]), answer, callback)
  }

  /** One more group. */
  lemma PassStep(q: Queue, groups: seq<(Code, Code)>, n: nat, answer: Slot -> string, callback: Queue -> bool)
    requires Numbered(q) && NoDuplicates(groups) && n < |groups|
    ensures var (r, ok) := PassAfter(q, groups, n, answer, callback);
      && Numbered(r) && |r.slots| == |q.slots|
      && PassAfter(q, groups, n + 1, answer, callback) ==
           if ok && groups[n].0 == CREDENTIALS
           then Drained(r, PendingAt(r.slots, CREDENTIALS, groups[n].1), answer, callback)
           else (r, ok)
  {
    assert groups[..n + 1][..n] == groups[..n];
    DrainedKeeps(q, Positions(q.slots, groups[..n]), answer, callback);
    if groups[n].0 == CREDENTIALS {
      GroupUntouched(q, groups, n, answer, callback);
      DrainedAppend(q, Positions(q.slots, groups[..n]), PendingAt(q.slots, CREDENTIALS, groups[n].1), answer, callback);
    } else {
      assert Positions(q.slots, groups[..n + 1]) == Positions(q.slots, groups[..n]);
    }
  }

  lemma {:induction false} PassStops(q: Queue, groups: seq<(Code, Code)>, n: nat, m: nat, answer: Slot -> string,
                                     callback: Queue -> bool)
    requires Numbered(q) && NoDuplicates(groups) && n <= m <= |groups| && !PassAfter(q, groups, n, answer, callback).1
    ensures PassAfter(q, groups, m, answer, callback) == PassAfter(q, groups, n, answer, callback)
  {
    if n < m {
      PassStops(q, groups, n, m - 1, answer, callback);
      PassStep(q, groups, m - 1, answer, callback);
    }
  }

  /**
   * `query_user_input`: list the groups once, then ask for the values of each, until an answer fails.  The
   * result is that of answering the missing credentials in the order of the pass.
   */
  method QueryUserInput(q: RequiresQueue, answer: Slot -> string, callback: Queue -> bool) returns (ok: bool)
    requires Numbered(q.Value()) && |q.slots| <= TWO32
    modifies q
    ensures (q.Value(), ok) == Drained(old(q.Value()), PassOrder(old(q.slots)), answer, callback)
  {
    var groups := q.QueueCheckTypeGroup();
    ghost var before := q.Value();
    PendingGroupsElements(before.slots);
    ok := true;
    for n := 0 to |groups|
      invariant ok && (q.Value(), true) == PassAfter(before, groups, n, answer, callback)
      invariant Numbered(q.Value()) && |q.slots| <= TWO32
    {
      PassStep(before, groups, n, answer, callback);
      if groups[n].0 == CREDENTIALS {
        ok := AnswerGroup(q, groups[n].1, answer, callback);
        if !ok {
          PassStops(before, groups, n + 1, |groups|, answer, callback);
          break;
        }
      }
      DrainedKeeps(before, Positions(before.slots, groups[..n + 1]), answer, callback);
    }
    assert groups[..|groups|] == groups;
  }

  // ---------------------------------------------------------------- a pass that no callback disturbs

  lemma {:induction false} DrainedPointwise(q: Queue, at: seq<nat>, answer: Slot -> string, callback: Queue -> bool)
    requires NoDuplicates(at) && forall r :: callback(r)
    ensures var (r, ok) := Drained(q, at, answer, callback);
      && ok && r.reqids == q.reqids
      && forall i :: 0 <= i < |q.slots| ==> r.slots[i] == if i in at then Answered(q.slots[i], answer) else q.slots[i]
  {
    if at != [] {
      var init, last := at[..|at| - 1], at[|at| - 1];
      assert at == init + [last];
      assert last !in init;
      DrainedPointwise(q, init, answer, callback);
    }
  }

  /** A pass reaches every missing value and raises nothing when the service's callback does not fail. */
  lemma AnsweredEverywhere(q: Queue, answer: Slot -> string, callback: Queue -> bool)
    requires forall r :: callback(r)
    ensures Drained(q, PassOrder(q.slots), answer, callback) == (q.(slots := AnsweredAll(q.slots, answer)), true)
  {
    PassOrderElements(q.slots);
    DrainedPointwise(q, PassOrder(q.slots), answer, callback);
    var r := Drained(q, PassOrder(q.slots), answer, callback).0;
    assert r.slots == AnsweredAll(q.slots, answer);
  }

  /**
   * After it every missing credential holds the filtered answer to its own question, as the front-end fetched it,
   * and every other slot is as it was.
   */
  lemma PassStoresAnswers(q: Queue, answer: Slot -> string, callback: Queue -> bool, i: nat)
    requires (forall r :: callback(r)) && i < |q.slots|
    ensures var s := q.slots[i];
      var text := answer(Slot(s.id, s.kind, s.group, s.name, "", s.description, s.hidden, false));
      Drained(q, PassOrder(q.slots), answer, callback).0.slots[i] ==
        if s.kind != CREDENTIALS || s.provided || text == "" then s
        else Slot(s.id, s.kind, s.group, s.name, FilterCtrlChars(text, true), s.description, s.hidden, true)
  {
    AnsweredEverywhere(q, answer, callback);
  }

  // ---------------------------------------------------------------- termination

  function Missing(slots: seq<Slot>): nat {
    if slots == [] then 0
    else Missing(slots[..|slots| - 1]) + (if slots[|slots| - 1].provided then 0 else 1)
  }

  /** A pass ends with everything provided exactly when every missing value is a credential and got an answer. */
  lemma PassCompletes(slots: seq<Slot>, answer: Slot -> string)
    ensures AllDone(AnsweredAll(slots, answer)) <==>
      forall i :: 0 <= i < |slots| && !slots[i].provided ==>
        slots[i].kind == CREDENTIALS && answer(View(slots[i])) != []
  {
    var r := AnsweredAll(slots, answer);
    forall i | 0 <= i < |slots|
      ensures r[i].provided <==> slots[i].provided || (slots[i].kind == CREDENTIALS && answer(View(slots[i])) != [])
    {
    }
  }

  /** Each answer lowers the number of missing values; a pass never raises it. */
  lemma {:induction false} PassReducesMissing(slots: seq<Slot>, answer: Slot -> string)
    ensures Missing(AnsweredAll(slots, answer)) <= Missing(slots)
    ensures Missing(AnsweredAll(slots, answer)) == Missing(slots) <==>
      forall i :: 0 <= i < |slots| ==>
        !(slots[i].kind == CREDENTIALS && !slots[i].provided && answer(View(slots[i])) != [])
  {
    if slots != [] {
      var init := slots[..|slots| - 1];
      PassReducesMissing(init, answer);
      assert AnsweredAll(slots, answer)[..|slots| - 1] == AnsweredAll(init, answer);
      assert forall i :: 0 <= i < |init| ==> init[i] == slots[i];
    }
  }
}
