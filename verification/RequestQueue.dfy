/** The queue of inputs a service requires from a user (src/common/requiresqueue.cpp). */
module RequestQueue {
  import opened Outcomes
  import opened TextFilter
  import opened Lists

  /** An 8 bit enum value; the enumerators are below 4 (types) and 11 (groups), a D-Bus caller may send others. */
  type Code = n: nat | n < 256

  const TWO32: nat := 0x1_0000_0000
  const TYPES: nat := 4
  const GROUPS: nat := 11

  /** The type of everything a user is asked to type in. */
  const CREDENTIALS: Code := 1

  datatype Slot = Slot(
    id: U32, kind: Code, group: Code, name: string, value: string, description: string, hidden: bool, provided: bool)

  predicate InGroup(s: Slot, kind: Code, group: Code) {
    s.kind == kind && s.group == group
  }

  predicate Pending(s: Slot, kind: Code, group: Code) {
    InGroup(s, kind, group) && !s.provided
  }

  // ---------------------------------------------------------------- the queue as a value

  datatype Queue = Queue(slots: seq<Slot>, reqids: map<nat, U32>)

  const EMPTY: Queue := Queue([], map[])

  /** `get_reqid_index`. */
  function ReqidIndex(kind: Code, group: Code): nat {
    kind * 100 + group
  }

  function Counter(q: Queue, kind: Code, group: Code): U32 {
    if ReqidIndex(kind, group) in q.reqids then q.reqids[ReqidIndex(kind, group)] else 0
  }

  function Added(q: Queue, kind: Code, group: Code, name: string, description: string, hidden: bool): Queue {
    var id := Counter(q, kind, group);
    Queue(q.slots + [Slot(id, kind, group, name, "", description, hidden, false)],
          q.reqids[ReqidIndex(kind, group) := (id + 1) % TWO32])
  }

  /** The first slot of a group with this id, or the number of slots. */
  function FindId(slots: seq<Slot>, kind: Code, group: Code, id: U32): (i: nat)
    ensures i <= |slots|
    ensures i < |slots| ==> InGroup(slots[i], kind, group) && slots[i].id == id
    ensures forall j :: 0 <= j < i ==> !(InGroup(slots[j], kind, group) && slots[j].id == id)
  {
    First(slots, (s: Slot) => InGroup(s, kind, group) && s.id == id)
  }

  /** The first slot of a group with this name, or the number of slots. */
  function FindName(slots: seq<Slot>, kind: Code, group: Code, name: string): (i: nat)
    ensures i <= |slots|
    ensures i < |slots| ==> InGroup(slots[i], kind, group) && slots[i].name == name
    ensures forall j :: 0 <= j < i ==> !(InGroup(slots[j], kind, group) && slots[j].name == name)
  {
    First(slots, (s: Slot) => InGroup(s, kind, group) && s.name == name)
  }

  predicate Done(slots: seq<Slot>, kind: Code, group: Code) {
    forall i :: 0 <= i < |slots| ==> !Pending(slots[i], kind, group)
  }

  predicate AllDone(slots: seq<Slot>) {
    forall i :: 0 <= i < |slots| ==> slots[i].provided
  }

  function Filled(s: Slot, value: string): Slot {
    s.(provided := true, value := FilterCtrlChars(value, true))
  }

  /** `UpdateEntry`: the slot is filled once; everything else is an exception. */
  function Updated(q: Queue, kind: Code, group: Code, id: U32, value: string): (r: Result<Queue>)
    ensures r.Ok? ==> SameShape(q.slots, r.value.slots)
  {
    var i := FindId(q.slots, kind, group, id);
    if Done(q.slots, kind, group) then Err("User input not required")
    else if i == |q.slots| then Err("No matching entry found")
    else if q.slots[i].provided then Err("already provided")
    else Ok(q.(slots := q.slots[i := Filled(q.slots[i], value)]))
  }

  /** The queue after an operation, which leaves it alone when it throws. */
  function QueueAfter(q: Queue, r: Result<Queue>): Queue {
    if r.Ok? then r.value else q
  }

  function Reset(q: Queue, kind: Code, group: Code, id: U32): Result<Queue> {
    var i := FindId(q.slots, kind, group, id);
    if i == |q.slots| then Err("No matching entry found")
    else Ok(q.(slots := q.slots[i := q.slots[i].(provided := false, value := "")]))
  }

  function ResponseAt(slots: seq<Slot>, i: nat): Result<string> {
    if i >= |slots| then Err("No matching entry found")
    else if !slots[i].provided then Err("Request never provided by front-end")
    else Ok(slots[i].value)
  }

  /** `GetResponse` by variable name. */
  function Response(slots: seq<Slot>, kind: Code, group: Code, name: string): Result<string> {
    ResponseAt(slots, FindName(slots, kind, group, name))
  }

  function Count(slots: seq<Slot>, kind: Code, group: Code): nat {
    if slots == [] then 0
    else Count(slots[..|slots| - 1], kind, group) + (if InGroup(slots[|slots| - 1], kind, group) then 1 else 0)
  }

  /** The ids of a group that still need a value, in slot order. */
  function PendingIds(slots: seq<Slot>, kind: Code, group: Code): seq<U32> {
    if slots == [] then []
    else PendingIds(slots[..|slots| - 1], kind, group)
         + (if Pending(slots[|slots| - 1], kind, group) then [slots[|slots| - 1].id] else [])
  }

  /** Each (type, group) with a missing value, once, in order of first appearance. */
  function PendingGroups(slots: seq<Slot>): seq<(Code, Code)> {
    if slots == [] then []
    else
      var init, last := PendingGroups(slots[..|slots| - 1]), slots[|slots| - 1];
      if !last.provided && (last.kind, last.group) !in init then init + [(last.kind, last.group)] else init
  }

  lemma {:induction false} CountWithinLength(slots: seq<Slot>, kind: Code, group: Code)
    ensures Count(slots, kind, group) <= |slots|
  {
    if slots != [] {
      CountWithinLength(slots[..|slots| - 1], kind, group);
    }
  }

  // ---------------------------------------------------------------- the class

  class RequiresQueue {
    var slots: seq<Slot>
    var reqids: map<nat, U32>

    constructor ()
      ensures Value() == EMPTY
    {
      slots, reqids := [], map[];
    }

    function Value(): Queue
      reads this
    {
      Queue(slots, reqids)
    }

    method ClearAll()
      modifies this
      ensures Value() == EMPTY
    {
      slots, reqids := [], map[];
    }

    method RequireAdd(kind: Code, group: Code, name: string, description: string, hidden: bool) returns (id: U32)
      requires kind < TYPES && group < GROUPS
      modifies this
      ensures id == Counter(old(Value()), kind, group)
      ensures Value() == Added(old(Value()), kind, group, name, description, hidden)
    {
      var index := ReqidIndex(kind, group);
      id := if index in reqids then reqids[index] else 0;
      reqids := reqids[index := (id + 1) % TWO32];
      slots := slots + [Slot(id, kind, group, name, "", description, hidden, false)];
    }

    /** The front-end's view of a slot; the inner tests come in the order the source makes them. */
    method QueueFetch(kind: Code, group: Code, id: U32) returns (r: Result<Slot>)
      ensures var i := FindId(slots, kind, group, id);
        && (r.Ok? <==> i < |slots| && !slots[i].provided)
        && (r.Ok? ==> r.value == slots[i].(value := "", provided := false))
    {
      for i := 0 to |slots|
        invariant forall j :: 0 <= j < i ==> !(InGroup(slots[j], kind, group) && slots[j].id == id)
      {
        var e := slots[i];
        if id == e.id {
          if e.kind == kind && e.group == group {
            assert FindId(slots, kind, group, id) == i;
            if e.provided {
              return Err("User input already provided");
            }
            return Ok(Slot(e.id, e.kind, e.group, e.name, "", e.description, e.hidden, false));
          }
        }
      }
      r := Err("No requires queue element found");
    }

    method QueueCheck(kind: Code, group: Code) returns (ids: seq<U32>)
      ensures ids == PendingIds(slots, kind, group)
    {
      ids := [];
      for i := 0 to |slots|
        invariant ids == PendingIds(slots[..i], kind, group)
      {
        assert slots[..i + 1][..i] == slots[..i];
        if kind == slots[i].kind && group == slots[i].group && !slots[i].provided {
          ids := ids + [slots[i].id];
        }
      }
      assert slots[..|slots|] == slots;
    }

    method QueueDone(kind: Code, group: Code) returns (done: bool)
      ensures done <==> Done(slots, kind, group)
    {
      var ids := QueueCheck(kind, group);
      PendingIdsEmpty(slots, kind, group);
      done := |ids| == 0;
    }

    /**
     * The value is stored before the callback installed for provided responses runs; `callback` says
     * whether it returns normally.
     */
    method UpdateEntry(kind: Code, group: Code, id: U32, value: string, callback: Queue -> bool) returns (ok: bool)
      modifies this
      ensures Value() == QueueAfter(old(Value()), Updated(old(Value()), kind, group, id, value))
      ensures ok <==> Updated(old(Value()), kind, group, id, value).Ok? && callback(Value())
    {
      var done := QueueDone(kind, group);
      if done {
        return false;
      }
      var i := 0;
      while i < |slots|
        invariant i <= |slots| && Value() == old(Value())
        invariant forall j :: 0 <= j < i ==> !(InGroup(slots[j], kind, group) && slots[j].id == id)
      {
        if slots[i].kind == kind && slots[i].group == group && slots[i].id == id {
          assert FindId(slots, kind, group, id) == i;
          if slots[i].provided {
            return false;
          }
          slots := slots[i := slots[i].(provided := true, value := FilterCtrlChars(value, true))];
          return callback(Value());
        }
        i := i + 1;
      }
      ok := false;
    }

    /** The D-Bus variant refuses an empty value before anything else. */
    method ProvideResponse(kind: Code, group: Code, id: U32, value: string, callback: Queue -> bool) returns (ok: bool)
      modifies this
      ensures value == [] ==> !ok && Value() == old(Value())
      ensures value != [] ==>
        && Value() == QueueAfter(old(Value()), Updated(old(Value()), kind, group, id, value))
        && (ok <==> Updated(old(Value()), kind, group, id, value).Ok? && callback(Value()))
    {
      if value == [] {
        return false;
      }
      ok := UpdateEntry(kind, group, id, value, callback);
    }

    method ResetValue(kind: Code, group: Code, id: U32) returns (ok: bool)
      modifies this
      ensures ok <==> Reset(old(Value()), kind, group, id).Ok?
      ensures Value() == if ok then Reset(old(Value()), kind, group, id).value else old(Value())
    {
      var i := 0;
      while i < |slots|
        invariant i <= |slots| && Value() == old(Value())
        invariant forall j :: 0 <= j < i ==> !(InGroup(slots[j], kind, group) && slots[j].id == id)
      {
        if slots[i].kind == kind && slots[i].group == group && slots[i].id == id {
          assert FindId(slots, kind, group, id) == i;
          slots := slots[i := slots[i].(provided := false, value := "")];
          return true;
        }
        i := i + 1;
      }
      ok := false;
    }

    method GetResponse(kind: Code, group: Code, name: string) returns (r: Result<string>)
      ensures r == Response(slots, kind, group, name)
    {
      for i := 0 to |slots|
        invariant forall j :: 0 <= j < i ==> !(InGroup(slots[j], kind, group) && slots[j].name == name)
      {
        if slots[i].kind == kind && slots[i].group == group && slots[i].name == name {
          assert FindName(slots, kind, group, name) == i;
          if !slots[i].provided {
            return Err("Request never provided by front-end");
          }
          return Ok(slots[i].value);
        }
      }
      r := Err("No matching entry found");
    }

    /** The count is a 32 bit number. */
    method QueueCount(kind: Code, group: Code) returns (n: U32)
      ensures n == Count(slots, kind, group) % TWO32
    {
      n := 0;
      for i := 0 to |slots|
        invariant n == Count(slots[..i], kind, group) % TWO32
      {
        assert slots[..i + 1][..i] == slots[..i];
        if kind == slots[i].kind && group == slots[i].group {
          n := (n + 1) % TWO32;
        }
      }
      assert slots[..|slots|] == slots;
    }

    method QueueCheckTypeGroup() returns (groups: seq<(Code, Code)>)
      ensures groups == PendingGroups(slots)
    {
      groups := [];
      for i := 0 to |slots|
        invariant groups == PendingGroups(slots[..i])
      {
        assert slots[..i + 1][..i] == slots[..i];
        var e := slots[i];
        if !e.provided {
          var found := false;
          var k := 0;
          while k < |groups|
            invariant k <= |groups| && !found && (e.kind, e.group) !in groups[..k]
          {
            if groups[k].0 == e.kind && groups[k].1 == e.group {
              found := true;
              break;
            }
            k := k + 1;
          }
          assert found <==> (e.kind, e.group) in groups by {
            if !found { assert groups[..|groups|] == groups; } else { assert groups[k] == (e.kind, e.group); }
          }
          if !found {
            groups := groups + [(e.kind, e.group)];
          }
        }
      }
      assert slots[..|slots|] == slots;
    }

    method QueueAllDone() returns (done: bool)
      ensures done <==> AllDone(slots)
    {
      for i := 0 to |slots|
        invariant forall j :: 0 <= j < i ==> slots[j].provided
      {
        if !slots[i].provided {
          return false;
        }
      }
      done := true;
    }
  }

  // ---------------------------------------------------------------- the overlapping queries agree

  lemma {:induction false} PendingIdsEmpty(slots: seq<Slot>, kind: Code, group: Code)
    ensures PendingIds(slots, kind, group) == [] <==> Done(slots, kind, group)
  {
    if slots != [] {
      var init, last := slots[..|slots| - 1], slots[|slots| - 1];
      PendingIdsEmpty(init, kind, group);
      assert Done(slots, kind, group) <==> Done(init, kind, group) && !Pending(last, kind, group) by {
        assert forall i :: 0 <= i < |init| ==> init[i] == slots[i];
      }
    }
  }

  lemma {:induction false} PendingGroupsElements(slots: seq<Slot>)
    ensures NoDuplicates(PendingGroups(slots))
    ensures forall kind: Code, group: Code :: (kind, group) in PendingGroups(slots) <==> !Done(slots, kind, group)
  {
    if slots != [] {
      var init, last := slots[..|slots| - 1], slots[|slots| - 1];
      PendingGroupsElements(init);
      forall kind: Code, group: Code
        ensures Done(slots, kind, group) <==> Done(init, kind, group) && !Pending(last, kind, group)
      {
        assert forall i :: 0 <= i < |init| ==> init[i] == slots[i];
      }
    }
  }

  /** Nothing is missing, no group is listed, and no group lists an id: all the same. */
  lemma QueriesAgree(slots: seq<Slot>)
    ensures AllDone(slots) <==> PendingGroups(slots) == []
    ensures AllDone(slots) <==> forall kind: Code, group: Code :: PendingIds(slots, kind, group) == []
  {
    PendingGroupsElements(slots);
    forall kind: Code, group: Code ensures PendingIds(slots, kind, group) == [] <==> Done(slots, kind, group) {
      PendingIdsEmpty(slots, kind, group);
    }
    var groups := PendingGroups(slots);
    assert groups != [] ==> (groups[0].0, groups[0].1) in groups;
    if !AllDone(slots) {
      var i :| 0 <= i < |slots| && !slots[i].provided;
      var k, g := slots[i].kind, slots[i].group;
      assert Pending(slots[i], k, g) && !Done(slots, k, g);
      assert (k, g) in PendingGroups(slots);
      assert PendingIds(slots, k, g) != [];
    }
  }

  // ---------------------------------------------------------------- numbering

  lemma {:induction false} CountSnoc(slots: seq<Slot>, s: Slot, kind: Code, group: Code)
    ensures Count(slots + [s], kind, group) == Count(slots, kind, group) + (if InGroup(s, kind, group) then 1 else 0)
  {
    assert (slots + [s])[..|slots|] == slots;
  }

  /** The position of a slot inside its group. */
  function Rank(slots: seq<Slot>, i: nat): nat
    requires i < |slots|
  {
    Count(slots[..i], slots[i].kind, slots[i].group)
  }

  predicate Enumerators(slots: seq<Slot>) {
    forall i :: 0 <= i < |slots| ==> slots[i].kind < TYPES && slots[i].group < GROUPS
  }

  /** Every group holds the ids 0, 1, 2, ... in insertion order and its counter is its size, both as 32 bit numbers. */
  ghost predicate Numbered(q: Queue) {
    && Enumerators(q.slots)
    && (forall i :: 0 <= i < |q.slots| ==> q.slots[i].id == Rank(q.slots, i) % TWO32)
    && (forall kind: Code, group: Code :: kind < TYPES && group < GROUPS ==>
          Counter(q, kind, group) == Count(q.slots, kind, group) % TWO32)
  }

  /** Two groups of enumerators never share a counter; with larger codes they can. */
  lemma IndexIsInjective(k1: Code, g1: Code, k2: Code, g2: Code)
    ensures g1 < GROUPS && g2 < GROUPS && ReqidIndex(k1, g1) == ReqidIndex(k2, g2) ==> k1 == k2 && g1 == g2
    ensures ReqidIndex(1, 100) == ReqidIndex(2, 0)
  {
  }

  lemma WrapStep(n: nat)
    ensures (n % TWO32 + 1) % TWO32 == (n + 1) % TWO32
  {
  }

  lemma CounterAfterAdd(q: Queue, kind: Code, group: Code, name: string, description: string, hidden: bool, k: Code,
                        g: Code)
    requires Numbered(q) && kind < TYPES && group < GROUPS && k < TYPES && g < GROUPS
    ensures var r := Added(q, kind, group, name, description, hidden);
      Counter(r, k, g) == Count(r.slots, k, g) % TWO32
  {
    CountSnoc(q.slots, Added(q, kind, group, name, description, hidden).slots[|q.slots|], k, g);
    IndexIsInjective(k, g, kind, group);
    WrapStep(Count(q.slots, k, g));
  }

  lemma IdsAfterAdd(q: Queue, s: Slot, i: nat)
    requires Numbered(q) && i <= |q.slots|
    requires s.id == Count(q.slots, s.kind, s.group) % TWO32
    ensures (q.slots + [s])[i].id == Rank(q.slots + [s], i) % TWO32
  {
    assert (q.slots + [s])[..i] == q.slots[..i];
    if i == |q.slots| {
      assert q.slots[..i] == q.slots;
    }
  }

  lemma AddKeepsNumbering(q: Queue, kind: Code, group: Code, name: string, description: string, hidden: bool)
    requires Numbered(q) && kind < TYPES && group < GROUPS
    ensures Numbered(Added(q, kind, group, name, description, hidden))
  {
    var r := Added(q, kind, group, name, description, hidden);
    forall i | 0 <= i < |r.slots| ensures r.slots[i].id == Rank(r.slots, i) % TWO32 {
      IdsAfterAdd(q, r.slots[|q.slots|], i);
    }
    forall k: Code, g: Code | k < TYPES && g < GROUPS ensures Counter(r, k, g) == Count(r.slots, k, g) % TWO32 {
      CounterAfterAdd(q, kind, group, name, description, hidden, k, g);
    }
  }

  /** Only `value` and `provided` of some slots differ. */
  ghost predicate SameShape(a: seq<Slot>, b: seq<Slot>) {
    && |a| == |b|
    && forall i :: 0 <= i < |a| ==> b[i] == a[i].(value := b[i].value, provided := b[i].provided)
  }

  lemma {:induction false} CountOfSameShape(a: seq<Slot>, b: seq<Slot>, kind: Code, group: Code)
    requires SameShape(a, b)
    ensures Count(a, kind, group) == Count(b, kind, group)
  {
    if a != [] {
      CountOfSameShape(a[..|a| - 1], b[..|b| - 1], kind, group);
    }
  }

  lemma ShapeKeepsNumbering(q: Queue, slots: seq<Slot>)
    requires Numbered(q) && SameShape(q.slots, slots)
    ensures Numbered(q.(slots := slots))
  {
    forall i | 0 <= i < |slots| ensures slots[i].id == Rank(slots, i) % TWO32 {
      CountOfSameShape(q.slots[..i], slots[..i], slots[i].kind, slots[i].group);
    }
    forall k: Code, g: Code | k < TYPES && g < GROUPS
      ensures Counter(q.(slots := slots), k, g) == Count(slots, k, g) % TWO32
    {
      CountOfSameShape(q.slots, slots, k, g);
    }
  }

  datatype Operation =
    | Add(kind: Code, group: Code, name: string, description: string, hidden: bool)
    | Update(kind: Code, group: Code, id: U32, value: string)
    | ResetOp(kind: Code, group: Code, id: U32)
    | Clear

  /** An operation that throws leaves the queue as it was. */
  function Apply(q: Queue, op: Operation): Queue {
    match op
    case Add(k, g, name, description, hidden) =>
      if k < TYPES && g < GROUPS then Added(q, k, g, name, description, hidden) else q
    case Update(k, g, id, value) => QueueAfter(q, Updated(q, k, g, id, value))
    case ResetOp(k, g, id) => QueueAfter(q, Reset(q, k, g, id))
    case Clear => EMPTY
  }

  function Run(ops: seq<Operation>): Queue {
    if ops == [] then EMPTY else Apply(Run(ops[..|ops| - 1]), ops[|ops| - 1])
  }

  lemma UpdateKeepsNumbering(q: Queue, kind: Code, group: Code, id: U32, value: string)
    requires Numbered(q)
    ensures Numbered(QueueAfter(q, Updated(q, kind, group, id, value)))
  {
    var r := QueueAfter(q, Updated(q, kind, group, id, value));
    ShapeKeepsNumbering(q, r.slots);
    assert r == q.(slots := r.slots);
  }

  lemma ResetKeepsNumbering(q: Queue, kind: Code, group: Code, id: U32)
    requires Numbered(q)
    ensures Numbered(QueueAfter(q, Reset(q, kind, group, id)))
  {
    var r := QueueAfter(q, Reset(q, kind, group, id));
    ShapeKeepsNumbering(q, r.slots);
    assert r == q.(slots := r.slots);
  }

  lemma ApplyKeepsNumbering(q: Queue, op: Operation)
    requires Numbered(q)
    ensures Numbered(Apply(q, op))
  {
    match op {
      case Add(k, g, name, description, hidden) =>
        if k < TYPES && g < GROUPS {
          AddKeepsNumbering(q, k, g, name, description, hidden);
        }
      case Update(k, g, id, value) => UpdateKeepsNumbering(q, k, g, id, value);
      case ResetOp(k, g, id) => ResetKeepsNumbering(q, k, g, id);
      case Clear =>
    }
  }

  /** Over every run of adds, updates, resets and clears the queue is numbered. */
  lemma {:induction false} RunIsNumbered(ops: seq<Operation>)
    ensures Numbered(Run(ops))
  {
    if ops != [] {
      RunIsNumbered(ops[..|ops| - 1]);
      ApplyKeepsNumbering(Run(ops[..|ops| - 1]), ops[|ops| - 1]);
    }
  }

  lemma {:induction false} CountMonotone(slots: seq<Slot>, i: nat, j: nat, kind: Code, group: Code)
    requires i <= j <= |slots|
    ensures Count(slots[..i], kind, group) <= Count(slots[..j], kind, group)
    ensures i < j && InGroup(slots[i], kind, group) ==> Count(slots[..i], kind, group) < Count(slots[..j], kind, group)
    decreases j - i
  {
    if i < j {
      assert slots[..j][..j - 1] == slots[..j - 1];
      CountMonotone(slots, i, j - 1, kind, group);
    }
  }

  /** As long as the group is small enough the id of a slot is its position in the group. */
  lemma IdIsRank(q: Queue, i: nat)
    requires Numbered(q) && i < |q.slots| && Rank(q.slots, i) < TWO32
    ensures q.slots[i].id == Rank(q.slots, i)
  {
    assert q.slots[i].id == Rank(q.slots, i) % TWO32;
  }

  lemma RankBelowCount(slots: seq<Slot>, i: nat)
    requires i < |slots|
    ensures Rank(slots, i) < Count(slots, slots[i].kind, slots[i].group)
  {
    CountMonotone(slots, i, |slots|, slots[i].kind, slots[i].group);
    assert slots[..|slots|] == slots;
  }

  /** While a group has at most 2^32 slots, a (type, group, id) triple names one slot. */
  lemma IdNamesOneSlot(q: Queue, i: nat, j: nat)
    requires Numbered(q) && i < j < |q.slots|
    requires InGroup(q.slots[j], q.slots[i].kind, q.slots[i].group)
    requires Count(q.slots, q.slots[i].kind, q.slots[i].group) <= TWO32
    ensures q.slots[i].id != q.slots[j].id
  {
    RankBelowCount(q.slots, i);
    RankBelowCount(q.slots, j);
    IdIsRank(q, i);
    IdIsRank(q, j);
    CountMonotone(q.slots, i, j, q.slots[i].kind, q.slots[i].group);
  }

  /** So an update fills exactly the pending slot it names and leaves every other slot alone. */
  lemma UpdateFillsNamedSlot(q: Queue, i: nat, value: string)
    requires Numbered(q) && i < |q.slots| && !q.slots[i].provided
    requires Count(q.slots, q.slots[i].kind, q.slots[i].group) <= TWO32
    ensures FindId(q.slots, q.slots[i].kind, q.slots[i].group, q.slots[i].id) == i
    ensures Updated(q, q.slots[i].kind, q.slots[i].group, q.slots[i].id, value) ==
            Ok(q.(slots := q.slots[i := Filled(q.slots[i], value)]))
  {
    var f := FindId(q.slots, q.slots[i].kind, q.slots[i].group, q.slots[i].id);
    if f < i {
      IdNamesOneSlot(q, f, i);
    }
    assert Pending(q.slots[i], q.slots[i].kind, q.slots[i].group);
  }

  lemma FindSameShape(a: seq<Slot>, b: seq<Slot>, s: Slot)
    requires SameShape(a, b)
    ensures FindId(a, s.kind, s.group, s.id) == FindId(b, s.kind, s.group, s.id)
    ensures FindName(a, s.kind, s.group, s.name) == FindName(b, s.kind, s.group, s.name)
  {
    assert forall j :: 0 <= j < |a| ==>
      a[j].kind == b[j].kind && a[j].group == b[j].group && a[j].id == b[j].id && a[j].name == b[j].name;
  }

  /** A value that was provided is what a lookup by name returns, filtered. */
  lemma ResponseAfterUpdate(q: Queue, i: nat, value: string)
    requires Numbered(q) && i < |q.slots| && !q.slots[i].provided
    requires Count(q.slots, q.slots[i].kind, q.slots[i].group) <= TWO32
    requires FindName(q.slots, q.slots[i].kind, q.slots[i].group, q.slots[i].name) == i
    ensures var s := q.slots[i];
      var r := Updated(q, s.kind, s.group, s.id, value);
      r.Ok? && Response(r.value.slots, s.kind, s.group, s.name) == Ok(FilterCtrlChars(value, true))
  {
    UpdateFillsNamedSlot(q, i, value);
    var s, after := q.slots[i], q.slots[i := Filled(q.slots[i], value)];
    FindSameShape(q.slots, after, s);
  }

  /** Resetting a slot takes back what provided it. */
  lemma ResetUndoesUpdate(q: Queue, i: nat, value: string)
    requires Numbered(q) && i < |q.slots| && !q.slots[i].provided && q.slots[i].value == ""
    requires Count(q.slots, q.slots[i].kind, q.slots[i].group) <= TWO32
    ensures var s := q.slots[i];
      var r := Updated(q, s.kind, s.group, s.id, value);
      r.Ok? && Reset(r.value, s.kind, s.group, s.id) == Ok(q)
  {
    UpdateFillsNamedSlot(q, i, value);
    var s, after := q.slots[i], q.slots[i := Filled(q.slots[i], value)];
    FindSameShape(q.slots, after, s);
    assert after[i := after[i].(provided := false, value := "")] == q.slots;
  }

  /** In every run a slot without a value has an empty text, so the reset restores the queue itself. */
  lemma {:induction false} PendingIsEmpty(ops: seq<Operation>, i: nat)
    requires i < |Run(ops).slots| && !Run(ops).slots[i].provided
    ensures Run(ops).slots[i].value == ""
  {
    var q := Run(ops[..|ops| - 1]);
    if i < |q.slots| && !q.slots[i].provided {
      PendingIsEmpty(ops[..|ops| - 1], i);
    }
  }

  // ---------------------------------------------------------------- when an operation succeeds

  /** This slot is the first one of its group with its id. */
  ghost predicate NamedFirst(slots: seq<Slot>, i: nat, kind: Code, group: Code, id: U32)
    requires i < |slots|
  {
    && InGroup(slots[i], kind, group) && slots[i].id == id
    && forall j :: 0 <= j < i ==> !(InGroup(slots[j], kind, group) && slots[j].id == id)
  }

  /** A value is accepted once, by the first slot of that id, and changes nothing else. */
  lemma UpdateSucceedsIff(q: Queue, kind: Code, group: Code, id: U32, value: string)
    ensures Updated(q, kind, group, id, value).Ok? <==>
      exists i: nat :: i < |q.slots| && NamedFirst(q.slots, i, kind, group, id) && !q.slots[i].provided
    ensures forall i: nat :: i < |q.slots| && NamedFirst(q.slots, i, kind, group, id) && !q.slots[i].provided ==>
      Updated(q, kind, group, id, value) ==
        Ok(q.(slots := q.slots[i := q.slots[i].(provided := true, value := FilterCtrlChars(value, true))]))
  {
    var f := FindId(q.slots, kind, group, id);
    if f < |q.slots| {
      assert NamedFirst(q.slots, f, kind, group, id);
      assert !q.slots[f].provided ==> Pending(q.slots[f], kind, group);
    }
    forall i: nat | i < |q.slots| && NamedFirst(q.slots, i, kind, group, id) ensures i == f {
    }
  }

  /** A reset succeeds whenever there is such a slot, provided or not, and takes the value of the first one. */
  lemma ResetSucceedsIff(q: Queue, kind: Code, group: Code, id: U32)
    ensures Reset(q, kind, group, id).Ok? <==>
      exists i: nat :: i < |q.slots| && NamedFirst(q.slots, i, kind, group, id)
    ensures forall i: nat :: i < |q.slots| && NamedFirst(q.slots, i, kind, group, id) ==>
      Reset(q, kind, group, id) == Ok(q.(slots := q.slots[i := q.slots[i].(provided := false, value := "")]))
  {
    var f := FindId(q.slots, kind, group, id);
    if f < |q.slots| {
      assert NamedFirst(q.slots, f, kind, group, id);
    }
    forall i: nat | i < |q.slots| && NamedFirst(q.slots, i, kind, group, id) ensures i == f {
    }
  }

  /** A lookup by name gives the value of the first slot of that name, and fails while that has none. */
  lemma ResponseOfFirst(slots: seq<Slot>, i: nat, kind: Code, group: Code, name: string)
    requires i < |slots| && InGroup(slots[i], kind, group) && slots[i].name == name
    requires forall j :: 0 <= j < i ==> !(InGroup(slots[j], kind, group) && slots[j].name == name)
    ensures Response(slots, kind, group, name).Ok? <==> slots[i].provided
    ensures slots[i].provided ==> Response(slots, kind, group, name) == Ok(slots[i].value)
  {
    assert FindName(slots, kind, group, name) == i;
  }

  lemma PendingIsNamedFirst(q: Queue, i: nat)
    requires Numbered(q) && i < |q.slots| && !q.slots[i].provided
    requires Count(q.slots, q.slots[i].kind, q.slots[i].group) <= TWO32
    ensures NamedFirst(q.slots, i, q.slots[i].kind, q.slots[i].group, q.slots[i].id)
  {
    UpdateFillsNamedSlot(q, i, "");
    assert FindId(q.slots, q.slots[i].kind, q.slots[i].group, q.slots[i].id) == i;
  }

  /** What is required comes in as it was described, without a value, and changes no slot before it. */
  lemma AddedSlot(q: Queue, kind: Code, group: Code, name: string, description: string, hidden: bool)
    requires Numbered(q) && kind < TYPES && group < GROUPS && Count(q.slots, kind, group) < TWO32
    ensures var r := Added(q, kind, group, name, description, hidden);
      && |r.slots| == |q.slots| + 1 && q.slots <= r.slots
      && r.slots[|q.slots|] == Slot(Count(q.slots, kind, group), kind, group, name, "", description, hidden, false)
      && NamedFirst(r.slots, |q.slots|, kind, group, Count(q.slots, kind, group))
  {
    var r, n := Added(q, kind, group, name, description, hidden), |q.slots|;
    var id := Counter(q, kind, group);
    assert id == Count(q.slots, kind, group);
    AddKeepsNumbering(q, kind, group, name, description, hidden);
    CountSnoc(q.slots, r.slots[n], kind, group);
    PendingIsNamedFirst(r, n);
  }

  /** The position of the first missing value of a group. */
  function FirstMissing(slots: seq<Slot>, group: (Code, Code)): (i: nat)
    ensures i <= |slots| && (i < |slots| ==> Pending(slots[i], group.0, group.1))
    ensures forall j :: 0 <= j < i ==> !Pending(slots[j], group.0, group.1)
  {
    First(slots, (s: Slot) => Pending(s, group.0, group.1))
  }

  /** Groups are listed in the order of their first missing values. */
  lemma {:induction false} GroupsInOrder(slots: seq<Slot>, a: nat, b: nat)
    requires a < b < |PendingGroups(slots)|
    ensures FirstMissing(slots, PendingGroups(slots)[a]) < FirstMissing(slots, PendingGroups(slots)[b]) < |slots|
  {
    var init, last := slots[..|slots| - 1], slots[|slots| - 1];
    var groups := PendingGroups(slots);
    ListedIsMissing(init);
    FirstMissingSnoc(init, last, groups[a]);
    FirstMissingSnoc(init, last, groups[b]);
    assert init + [last] == slots;
    if b < |PendingGroups(init)| {
      GroupsInOrder(init, a, b);
    } else {
      PendingGroupsElements(init);
      assert groups[a] in PendingGroups(init);
    }
  }

  lemma ListedIsMissing(slots: seq<Slot>)
    ensures forall g :: g in PendingGroups(slots) <==> FirstMissing(slots, g) < |slots|
  {
    PendingGroupsElements(slots);
    forall g ensures g in PendingGroups(slots) <==> FirstMissing(slots, g) < |slots| {
      assert g == (g.0, g.1);
    }
  }

  lemma FirstMissingSnoc(slots: seq<Slot>, s: Slot, group: (Code, Code))
    ensures FirstMissing(slots + [s], group) ==
      if FirstMissing(slots, group) < |slots| then FirstMissing(slots, group)
      else if Pending(s, group.0, group.1) then |slots| else |slots| + 1
  {
    var all := slots + [s];
    assert all[|slots|] == s && forall j :: 0 <= j < |slots| ==> all[j] == slots[j];
  }
}
