/** What survives writing a configuration file and reading it back (src/common/configfileparser.cpp). */
module ConfigFileRuns {
  import opened Outcomes
  import opened Json
  import opened ConfigFile

  // ---------------------------------------------------------------- reachable states

  /** A flag has no text, a text has no flag, and what is absent has neither. */
  ghost predicate Clean(e: Entry) {
    && (e.kind == PresentKind ==> e.value == "")
    && (e.kind != PresentKind ==> !e.presentValue)
    && (!e.present ==> !e.presentValue && e.value == "")
  }

  ghost predicate AllClean(entries: seq<Entry>) {
    forall i :: 0 <= i < |entries| ==> Clean(entries[i])
  }

  datatype Operation =
    | Parsing(config: Json, order: seq<string>)
    | Setting(option: string, value: string)
    | Unsetting(option: string)
    | Asking      // any of the queries, which only set up the mapping

  ghost predicate ProperOrder(op: Operation) {
    op.Parsing? && MemberNames(op.config).Ok? ==> Enumerates(op.order, MemberNames(op.config).value)
  }

  /** The state after an operation, whether or not it threw. */
  ghost function Apply(template: seq<Entry>, f: FileState, op: Operation): FileState
    requires ProperOrder(op)
  {
    var c := Configured(template, f);
    match op
    case Parsing(config, order) =>
      if MemberNames(config).Err? then c else c.(entries := ParseMembers(c.entries, Members(config), order).0)
    case Setting(option, value) =>
      var i := FindOption(c.entries, option);
      if i == |c.entries| then c else WithEntry(c, i, SetEntry(c.entries[i], value))
    case Unsetting(option) =>
      var i := FindOption(f.entries, option);
      if i == |f.entries| then f else WithEntry(f, i, Unset(f.entries[i]))
    case Asking => c
  }

  ghost predicate IsRun(template: seq<Entry>, fs: seq<FileState>, ops: seq<Operation>) {
    && |fs| == |ops| + 1 && fs[0] == NEW_FILE
    && forall i :: 0 <= i < |ops| ==> ProperOrder(ops[i]) && fs[i + 1] == Apply(template, fs[i], ops[i])
  }

  /** Only the settings of the template's entries have changed. */
  ghost predicate FromTemplate(template: seq<Entry>, entries: seq<Entry>) {
    |entries| == |template| && forall i :: 0 <= i < |entries| ==> Unset(entries[i]) == Unset(template[i])
  }

  ghost predicate SoundFile(template: seq<Entry>, f: FileState) {
    if f.configured then FromTemplate(template, f.entries) && AllClean(f.entries) else f.entries == []
  }

  lemma ReadKeepsClean(e: Entry, j: Json)
    requires Clean(e)
    ensures var r := ReadMember(e, j).0;
      Clean(r) && Unset(r) == Unset(e)
  {
  }

  lemma MemberKeepsSound(template: seq<Entry>, entries: seq<Entry>, field: string, j: Json)
    requires FromTemplate(template, entries) && AllClean(entries)
    ensures var r := ParseMember(entries, field, j).0;
      FromTemplate(template, r) && AllClean(r)
  {
    var i := FindField(entries, field);
    if i < |entries| {
      ReadKeepsClean(entries[i], j);
      var r := ParseMember(entries, field, j).0;
      assert forall k :: 0 <= k < |entries| && k != i ==> r[k] == entries[k];
    }
  }

  lemma {:induction false} ParsingKeepsSound(template: seq<Entry>, entries: seq<Entry>, members: map<string, Json>,
                                             order: seq<string>)
    requires FromTemplate(template, entries) && AllClean(entries)
    ensures var r := ParseMembers(entries, members, order).0;
      FromTemplate(template, r) && AllClean(r)
  {
    if order != [] {
      var init, last := order[..|order| - 1], order[|order| - 1];
      ParsingKeepsSound(template, entries, members, init);
      MemberKeepsSound(template, ParseMembers(entries, members, init).0, last, At(members, last));
    }
  }

  lemma ReplaceKeepsSound(template: seq<Entry>, entries: seq<Entry>, i: nat, e: Entry)
    requires FromTemplate(template, entries) && AllClean(entries) && i < |entries| && Clean(e)
    requires Unset(e) == Unset(entries[i])
    ensures FromTemplate(template, entries[i := e]) && AllClean(entries[i := e])
  {
  }

  lemma SetKeepsClean(e: Entry, value: string)
    requires Clean(e)
    ensures Clean(SetEntry(e, value)) && Unset(SetEntry(e, value)) == Unset(e)
    ensures Clean(Unset(e)) && Unset(Unset(e)) == Unset(e)
  {
  }

  lemma StepKeepsSound(template: seq<Entry>, f: FileState, op: Operation)
    requires SoundFile(template, f) && ProperOrder(op)
    ensures SoundFile(template, Apply(template, f, op))
  {
    var c := Configured(template, f);
    assert SoundFile(template, c);
    match op {
      case Parsing(config, order) =>
        if MemberNames(config).Ok? {
          ParsingKeepsSound(template, c.entries, Members(config), order);
        }
      case Setting(option, value) =>
        var i := FindOption(c.entries, option);
        if i < |c.entries| {
          SetKeepsClean(c.entries[i], value);
          ReplaceKeepsSound(template, c.entries, i, SetEntry(c.entries[i], value));
        }
      case Unsetting(option) =>
        var i := FindOption(f.entries, option);
        if i < |f.entries| {
          SetKeepsClean(f.entries[i], "");
          ReplaceKeepsSound(template, f.entries, i, Unset(f.entries[i]));
        }
      case Asking =>
    }
  }

  lemma {:induction false} RunIsSound(template: seq<Entry>, fs: seq<FileState>, ops: seq<Operation>, i: nat)
    requires IsRun(template, fs, ops) && i <= |ops|
    ensures SoundFile(template, fs[i])
  {
    if i > 0 {
      RunIsSound(template, fs, ops, i - 1);
      StepKeepsSound(template, fs[i - 1], ops[i - 1]);
    }
  }

  // ---------------------------------------------------------------- what is written

  /** Later entries of the same label are absent. */
  ghost predicate LastPresent(entries: seq<Entry>, i: nat)
    requires i < |entries|
  {
    entries[i].present && forall k :: i < k < |entries| && entries[k].field == entries[i].field ==> !entries[k].present
  }

  ghost predicate HasPresent(entries: seq<Entry>, field: string) {
    exists i :: 0 <= i < |entries| && entries[i].present && entries[i].field == field
  }

  lemma {:induction false} GeneratedKeys(entries: seq<Entry>, field: string)
    ensures field in Members(Generated(entries)) <==> HasPresent(entries, field)
    ensures forall f :: f in Members(Generated(entries)) ==> Readable(At(Members(Generated(entries)), f))
  {
    if entries != [] {
      var init, last := entries[..|entries| - 1], entries[|entries| - 1];
      GeneratedKeys(init, field);
      assert HasPresent(entries, field) <==> HasPresent(init, field) || (last.present && last.field == field) by {
        assert forall i :: 0 <= i < |init| ==> init[i] == entries[i];
      }
    }
  }

  lemma {:induction false} GeneratedValue(entries: seq<Entry>, i: nat)
    requires i < |entries| && LastPresent(entries, i)
    ensures entries[i].field in Members(Generated(entries))
    ensures At(Members(Generated(entries)), entries[i].field) == Written(entries[i])
  {
    var n := |entries| - 1;
    if i < n {
      assert LastPresent(entries[..n], i);
      GeneratedValue(entries[..n], i);
    }
  }

  // ---------------------------------------------------------------- what is read

  ghost predicate SameFields(a: seq<Entry>, b: seq<Entry>) {
    |a| == |b| && forall i :: 0 <= i < |a| ==> a[i].field == b[i].field
  }

  lemma FindFieldSame(a: seq<Entry>, b: seq<Entry>, field: string)
    requires SameFields(a, b)
    ensures FindField(a, field) == FindField(b, field)
  {
  }

  /** Reading fills the first entry of every label and leaves the others alone. */
  function ReadBack(entries: seq<Entry>, members: map<string, Json>, order: seq<string>, i: nat): Entry
    requires i < |entries|
  {
    var e := entries[i];
    if FindField(entries, e.field) == i && e.field in order then ReadMember(e, At(members, e.field)).0 else e
  }

  /** Reading these members succeeds, fills the first entry of every label among them and touches no other. */
  ghost predicate ReadsAll(entries: seq<Entry>, members: map<string, Json>, order: seq<string>) {
    var r := ParseMembers(entries, members, order);
    && r.1 && SameFields(entries, r.0)
    && forall i :: 0 <= i < |entries| ==> r.0[i] == ReadBack(entries, members, order, i)
  }

  predicate Readable(j: Json) {
    j.JBool? || j.JString?
  }

  lemma {:induction false} ParsedAt(entries: seq<Entry>, members: map<string, Json>, order: seq<string>)
    requires NoDuplicates(order) && forall k :: k in order ==> Readable(At(members, k))
    ensures ReadsAll(entries, members, order)
  {
    if order != [] {
      var init, last := order[..|order| - 1], order[|order| - 1];
      assert order == init + [last];
      assert last in order && last !in init;
      ParsedAt(entries, members, init);
      ParsedStep(entries, members, init, last);
    }
  }

  /** One more member only changes what is read for the first entry of its label. */
  lemma ReadBackStep(entries: seq<Entry>, members: map<string, Json>, init: seq<string>, last: string, i: nat)
    requires i < |entries| && last !in init
    ensures ReadBack(entries, members, init + [last], i) ==
      if i == FindField(entries, last) then ReadMember(entries[i], At(members, last)).0
      else ReadBack(entries, members, init, i)
    ensures i == FindField(entries, last) ==> ReadBack(entries, members, init, i) == entries[i]
  {
    assert entries[i].field in init + [last] <==> entries[i].field in init || entries[i].field == last;
  }

  lemma ParsedStep(entries: seq<Entry>, members: map<string, Json>, init: seq<string>, last: string)
    requires last !in init && Readable(At(members, last)) && ReadsAll(entries, members, init)
    ensures ReadsAll(entries, members, init + [last])
  {
    assert (init + [last])[..|init|] == init;
    var es, at := ParseMembers(entries, members, init).0, FindField(entries, last);
    var r := ParseMember(es, last, At(members, last));
    assert ParseMembers(entries, members, init + [last]) == r;
    FindFieldSame(entries, es, last);
    if at < |entries| {
      ReadBackStep(entries, members, init, last, at);
      ReadSucceeds(entries[at], At(members, last));
    }
    forall i | 0 <= i < |entries|
      ensures r.0[i] == ReadBack(entries, members, init + [last], i) && r.0[i].field == entries[i].field
    {
      ReadBackStep(entries, members, init, last, i);
    }
  }

  lemma ReadSucceeds(e: Entry, j: Json)
    requires Readable(j)
    ensures ReadMember(e, j).1 && ReadMember(e, j).0.field == e.field
  {
  }

  // ---------------------------------------------------------------- the round trip

  /** A present entry is the first with its label. */
  ghost predicate PresentIsFirst(entries: seq<Entry>) {
    forall i, k :: 0 <= k < i < |entries| && entries[k].field == entries[i].field ==> !entries[i].present
  }

  /** What is written for an entry brings it back. */
  lemma WrittenReadsBack(e: Entry)
    requires Clean(e)
    ensures e.present ==> ReadMember(Unset(e), Written(e)) == (e, true)
    ensures !e.present ==> Unset(e) == e
  {
  }

  lemma PresentReadsBack(entries: seq<Entry>, order: seq<string>, i: nat)
    requires AllClean(entries) && PresentIsFirst(entries) && i < |entries| && entries[i].present
    requires Enumerates(order, Members(Generated(entries)).Keys)
    ensures ReadBack(FreshMap(entries), Members(Generated(entries)), order, i) == entries[i]
  {
    var e := entries[i];
    WrittenReadsBack(e);
    FindFieldSame(entries, FreshMap(entries), e.field);
    assert FindField(entries, e.field) == i;
    GeneratedValue(entries, i);
  }

  lemma AbsentReadsBack(entries: seq<Entry>, order: seq<string>, i: nat)
    requires AllClean(entries) && PresentIsFirst(entries) && i < |entries| && !entries[i].present
    requires Enumerates(order, Members(Generated(entries)).Keys)
    ensures ReadBack(FreshMap(entries), Members(Generated(entries)), order, i) == entries[i]
  {
    var e := entries[i];
    WrittenReadsBack(e);
    FindFieldSame(entries, FreshMap(entries), e.field);
    if FindField(entries, e.field) == i {
      AbsentFirst(entries, i);
      GeneratedKeys(entries, e.field);
    }
  }

  /** When the first entry of a label is absent, so are the others. */
  lemma AbsentFirst(entries: seq<Entry>, i: nat)
    requires PresentIsFirst(entries) && i < |entries| && !entries[i].present
    requires FindField(entries, entries[i].field) == i
    ensures !HasPresent(entries, entries[i].field)
  {
    forall j | 0 <= j < |entries| && entries[j].field == entries[i].field ensures !entries[j].present {
      assert j >= i;
    }
  }

  /**
   * Reading the generated JSON into a new mapping restores the presence, flag and value of every entry,
   * in whatever order the members are read, if and only if every present entry is the first with its label.
   */
  lemma RoundTrip(entries: seq<Entry>, order: seq<string>)
    requires AllClean(entries) && Enumerates(order, Members(Generated(entries)).Keys)
    ensures ParseMembers(FreshMap(entries), Members(Generated(entries)), order) == (entries, true) <==>
      PresentIsFirst(entries)
  {
    var m := Members(Generated(entries));
    GeneratedKeys(entries, "");
    ParsedAt(FreshMap(entries), m, order);
    var r := ParseMembers(FreshMap(entries), m, order).0;
    if PresentIsFirst(entries) {
      forall i | 0 <= i < |entries| ensures r[i] == entries[i] {
        if entries[i].present {
          PresentReadsBack(entries, order, i);
        } else {
          AbsentReadsBack(entries, order, i);
        }
      }
      assert r == entries;
    } else {
      var i, k :| 0 <= k < i < |entries| && entries[k].field == entries[i].field && entries[i].present;
      assert FindField(FreshMap(entries), entries[i].field) != i by {
        assert FreshMap(entries)[k].field == entries[i].field;
      }
      assert r[i] == ReadBack(FreshMap(entries), m, order, i);
      assert !r[i].present;
    }
  }

  /** With unique labels every state that settings, resets and parsing can reach survives. */
  lemma ReachableRoundTrip(template: seq<Entry>, fs: seq<FileState>, ops: seq<Operation>, i: nat, order: seq<string>)
    requires IsRun(template, fs, ops) && i <= |ops| && fs[i].configured
    requires forall j, k :: 0 <= j < k < |template| ==> template[j].field != template[k].field
    requires Enumerates(order, Members(Generated(fs[i].entries)).Keys)
    ensures ParseMembers(FreshMap(template), Members(Generated(fs[i].entries)), order) == (fs[i].entries, true)
  {
    RunIsSound(template, fs, ops, i);
    var entries := fs[i].entries;
    assert forall j :: 0 <= j < |entries| ==> Unset(entries[j]).field == entries[j].field;
    assert forall j :: 0 <= j < |entries| ==> entries[j].field == template[j].field;
    assert FreshMap(template) == FreshMap(entries);
    RoundTrip(entries, order);
  }
}
