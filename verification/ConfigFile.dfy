/** The JSON configuration files of the command line tools (src/common/configfileparser.cpp). */
module ConfigFile {
  import opened Outcomes
  import opened Json
  import opened Lists

  datatype Kind = IntKind | StringKind | PresentKind

  datatype Entry = Entry(
    option: string, field: string, group: string, kind: Kind, present: bool, presentValue: bool, value: string)

  function Unset(e: Entry): Entry {
    e.(present := false, presentValue := false, value := "")
  }

  /** The mapping as `ConfigureMapping` builds it. */
  function FreshMap(entries: seq<Entry>): (r: seq<Entry>)
    ensures |r| == |entries| && forall i :: 0 <= i < |r| ==> r[i] == Unset(entries[i])
  {
    seq(|entries|, i requires 0 <= i < |entries| => Unset(entries[i]))
  }

  /** The first entry of an option, or the number of entries. */
  function FindOption(entries: seq<Entry>, option: string): (i: nat)
    ensures i <= |entries|
    ensures i < |entries| ==> entries[i].option == option
    ensures forall j :: 0 <= j < i ==> entries[j].option != option
  {
    First(entries, (e: Entry) => e.option == option)
  }

  /** The first entry of a field label, or the number of entries. */
  function FindField(entries: seq<Entry>, field: string): (i: nat)
    ensures i <= |entries|
    ensures i < |entries| ==> entries[i].field == field
    ensures forall j :: 0 <= j < i ==> entries[j].field != field
  {
    First(entries, (e: Entry) => e.field == field)
  }

  // ---------------------------------------------------------------- reading and writing JSON

  /** An entry after its member was read, and whether the conversion succeeded. */
  function ReadMember(e: Entry, j: Json): (Entry, bool) {
    var p := e.(present := true);
    if e.kind == PresentKind then
      if j.JString? then (p.(presentValue := true), true)
      else match AsBool(j) case Ok(b) => (p.(presentValue := b), true) case Err(_) => (p, false)
    else match AsString(j) case Ok(s) => (p.(value := s), true) case Err(_) => (p, false)
  }

  function ParseMember(entries: seq<Entry>, field: string, j: Json): (r: (seq<Entry>, bool))
    ensures |r.0| == |entries|
  {
    var i := FindField(entries, field);
    if i == |entries| then (entries, true)
    else var (e, ok) := ReadMember(entries[i], j); (entries[i := e], ok)
  }

  /** The members are read in this order; the first conversion that fails ends the call. */
  function ParseMembers(entries: seq<Entry>, members: map<string, Json>, order: seq<string>): (r: (seq<Entry>, bool))
    ensures |r.0| == |entries|
  {
    if order == [] then (entries, true)
    else
      var (es, ok) := ParseMembers(entries, members, order[..|order| - 1]);
      if ok then ParseMember(es, order[|order| - 1], At(members, order[|order| - 1])) else (es, false)
  }

  function Written(e: Entry): Json {
    if e.kind == PresentKind then JBool(e.presentValue) else JString(e.value)
  }

  function Generated(entries: seq<Entry>): (j: Json)
    ensures j.JNull? || j.JObject?
  {
    if entries == [] then JNull
    else
      var last := entries[|entries| - 1];
      var j := Generated(entries[..|entries| - 1]);
      if last.present then Put(j, last.field, Written(last)) else j
  }

  function Members(j: Json): map<string, Json> {
    if j.JObject? then j.members else map[]
  }

  // ---------------------------------------------------------------- the other queries

  /** Options with something to report; every option when all are asked for. */
  function Options(entries: seq<Entry>, all: bool): seq<string> {
    if entries == [] then []
    else
      var last := entries[|entries| - 1];
      Options(entries[..|entries| - 1], all) +
      (if (last.present || all) && (last.kind == PresentKind || last.value != "" || all) then [last.option] else [])
  }

  predicate OptionPresent(entries: seq<Entry>, option: string) {
    var i := FindOption(entries, option);
    i < |entries| && entries[i].present
  }

  function ValueOf(entries: seq<Entry>, option: string): Result<string> {
    var i := FindOption(entries, option);
    if i == |entries| then Err("option not found") else EntryValue(entries[i])
  }

  function EntryValue(e: Entry): Result<string> {
    if !e.present then Err("option not present")
    else if e.kind == PresentKind then Ok(if e.presentValue then "true" else "false")
    else Ok(e.value)
  }

  /** What was set is read back; an empty text and a reset make the option absent. */
  lemma SetEntryReads(e: Entry, value: string)
    ensures e.kind != PresentKind ==>
      EntryValue(SetEntry(e, value)) == if value == "" then EntryValue(Unset(e)) else Ok(value)
    ensures e.kind == PresentKind ==>
      EntryValue(SetEntry(e, value)) ==
        Ok(if value == "1" || value == "yes" || value == "true" then "true" else "false")
    ensures EntryValue(Unset(e)).Err?
  {
  }

  /**
   * What a member of a configuration file makes of an option: a flag is read as one, any text counting as yes;
   * everything else is read as text; lists and objects are refused, which still marks the option as present.
   */
  lemma MemberReads(e: Entry, j: Json)
    ensures ReadMember(e, j).1 <==>
      if e.kind == PresentKind then !j.JArray? && !j.JObject? else AsString(j).Ok?
    ensures ReadMember(e, j).1 ==>
      EntryValue(ReadMember(e, j).0) ==
        if e.kind != PresentKind then AsString(j)
        else Ok(if j.JString? || j == JBool(true) || (j.JInt? && j.number != 0) then "true" else "false")
    ensures ReadMember(e, j).0.present && ReadMember(e, j).0.option == e.option
  {
  }

  /** Asking for all options lists every entry in mapping order. */
  lemma {:induction false} AllOptions(entries: seq<Entry>)
    ensures |Options(entries, true)| == |entries|
    ensures forall i :: 0 <= i < |entries| ==> Options(entries, true)[i] == entries[i].option
  {
    if entries != [] {
      AllOptions(entries[..|entries| - 1]);
    }
  }

  /** The list of a mapping in two parts is the list of the first and then of the second. */
  lemma {:induction false} OptionsConcat(a: seq<Entry>, b: seq<Entry>, all: bool)
    ensures Options(a + b, all) == Options(a, all) + Options(b, all)
  {
    if b == [] {
      assert a + b == a;
    } else {
      var init := b[..|b| - 1];
      assert (a + b)[..|a + b| - 1] == a + init && (a + b)[|a + b| - 1] == b[|b| - 1];
      OptionsConcat(a, init, all);
    }
  }

  /** Changing the entry of an option changes what is read for it and for no other option. */
  lemma ReplacedIsRead(entries: seq<Entry>, option: string, e: Entry, other: string)
    requires FindOption(entries, option) < |entries| && e.option == option
    ensures var after := entries[FindOption(entries, option) := e];
      && ValueOf(after, option) == EntryValue(e)
      && (other != option ==> ValueOf(after, other) == ValueOf(entries, other))
  {
    var after := entries[FindOption(entries, option) := e];
    SameOptions(entries, after, option);
    SameOptions(entries, after, other);
  }

  lemma SameOptions(a: seq<Entry>, b: seq<Entry>, option: string)
    requires |a| == |b| && forall i :: 0 <= i < |a| ==> a[i].option == b[i].option
    ensures FindOption(a, option) == FindOption(b, option)
  {
  }

  /** The other options of a group, in mapping order. */
  function OthersInGroup(entries: seq<Entry>, group: string, option: string): seq<string> {
    if entries == [] then []
    else
      var last := entries[|entries| - 1];
      OthersInGroup(entries[..|entries| - 1], group, option) +
      (if last.group != "" && last.option != option && last.group == group then [last.option] else [])
  }

  function Related(entries: seq<Entry>, option: string): seq<string> {
    var i := FindOption(entries, option);
    if i == |entries| || entries[i].group == "" then [] else OthersInGroup(entries, entries[i].group, option)
  }

  lemma {:induction false} OthersElements(entries: seq<Entry>, group: string, option: string, other: string)
    ensures other in OthersInGroup(entries, group, option) <==>
      exists i :: 0 <= i < |entries| && entries[i].option == other && other != option
        && entries[i].group == group && group != ""
  {
    if entries != [] {
      var init := entries[..|entries| - 1];
      OthersElements(init, group, option, other);
      assert forall i :: 0 <= i < |init| ==> init[i] == entries[i];
    }
  }

  lemma {:induction false} OthersConcat(a: seq<Entry>, b: seq<Entry>, group: string, option: string)
    ensures OthersInGroup(a + b, group, option) == OthersInGroup(a, group, option) + OthersInGroup(b, group, option)
  {
    if b == [] {
      assert a + b == a;
    } else {
      var init := b[..|b| - 1];
      assert (a + b)[..|a + b| - 1] == a + init && (a + b)[|a + b| - 1] == b[|b| - 1];
      OthersConcat(a, init, group, option);
    }
  }

  // ---------------------------------------------------------------- exclusive groups

  /** The options of a group among the first `n` entries. */
  function GroupOptions(entries: seq<Entry>, n: nat, group: string): seq<string>
    requires n <= |entries|
  {
    if n == 0 then []
    else GroupOptions(entries, n - 1, group) + (if entries[n - 1].group == group then [entries[n - 1].option] else [])
  }

  /** Those of the options that have a value. */
  function Used(entries: seq<Entry>, options: seq<string>): seq<string> {
    if options == [] then []
    else
      var last := options[|options| - 1];
      Used(entries, options[..|options| - 1]) + (if OptionPresent(entries, last) then [last] else [])
  }

  ghost predicate Uses(entries: seq<Entry>, i: nat, group: string)
    requires i < |entries|
  {
    entries[i].group == group && OptionPresent(entries, entries[i].option)
  }

  /** No two of the first `n` entries use the group. */
  ghost predicate UsedOnce(entries: seq<Entry>, n: nat, group: string)
    requires n <= |entries|
  {
    forall i, j :: 0 <= i < j < n ==> !(Uses(entries, i, group) && Uses(entries, j, group))
  }

  ghost predicate Unused(entries: seq<Entry>, n: nat, group: string)
    requires n <= |entries|
  {
    forall i :: 0 <= i < n ==> !Uses(entries, i, group)
  }

  /** At most one entry of every named group has a value. */
  ghost predicate Exclusive(entries: seq<Entry>) {
    forall g :: g != "" ==> UsedOnce(entries, |entries|, g)
  }

  lemma {:induction false} UsedAtMostOnce(entries: seq<Entry>, n: nat, group: string)
    requires n <= |entries|
    ensures Used(entries, GroupOptions(entries, n, group)) == [] <==> Unused(entries, n, group)
    ensures |Used(entries, GroupOptions(entries, n, group))| <= 1 <==> UsedOnce(entries, n, group)
  {
    if n > 0 {
      UsedAtMostOnce(entries, n - 1, group);
      UsedStep(entries, n, group);
      UsesStep(entries, n, group);
    }
  }

  lemma UsesStep(entries: seq<Entry>, n: nat, group: string)
    requires 0 < n <= |entries|
    ensures Unused(entries, n, group) <==> Unused(entries, n - 1, group) && !Uses(entries, n - 1, group)
    ensures UsedOnce(entries, n, group) <==>
      if Uses(entries, n - 1, group) then Unused(entries, n - 1, group) else UsedOnce(entries, n - 1, group)
  {
  }

  lemma UsedStep(entries: seq<Entry>, n: nat, group: string)
    requires 0 < n <= |entries|
    ensures Used(entries, GroupOptions(entries, n, group)) == Used(entries, GroupOptions(entries, n - 1, group))
              + (if Uses(entries, n - 1, group) then [entries[n - 1].option] else [])
  {
    var before, now := GroupOptions(entries, n - 1, group), GroupOptions(entries, n, group);
    if entries[n - 1].group == group {
      assert now[..|now| - 1] == before;
    } else {
      assert now == before;
    }
  }

  // ---------------------------------------------------------------- the object

  function SetEntry(e: Entry, value: string): Entry {
    if e.kind == PresentKind then
      e.(present := true, presentValue := value == "1" || value == "yes" || value == "true", value := "")
    else e.(value := value, present := value != "")
  }

  datatype FileState = FileState(configured: bool, entries: seq<Entry>)

  const NEW_FILE: FileState := FileState(false, [])

  function Configured(template: seq<Entry>, f: FileState): FileState {
    if f.configured then f else FileState(true, FreshMap(template))
  }

  function WithEntry(f: FileState, i: nat, e: Entry): FileState
    requires i < |f.entries|
  {
    f.(entries := f.entries[i := e])
  }

  class File {
    const template: seq<Entry>
    var configured: bool
    var entries: seq<Entry>

    function State(): FileState
      reads this
    {
      FileState(configured, entries)
    }

    constructor (template: seq<Entry>)
      ensures State() == NEW_FILE && this.template == template
    {
      this.template := template;
      configured, entries := false, [];
    }

    method ConfigureMapping()
      modifies this
      ensures State() == Configured(template, old(State()))
    {
      if !configured {
        entries := FreshMap(template);
        configured := true;
      }
    }

    /** `order` is the order in which the member names are listed. */
    method Parse(config: Json, order: seq<string>) returns (ok: bool)
      requires MemberNames(config).Ok? ==> Enumerates(order, MemberNames(config).value)
      modifies this
      ensures configured
      ensures MemberNames(config).Err? ==> !ok && State() == Configured(template, old(State()))
      ensures MemberNames(config).Ok? ==>
        (entries, ok) == ParseMembers(Configured(template, old(State())).entries, Members(config), order)
    {
      ConfigureMapping();
      ghost var start := entries;
      if config.JNull? {
        EmptyOrder(order);
        return true;
      }
      if !config.JObject? {
        return false;
      }
      for n := 0 to |order|
        invariant configured && (entries, true) == ParseMembers(start, config.members, order[..n])
      {
        assert order[..n + 1][..n] == order[..n];
        var elm := order[n];
        var i := IndexOfField(elm);
        if i == |entries| {
          continue;
        }
        var converted := ReadInto(i, At(config.members, elm));
        if !converted {
          StopsAt(start, config.members, order, n);
          return false;
        }
      }
      assert order[..|order|] == order;
      ok := true;
    }

    method IndexOfField(field: string) returns (i: nat)
      ensures i == FindField(entries, field)
    {
      i := 0;
      while i < |entries| && entries[i].field != field
        invariant i <= |entries| && forall j :: 0 <= j < i ==> entries[j].field != field
      {
        i := i + 1;
      }
    }

    method ReadInto(i: nat, j: Json) returns (ok: bool)
      requires i < |entries|
      modifies this`entries
      ensures (entries, ok) == (old(entries)[i := ReadMember(old(entries)[i], j).0], ReadMember(old(entries)[i], j).1)
    {
      ghost var was := entries;
      entries := entries[i := entries[i].(present := true)];
      ok := true;
      if entries[i].kind == PresentKind {
        if j.JString? {
          entries := entries[i := entries[i].(presentValue := true)];
        } else {
          var b := AsBool(j);
          if b.Err? {
            return false;
          }
          entries := entries[i := entries[i].(presentValue := b.value)];
        }
      } else {
        var s := AsString(j);
        if s.Err? {
          return false;
        }
        entries := entries[i := entries[i].(value := s.value)];
      }
      assert entries == was[i := ReadMember(was[i], j).0];
    }

    method Generate() returns (j: Json)
      modifies this
      ensures State() == Configured(template, old(State())) && j == Generated(entries)
    {
      ConfigureMapping();
      j := JNull;
      for n := 0 to |entries|
        invariant State() == Configured(template, old(State())) && j == Generated(entries[..n])
      {
        assert entries[..n + 1][..n] == entries[..n];
        var e := entries[n];
        if e.present {
          j := Put(j, e.field, if e.kind == PresentKind then JBool(e.presentValue) else JString(e.value));
        }
      }
      assert entries[..|entries|] == entries;
    }

    method GetOptions(all: bool) returns (opts: seq<string>)
      modifies this
      ensures State() == Configured(template, old(State())) && opts == Options(entries, all)
    {
      ConfigureMapping();
      opts := [];
      for n := 0 to |entries|
        invariant State() == Configured(template, old(State())) && opts == Options(entries[..n], all)
      {
        assert entries[..n + 1][..n] == entries[..n];
        var e := entries[n];
        if e.present || all {
          if e.kind == PresentKind || e.value != "" || all {
            opts := opts + [e.option];
          }
        }
      }
      assert entries[..|entries|] == entries;
    }

    method IndexOf(option: string) returns (i: nat)
      ensures i == FindOption(entries, option)
    {
      i := 0;
      while i < |entries| && entries[i].option != option
        invariant i <= |entries| && forall j :: 0 <= j < i ==> entries[j].option != option
      {
        i := i + 1;
      }
    }

    method GetValue(option: string) returns (r: Result<string>)
      modifies this
      ensures State() == Configured(template, old(State())) && r == ValueOf(entries, option)
    {
      ConfigureMapping();
      var i := IndexOf(option);
      if i == |entries| {
        return Err("option not found");
      }
      if !entries[i].present {
        return Err("option not present");
      }
      if entries[i].kind == PresentKind {
        return Ok(if entries[i].presentValue then "true" else "false");
      }
      r := Ok(entries[i].value);
    }

    method SetValue(option: string, value: string) returns (ok: bool)
      modifies this
      ensures var f := Configured(template, old(State()));
        var i := FindOption(f.entries, option);
        && (ok <==> i < |f.entries|)
        && State() == if ok then WithEntry(f, i, SetEntry(f.entries[i], value)) else f
    {
      ConfigureMapping();
      var i := IndexOf(option);
      if i == |entries| {
        return false;
      }
      if entries[i].kind == PresentKind {
        entries := entries[i := entries[i].(present := true, presentValue := value in ["1", "yes", "true"],
          value := "")];
      } else {
        entries := entries[i := entries[i].(value := value, present := value != "")];
      }
      ok := true;
    }

    /** Does not set up the mapping: before any other call it finds no option. */
    method UnsetOption(option: string) returns (ok: bool)
      modifies this
      ensures var f := old(State());
        var i := FindOption(f.entries, option);
        && (ok <==> i < |f.entries|)
        && State() == if ok then WithEntry(f, i, Unset(f.entries[i])) else f
    {
      var i := IndexOf(option);
      if i == |entries| {
        return false;
      }
      entries := entries[i := entries[i].(present := false, presentValue := false, value := "")];
      ok := true;
    }

    method GetRelatedExclusiveOptions(option: string) returns (others: seq<string>)
      modifies this
      ensures State() == Configured(template, old(State())) && others == Related(entries, option)
    {
      ConfigureMapping();
      others := [];
      var s := IndexOf(option);
      if s == |entries| || entries[s].group == "" {
        return;
      }
      for n := 0 to |entries|
        invariant State() == Configured(template, old(State()))
        invariant others == OthersInGroup(entries[..n], entries[s].group, option)
      {
        assert entries[..n + 1][..n] == entries[..n];
        var m := entries[n];
        if m.group == "" || m.option == option {
          continue;
        }
        if entries[s].group == m.group {
          others := others + [m.option];
        }
      }
      assert entries[..|entries|] == entries;
    }

    /** The options of every named group, in mapping order. */
    method CollectGroups() returns (groups: map<string, seq<string>>)
      ensures "" !in groups && forall g :: g in groups ==> groups[g] == GroupOptions(entries, |entries|, g)
      ensures forall g :: g != "" && g !in groups ==> GroupOptions(entries, |entries|, g) == []
    {
      groups := map[];
      for n := 0 to |entries|
        invariant forall g :: g in groups ==> groups[g] == GroupOptions(entries, n, g)
        invariant forall g :: g != "" && g !in groups ==> GroupOptions(entries, n, g) == []
        invariant "" !in groups
      {
        var g := entries[n].group;
        if g == "" {
          continue;
        }
        groups := groups[g := (if g in groups then groups[g] else []) + [entries[n].option]];
      }
    }

    method CollectUsed(options: seq<string>) returns (used: seq<string>)
      ensures used == Used(entries, options)
    {
      used := [];
      for k := 0 to |options|
        invariant used == Used(entries, options[..k])
      {
        assert options[..k + 1][..k] == options[..k];
        var i := IndexOf(options[k]);
        if i < |entries| && entries[i].present {
          used := used + [options[k]];
        }
      }
      assert options[..|options|] == options;
    }

    method CheckExclusiveOptions() returns (ok: bool)
      ensures ok <==> Exclusive(entries)
    {
      var groups := CollectGroups();
      var rest := groups.Keys;
      while rest != {}
        invariant rest <= groups.Keys && "" !in rest
        invariant forall g :: g in groups && g !in rest ==> UsedOnce(entries, |entries|, g)
      {
        var g :| g in rest;
        var used := CollectUsed(groups[g]);
        UsedAtMostOnce(entries, |entries|, g);
        if |used| > 1 {
          return false;
        }
        rest := rest - {g};
      }
      forall g | g != "" ensures UsedOnce(entries, |entries|, g) {
        if g !in groups {
          UsedAtMostOnce(entries, |entries|, g);
        }
      }
      ok := true;
    }
  }

  lemma EmptyOrder(order: seq<string>)
    requires Enumerates(order, {})
    ensures order == []
  {
    if order != [] {
      EnumeratesMember(order, {}, 0);
    }
  }

  /** Once a conversion has failed the rest of the order does not matter. */
  lemma {:induction false} StopsAt(entries: seq<Entry>, members: map<string, Json>, order: seq<string>, n: nat)
    requires n < |order|
    requires !ParseMembers(entries, members, order[..n + 1]).1
    ensures ParseMembers(entries, members, order) == ParseMembers(entries, members, order[..n + 1])
    decreases |order|
  {
    if n + 1 < |order| {
      var init := order[..|order| - 1];
      assert init[..n + 1] == order[..n + 1];
      StopsAt(entries, members, init, n);
    } else {
      assert order[..n + 1] == order;
    }
  }

  predicate Convertible(j: Json) {
    !j.JArray? && !j.JObject?
  }

  /** Some entry is stored under this label. */
  ghost predicate HasLabel(entries: seq<Entry>, field: string) {
    exists i :: 0 <= i < |entries| && entries[i].field == field
  }

  /** Reading a file succeeds exactly when no member with a known label is a list or an object. */
  lemma {:induction false} ParseSucceedsIff(entries: seq<Entry>, members: map<string, Json>, order: seq<string>)
    ensures ParseMembers(entries, members, order).1 <==>
      forall k :: k in order && HasLabel(entries, k) ==> Convertible(At(members, k))
    ensures forall i :: 0 <= i < |entries| ==> ParseMembers(entries, members, order).0[i].field == entries[i].field
  {
    if order != [] {
      var init, last := order[..|order| - 1], order[|order| - 1];
      assert order == init + [last];
      ParseSucceedsIff(entries, members, init);
      var es := ParseMembers(entries, members, init).0;
      assert HasLabel(es, last) <==> HasLabel(entries, last) by {
        assert forall i :: 0 <= i < |entries| ==> es[i].field == entries[i].field;
      }
      LabelIsFound(es, last, At(members, last));
    }
  }

  lemma LabelIsFound(entries: seq<Entry>, field: string, j: Json)
    ensures ParseMember(entries, field, j).1 <==> (HasLabel(entries, field) ==> Convertible(j))
    ensures forall i :: 0 <= i < |entries| ==> ParseMember(entries, field, j).0[i].field == entries[i].field
  {
    var i := FindField(entries, field);
    if i < |entries| {
      MemberReads(entries[i], j);
    }
  }
}
