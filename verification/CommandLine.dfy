/** Parsed command line arguments and how a configuration file overrides them (src/common/cmdargparser.cpp). */
module CommandLine {
  import opened Outcomes
  import opened TextFilter
  import opened ConfigFile
  import opened Lists
  import opened ArgumentOverride

  type Arguments = Args<string, string>

  function SourceOf(entries: seq<Entry>): Source<string, string> {
    Source(o => Related(entries, o), o => ValueOf(entries, o))
  }

  /** `register_option`: values accumulate, the option is listed once. */
  function Registered(a: Arguments, option: string, value: Option<string>): Arguments {
    Args(if option in a.present then a.present else a.present + [option],
         if value.None? then a.values
         else a.values[option := ValuesOf(a, option) + [FilterCtrlChars(value.value, true)]])
  }

  lemma RegisterKeepsDistinct(a: Arguments, option: string, value: Option<string>)
    requires NoDuplicates(a.present)
    ensures NoDuplicates(Registered(a, option, value).present)
  {
  }

  /** What happens to the arguments of one command: options are registered, configuration files imported. */
  datatype ArgStep = Register(option: string, value: Option<string>) | Import(entries: seq<Entry>)

  function ArgRun(steps: seq<ArgStep>): Arguments {
    if steps == [] then Args([], map[])
    else
      var a := ArgRun(steps[..|steps| - 1]);
      match steps[|steps| - 1]
      case Register(option, value) => Registered(a, option, value)
      case Import(entries) => ImportAll(a, SourceOf(entries), Options(entries, false)).0
  }

  /** Over every run of registrations and imports, of any file and also failing ones, no option is listed twice. */
  lemma {:induction false} NeverListedTwice(steps: seq<ArgStep>)
    ensures NoDuplicates(ArgRun(steps).present)
  {
    if steps != [] {
      var a := ArgRun(steps[..|steps| - 1]);
      NeverListedTwice(steps[..|steps| - 1]);
      match steps[|steps| - 1] {
        case Register(option, value) =>
          RegisterKeepsDistinct(a, option, value);
        case Import(entries) =>
          ImportKeepsDistinct(a, SourceOf(entries), Options(entries, false));
      }
    }
  }

  /** The filtered values an option was registered with, in order. */
  function ValuesGiven(steps: seq<ArgStep>, option: string): seq<string> {
    if steps == [] then []
    else
      var before := ValuesGiven(steps[..|steps| - 1], option);
      match steps[|steps| - 1]
      case Register(o, value) =>
        if o == option && value.Some? then before + [FilterCtrlChars(value.value, true)] else before
      case Import(_) => before
  }

  predicate NoImport(steps: seq<ArgStep>) {
    forall k :: 0 <= k < |steps| ==> steps[k].Register?
  }

  /**
   * On a command line without a configuration file a repeated option collects its values in the order they were
   * given, and an option is listed if and only if it was given, with a value or without.
   */
  lemma {:induction false} ValuesAccumulate(steps: seq<ArgStep>, option: string)
    requires NoImport(steps)
    ensures ValuesOf(ArgRun(steps), option) == ValuesGiven(steps, option)
    ensures option in ArgRun(steps).present <==> exists k :: 0 <= k < |steps| && steps[k].option == option
  {
    if steps != [] {
      var init := steps[..|steps| - 1];
      ValuesAccumulate(init, option);
      assert steps == init + [steps[|steps| - 1]];
      if k :| 0 <= k < |init| && init[k].option == option {
        assert steps[k].option == option;
      }
    }
  }

  /** A value given after anything else, an import included, is appended to what the option has. */
  lemma ValueIsAppended(steps: seq<ArgStep>, option: string, value: Option<string>, other: string)
    ensures var before, after := ArgRun(steps), ArgRun(steps + [Register(option, value)]);
      && ValuesOf(after, option) ==
           ValuesOf(before, option) + (if value.Some? then [FilterCtrlChars(value.value, true)] else [])
      && (other != option ==> ValuesOf(after, other) == ValuesOf(before, other))
      && option in after.present && (before.present == after.present || before.present + [option] == after.present)
  {
    assert (steps + [Register(option, value)])[..|steps|] == steps;
  }

  // ---------------------------------------------------------------- files that passed their check

  ghost predicate UniqueOptions(entries: seq<Entry>) {
    forall i, j :: 0 <= i < j < |entries| ==> entries[i].option != entries[j].option
  }

  /** Listed are exactly the present options that are a flag or have a text. */
  lemma {:induction false} OptionsElements(entries: seq<Entry>, o: string)
    ensures o in Options(entries, false) <==>
      exists i :: 0 <= i < |entries| && entries[i].option == o && Reported(entries[i])
  {
    if entries != [] {
      var init, last := entries[..|entries| - 1], entries[|entries| - 1];
      OptionsElements(init, o);
      assert entries == init + [last];
      if i :| 0 <= i < |init| && init[i].option == o && Reported(init[i]) {
        assert entries[i].option == o && Reported(entries[i]);
      }
    }
  }

  predicate Reported(e: Entry) {
    e.present && (e.kind == PresentKind || e.value != "")
  }

  lemma {:induction false} OptionsDistinct(entries: seq<Entry>)
    requires UniqueOptions(entries)
    ensures NoDuplicates(Options(entries, false))
  {
    if entries != [] {
      var init, last := entries[..|entries| - 1], entries[|entries| - 1];
      OptionsDistinct(init);
      OptionsElements(init, last.option);
      var os := Options(init, false);
      assert last.option !in os;
      assert forall j :: 0 <= j < |os| ==> os[j] in os;
    }
  }

  lemma FoundAt(entries: seq<Entry>, i: nat)
    requires UniqueOptions(entries) && i < |entries|
    ensures FindOption(entries, entries[i].option) == i
  {
  }

  /** The entry of a listed option. */
  lemma Located(entries: seq<Entry>, o: string) returns (i: nat)
    requires UniqueOptions(entries) && o in Options(entries, false)
    ensures i < |entries| && entries[i].option == o && entries[i].present && FindOption(entries, o) == i
  {
    OptionsElements(entries, o);
    i :| 0 <= i < |entries| && entries[i].option == o && Reported(entries[i]);
    FoundAt(entries, i);
  }

  lemma RelatedShares(entries: seq<Entry>, i: nat, j: nat)
    requires UniqueOptions(entries) && i < |entries| && j < |entries|
    requires entries[j].option in Related(entries, entries[i].option)
    ensures i != j && entries[i].group == entries[j].group != ""
  {
    FoundAt(entries, i);
    OthersElements(entries, entries[i].group, entries[i].option, entries[j].option);
    var k :| 0 <= k < |entries| && entries[k].option == entries[j].option && entries[j].option != entries[i].option
      && entries[k].group == entries[i].group && entries[i].group != "";
    FoundAt(entries, k);
    FoundAt(entries, j);
  }

  lemma UsedAlone(entries: seq<Entry>, i: nat, j: nat)
    requires Exclusive(entries) && i < |entries| && j < |entries| && entries[i].group == entries[j].group != ""
    requires Uses(entries, i, entries[i].group) && Uses(entries, j, entries[i].group)
    ensures i == j
  {
    assert UsedOnce(entries, |entries|, entries[i].group);
  }

  lemma NoRivals(entries: seq<Entry>, o: string, p: string)
    requires UniqueOptions(entries) && Exclusive(entries) && o in Options(entries, false)
    requires p in Options(entries, false)
    ensures p !in Related(entries, o)
  {
    var i := Located(entries, o);
    var j := Located(entries, p);
    if p in Related(entries, o) {
      RelatedShares(entries, i, j);
      UsedAlone(entries, i, j);
    }
  }

  lemma CheckedIsCompatible(entries: seq<Entry>)
    requires UniqueOptions(entries) && Exclusive(entries)
    ensures Compatible(SourceOf(entries), Options(entries, false))
  {
    var options := Options(entries, false);
    OptionsDistinct(entries);
    forall o | o in options ensures ValueOf(entries, o).Ok? {
      OptionsElements(entries, o);
      var i :| 0 <= i < |entries| && entries[i].option == o && Reported(entries[i]);
      FoundAt(entries, i);
    }
    forall o, p | o in options && p in options ensures p !in Related(entries, o) {
      NoRivals(entries, o, p);
    }
  }

  /**
   * Importing a file that passed its exclusivity check never throws.  It gives each of the file's options
   * exactly the file's value, lists it once and takes its rivals off the list; all other options keep their
   * values and their order.
   */
  lemma ImportOverrides(a: Arguments, entries: seq<Entry>, o: string, rival: string)
    requires NoDuplicates(a.present) && UniqueOptions(entries) && Exclusive(entries)
    ensures var options, file := Options(entries, false), SourceOf(entries);
      var (r, ok) := ImportAll(a, file, options);
      && ok && NoDuplicates(r.present) && r.present == Keep(a.present, Touched(file, options)) + options
      && (o in options ==> o in r.values && ValueOf(entries, o).Ok? && r.values[o] == [ValueOf(entries, o).value])
      && (o in options && rival in Related(entries, o) ==> rival !in r.present && ValuesOf(r, rival) == [])
      && (o !in Touched(file, options) ==> ValuesOf(r, o) == ValuesOf(a, o))
  {
    var options, file := Options(entries, false), SourceOf(entries);
    CheckedIsCompatible(entries);
    ImportPresent(a, file, options);
    ImportValues(a, file, options, o);
    if o in options {
      TouchedContains(file, options, o);
      assert file.value(o).Ok?;
      if rival in Related(entries, o) {
        RivalIsGone(a, entries, o, rival);
      }
    }
  }

  lemma RivalIsGone(a: Arguments, entries: seq<Entry>, o: string, p: string)
    requires NoDuplicates(a.present) && Compatible(SourceOf(entries), Options(entries, false))
    requires o in Options(entries, false) && p in Related(entries, o)
    ensures var r := ImportAll(a, SourceOf(entries), Options(entries, false)).0;
      p !in r.present && ValuesOf(r, p) == []
  {
    var options, file := Options(entries, false), SourceOf(entries);
    assert p in file.rivals(o) && p !in options;
    ImportPresent(a, file, options);
    ImportValues(a, file, options, p);
    TouchedContains(file, options, o);
    KeepElements(a.present, Touched(file, options), p);
  }

  /** A configured option is afterwards the only listed member of its exclusive group. */
  lemma OnlyMemberOfGroup(a: Arguments, entries: seq<Entry>, i: nat, j: nat)
    requires NoDuplicates(a.present) && UniqueOptions(entries) && Exclusive(entries)
    requires i < |entries| && j < |entries| && i != j && entries[i].group == entries[j].group != ""
    requires entries[i].option in Options(entries, false)
    ensures var r := ImportAll(a, SourceOf(entries), Options(entries, false)).0;
      entries[i].option in r.present && entries[j].option !in r.present
  {
    FoundAt(entries, i);
    OthersElements(entries, entries[i].group, entries[i].option, entries[j].option);
    ImportOverrides(a, entries, entries[i].option, entries[j].option);
  }

  // ---------------------------------------------------------------- exclusive options on the command line

  /** No group has two different present options. */
  ghost predicate ArgsExclusive(present: seq<string>, groups: seq<seq<string>>) {
    forall g, x, y :: g in groups && x in g && y in g && x in present && y in present ==> x == y
  }

  /** One argument against one group. */
  ghost predicate NoRivalIn(present: seq<string>, group: seq<string>, arg: string) {
    arg in group ==> forall x :: x in group && x in present ==> x == arg
  }

  method Contains(s: seq<string>, x: string) returns (found: bool)
    ensures found <==> x in s
  {
    for i := 0 to |s|
      invariant x !in s[..i]
    {
      if s[i] == x {
        return true;
      }
    }
    assert s[..|s|] == s;
    found := false;
  }

  method CheckGroup(present: seq<string>, group: seq<string>, arg: string) returns (ok: bool)
    ensures ok <==> NoRivalIn(present, group, arg)
  {
    var listed := Contains(group, arg);
    if !listed {
      return true;
    }
    for k := 0 to |group|
      invariant forall j :: 0 <= j < k && group[j] in present ==> group[j] == arg
    {
      if arg == group[k] {
        continue;
      }
      var used := Contains(present, group[k]);
      if used {
        return false;
      }
    }
    ok := true;
  }

  method CheckArg(present: seq<string>, groups: seq<seq<string>>, arg: string) returns (ok: bool)
    ensures ok <==> forall g :: g in groups ==> NoRivalIn(present, g, arg)
  {
    for k := 0 to |groups|
      invariant forall j :: 0 <= j < k ==> NoRivalIn(present, groups[j], arg)
    {
      var fine := CheckGroup(present, groups[k], arg);
      if !fine {
        return false;
      }
    }
    ok := true;
  }

  // ---------------------------------------------------------------- the object

  class ParsedArgs {
    var present: seq<string>
    var keyValue: map<string, seq<string>>

    function Value(): Arguments
      reads this
    {
      Args(present, keyValue)
    }

    constructor ()
      ensures Value() == Args([], map[])
    {
      present, keyValue := [], map[];
    }

    method RegisterOption(option: string, value: Option<string>)
      modifies this
      ensures Value() == Registered(old(Value()), option, value)
    {
      if value.Some? {
        var text := Filter(value.value, true);
        keyValue := keyValue[option := (if option in keyValue then keyValue[option] else []) + [text]];
      }
      var listed := Contains(present, option);
      if listed {
        return;
      }
      present := present + [option];
    }

    method Remove(option: string)
      modifies this
      ensures Value() == RemoveArg(old(Value()), option)
    {
      if option in keyValue {
        keyValue := keyValue[option := []];
      }
      var i := 0;
      while i < |present| && present[i] != option
        invariant i <= |present| && forall j :: 0 <= j < i ==> present[j] != option
      {
        i := i + 1;
      }
      assert i == IndexIn(present, option);
      if i < |present| {
        present := present[..i] + present[i + 1..];
      }
    }

    method RemoveRivals(options: seq<string>)
      modifies this
      ensures Value() == RemoveEach(old(Value()), options)
    {
      for k := 0 to |options|
        invariant Value() == RemoveEach(old(Value()), options[..k])
      {
        assert options[..k + 1][..k] == options[..k];
        Remove(options[k]);
      }
      assert options[..|options|] == options;
    }

    method ImportOption(config: File, option: string) returns (ok: bool)
      requires config.configured
      modifies this, config
      ensures config.State() == old(config.State())
      ensures (Value(), ok) == ImportOne(old(Value()), SourceOf(config.entries), option)
    {
      var related := config.GetRelatedExclusiveOptions(option);
      RemoveRivals(related);
      Remove(option);
      var before := if option in keyValue then keyValue[option] else [];
      var v := config.GetValue(option);
      if v.Err? {
        keyValue := keyValue[option := before];
        return false;
      }
      keyValue := keyValue[option := before + [v.value]];
      present := present + [option];
      ok := true;
    }

    method ImportConfigFile(config: File) returns (ok: bool)
      modifies this, config
      ensures config.State() == Configured(config.template, old(config.State()))
      ensures (Value(), ok) == ImportAll(old(Value()), SourceOf(config.entries), Options(config.entries, false))
    {
      var options := config.GetOptions(false);
      ghost var f, start := config.State(), Value();
      ghost var file := SourceOf(f.entries);
      for k := 0 to |options|
        invariant config.State() == f
        invariant (Value(), true) == ImportAll(start, file, options[..k])
      {
        ImportNext(start, file, options, k);
        var imported := ImportOption(config, options[k]);
        if !imported {
          ImportStops(start, file, options, k);
          return false;
        }
      }
      assert options[..|options|] == options;
      ok := true;
    }

    method CheckExclusiveOptions(groups: seq<seq<string>>) returns (ok: bool)
      ensures ok <==> ArgsExclusive(present, groups)
    {
      for k := 0 to |present|
        invariant forall j, g :: 0 <= j < k && g in groups ==> NoRivalIn(present, g, present[j])
      {
        var fine := CheckArg(present, groups, present[k]);
        if !fine {
          return false;
        }
      }
      ok := true;
    }
  }
}
