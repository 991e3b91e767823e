/** Export and import of an option list as JSON (src/common/core-extensions.hpp). */
module OptionJson {
  import opened Outcomes
  import opened Json
  import opened Lists

  /** One profile option: its name and what follows the name on its line. */
  datatype Opt = Opt(name: string, args: seq<string>)

  /**
   * What the serialisation rests on: how option names are classified and the two OpenVPN 3 Core
   * library calls.  Everything below holds for every such syntax; `OptionTables` gives the real one.
   */
  datatype Syntax = Syntax(
    isMeta: string -> bool,
    isTag: string -> bool,
    needsArray: string -> bool,
    parseLine: string -> Result<Opt>,
    render: seq<string> -> string)

  /** Rendering a value that is already rendered changes nothing. */
  ghost predicate RenderLaw(syntax: Syntax) {
    forall args :: syntax.render([syntax.render(args)]) == syntax.render(args)
  }

  // ---------------------------------------------------------------- export

  /** The JSON value of a single option. */
  function OptValue(syntax: Syntax, o: Opt): Json {
    if syntax.isTag(o.name) then JArray([JString(syntax.render(o.args))])
    else if o.args == [] then JNull
    else Strings(o.args)
  }

  /** All options called `name`, in list order. */
  function Occurrences(opts: seq<Opt>, name: string): seq<Opt> {
    if opts == [] then []
    else
      var init, last := Occurrences(opts[..|opts| - 1], name), opts[|opts| - 1];
      if last.name == name then init + [last] else init
  }

  lemma {:induction false} OccurrencesElements(opts: seq<Opt>, name: string)
    ensures forall o :: o in Occurrences(opts, name) <==> o in opts && o.name == name
  {
    if opts != [] {
      assert opts == opts[..|opts| - 1] + [opts[|opts| - 1]];
      OccurrencesElements(opts[..|opts| - 1], name);
    }
  }

  /** The member stored for a name: all its occurrences, or only the last one. */
  function MemberValue(syntax: Syntax, occ: seq<Opt>): Json
    requires |occ| > 0
  {
    if syntax.needsArray(occ[0].name) then JArray(seq(|occ|, i requires 0 <= i < |occ| => OptValue(syntax, occ[i])))
    else OptValue(syntax, occ[|occ| - 1])
  }

  function ExportedNames(syntax: Syntax, opts: seq<Opt>): set<string> {
    set o | o in opts && !syntax.isMeta(o.name) :: o.name
  }

  function ExportedMembers(syntax: Syntax, opts: seq<Opt>): map<string, Json> {
    map n | n in ExportedNames(syntax, opts) && |Occurrences(opts, n)| > 0 :: MemberValue(syntax, Occurrences(opts, n))
  }

  lemma ExportedKeys(syntax: Syntax, opts: seq<Opt>)
    ensures ExportedMembers(syntax, opts).Keys == ExportedNames(syntax, opts)
  {
    forall n | n in ExportedNames(syntax, opts) ensures |Occurrences(opts, n)| > 0 {
      var o :| o in opts && o.name == n;
      OccurrencesElements(opts, n);
      assert o in Occurrences(opts, n);
    }
  }

  /** What a whole list is exported to, name by name. */
  function Exported(syntax: Syntax, opts: seq<Opt>): Json {
    Building(ExportedMembers(syntax, opts))
  }

  /** The exporter's own step: add one option to the object under construction. */
  function ExportStep(syntax: Syntax, outdata: Json, o: Opt): Json
    requires outdata.JNull? || outdata.JObject?
    requires syntax.needsArray(o.name) && outdata.JObject? && o.name in outdata.members ==>
      outdata.members[o.name].JArray?
  {
    if syntax.isMeta(o.name) then outdata
    else if syntax.needsArray(o.name) then AppendAt(outdata, o.name, OptValue(syntax, o))
    else Put(outdata, o.name, OptValue(syntax, o))
  }

  lemma OccurrencesSnoc(opts: seq<Opt>, o: Opt, name: string)
    ensures Occurrences(opts + [o], name) == Occurrences(opts, name) + (if o.name == name then [o] else [])
  {
    assert (opts + [o])[..|opts|] == opts;
  }

  lemma ExportedNamesSnoc(syntax: Syntax, opts: seq<Opt>, o: Opt)
    ensures ExportedNames(syntax, opts + [o]) ==
            ExportedNames(syntax, opts) + (if syntax.isMeta(o.name) then {} else {o.name})
  {
    assert o in opts + [o];
  }

  /** The member of the added option's name, before and after. */
  lemma MemberSnoc(syntax: Syntax, opts: seq<Opt>, o: Opt)
    ensures
      var occ, v := Occurrences(opts, o.name), OptValue(syntax, o);
      && (occ != [] && syntax.needsArray(o.name) ==> MemberValue(syntax, occ).JArray?)
      && MemberValue(syntax, occ + [o]) ==
         if !syntax.needsArray(o.name) then v
         else if occ == [] then JArray([v]) else JArray(MemberValue(syntax, occ).items + [v])
  {
    var occ := Occurrences(opts, o.name);
    OccurrencesElements(opts, o.name);
    assert occ != [] ==> occ[0] in occ;
    if syntax.needsArray(o.name) {
      assert MemberValue(syntax, occ + [o]).items ==
             (if occ == [] then [] else MemberValue(syntax, occ).items) + [OptValue(syntax, o)];
    }
  }

  lemma ExportedMemberSnoc(syntax: Syntax, opts: seq<Opt>, o: Opt, n: string)
    requires n in ExportedNames(syntax, opts + [o])
    ensures n in ExportedMembers(syntax, opts + [o])
    ensures n == o.name ==> ExportedMembers(syntax, opts + [o])[n] == MemberValue(syntax, Occurrences(opts, n) + [o])
    ensures n != o.name ==> n in ExportedMembers(syntax, opts) &&
                            ExportedMembers(syntax, opts + [o])[n] == ExportedMembers(syntax, opts)[n]
  {
    ExportedNamesSnoc(syntax, opts, o);
    ExportedKeys(syntax, opts);
    ExportedKeys(syntax, opts + [o]);
    OccurrencesSnoc(opts, o, n);
  }

  lemma ExportedMembersSnoc(syntax: Syntax, opts: seq<Opt>, o: Opt)
    ensures ExportedMembers(syntax, opts + [o]) ==
            if syntax.isMeta(o.name) then ExportedMembers(syntax, opts)
            else ExportedMembers(syntax, opts)[o.name := MemberValue(syntax, Occurrences(opts, o.name) + [o])]
  {
    ExportedNamesSnoc(syntax, opts, o);
    ExportedKeys(syntax, opts);
    ExportedKeys(syntax, opts + [o]);
    var before, after := ExportedMembers(syntax, opts), ExportedMembers(syntax, opts + [o]);
    if syntax.isMeta(o.name) {
      forall n ensures n in after <==> n in before {
      }
      forall n | n in after && n in before ensures after[n] == before[n] {
        ExportedMemberSnoc(syntax, opts, o, n);
      }
      SameMap(after, before);
    } else {
      var expected := before[o.name := MemberValue(syntax, Occurrences(opts, o.name) + [o])];
      forall n ensures n in after <==> n in expected {
      }
      forall n | n in after && n in expected ensures after[n] == expected[n] {
        ExportedMemberSnoc(syntax, opts, o, n);
      }
      SameMap(after, expected);
    }
  }

  /** An object under construction: null while it is empty. */
  function Building(members: map<string, Json>): Json {
    if members == map[] then JNull else JObject(members)
  }

  lemma PutBuilds(members: map<string, Json>, key: string, v: Json)
    ensures Put(Building(members), key, v) == Building(members[key := v])
  {
    assert key in members[key := v];
    if members == map[] {
      assert members[key := v] == map[key := v];
    }
  }

  lemma AppendBuilds(members: map<string, Json>, key: string, v: Json)
    requires key in members ==> members[key].JArray?
    ensures AppendAt(Building(members), key, v) ==
            Building(members[key := JArray((if key in members then members[key].items else []) + [v])])
  {
    PutBuilds(members, key, JArray((if key in members then members[key].items else []) + [v]));
  }

  /** The member of a name that is exported: present exactly when the name occurs. */
  lemma MemberPresent(syntax: Syntax, opts: seq<Opt>, name: string)
    requires !syntax.isMeta(name)
    ensures name in ExportedMembers(syntax, opts) <==> Occurrences(opts, name) != []
    ensures name in ExportedMembers(syntax, opts) ==>
      ExportedMembers(syntax, opts)[name] == MemberValue(syntax, Occurrences(opts, name))
  {
    ExportedKeys(syntax, opts);
    OccurrencesElements(opts, name);
    var occ := Occurrences(opts, name);
    if occ != [] {
      assert occ[0] in occ;
    }
  }

  lemma ExportSnoc(syntax: Syntax, opts: seq<Opt>, o: Opt)
    ensures
      var before := Exported(syntax, opts);
      && (syntax.needsArray(o.name) && before.JObject? && o.name in before.members ==> before.members[o.name].JArray?)
      && Exported(syntax, opts + [o]) == ExportStep(syntax, before, o)
  {
    var members, v := ExportedMembers(syntax, opts), OptValue(syntax, o);
    ExportedMembersSnoc(syntax, opts, o);
    if syntax.isMeta(o.name) {
      MetaHasNoMember(syntax, opts, o.name);
    } else {
      MemberPresent(syntax, opts, o.name);
      MemberSnoc(syntax, opts, o);
      BuildStep(syntax, members, Occurrences(opts, o.name), o);
    }
  }

  /** Adding the option to the object under construction, given what its member is. */
  lemma BuildStep(syntax: Syntax, members: map<string, Json>, occ: seq<Opt>, o: Opt)
    requires !syntax.isMeta(o.name) && (o.name in members <==> occ != [])
    requires o.name in members ==> members[o.name] == MemberValue(syntax, occ)
    requires occ != [] && syntax.needsArray(o.name) ==> MemberValue(syntax, occ).JArray?
    requires MemberValue(syntax, occ + [o]) ==
      if !syntax.needsArray(o.name) then OptValue(syntax, o)
      else if occ == [] then JArray([OptValue(syntax, o)])
      else JArray(MemberValue(syntax, occ).items + [OptValue(syntax, o)])
    ensures syntax.needsArray(o.name) && o.name in members ==> members[o.name].JArray?
    ensures ExportStep(syntax, Building(members), o) == Building(members[o.name := MemberValue(syntax, occ + [o])])
  {
    var v := OptValue(syntax, o);
    if syntax.needsArray(o.name) {
      AppendBuilds(members, o.name, v);
      assert [] + [v] == [v];
    } else {
      PutBuilds(members, o.name, v);
    }
  }

  /** A meta option has no member. */
  lemma MetaHasNoMember(syntax: Syntax, opts: seq<Opt>, name: string)
    requires syntax.isMeta(name)
    ensures name !in ExportedMembers(syntax, opts)
  {
    ExportedKeys(syntax, opts);
  }

  lemma ExportPrefix(syntax: Syntax, opts: seq<Opt>, i: nat)
    requires i < |opts|
    ensures
      var before := Exported(syntax, opts[..i]);
      && (syntax.needsArray(opts[i].name) && before.JObject? && opts[i].name in before.members ==>
            before.members[opts[i].name].JArray?)
      && Exported(syntax, opts[..i + 1]) == ExportStep(syntax, before, opts[i])
  {
    var before := opts[..i];
    assert opts[..i + 1] == before + [opts[i]];
    ExportSnoc(syntax, before, opts[i]);
  }

  // ---------------------------------------------------------------- import

  /** `add_option`: one option from a value in format 1 or 3a. */
  function AddOption(syntax: Syntax, key: string, data: Json): Result<Opt> {
    if data.JArray? then
      match AllAsStrings(data.items)
      case Ok(args) => Ok(Opt(key, args))
      case Err(e) => Err(e)
    else
      match AsString(data)
      case Err(e) => Err(e)
      case Ok(s) => if syntax.isTag(key) then Ok(Opt(key, [s])) else syntax.parseLine(key + " " + s)
  }

  /** One option per element. */
  function AddEach(syntax: Syntax, key: string, items: seq<Json>): (r: Result<seq<Opt>>)
    ensures r.Ok? ==> |r.value| == |items|
    ensures r.Ok? <==> forall i :: 0 <= i < |items| ==> AddOption(syntax, key, items[i]).Ok?
    ensures r.Ok? ==> forall i :: 0 <= i < |items| ==> AddOption(syntax, key, items[i]) == Ok(r.value[i])
  {
    if items == [] then Ok([])
    else
      match AddEach(syntax, key, items[..|items| - 1])
      case Err(e) => Err(e)
      case Ok(init) =>
        match AddOption(syntax, key, items[|items| - 1])
        case Err(e) => Err(e)
        case Ok(o) => Ok(init + [o])
  }

  /** The options of the elements before the first that cannot be read. */
  function AddedBefore(syntax: Syntax, key: string, items: seq<Json>): seq<Opt> {
    if items == [] then []
    else if AddOption(syntax, key, items[0]).Err? then []
    else [AddOption(syntax, key, items[0]).value] + AddedBefore(syntax, key, items[1..])
  }

  lemma {:induction false} AddedUpTo(syntax: Syntax, key: string, items: seq<Json>, k: nat)
    requires k <= |items| && AddEach(syntax, key, items[..k]).Ok?
    requires k == |items| || AddOption(syntax, key, items[k]).Err?
    ensures AddedBefore(syntax, key, items) == AddEach(syntax, key, items[..k]).value
  {
    if k > 0 {
      assert items[..k][0] == items[0];
      var rest := items[1..];
      assert rest[..k - 1] == items[..k][1..];
      AddedUpTo(syntax, key, rest, k - 1);
      var all, tail := AddEach(syntax, key, items[..k]).value, AddEach(syntax, key, rest[..k - 1]).value;
      forall i | 0 <= i < |tail| ensures tail[i] == all[i + 1] {
        assert rest[..k - 1][i] == items[..k][i + 1];
      }
      assert all == [all[0]] + tail;
    }
  }

  /** The format dispatch for one member of the imported object. */
  function ImportMember(syntax: Syntax, key: string, v: Json): Result<seq<Opt>> {
    if v.JArray? && ((|v.items| > 0 && v.items[0].JArray?) || syntax.needsArray(key)) then
      AddEach(syntax, key, v.items)
    else
      match AddOption(syntax, key, v)
      case Ok(o) => Ok([o])
      case Err(e) => Err(e)
  }

  function ImportMembers(syntax: Syntax, members: map<string, Json>, order: seq<string>): Result<seq<Opt>> {
    if order == [] then Ok([])
    else
      var last := order[|order| - 1];
      match ImportMembers(syntax, members, order[..|order| - 1])
      case Err(e) => Err(e)
      case Ok(init) =>
        match ImportMember(syntax, last, At(members, last))
        case Err(e) => Err(e)
        case Ok(more) => Ok(init + more)
  }

  lemma ImportNext(syntax: Syntax, members: map<string, Json>, order: seq<string>, i: nat)
    requires i < |order|
    ensures var before := ImportMembers(syntax, members, order[..i]);
      var one := ImportMember(syntax, order[i], At(members, order[i]));
      ImportMembers(syntax, members, order[..i + 1]) ==
        if before.Err? then before else if one.Err? then one else Ok(before.value + one.value)
  {
    assert order[..i + 1][..i] == order[..i];
  }

  ghost predicate Ordering(data: Json, order: seq<string>) {
    Enumerates(order, if data.JObject? then data.members.Keys else {})
  }

  /** The options `json_import` appends when it visits the members in the given order. */
  function Imported(syntax: Syntax, data: Json, order: seq<string>): Result<seq<Opt>> {
    match data
    case JObject(m) => ImportMembers(syntax, m, order)
    case JArray(items) => if items == [] then Ok([]) else Err("member access on an array")
    case _ => Ok([])
  }

  // ---------------------------------------------------------------- the class

  class OptionListJson {
    const syntax: Syntax
    var options: seq<Opt>

    constructor (syntax: Syntax, options: seq<Opt>)
      ensures this.syntax == syntax && this.options == options
    {
      this.syntax := syntax;
      this.options := options;
    }

    /** The value elements of one option, appended one by one. */
    method OptionValue(element: Opt) returns (optval: Json)
      ensures optval == OptValue(syntax, element)
    {
      if syntax.isTag(element.name) {
        return JArray([JString(syntax.render(element.args))]);
      }
      optval := JNull;
      for k := 0 to |element.args|
        invariant optval == if k == 0 then JNull else Strings(element.args[..k])
      {
        optval := JArray((if optval.JArray? then optval.items else []) + [JString(element.args[k])]);
        assert optval.items == Strings(element.args[..k + 1]).items;
      }
      assert element.args[..|element.args|] == element.args;
    }

    /** One round of the export loop. */
    method ExportOne(before: Json, element: Opt) returns (outdata: Json)
      requires before.JNull? || before.JObject?
      requires syntax.needsArray(element.name) && before.JObject? && element.name in before.members ==>
                 before.members[element.name].JArray?
      ensures outdata == ExportStep(syntax, before, element)
    {
      if syntax.isMeta(element.name) {
        return before;
      }
      var optval := OptionValue(element);
      if syntax.needsArray(element.name) {
        outdata := AppendAt(before, element.name, optval);
      } else {
        outdata := Put(before, element.name, optval);
      }
    }

    method JsonExport() returns (outdata: Json)
      ensures outdata == Exported(syntax, options)
    {
      outdata := JNull;
      for i := 0 to |options|
        invariant outdata == Exported(syntax, options[..i])
      {
        ExportPrefix(syntax, options, i);
        outdata := ExportOne(outdata, options[i]);
      }
      assert options[..|options|] == options;
    }

    /** Unwraps formats 2 and 3b: one option for every element, up to the first that cannot be read. */
    method AddAll(key: string, items: seq<Json>) returns (r: Result<()>)
      modifies this
      ensures r.Ok? <==> AddEach(syntax, key, items).Ok?
      ensures options == old(options) + AddedBefore(syntax, key, items)
      ensures r.Ok? ==> AddedBefore(syntax, key, items) == AddEach(syntax, key, items).value
    {
      for k := 0 to |items|
        invariant AddEach(syntax, key, items[..k]).Ok?
        invariant options == old(options) + AddEach(syntax, key, items[..k]).value
      {
        assert items[..k + 1][..k] == items[..k];
        var o := AddOption(syntax, key, items[k]);
        if o.Err? {
          AddedUpTo(syntax, key, items, k);
          return Err(o.error);
        }
        options := options + [o.value];
      }
      assert items[..|items|] == items;
      AddedUpTo(syntax, key, items, |items|);
      r := Ok(());
    }

    /** Adds the options of one member, whichever of the four formats it is in. */
    method ImportOne(key: string, v: Json) returns (r: Result<()>)
      modifies this
      ensures r.Ok? <==> ImportMember(syntax, key, v).Ok?
      ensures r.Ok? ==> options == old(options) + ImportMember(syntax, key, v).value
      ensures r.Err? ==> old(options) <= options
    {
      if v.JArray? && ((|v.items| > 0 && v.items[0].JArray?) || syntax.needsArray(key)) {
        r := AddAll(key, v.items);
      } else {
        var o := AddOption(syntax, key, v);
        if o.Err? {
          return Err(o.error);
        }
        options := options + [o.value];
        r := Ok(());
      }
    }

    method ImportAll(members: map<string, Json>, order: seq<string>) returns (r: Result<()>)
      modifies this
      ensures r.Ok? <==> ImportMembers(syntax, members, order).Ok?
      ensures r.Ok? ==> options == old(options) + ImportMembers(syntax, members, order).value
      ensures r.Err? ==> old(options) <= options
    {
      ghost var start, done := options, [];
      for i := 0 to |order|
        invariant ImportMembers(syntax, members, order[..i]) == Ok(done)
        invariant options == start + done
      {
        ImportNext(syntax, members, order, i);
        ghost var before := options;
        r := ImportOne(order[i], At(members, order[i]));
        if r.Err? {
          ImportFailsOn(syntax, members, order, i);
          PrefixOfPrefix(start, before, options);
          return;
        }
        ghost var more := ImportMember(syntax, order[i], At(members, order[i])).value;
        Associative(start, done, more);
        done := done + more;
      }
      assert order[..|order|] == order;
      r := Ok(());
    }

    method JsonImport(data: Json, order: seq<string>) returns (r: Result<()>)
      requires Ordering(data, order)
      modifies this
      ensures r.Ok? <==> Imported(syntax, data, order).Ok?
      ensures r.Ok? ==> options == old(options) + Imported(syntax, data, order).value
      ensures r.Err? ==> old(options) <= options
    {
      match data
      case JObject(members) => r := ImportAll(members, order);
      case JArray(items) => r := if items == [] then Ok(()) else Err("member access on an array");
      case _ => r := Ok(());
    }
  }

  lemma {:induction false} ImportFailsOn(syntax: Syntax, members: map<string, Json>, order: seq<string>, i: nat)
    requires i < |order| && ImportMember(syntax, order[i], At(members, order[i])).Err?
    ensures ImportMembers(syntax, members, order).Err?
    decreases |order|
  {
    if i < |order| - 1 {
      ImportFailsOn(syntax, members, order[..|order| - 1], i);
    }
  }

  // ---------------------------------------------------------------- round trip

  /** An option as it comes back: tag arguments are collapsed to one rendered value. */
  function Normal(syntax: Syntax, o: Opt): Opt {
    if syntax.isTag(o.name) then Opt(o.name, [syntax.render(o.args)]) else o
  }

  /** The occurrences of a name that survive export and import. */
  function Surviving(syntax: Syntax, opts: seq<Opt>, name: string): seq<Opt> {
    var occ := Occurrences(opts, name);
    if syntax.isMeta(name) || occ == [] then []
    else if syntax.needsArray(name) then occ
    else [occ[|occ| - 1]]
  }

  function NormalAll(syntax: Syntax, opts: seq<Opt>): (r: seq<Opt>)
    ensures |r| == |opts| && forall i :: 0 <= i < |r| ==> r[i] == Normal(syntax, opts[i])
  {
    seq(|opts|, i requires 0 <= i < |opts| => Normal(syntax, opts[i]))
  }

  /** The list a save and reload cycle turns `opts` into. */
  function Canonical(syntax: Syntax, opts: seq<Opt>, order: seq<string>): seq<Opt> {
    if order == [] then []
    else Canonical(syntax, opts, order[..|order| - 1]) + NormalAll(syntax, Surviving(syntax, opts, order[|order| - 1]))
  }

  /** A bare option whose name the Core option lexer reads back as that name. */
  predicate ReadsBack(syntax: Syntax, o: Opt) {
    o.args == [] && !syntax.isTag(o.name) ==> syntax.parseLine(o.name + " ") == Ok(o)
  }

  /** Every option of this name that survives reads back; one with arguments always does. */
  ghost predicate NameReadsBack(syntax: Syntax, opts: seq<Opt>, name: string) {
    forall o :: o in Surviving(syntax, opts, name) ==> ReadsBack(syntax, o)
  }

  ghost predicate BareNamesReadBack(syntax: Syntax, opts: seq<Opt>) {
    forall n :: n in ExportedNames(syntax, opts) ==> NameReadsBack(syntax, opts, n)
  }

  lemma AddOptionOfValue(syntax: Syntax, o: Opt)
    ensures AddOption(syntax, o.name, OptValue(syntax, o)) == Ok(Normal(syntax, o)) <==> ReadsBack(syntax, o)
  {
    if syntax.isTag(o.name) {
      StringsRoundTrip([syntax.render(o.args)]);
      assert OptValue(syntax, o).items == Strings([syntax.render(o.args)]).items;
    } else if o.args != [] {
      StringsRoundTrip(o.args);
    } else {
      assert o.name + " " + "" == o.name + " ";
    }
  }

  /** Adding one option per exported value gives the normal forms, iff each of them reads back. */
  lemma AddEachOfValues(syntax: Syntax, name: string, occ: seq<Opt>, items: seq<Json>)
    requires |items| == |occ|
    requires forall i :: 0 <= i < |occ| ==> occ[i].name == name && items[i] == OptValue(syntax, occ[i])
    ensures AddEach(syntax, name, items) == Ok(NormalAll(syntax, occ)) <==>
            forall i :: 0 <= i < |occ| ==> ReadsBack(syntax, occ[i])
  {
    forall i | 0 <= i < |occ|
      ensures AddOption(syntax, name, items[i]) == Ok(Normal(syntax, occ[i])) <==> ReadsBack(syntax, occ[i])
    {
      AddOptionOfValue(syntax, occ[i]);
    }
    var r := AddEach(syntax, name, items);
    if forall i :: 0 <= i < |occ| ==> ReadsBack(syntax, occ[i]) {
      assert r.Ok? && r.value == NormalAll(syntax, occ);
    }
  }

  /** One member comes back as the normal forms of its surviving options, iff all of them read back. */
  lemma MemberRoundTrip(syntax: Syntax, opts: seq<Opt>, name: string)
    requires name in ExportedNames(syntax, opts) && |Occurrences(opts, name)| > 0
    ensures
      var r := ImportMember(syntax, name, MemberValue(syntax, Occurrences(opts, name)));
      && (r.Ok? ==> |r.value| == |Surviving(syntax, opts, name)|)
      && (r == Ok(NormalAll(syntax, Surviving(syntax, opts, name))) <==> NameReadsBack(syntax, opts, name))
  {
    var occ, surv := Occurrences(opts, name), Surviving(syntax, opts, name);
    var v := MemberValue(syntax, occ);
    OccurrencesElements(opts, name);
    assert forall i :: 0 <= i < |occ| ==> occ[i] in occ && occ[i].name == name;
    if syntax.needsArray(name) {
      AddEachOfValues(syntax, name, occ, v.items);
    } else {
      var last := occ[|occ| - 1];
      AddOptionOfValue(syntax, last);
      assert surv == [last] && NormalAll(syntax, surv) == [Normal(syntax, last)];
      assert v == OptValue(syntax, last);
      var r := AddOption(syntax, name, v);
      assert r.Ok? ==> ([r.value] == [Normal(syntax, last)] <==> r.value == Normal(syntax, last)) by {
        assert r.Ok? ==> [r.value][0] == r.value;
        assert [Normal(syntax, last)][0] == Normal(syntax, last);
      }
      assert NameReadsBack(syntax, opts, name) <==> ReadsBack(syntax, last);
    }
  }

  lemma ConcatParts<T>(a: seq<T>, b: seq<T>, c: seq<T>, d: seq<T>)
    requires |a| == |c|
    ensures a + b == c + d <==> a == c && b == d
  {
    if a + b == c + d {
      assert a == (a + b)[..|a|] && c == (c + d)[..|a|];
      assert b == (a + b)[|a|..] && d == (c + d)[|a|..];
    }
  }

  lemma {:induction false} MembersRoundTrip(syntax: Syntax, opts: seq<Opt>, members: map<string, Json>,
                                            order: seq<string>)
    requires members == ExportedMembers(syntax, opts)
    requires forall n :: n in order ==> n in members
    ensures
      var r := ImportMembers(syntax, members, order);
      && (r.Ok? ==> |r.value| == |Canonical(syntax, opts, order)|)
      && (r == Ok(Canonical(syntax, opts, order)) <==> forall n :: n in order ==> NameReadsBack(syntax, opts, n))
  {
    if order != [] {
      var init, last := order[..|order| - 1], order[|order| - 1];
      assert order == init + [last];
      MembersRoundTrip(syntax, opts, members, init);
      assert last in order && last in members;
      MemberRoundTrip(syntax, opts, last);
      var r0, r1 := ImportMembers(syntax, members, init), ImportMember(syntax, last, At(members, last));
      if r0.Ok? && r1.Ok? {
        ConcatParts(r0.value, r1.value, Canonical(syntax, opts, init),
                    NormalAll(syntax, Surviving(syntax, opts, last)));
      }
    }
  }

  /** Importing what was exported gives the canonical list, exactly when the bare names read back. */
  lemma RoundTrip(syntax: Syntax, opts: seq<Opt>, order: seq<string>)
    requires Enumerates(order, ExportedNames(syntax, opts))
    ensures var data := Exported(syntax, opts);
      && (data.JObject? ==> data.members.Keys == ExportedNames(syntax, opts))
      && (Imported(syntax, data, order) == Ok(Canonical(syntax, opts, order)) <==> BareNamesReadBack(syntax, opts))
  {
    ExportedKeys(syntax, opts);
    var members := ExportedMembers(syntax, opts);
    if members == map[] {
      if order != [] {
        EnumeratesMember(order, ExportedNames(syntax, opts), 0);
      }
    } else {
      MembersRoundTrip(syntax, opts, members, order);
    }
  }

  // ---------------------------------------------------------------- what the canonical list is

  lemma {:induction false} OccurrencesConcat(a: seq<Opt>, b: seq<Opt>, name: string)
    ensures Occurrences(a + b, name) == Occurrences(a, name) + Occurrences(b, name)
  {
    if b == [] {
      assert a + b == a;
    } else {
      var init, last := b[..|b| - 1], b[|b| - 1];
      assert b == init + [last] && a + b == (a + init) + [last];
      OccurrencesConcat(a, init, name);
      OccurrencesSnoc(a + init, last, name);
      OccurrencesSnoc(init, last, name);
    }
  }

  lemma {:induction false} OccurrencesOfSame(s: seq<Opt>, n: string, name: string)
    requires forall o :: o in s ==> o.name == n
    ensures Occurrences(s, name) == if n == name then s else []
  {
    if s != [] {
      assert s == s[..|s| - 1] + [s[|s| - 1]];
      OccurrencesOfSame(s[..|s| - 1], n, name);
    }
  }

  lemma NormalSurvivors(syntax: Syntax, opts: seq<Opt>, name: string)
    ensures forall o :: o in NormalAll(syntax, Surviving(syntax, opts, name)) ==> o.name == name
  {
    var surv := Surviving(syntax, opts, name);
    OccurrencesElements(opts, name);
    assert forall i :: 0 <= i < |surv| ==> surv[i] in Occurrences(opts, name) && surv[i].name == name;
  }

  /** After a save and reload a name has exactly the normal forms of its surviving occurrences, in order. */
  lemma {:induction false} CanonicalOccurrences(syntax: Syntax, opts: seq<Opt>, order: seq<string>, name: string)
    requires NoDuplicates(order)
    ensures Occurrences(Canonical(syntax, opts, order), name) ==
            if name in order then NormalAll(syntax, Surviving(syntax, opts, name)) else []
  {
    if order != [] {
      var init, last := order[..|order| - 1], order[|order| - 1];
      assert order == init + [last];
      CanonicalOccurrences(syntax, opts, init, name);
      var more := NormalAll(syntax, Surviving(syntax, opts, last));
      NormalSurvivors(syntax, opts, last);
      OccurrencesConcat(Canonical(syntax, opts, init), more, name);
      OccurrencesOfSame(more, last, name);
      assert last !in init;
    }
  }

  lemma CanonicalNames(syntax: Syntax, opts: seq<Opt>, order: seq<string>)
    requires Enumerates(order, ExportedNames(syntax, opts))
    ensures ExportedNames(syntax, Canonical(syntax, opts, order)) == ExportedNames(syntax, opts)
  {
    var canon := Canonical(syntax, opts, order);
    forall n
      ensures n in ExportedNames(syntax, canon) <==> n in ExportedNames(syntax, opts)
    {
      CanonicalOccurrences(syntax, opts, order, n);
      OccurrencesElements(canon, n);
      OccurrencesElements(opts, n);
      var surv := Surviving(syntax, opts, n);
      if n in ExportedNames(syntax, opts) {
        var o :| o in opts && o.name == n;
        assert o in Occurrences(opts, n);
        assert NormalAll(syntax, surv)[0] in Occurrences(canon, n);
      }
      if n in ExportedNames(syntax, canon) {
        var o :| o in canon && o.name == n;
        assert o in Occurrences(canon, n);
        assert surv[0] in opts;
      }
    }
  }

  lemma NormalIsFixed(syntax: Syntax, o: Opt)
    requires RenderLaw(syntax)
    ensures Normal(syntax, Normal(syntax, o)) == Normal(syntax, o)
    ensures OptValue(syntax, Normal(syntax, o)) == OptValue(syntax, o)
    ensures ReadsBack(syntax, Normal(syntax, o)) <==> ReadsBack(syntax, o)
  {
  }

  /** The survivors of the canonical list are the normal forms of the original survivors. */
  lemma CanonicalSurvivors(syntax: Syntax, opts: seq<Opt>, order: seq<string>, name: string)
    requires NoDuplicates(order)
    ensures Surviving(syntax, Canonical(syntax, opts, order), name) ==
            if name in order then NormalAll(syntax, Surviving(syntax, opts, name)) else []
  {
    CanonicalOccurrences(syntax, opts, order, name);
  }

  /** The second export equals the first. */
  lemma ExportIsStable(syntax: Syntax, opts: seq<Opt>, order: seq<string>)
    requires RenderLaw(syntax)
    requires Enumerates(order, ExportedNames(syntax, opts))
    ensures Exported(syntax, Canonical(syntax, opts, order)) == Exported(syntax, opts)
  {
    var canon := Canonical(syntax, opts, order);
    CanonicalNames(syntax, opts, order);
    ExportedKeys(syntax, opts);
    ExportedKeys(syntax, canon);
    forall n | n in ExportedNames(syntax, opts)
      ensures ExportedMembers(syntax, canon)[n] == ExportedMembers(syntax, opts)[n]
    {
      MemberIsStable(syntax, opts, order, n);
    }
    assert ExportedMembers(syntax, canon) == ExportedMembers(syntax, opts);
  }

  /** The member value of a name only depends on the normal forms of its survivors. */
  lemma MemberOfNormals(syntax: Syntax, occ: seq<Opt>, name: string)
    requires RenderLaw(syntax) && |occ| > 0 && forall i :: 0 <= i < |occ| ==> occ[i].name == name
    ensures
      var kept := if syntax.needsArray(name) then occ else [occ[|occ| - 1]];
      MemberValue(syntax, NormalAll(syntax, kept)) == MemberValue(syntax, occ)
  {
    if syntax.needsArray(name) {
      forall i | 0 <= i < |occ| ensures OptValue(syntax, NormalAll(syntax, occ)[i]) == OptValue(syntax, occ[i]) {
        NormalIsFixed(syntax, occ[i]);
      }
      assert MemberValue(syntax, NormalAll(syntax, occ)).items == MemberValue(syntax, occ).items;
    } else {
      NormalIsFixed(syntax, occ[|occ| - 1]);
    }
  }

  lemma MemberIsStable(syntax: Syntax, opts: seq<Opt>, order: seq<string>, n: string)
    requires RenderLaw(syntax) && NoDuplicates(order) && n in order
    requires n in ExportedNames(syntax, opts) && |Occurrences(opts, n)| > 0
    ensures |Occurrences(Canonical(syntax, opts, order), n)| > 0
    ensures MemberValue(syntax, Occurrences(Canonical(syntax, opts, order), n)) ==
      MemberValue(syntax, Occurrences(opts, n))
  {
    var occ := Occurrences(opts, n);
    CanonicalOccurrences(syntax, opts, order, n);
    OccurrencesElements(opts, n);
    forall i | 0 <= i < |occ| ensures occ[i].name == n {
      assert occ[i] in occ;
    }
    MemberOfNormals(syntax, occ, n);
  }

  /** A second save and reload changes the list no further, up to the order of names. */
  lemma CanonicalReadsBack(syntax: Syntax, opts: seq<Opt>, order: seq<string>)
    requires RenderLaw(syntax)
    requires Enumerates(order, ExportedNames(syntax, opts))
    requires BareNamesReadBack(syntax, opts)
    ensures BareNamesReadBack(syntax, Canonical(syntax, opts, order))
  {
    var canon := Canonical(syntax, opts, order);
    CanonicalNames(syntax, opts, order);
    forall n | n in ExportedNames(syntax, canon) ensures NameReadsBack(syntax, canon, n) {
      CanonicalSurvivors(syntax, opts, order, n);
      var surv := Surviving(syntax, opts, n);
      assert NameReadsBack(syntax, opts, n);
      forall o | o in NormalAll(syntax, surv) ensures ReadsBack(syntax, o) {
        var i :| 0 <= i < |surv| && o == Normal(syntax, surv[i]);
        assert surv[i] in surv;
        NormalIsFixed(syntax, surv[i]);
      }
    }
  }

  // ---------------------------------------------------------------- legacy documents

  /**
   * Format 1 and 3a, and format 2 and 3b, are read as the same options whenever the Core lexer splits
   * each old value string into the tokens the new format stores.
   */
  lemma LegacyFormatsAgree(syntax: Syntax, name: string, lines: seq<string>, opts: seq<Opt>)
    requires !syntax.isTag(name) && |lines| == |opts|
    requires forall i :: 0 <= i < |opts| ==>
      opts[i].name == name && syntax.parseLine(name + " " + lines[i]) == Ok(opts[i])
    ensures forall i :: 0 <= i < |opts| ==>
              ImportMember(syntax, name, JString(lines[i])) == Ok([opts[i]])
    ensures forall i :: 0 <= i < |opts| && !syntax.needsArray(name) ==>
              ImportMember(syntax, name, Strings(opts[i].args)) == Ok([opts[i]])
    ensures syntax.needsArray(name) ==>
              && ImportMember(syntax, name, Strings(lines)) == Ok(opts)
              && ImportMember(syntax, name,
                JArray(seq(|opts|, i requires 0 <= i < |opts| => Strings(opts[i].args)))) == Ok(opts)
  {
    forall i | 0 <= i < |opts|
      ensures AddOption(syntax, name, Strings(opts[i].args)) == Ok(opts[i])
      ensures AddOption(syntax, name, JString(lines[i])) == Ok(opts[i])
    {
      StringsRoundTrip(opts[i].args);
    }
    if syntax.needsArray(name) {
      var old2 := Strings(lines).items;
      var new3 := seq(|opts|, i requires 0 <= i < |opts| => Strings(opts[i].args));
      assert AddEach(syntax, name, old2).value == opts;
      assert AddEach(syntax, name, new3).value == opts;
    }
  }
}
