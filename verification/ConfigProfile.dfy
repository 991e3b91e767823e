/**
 * A configuration object as a value: its exported record, its reload from that record, and what each
 * call makes of it (src/configmgr/configmgr-configuration.cpp).
 */
module ConfigProfile {
  import opened Outcomes
  import opened Json
  import opened OptionJson
  import opened ProfileCheck
  import opened TextFilter
  import opened Overrides
  import opened AccessControl
  import opened Lists

  type U64 = n: nat | n < 0x1_0000_0000_0000_0000

  /**
   * The option syntax and the override schema the configuration manager runs with, and the order in which
   * jsoncpp lists the keys of an object.
   */
  datatype Context = Context(syntax: Syntax, schema: Schema, keyOrder: set<string> -> seq<string>)

  datatype Profile = Profile(
    path: string,
    owner: Uid,
    name: string,
    tags: seq<string>,
    importTimestamp: U64,
    lastUsedTimestamp: U64,
    lockedDown: bool,
    transferOwnerSession: bool,
    readonly: bool,
    singleUse: bool,
    usedCount: U32,
    valid: bool,
    options: seq<Opt>,
    dco: bool,
    publicAccess: bool,
    acl: seq<Uid>,
    overrides: seq<Override>,
    stored: bool)  // has a persistent file

  // ---------------------------------------------------------------- the record

  /**
   * The JSON object a configuration is exported to, member by member.  `JNull` stands for a member that
   * is absent, which is also how the reload reads one.
   */
  datatype Record = Record(
    objectPath: Json, owner: Json, name: Json, tags: Json, importTimestamp: Json, lastUsedTimestamp: Json,
    lockedDown: Json, transferOwnerSession: Json, readonly: Json, singleUse: Json, usedCount: Json,
    valid: Json, profile: Json, dco: Json, publicAccess: Json, acl: Json, overrides: Json)

  function FilterAll(tags: seq<string>): (r: seq<string>)
    ensures |r| == |tags|
  {
    seq(|tags|, i requires 0 <= i < |tags| => FilterCtrlChars(tags[i], true))
  }

  function UidItems(list: seq<Uid>): Json {
    JArray(seq(|list|, i requires 0 <= i < |list| => JInt(list[i])))
  }

  function ValueJson(v: Value): Json {
    match v
    case Text(s) => JString(s)
    case Flag(b) => JBool(b)
  }

  /** Assigned one by one: a later override of the same key replaces an earlier one. */
  function OverrideMembers(list: seq<Override>): map<string, Json> {
    if list == [] then map[]
    else OverrideMembers(list[..|list| - 1])[list[|list| - 1].key := ValueJson(list[|list| - 1].value)]
  }

  function ExportRecord(ctx: Context, p: Profile): Record {
    Record(
      JString(p.path),
      JInt(p.owner),
      JString(FilterCtrlChars(p.name, true)),
      if p.tags == [] then JNull else Strings(FilterAll(p.tags)),
      JInt(p.importTimestamp),
      JInt(p.lastUsedTimestamp),
      JBool(p.lockedDown),
      JBool(p.transferOwnerSession),
      JBool(p.readonly),
      JBool(p.singleUse),
      JInt(p.usedCount),
      JBool(p.valid),
      Exported(ctx.syntax, p.options),
      JBool(p.dco),
      JBool(p.publicAccess),
      if p.acl == [] then JNull else UidItems(p.acl),
      if p.overrides == [] then JNull else JObject(OverrideMembers(p.overrides)))
  }

  // ---------------------------------------------------------------- reload

  function LoadTags(items: seq<Json>): Result<seq<string>> {
    match AllAsStrings(items)
    case Ok(tags) => Ok(FilterAll(tags))
    case Err(e) => Err(e)
  }

  /** Each id is granted in turn; granting one twice throws. */
  function LoadAcl(items: seq<Json>): Result<seq<Uid>> {
    if items == [] then Ok([])
    else
      match LoadAcl(items[..|items| - 1])
      case Err(e) => Err(e)
      case Ok(list) =>
        match AsUInt(items[|items| - 1], 0x1_0000_0000)
        case Err(e) => Err(e)
        case Ok(n) =>
          if n in list then Err("UID already granted access")
          else Ok(list + [n])
  }

  /** The position of a key, or the length of the list. */
  function IndexOf(list: seq<Override>, key: string): (i: nat)
    ensures i <= |list|
    ensures i < |list| ==> list[i].key == key
    ensures forall j :: 0 <= j < i ==> list[j].key != key
  {
    First(list, (ov: Override) => ov.key == key)
  }

  function RemoveOverride(list: seq<Override>, key: string): seq<Override> {
    var i := IndexOf(list, key);
    if i < |list| then list[..i] + list[i + 1..] else list
  }

  /** `set_override` for a key of the schema: the previous value is dropped, the new one appended. */
  function PutOverride(list: seq<Override>, key: string, v: Value): seq<Override> {
    RemoveOverride(list, key) + [Override(key, v)]
  }

  /** One persisted override; an unknown key is reported and skipped. */
  function LoadOverride(ctx: Context, list: seq<Override>, key: string, j: Json): Result<seq<Override>> {
    match j
    case JBool(b) => Ok(if ctx.schema(key).None? then list else PutOverride(list, key, Flag(b)))
    case JString(s) =>
      Ok(if ctx.schema(key).None? then list else PutOverride(list, key, Text(FilterCtrlChars(s, true))))
    case _ => Err("Invalid data type")
  }

  function LoadOverrides(ctx: Context, members: map<string, Json>, order: seq<string>): Result<seq<Override>> {
    if order == [] then Ok([])
    else
      match LoadOverrides(ctx, members, order[..|order| - 1])
      case Err(e) => Err(e)
      case Ok(list) => LoadOverride(ctx, list, order[|order| - 1], At(members, order[|order| - 1]))
  }

  function Items(j: Json): seq<Json> {
    if j.JArray? then j.items else []
  }

  /** The values of an object in this order of its keys. */
  function ValuesInOrder(members: map<string, Json>, order: seq<string>): seq<Json> {
    if order == [] then []
    else (if order[0] in members then [members[order[0]]] else []) + ValuesInOrder(members, order[1..])
  }

  /** What a loop over a JSON value visits: array elements, the values of an object, nothing otherwise. */
  function Visited(ctx: Context, j: Json): seq<Json> {
    if j.JObject? then ValuesInOrder(j.members, ctx.keyOrder(j.members.Keys)) else Items(j)
  }

  function Members(j: Json): map<string, Json> {
    if j.JObject? then j.members else map[]
  }

  /** The iteration orders jsoncpp uses for the options and the overrides of a record. */
  ghost predicate Visits(rec: Record, order: seq<string>, ovOrder: seq<string>) {
    && Ordering(rec.profile, order)
    && Enumerates(ovOrder, Members(rec.overrides).Keys)
  }

  datatype NumberMembers = NumberMembers(owner: Uid, importTimestamp: U64, lastUsedTimestamp: U64, usedCount: U32)

  datatype FlagMembers = FlagMembers(
    lockedDown: bool, transferOwnerSession: bool, readonly: bool, singleUse: bool, dco: bool, valid: bool,
    publicAccess: bool)

  /** The owner is read as a 64 bit number and narrowed to a uid. */
  function LoadNumbers(rec: Record): Result<NumberMembers> {
    var owner :- AsUInt(rec.owner, 0x1_0000_0000_0000_0000);
    var importTs :- AsUInt(rec.importTimestamp, 0x1_0000_0000_0000_0000);
    var lastUsed :- AsUInt(rec.lastUsedTimestamp, 0x1_0000_0000_0000_0000);
    var usedCount :- AsUInt(rec.usedCount, 0x1_0000_0000);
    Ok(NumberMembers(owner % 0x1_0000_0000, importTs, lastUsed, usedCount))
  }

  function LoadFlags(rec: Record): Result<FlagMembers> {
    var lockedDown :- AsBool(rec.lockedDown);
    var transfer :- AsBool(rec.transferOwnerSession);
    var readonly :- AsBool(rec.readonly);
    var singleUse :- AsBool(rec.singleUse);
    var dco :- AsBool(rec.dco);
    var valid :- AsBool(rec.valid);
    var publicAccess :- AsBool(rec.publicAccess);
    Ok(FlagMembers(lockedDown, transfer, readonly, singleUse, dco, valid, publicAccess))
  }

  datatype ListMembers = ListMembers(tags: seq<string>, acl: seq<Uid>, overrides: seq<Override>, options: seq<Opt>)

  function LoadListMembers(ctx: Context, rec: Record, order: seq<string>, ovOrder: seq<string>): Result<ListMembers> {
    var tags :- LoadTags(Items(rec.tags));
    var acl :- LoadAcl(Visited(ctx, rec.acl));
    var _ :- MemberNames(rec.overrides);
    var overrides :- LoadOverrides(ctx, Members(rec.overrides), ovOrder);
    var options :- Imported(ctx.syntax, rec.profile, order);
    Ok(ListMembers(tags, acl, overrides, options))
  }

  /** Validity is recomputed; the flag in the record is only read. */
  function Assembled(path: string, name: string, n: NumberMembers, f: FlagMembers, l: ListMembers): Profile {
    Profile(path, n.owner, FilterCtrlChars(name, true), l.tags, n.importTimestamp, n.lastUsedTimestamp, f.lockedDown,
            f.transferOwnerSession, f.readonly, f.singleUse, n.usedCount, ValidProfile(l.options), l.options, f.dco,
            f.publicAccess, l.acl, l.overrides, true)
  }

  /** The constructor that rebuilds a configuration from its persistent file. */
  function LoadRecord(ctx: Context, rec: Record, order: seq<string>, ovOrder: seq<string>): Result<Profile> {
    var path :- AsString(rec.objectPath);
    var name :- AsString(rec.name);
    var n :- LoadNumbers(rec);
    var f :- LoadFlags(rec);
    var l :- LoadListMembers(ctx, rec, order, ovOrder);
    Ok(Assembled(path, name, n, f, l))
  }

  // ---------------------------------------------------------------- what every call keeps

  ghost predicate CleanTexts(list: seq<Override>) {
    forall i :: 0 <= i < |list| && list[i].value.Text? ==>
      FilterCtrlChars(list[i].value.text, true) == list[i].value.text
  }

  /** Unique known keys and filtered texts. */
  ghost predicate Tidy(ctx: Context, list: seq<Override>) {
    && UniqueKeys(list) && CleanTexts(list)
    && forall i :: 0 <= i < |list| ==> ctx.schema(list[i].key).Some?
  }

  /** What holds of every configuration, whatever file it was loaded from. */
  ghost predicate Orderly(ctx: Context, p: Profile) {
    NoDuplicates(p.acl) && Tidy(ctx, p.overrides) && p.valid == ValidProfile(p.options)
  }

  /** What holds of a configuration whose files were written by this program and whose options read back. */
  ghost predicate Sound(ctx: Context, p: Profile) {
    && NoDuplicates(p.acl)
    && UniqueKeys(p.overrides) && WellTyped(ctx.schema, p.overrides) && CleanTexts(p.overrides)
    && p.valid == ValidProfile(p.options)
    && (p.readonly ==> p.valid)
    && BareNamesReadBack(ctx.syntax, p.options)
  }

  /** The laws of the Core library and the option tables the results rest on. */
  ghost predicate Laws(ctx: Context) {
    RenderLaw(ctx.syntax) && OrdinaryNames(ctx.syntax)
  }

  // ---------------------------------------------------------------- reload of an exported record

  /** The overrides in the order the reload visits their keys. */
  function Reordered(list: seq<Override>, order: seq<string>): (r: seq<Override>)
    ensures |r| == |order|
  {
    seq(|order|, i requires 0 <= i < |order| => Override(order[i], FromJson(At(OverrideMembers(list), order[i]))))
  }

  function FromJson(j: Json): Value {
    if j.JBool? then Flag(j.flag) else if j.JString? then Text(j.text) else Text("")
  }

  /** What a restart turns a configuration into. */
  function Reloaded(ctx: Context, p: Profile, order: seq<string>, ovOrder: seq<string>): Profile {
    var options := Canonical(ctx.syntax, p.options, order);
    p.(name := FilterCtrlChars(p.name, true), tags := FilterAll(p.tags), overrides := Reordered(p.overrides, ovOrder),
       options := options, valid := ValidProfile(options), stored := true)
  }

  /** One key of the exported overrides. */
  lemma {:induction false} MemberOfUnique(list: seq<Override>, k: string)
    requires UniqueKeys(list)
    ensures k in OverrideMembers(list) <==> exists i :: 0 <= i < |list| && list[i].key == k
    ensures forall i :: 0 <= i < |list| && list[i].key == k ==> At(OverrideMembers(list), k) == ValueJson(list[i].value)
  {
    if list != [] {
      var init, last := list[..|list| - 1], list[|list| - 1];
      assert forall i :: 0 <= i < |init| ==> init[i] == list[i];
      MemberOfUnique(init, k);
    }
  }

  lemma MembersOfUnique(list: seq<Override>)
    requires UniqueKeys(list)
    ensures forall k :: k in OverrideMembers(list) <==> exists i :: 0 <= i < |list| && list[i].key == k
    ensures forall i :: 0 <= i < |list| ==>
      list[i].key in OverrideMembers(list) && OverrideMembers(list)[list[i].key] == ValueJson(list[i].value)
  {
    forall k ensures k in OverrideMembers(list) <==> exists i :: 0 <= i < |list| && list[i].key == k {
      MemberOfUnique(list, k);
    }
    forall i | 0 <= i < |list|
      ensures list[i].key in OverrideMembers(list) && OverrideMembers(list)[list[i].key] == ValueJson(list[i].value)
    {
      MemberOfUnique(list, list[i].key);
    }
  }

  lemma {:induction false} LoadAclOfItems(list: seq<Uid>)
    requires NoDuplicates(list)
    ensures LoadAcl(UidItems(list).items) == Ok(list)
  {
    if list != [] {
      var init, last := list[..|list| - 1], list[|list| - 1];
      assert list == init + [last];
      LoadAclOfItems(init);
      assert UidItems(list).items[..|list| - 1] == UidItems(init).items;
    }
  }

  lemma LoadOverrideOfValue(ctx: Context, before: seq<Override>, ov: Override)
    requires InSchema(ctx.schema, ov)
    requires ov.value.Text? ==> FilterCtrlChars(ov.value.text, true) == ov.value.text
    requires forall i :: 0 <= i < |before| ==> before[i].key != ov.key
    ensures LoadOverride(ctx, before, ov.key, ValueJson(ov.value)) == Ok(before + [ov])
    ensures FromJson(ValueJson(ov.value)) == ov.value
  {
    assert IndexOf(before, ov.key) == |before|;
  }

  lemma MemberOfKey(list: seq<Override>, key: string) returns (ov: Override)
    requires UniqueKeys(list) && key in OverrideMembers(list)
    ensures ov in list && ov.key == key && At(OverrideMembers(list), key) == ValueJson(ov.value)
  {
    MemberOfUnique(list, key);
    var i :| 0 <= i < |list| && list[i].key == key;
    ov := list[i];
  }

  lemma {:induction false} LoadOverridesOfMembers(ctx: Context, list: seq<Override>, order: seq<string>)
    requires UniqueKeys(list) && WellTyped(ctx.schema, list) && CleanTexts(list)
    requires NoDuplicates(order) && forall i :: 0 <= i < |order| ==> order[i] in OverrideMembers(list)
    ensures LoadOverrides(ctx, OverrideMembers(list), order) == Ok(Reordered(list, order))
  {
    if order != [] {
      var init, key := order[..|order| - 1], order[|order| - 1];
      LoadOverridesOfMembers(ctx, list, init);
      assert key !in init;
      ReorderedStep(ctx, list, init, key);
      assert init + [key] == order;
    }
  }

  lemma ReorderedStep(ctx: Context, list: seq<Override>, init: seq<string>, key: string)
    requires UniqueKeys(list) && WellTyped(ctx.schema, list) && CleanTexts(list)
    requires key !in init && key in OverrideMembers(list)
    ensures LoadOverride(ctx, Reordered(list, init), key, At(OverrideMembers(list), key)) ==
      Ok(Reordered(list, init + [key]))
  {
    var ov := MemberOfKey(list, key);
    forall i | 0 <= i < |init| ensures Reordered(list, init)[i].key != key {
      assert init[i] in init;
    }
    LoadOverrideOfValue(ctx, Reordered(list, init), ov);
    assert Reordered(list, init + [key]) == Reordered(list, init) + [ov];
  }

  lemma FilterAllTwice(tags: seq<string>)
    ensures FilterAll(FilterAll(tags)) == FilterAll(tags)
  {
    forall i | 0 <= i < |tags| ensures FilterAll(FilterAll(tags))[i] == FilterAll(tags)[i] {
      FilterIsProjection(tags[i]);
    }
  }

  lemma NumbersOfExport(ctx: Context, p: Profile)
    ensures LoadNumbers(ExportRecord(ctx, p)) ==
            Ok(NumberMembers(p.owner, p.importTimestamp, p.lastUsedTimestamp, p.usedCount))
  {
  }

  lemma FlagsOfExport(ctx: Context, p: Profile)
    ensures LoadFlags(ExportRecord(ctx, p)) ==
            Ok(FlagMembers(p.lockedDown, p.transferOwnerSession, p.readonly, p.singleUse, p.dco, p.valid,
                           p.publicAccess))
  {
  }

  lemma ListsOfExport(ctx: Context, p: Profile)
    ensures var rec := ExportRecord(ctx, p);
      && Items(rec.tags) == Strings(FilterAll(p.tags)).items
      && Visited(ctx, rec.acl) == UidItems(p.acl).items
      && Members(rec.overrides) == OverrideMembers(p.overrides)
      && MemberNames(rec.overrides).Ok?
  {
  }

  lemma ListsReload(ctx: Context, p: Profile, order: seq<string>, ovOrder: seq<string>)
    requires Sound(ctx, p) && Visits(ExportRecord(ctx, p), order, ovOrder)
    ensures Enumerates(order, ExportedNames(ctx.syntax, p.options))
    ensures LoadListMembers(ctx, ExportRecord(ctx, p), order, ovOrder) ==
      Ok(ListMembers(FilterAll(p.tags), p.acl, Reordered(p.overrides, ovOrder),
                     Canonical(ctx.syntax, p.options, order)))
  {
    ListsOfExport(ctx, p);
    ExportedKeys(ctx.syntax, p.options);
    RoundTrip(ctx.syntax, p.options, order);
    StringsRoundTrip(FilterAll(p.tags));
    FilterAllTwice(p.tags);
    LoadAclOfItems(p.acl);
    forall i | 0 <= i < |ovOrder| ensures ovOrder[i] in OverrideMembers(p.overrides) {
      assert ovOrder[i] in ovOrder;
    }
    LoadOverridesOfMembers(ctx, p.overrides, ovOrder);
  }

  /** Reloading a configuration from its own record. */
  lemma ReloadOfExport(ctx: Context, p: Profile, order: seq<string>, ovOrder: seq<string>)
    requires Sound(ctx, p) && Visits(ExportRecord(ctx, p), order, ovOrder)
    ensures Enumerates(order, ExportedNames(ctx.syntax, p.options))
    ensures LoadRecord(ctx, ExportRecord(ctx, p), order, ovOrder) == Ok(Reloaded(ctx, p, order, ovOrder))
  {
    NumbersOfExport(ctx, p);
    FlagsOfExport(ctx, p);
    FilterIsProjection(p.name);
    ListsReload(ctx, p, order, ovOrder);
  }

  // ---------------------------------------------------------------- loading any record

  lemma {:induction false} LoadAclDistinct(items: seq<Json>)
    ensures LoadAcl(items).Ok? ==> NoDuplicates(LoadAcl(items).value)
  {
    if items != [] {
      LoadAclDistinct(items[..|items| - 1]);
    }
  }

  lemma RemoveKeepsTidy(ctx: Context, list: seq<Override>, key: string)
    requires Tidy(ctx, list)
    ensures Tidy(ctx, RemoveOverride(list, key))
    ensures forall i :: 0 <= i < |RemoveOverride(list, key)| ==> RemoveOverride(list, key)[i].key != key
  {
    var n, r := IndexOf(list, key), RemoveOverride(list, key);
    if n < |list| {
      assert forall i :: 0 <= i < |r| ==> r[i] == if i < n then list[i] else list[i + 1];
    }
  }

  lemma PutKeepsTidy(ctx: Context, list: seq<Override>, key: string, v: Value)
    requires Tidy(ctx, list) && ctx.schema(key).Some? && (v.Text? ==> FilterCtrlChars(v.text, true) == v.text)
    ensures Tidy(ctx, PutOverride(list, key, v))
  {
    RemoveKeepsTidy(ctx, list, key);
  }

  lemma LoadOverrideTidy(ctx: Context, list: seq<Override>, key: string, j: Json)
    requires Tidy(ctx, list)
    ensures LoadOverride(ctx, list, key, j).Ok? ==> Tidy(ctx, LoadOverride(ctx, list, key, j).value)
  {
    if ctx.schema(key).Some? {
      if j.JBool? {
        PutKeepsTidy(ctx, list, key, Flag(j.flag));
      } else if j.JString? {
        FilterIsProjection(j.text);
        PutKeepsTidy(ctx, list, key, Text(FilterCtrlChars(j.text, true)));
      }
    }
  }

  lemma {:induction false} LoadOverridesTidy(ctx: Context, members: map<string, Json>, order: seq<string>)
    ensures LoadOverrides(ctx, members, order).Ok? ==> Tidy(ctx, LoadOverrides(ctx, members, order).value)
  {
    if order != [] {
      var init, last := order[..|order| - 1], order[|order| - 1];
      LoadOverridesTidy(ctx, members, init);
      if LoadOverrides(ctx, members, init).Ok? {
        LoadOverrideTidy(ctx, LoadOverrides(ctx, members, init).value, last, At(members, last));
      }
    }
  }

  /** Whatever the file says: no uid twice, unique known overrides with filtered texts, recomputed validity. */
  lemma LoadIsOrderly(ctx: Context, rec: Record, order: seq<string>, ovOrder: seq<string>)
    ensures LoadRecord(ctx, rec, order, ovOrder).Ok? ==> Orderly(ctx, LoadRecord(ctx, rec, order, ovOrder).value)
  {
    LoadAclDistinct(Visited(ctx, rec.acl));
    LoadOverridesTidy(ctx, Members(rec.overrides), ovOrder);
  }
}
