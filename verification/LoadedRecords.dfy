/** What a reload reads from any persistent file (src/configmgr/configmgr-configuration.cpp). */
module LoadedRecords {
  import opened Outcomes
  import opened Json
  import opened OptionJson
  import opened ProfileCheck
  import opened TextFilter
  import opened Overrides
  import opened AccessControl
  import opened ConfigProfile

  // ---------------------------------------------------------------- which files can be loaded

  /** Unsigned numbers of this width: null is 0, a flag 0 or 1. */
  predicate IsNumber(j: Json, range: nat) {
    j.JNull? || j.JBool? || (j.JInt? && 0 <= j.number < range)
  }

  predicate IsFlag(j: Json) {
    j.JNull? || j.JBool? || j.JInt?
  }

  predicate IsText(j: Json) {
    !j.JArray? && !j.JObject?
  }

  function NumberOf(j: Json): int {
    if j.JInt? then j.number else if j == JBool(true) then 1 else 0
  }

  predicate FlagOf(j: Json) {
    j == JBool(true) || (j.JInt? && j.number != 0)
  }

  /** Uids of the access list: numbers, none twice. */
  ghost predicate AclLoads(items: seq<Json>) {
    && (forall i :: 0 <= i < |items| ==> IsNumber(items[i], 0x1_0000_0000))
    && forall i, j :: 0 <= i < j < |items| ==> NumberOf(items[i]) != NumberOf(items[j])
  }

  ghost predicate OverridesLoad(members: map<string, Json>, order: seq<string>) {
    forall k :: k in order ==> At(members, k).JBool? || At(members, k).JString?
  }

  lemma {:induction false} LoadAclIff(items: seq<Json>)
    ensures LoadAcl(items).Ok? <==> AclLoads(items)
    ensures LoadAcl(items).Ok? ==>
      && |LoadAcl(items).value| == |items|
      && forall i :: 0 <= i < |items| ==> LoadAcl(items).value[i] == NumberOf(items[i])
  {
    if items != [] {
      var init, last := items[..|items| - 1], items[|items| - 1];
      LoadAclIff(init);
      assert items == init + [last];
      if LoadAcl(init).Ok? && IsNumber(last, 0x1_0000_0000) {
        var list := LoadAcl(init).value;
        assert NumberOf(last) in list <==> exists i :: 0 <= i < |init| && NumberOf(init[i]) == NumberOf(last) by {
          if i :| 0 <= i < |init| && NumberOf(init[i]) == NumberOf(last) {
            assert list[i] == NumberOf(last);
          }
        }
      }
    }
  }

  lemma {:induction false} LoadOverridesIff(ctx: Context, members: map<string, Json>, order: seq<string>)
    ensures LoadOverrides(ctx, members, order).Ok? <==> OverridesLoad(members, order)
  {
    if order != [] {
      var init, last := order[..|order| - 1], order[|order| - 1];
      LoadOverridesIff(ctx, members, init);
      assert forall k :: k in order <==> k in init || k == last;
    }
  }

  lemma FlagIsRead(j: Json)
    ensures AsBool(j).Ok? <==> IsFlag(j)
    ensures AsBool(j).Ok? ==> AsBool(j).value == FlagOf(j)
  {
  }

  predicate FlagsLoad(rec: Record) {
    && IsFlag(rec.lockedDown) && IsFlag(rec.transferOwnerSession) && IsFlag(rec.readonly) && IsFlag(rec.singleUse)
    && IsFlag(rec.dco) && IsFlag(rec.valid) && IsFlag(rec.publicAccess)
  }

  lemma FlagsLoadIff(rec: Record)
    ensures LoadFlags(rec).Ok? <==> FlagsLoad(rec)
  {
    FlagIsRead(rec.lockedDown);
    FlagIsRead(rec.transferOwnerSession);
    FlagIsRead(rec.readonly);
    FlagIsRead(rec.singleUse);
    FlagIsRead(rec.dco);
    FlagIsRead(rec.valid);
    FlagIsRead(rec.publicAccess);
  }

  predicate NumbersLoad(rec: Record) {
    && IsNumber(rec.owner, 0x1_0000_0000_0000_0000) && IsNumber(rec.importTimestamp, 0x1_0000_0000_0000_0000)
    && IsNumber(rec.lastUsedTimestamp, 0x1_0000_0000_0000_0000) && IsNumber(rec.usedCount, 0x1_0000_0000)
  }

  lemma NumbersLoadIff(rec: Record)
    ensures LoadNumbers(rec).Ok? <==> NumbersLoad(rec)
  {
  }

  ghost predicate ListsLoad(ctx: Context, rec: Record, order: seq<string>, ovOrder: seq<string>) {
    && (forall j :: j in Items(rec.tags) ==> IsText(j))
    && AclLoads(Visited(ctx, rec.acl))
    && (rec.overrides.JNull? || rec.overrides.JObject?) && OverridesLoad(Members(rec.overrides), ovOrder)
    && Imported(ctx.syntax, rec.profile, order).Ok?
  }

  lemma ListsLoadIff(ctx: Context, rec: Record, order: seq<string>, ovOrder: seq<string>)
    ensures LoadListMembers(ctx, rec, order, ovOrder).Ok? <==> ListsLoad(ctx, rec, order, ovOrder)
  {
    LoadAclIff(Visited(ctx, rec.acl));
    LoadOverridesIff(ctx, Members(rec.overrides), ovOrder);
  }

  /** Exactly which files are loaded; absent members count as null. */
  lemma LoadsIff(ctx: Context, rec: Record, order: seq<string>, ovOrder: seq<string>)
    ensures LoadRecord(ctx, rec, order, ovOrder).Ok? <==>
      && IsText(rec.objectPath) && IsText(rec.name) && NumbersLoad(rec) && FlagsLoad(rec)
      && ListsLoad(ctx, rec, order, ovOrder)
  {
    NumbersLoadIff(rec);
    FlagsLoadIff(rec);
    ListsLoadIff(ctx, rec, order, ovOrder);
  }

  // ---------------------------------------------------------------- what is read

  /** The value a key of the file gives an override. */
  function TextOrFlag(j: Json): Value
    requires j.JBool? || j.JString?
  {
    if j.JBool? then Flag(j.flag) else Text(FilterCtrlChars(j.text, true))
  }

  lemma LoadedStep(ctx: Context, list: seq<Override>, key: string, j: Json, ov: Override)
    requires IndexOf(list, key) == |list| && (j.JBool? || j.JString?)
    ensures LoadOverride(ctx, list, key, j).Ok?
    ensures ov in LoadOverride(ctx, list, key, j).value <==>
      ov in list || (ctx.schema(key).Some? && ov == Override(key, TextOrFlag(j)))
  {
  }

  /** Every known key of the file becomes an override with the file's value; unknown keys are skipped. */
  lemma {:induction false} LoadedOverride(ctx: Context, members: map<string, Json>, order: seq<string>, ov: Override)
    requires NoDuplicates(order) && LoadOverrides(ctx, members, order).Ok?
    ensures OverridesLoad(members, order)
    ensures ov in LoadOverrides(ctx, members, order).value <==>
      ov.key in order && ctx.schema(ov.key).Some? && ov.value == TextOrFlag(At(members, ov.key))
  {
    LoadOverridesIff(ctx, members, order);
    if order != [] {
      var init, last := order[..|order| - 1], order[|order| - 1];
      assert order == init + [last];
      assert last in order && last !in init;
      LoadedOverride(ctx, members, init, ov);
      NoneBefore(ctx, members, init, last);
      LoadedStep(ctx, LoadOverrides(ctx, members, init).value, last, At(members, last), ov);
    }
  }

  lemma PutElements(list: seq<Override>, key: string, v: Value)
    ensures forall ov :: ov in PutOverride(list, key, v) ==> ov in list || ov.key == key
  {
  }

  lemma {:induction false} KeysOfOrder(ctx: Context, members: map<string, Json>, order: seq<string>)
    requires LoadOverrides(ctx, members, order).Ok?
    ensures forall ov :: ov in LoadOverrides(ctx, members, order).value ==> ov.key in order
  {
    if order != [] {
      var init, last := order[..|order| - 1], order[|order| - 1];
      assert order == init + [last];
      KeysOfOrder(ctx, members, init);
      var j := At(members, last);
      PutElements(LoadOverrides(ctx, members, init).value, last,
                  if j.JBool? then Flag(j.flag)
                  else if j.JString? then Text(FilterCtrlChars(j.text, true)) else Text(""));
    }
  }

  lemma NoneBefore(ctx: Context, members: map<string, Json>, order: seq<string>, key: string)
    requires LoadOverrides(ctx, members, order).Ok? && key !in order
    ensures IndexOf(LoadOverrides(ctx, members, order).value, key) == |LoadOverrides(ctx, members, order).value|
  {
    var list := LoadOverrides(ctx, members, order).value;
    KeysOfOrder(ctx, members, order);
    forall i | 0 <= i < |list| ensures list[i].key != key {
      assert list[i] in list;
    }
  }

  lemma LoadedNumbers(rec: Record)
    requires LoadNumbers(rec).Ok?
    ensures LoadNumbers(rec).value == NumberMembers(
      NumberOf(rec.owner) % 0x1_0000_0000, NumberOf(rec.importTimestamp), NumberOf(rec.lastUsedTimestamp),
      NumberOf(rec.usedCount))
  {
  }

  lemma LoadedFlags(rec: Record)
    requires LoadFlags(rec).Ok?
    ensures var f := LoadFlags(rec).value;
      && f.lockedDown == FlagOf(rec.lockedDown) && f.transferOwnerSession == FlagOf(rec.transferOwnerSession)
      && f.readonly == FlagOf(rec.readonly) && f.singleUse == FlagOf(rec.singleUse)
      && f.dco == FlagOf(rec.dco) && f.publicAccess == FlagOf(rec.publicAccess)
  {
    FlagIsRead(rec.lockedDown);
    FlagIsRead(rec.transferOwnerSession);
    FlagIsRead(rec.readonly);
    FlagIsRead(rec.singleUse);
    FlagIsRead(rec.dco);
    FlagIsRead(rec.publicAccess);
  }

  /** The scalar fields of a reloaded configuration are the members of the file; the owner is cut to 32 bits. */
  lemma LoadedScalars(ctx: Context, rec: Record, order: seq<string>, ovOrder: seq<string>)
    requires LoadRecord(ctx, rec, order, ovOrder).Ok?
    ensures var p := LoadRecord(ctx, rec, order, ovOrder).value;
      && AsString(rec.objectPath) == Ok(p.path)
      && AsString(rec.name).Ok? && p.name == FilterCtrlChars(AsString(rec.name).value, true)
      && p.owner == NumberOf(rec.owner) % 0x1_0000_0000
      && p.importTimestamp == NumberOf(rec.importTimestamp) && p.lastUsedTimestamp == NumberOf(rec.lastUsedTimestamp)
      && p.usedCount == NumberOf(rec.usedCount)
      && p.lockedDown == FlagOf(rec.lockedDown) && p.transferOwnerSession == FlagOf(rec.transferOwnerSession)
      && p.readonly == FlagOf(rec.readonly) && p.singleUse == FlagOf(rec.singleUse) && p.dco == FlagOf(rec.dco)
      && p.publicAccess == FlagOf(rec.publicAccess) && p.stored
  {
    LoadedNumbers(rec);
    LoadedFlags(rec);
  }

  /** Tags and access list are those of the file, in its order. */
  lemma LoadedLists(ctx: Context, rec: Record, order: seq<string>, ovOrder: seq<string>, i: nat)
    requires LoadRecord(ctx, rec, order, ovOrder).Ok?
    ensures var p, tags, uids := LoadRecord(ctx, rec, order, ovOrder).value, Items(rec.tags), Visited(ctx, rec.acl);
      && |p.tags| == |tags| && |p.acl| == |uids|
      && (i < |tags| ==> AsString(tags[i]).Ok? && p.tags[i] == FilterCtrlChars(AsString(tags[i]).value, true))
      && (i < |uids| ==> p.acl[i] == NumberOf(uids[i]))
  {
    LoadAclIff(Visited(ctx, rec.acl));
  }

  /** Overrides are the known keys of the file, options those of its profile; the validity in it is ignored. */
  lemma LoadedObjects(ctx: Context, rec: Record, order: seq<string>, ovOrder: seq<string>, ov: Override)
    requires LoadRecord(ctx, rec, order, ovOrder).Ok? && NoDuplicates(ovOrder)
    ensures var p, members := LoadRecord(ctx, rec, order, ovOrder).value, Members(rec.overrides);
      && OverridesLoad(members, ovOrder)
      && (ov in p.overrides <==>
        ov.key in ovOrder && ctx.schema(ov.key).Some? && ov.value == TextOrFlag(At(members, ov.key)))
      && Imported(ctx.syntax, rec.profile, order) == Ok(p.options) && p.valid == ValidProfile(p.options)
  {
    LoadedOverride(ctx, Members(rec.overrides), ovOrder, ov);
  }
}
