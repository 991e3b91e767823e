/**
 * The life cycle of a configuration told on its exported record alone: who may make which call, and which member
 * a call replaces by what.  The configuration follows this machine in every run
 * (src/configmgr/configmgr-configuration.cpp).
 */
module RecordRuns {
  import opened Outcomes
  import opened Json
  import opened OptionJson
  import opened ProfileCheck
  import opened TextFilter
  import opened Overrides
  import opened AccessControl
  import opened Lists
  import opened ConfigProfile
  import opened ConfigRuns

  // ---------------------------------------------------------------- the machine on records

  /** The record of the configuration, if there is one, and the content of its file, if it has one. */
  datatype Books = Books(record: Option<Record>, file: Option<Record>)

  predicate On(j: Json) {
    j == JBool(true)
  }

  predicate IsOwner(rec: Record, caller: Option<Uid>) {
    caller.Some? && rec.owner == JInt(caller.value)
  }

  predicate IsListed(rec: Record, caller: Option<Uid>) {
    caller.Some? && JInt(caller.value) in Items(rec.acl)
  }

  /** Who is granted which call. */
  predicate MayCall(rec: Record, vpnUser: Uid, caller: Option<Uid>, call: Call) {
    match call
    case Validate =>
      On(rec.publicAccess) || IsOwner(rec, caller) || IsListed(rec, caller)
    case Fetch(_, _) | FetchJson =>
      IsOwner(rec, caller) || caller == Some(vpnUser) || (!On(rec.lockedDown) && IsListed(rec, caller))
    case Seal | Remove =>
      IsOwner(rec, caller)
    case SetTransferOwnerSession(_) | SetDco(_) =>
      !On(rec.readonly) && (IsOwner(rec, caller) || IsListed(rec, caller))
    case _ =>
      !On(rec.readonly) && IsOwner(rec, caller)
  }

  predicate MayTakeOver(rec: Record, caller: Option<Uid>) {
    On(rec.publicAccess) || IsOwner(rec, caller) || IsListed(rec, caller) || caller == Some(0)
  }

  /** An empty list or object is not written at all. */
  function ListMember(items: seq<Json>): Json {
    if items == [] then JNull else JArray(items)
  }

  function ObjectMember(members: map<string, Json>): Json {
    if members == map[] then JNull else JObject(members)
  }

  predicate ProperTag(tag: string) {
    0 < |tag| <= 128
  }

  /** The variant has the alternative the schema holds. */
  predicate Fits(kind: Kind, v: Variant) {
    (kind == TextKind && v.VText?) || (kind == FlagKind && v.VFlag?)
  }

  function VariantJson(v: Variant): Json
    requires !v.VOther?
  {
    if v.VText? then JString(FilterCtrlChars(v.text, true)) else JBool(v.flag)
  }

  /** The member of the overrides after `SetOverride`: a refused value takes the old one with it. */
  function OverrideSet(schema: Schema, members: map<string, Json>, key: string, v: Variant): (map<string, Json>, bool) {
    if schema(key).None? then (members, false)
    else if Fits(schema(key).value, v) then (members[key := VariantJson(v)], true)
    else (members - {key}, false)
  }

  function Fetched(rec: Record, now: U64): Record {
    rec.(usedCount := JInt(((if rec.usedCount.JInt? then rec.usedCount.number else 0) + 1) % 0x1_0000_0000),
         lastUsedTimestamp := JInt(now))
  }

  /** What a call makes of the record, and whether it returns normally. */
  function RecordAfter(schema: Schema, rec: Record, call: Call): (Record, bool) {
    match call
    case Validate => (rec, On(rec.valid))
    case Fetch(backendClient, now) => (if backendClient then Fetched(rec, now) else rec, true)
    case FetchJson | SetOption | Remove => (rec, true)
    case AddTag(raw) =>
      var tag := FilterCtrlChars(raw, true);
      if ProperTag(tag) && JString(tag) !in Items(rec.tags)
      then (rec.(tags := JArray(Items(rec.tags) + [JString(tag)])), true) else (rec, false)
    case RemoveTag(tag) =>
      if ProperTag(tag) && JString(tag) in Items(rec.tags)
      then (rec.(tags := ListMember(EraseFirst(Items(rec.tags), JString(tag)))), true) else (rec, false)
    case SetOverride(name, v) =>
      var (members, ok) := OverrideSet(schema, Members(rec.overrides), FilterCtrlChars(name, true), v);
      (rec.(overrides := ObjectMember(members)), ok)
    case UnsetOverride(name) =>
      var key := FilterCtrlChars(name, true);
      (rec.(overrides := ObjectMember(Members(rec.overrides) - {key})), key in Members(rec.overrides))
    case AccessGrant(uid) =>
      if JInt(uid) in Items(rec.acl) then (rec, false)
      else (rec.(acl := JArray(Items(rec.acl) + [JInt(uid)])), true)
    case AccessRevoke(uid) =>
      (rec.(acl := ListMember(EraseFirst(Items(rec.acl), JInt(uid)))), JInt(uid) in Items(rec.acl))
    case Seal => if On(rec.valid) then (rec.(readonly := JBool(true)), true) else (rec, false)
    case SetName(name) => (rec.(name := JString(FilterCtrlChars(name, true))), true)
    case SetTransferOwnerSession(b) => (rec.(transferOwnerSession := JBool(b)), true)
    case SetLockedDown(b) => (rec.(lockedDown := JBool(b)), true)
    case SetDco(b) => (rec.(dco := JBool(b)), true)
    case SetPublicAccess(b) => (rec.(publicAccess := JBool(b)), true)
  }

  predicate Removes(rec: Record, call: Call) {
    call.Remove? || (call.Fetch? && call.backendClient && On(rec.singleUse))
  }

  function Saved(file: Option<Record>, rec: Record): Option<Record> {
    if file.Some? then Some(rec) else None
  }

  /** A restart reads the file again and looks at the options anew. */
  function Reread(ctx: Context, file: Record, order: seq<string>): Record {
    var opts := Imported(ctx.syntax, file.profile, order);
    file.(valid := JBool(opts.Ok? && ValidProfile(opts.value)))
  }

  function BooksAfter(ctx: Context, vpnUser: Uid, b: Books, ev: Event): Books {
    match ev
    case Restart(order, _) => Books(if b.file.Some? then Some(Reread(ctx, b.file.value, order)) else None, b.file)
    case Transfer(caller, newOwner) =>
      if b.record.None? || !MayTakeOver(b.record.value, caller) then b
      else
        var rec := b.record.value.(owner := JInt(newOwner));
        Books(Some(rec), Saved(b.file, rec))
    case Invoke(caller, call) =>
      if b.record.None? || !MayCall(b.record.value, vpnUser, caller, call) then b
      else if Removes(b.record.value, call) then Books(None, None)
      else
        var (rec, ok) := RecordAfter(ctx.schema, b.record.value, call);
        Books(Some(rec), if ok && WritesFile(call) then Saved(b.file, rec) else b.file)
  }

  /** What a reader of the exported record and of the file sees. */
  function BooksOf(ctx: Context, w: World): Books {
    match w
    case Gone(disk) => Books(None, disk)
    case Live(p, disk) => Books(Some(ExportRecord(ctx, p)), disk)
  }

  // ---------------------------------------------------------------- lists in the record

  lemma TagsMember(ctx: Context, p: Profile, tags: seq<string>)
    requires FilterAll(tags) == tags
    ensures ExportRecord(ctx, p.(tags := tags)) == ExportRecord(ctx, p).(tags := ListMember(Strings(tags).items))
  {
  }

  lemma AclMember(ctx: Context, p: Profile, acl: seq<Uid>)
    ensures ExportRecord(ctx, p.(acl := acl)) == ExportRecord(ctx, p).(acl := ListMember(UidItems(acl).items))
  {
  }

  lemma NoMembers(list: seq<Override>)
    ensures list == [] <==> OverrideMembers(list) == map[]
  {
    if list != [] {
      assert list[|list| - 1].key in OverrideMembers(list);
    }
  }

  lemma OverridesMember(ctx: Context, p: Profile, list: seq<Override>)
    ensures ExportRecord(ctx, p.(overrides := list)) ==
            ExportRecord(ctx, p).(overrides := ObjectMember(OverrideMembers(list)))
  {
    NoMembers(list);
  }

  lemma UidIsListed(list: seq<Uid>, uid: Uid)
    ensures JInt(uid) in UidItems(list).items <==> uid in list
    ensures IndexIn(UidItems(list).items, JInt(uid)) == IndexIn(list, uid)
  {
    var items := UidItems(list).items;
    assert forall i :: 0 <= i < |list| ==> (items[i] == JInt(uid) <==> list[i] == uid);
  }

  lemma UidErased(list: seq<Uid>, uid: Uid)
    ensures EraseFirst(UidItems(list).items, JInt(uid)) == UidItems(EraseFirst(list, uid)).items
  {
    UidIsListed(list, uid);
    var i := IndexIn(list, uid);
    assert IndexIn(UidItems(list).items, JInt(uid)) == i;
    if i < |list| {
      UidsWithout(list, i);
      assert EraseFirst(list, uid) == list[..i] + list[i + 1..];
    }
  }

  lemma UidsWithout(list: seq<Uid>, i: nat)
    requires i < |list|
    ensures UidItems(list).items[..i] + UidItems(list).items[i + 1..] == UidItems(list[..i] + list[i + 1..]).items
  {
  }

  lemma TagIsListed(tags: seq<string>, tag: string)
    ensures JString(tag) in Strings(tags).items <==> tag in tags
    ensures IndexIn(Strings(tags).items, JString(tag)) == IndexIn(tags, tag)
  {
    var items := Strings(tags).items;
    assert forall i :: 0 <= i < |tags| ==> (items[i] == JString(tag) <==> tags[i] == tag);
  }

  lemma TagErased(tags: seq<string>, tag: string)
    ensures EraseFirst(Strings(tags).items, JString(tag)) == Strings(EraseFirst(tags, tag)).items
  {
    TagIsListed(tags, tag);
    var i := IndexIn(tags, tag);
    assert IndexIn(Strings(tags).items, JString(tag)) == i;
    if i < |tags| {
      TagsWithout(tags, i);
      assert EraseFirst(tags, tag) == tags[..i] + tags[i + 1..];
    }
  }

  lemma TagsWithout(tags: seq<string>, i: nat)
    requires i < |tags|
    ensures Strings(tags).items[..i] + Strings(tags).items[i + 1..] == Strings(tags[..i] + tags[i + 1..]).items
  {
  }

  lemma FilteredAppend(tags: seq<string>, raw: string)
    requires FilterAll(tags) == tags
    ensures FilterAll(tags + [FilterCtrlChars(raw, true)]) == tags + [FilterCtrlChars(raw, true)]
  {
    FilterIsProjection(raw);
    var r := FilterAll(tags + [FilterCtrlChars(raw, true)]);
    forall i | 0 <= i < |tags| ensures r[i] == tags[i] {
      assert FilterAll(tags)[i] == tags[i];
    }
  }

  lemma FilteredErase(tags: seq<string>, tag: string)
    requires FilterAll(tags) == tags
    ensures FilterAll(EraseFirst(tags, tag)) == EraseFirst(tags, tag)
  {
    var r := EraseFirst(tags, tag);
    forall i | 0 <= i < |r| ensures FilterAll(r)[i] == r[i] {
      var j := if i < IndexIn(tags, tag) then i else i + 1;
      assert FilterAll(tags)[j] == tags[j];
    }
  }

  // ---------------------------------------------------------------- overrides in the record

  lemma RemovedKey(list: seq<Override>, key: string, k: string)
    requires UniqueKeys(list)
    ensures var before, after := OverrideMembers(list), OverrideMembers(RemoveOverride(list, key));
      && (k in after <==> k in before && k != key)
      && (k in after && k in before ==> after[k] == before[k])
  {
    var left := RemoveOverride(list, key);
    RemoveOverrideKeeps(list, key);
    MemberOfUnique(list, k);
    MemberOfUnique(left, k);
    if i :| 0 <= i < |left| && left[i].key == k {
      assert left[i] in list;
      var j :| 0 <= j < |list| && list[j] == left[i];
    } else if j :| 0 <= j < |list| && list[j].key == k {
      assert list[j] !in left;
    }
  }

  lemma RemovedMember(list: seq<Override>, key: string)
    requires UniqueKeys(list)
    ensures OverrideMembers(RemoveOverride(list, key)) == OverrideMembers(list) - {key}
  {
    forall k
      ensures var before, after := OverrideMembers(list), OverrideMembers(RemoveOverride(list, key));
        && (k in after <==> k in before && k != key)
        && (k in after && k in before ==> after[k] == before[k])
    {
      RemovedKey(list, key, k);
    }
    SameMap(OverrideMembers(RemoveOverride(list, key)), OverrideMembers(list) - {key});
  }

  lemma MembersSnoc(list: seq<Override>, ov: Override)
    ensures OverrideMembers(list + [ov]) == OverrideMembers(list)[ov.key := ValueJson(ov.value)]
  {
    assert (list + [ov])[..|list|] == list;
  }

  lemma PutMember(list: seq<Override>, key: string, v: Value)
    requires UniqueKeys(list)
    ensures OverrideMembers(PutOverride(list, key, v)) == OverrideMembers(list)[key := ValueJson(v)]
  {
    RemovedMember(list, key);
    MembersSnoc(RemoveOverride(list, key), Override(key, v));
    SameMap((OverrideMembers(list) - {key})[key := ValueJson(v)], OverrideMembers(list)[key := ValueJson(v)]);
  }

  lemma RemovedTwice(list: seq<Override>, key: string)
    requires UniqueKeys(list)
    ensures RemoveOverride(RemoveOverride(list, key), key) == RemoveOverride(list, key)
  {
    RemoveOverrideKeeps(list, key);
  }

  /** The old value is dropped before the new one is put in its place, which drops it once more. */
  lemma PutOnce(list: seq<Override>, key: string, v: Value)
    requires UniqueKeys(list)
    ensures OverrideMembers(PutOverride(RemoveOverride(list, key), key, v)) ==
      OverrideMembers(list)[key := ValueJson(v)]
  {
    RemovedTwice(list, key);
    assert PutOverride(RemoveOverride(list, key), key, v) == PutOverride(list, key, v);
    PutMember(list, key, v);
  }

  lemma MemberSet(ctx: Context, list: seq<Override>, key: string, v: Variant)
    requires UniqueKeys(list)
    ensures OverrideMembers(OverridesSet(ctx, list, key, v).0) ==
      OverrideSet(ctx.schema, OverrideMembers(list), key, v).0
  {
    var kind := ctx.schema(key);
    if kind.None? {
    } else if kind.value == TextKind && v.VText? {
      PutOnce(list, key, Text(FilterCtrlChars(v.text, true)));
    } else if kind.value == FlagKind && v.VFlag? {
      PutOnce(list, key, Flag(v.flag));
    } else {
      assert OverridesSet(ctx, list, key, v).0 == RemoveOverride(list, key);
      RemovedMember(list, key);
    }
  }

  lemma MemberIsSet(ctx: Context, list: seq<Override>, key: string, v: Variant)
    ensures OverridesSet(ctx, list, key, v).1 <==> OverrideSet(ctx.schema, OverrideMembers(list), key, v).1
  {
  }

  // ---------------------------------------------------------------- one call

  /** What the machine asks of a configuration: it is orderly and its tags have been filtered. */
  ghost predicate Readable(ctx: Context, p: Profile) {
    Orderly(ctx, p) && FilterAll(p.tags) == p.tags
  }

  lemma CallerIs(ctx: Context, p: Profile, caller: Option<Uid>)
    ensures var rec := ExportRecord(ctx, p);
      && (IsOwner(rec, caller) <==> caller == Some(p.owner))
      && (IsListed(rec, caller) <==> caller.Some? && caller.value in p.acl)
      && (On(rec.publicAccess) <==> p.publicAccess) && (On(rec.lockedDown) <==> p.lockedDown)
      && (On(rec.readonly) <==> p.readonly) && (On(rec.singleUse) <==> p.singleUse)
  {
    AclItems(ctx, p);
    if caller.Some? {
      UidIsListed(p.acl, caller.value);
    }
  }

  lemma WhoMaySet(ctx: Context, p: Profile, vpnUser: Uid, caller: Option<Uid>, call: Call)
    requires IsPropertySet(call)
    ensures Authorized(p, vpnUser, caller, call) <==> MayCall(ExportRecord(ctx, p), vpnUser, caller, call)
  {
    CallerIs(ctx, p, caller);
  }

  lemma WhoMayWrite(ctx: Context, p: Profile, vpnUser: Uid, caller: Option<Uid>, call: Call)
    requires IsWriteMethod(call)
    ensures Authorized(p, vpnUser, caller, call) <==> MayCall(ExportRecord(ctx, p), vpnUser, caller, call)
  {
    CallerIs(ctx, p, caller);
  }

  lemma WhoMayRead(ctx: Context, p: Profile, vpnUser: Uid, caller: Option<Uid>, call: Call)
    requires !IsPropertySet(call) && !IsWriteMethod(call)
    ensures Authorized(p, vpnUser, caller, call) <==> MayCall(ExportRecord(ctx, p), vpnUser, caller, call)
  {
    CallerIs(ctx, p, caller);
  }

  /** Authorisation is decided by the record. */
  lemma WhoMayCall(ctx: Context, p: Profile, vpnUser: Uid, caller: Option<Uid>, call: Call)
    ensures Authorized(p, vpnUser, caller, call) <==> MayCall(ExportRecord(ctx, p), vpnUser, caller, call)
  {
    if IsPropertySet(call) {
      WhoMaySet(ctx, p, vpnUser, caller, call);
    } else if IsWriteMethod(call) {
      WhoMayWrite(ctx, p, vpnUser, caller, call);
    } else {
      WhoMayRead(ctx, p, vpnUser, caller, call);
    }
  }

  lemma WhoMayTakeOver(ctx: Context, p: Profile, caller: Option<Uid>)
    ensures MayAccess(p.acl, p.publicAccess, caller, [p.owner, 0], false) <==> MayTakeOver(ExportRecord(ctx, p), caller)
  {
    CallerIs(ctx, p, caller);
  }

  lemma WhatRemoves(ctx: Context, p: Profile, call: Call)
    ensures RemovesObject(p, call) <==> Removes(ExportRecord(ctx, p), call)
  {
    CallerIs(ctx, p, None);
  }

  lemma TagItems(ctx: Context, p: Profile)
    requires FilterAll(p.tags) == p.tags
    ensures Items(ExportRecord(ctx, p).tags) == Strings(p.tags).items
  {
  }

  lemma TagAdded(ctx: Context, p: Profile, raw: string)
    requires FilterAll(p.tags) == p.tags
    ensures var d := AddedTag(p, raw);
      (ExportRecord(ctx, d.p), d.ok) == RecordAfter(ctx.schema, ExportRecord(ctx, p), AddTag(raw))
  {
    var tag := FilterCtrlChars(raw, true);
    TagItems(ctx, p);
    TagIsListed(p.tags, tag);
    FilteredAppend(p.tags, raw);
    TagsMember(ctx, p, p.tags + [tag]);
    assert Strings(p.tags + [tag]).items == Strings(p.tags).items + [JString(tag)];
  }

  lemma TagRemoved(ctx: Context, p: Profile, tag: string)
    requires FilterAll(p.tags) == p.tags
    ensures var d := RemovedTag(p, tag);
      (ExportRecord(ctx, d.p), d.ok) == RecordAfter(ctx.schema, ExportRecord(ctx, p), RemoveTag(tag))
  {
    TagItems(ctx, p);
    TagIsListed(p.tags, tag);
    TagErased(p.tags, tag);
    FilteredErase(p.tags, tag);
    TagsMember(ctx, p, EraseFirst(p.tags, tag));
  }

  lemma OverrideItems(ctx: Context, p: Profile)
    ensures Members(ExportRecord(ctx, p).overrides) == OverrideMembers(p.overrides)
    ensures ExportRecord(ctx, p).overrides == ObjectMember(OverrideMembers(p.overrides))
  {
    NoMembers(p.overrides);
  }

  lemma OverrideIsSet(ctx: Context, p: Profile, name: string, v: Variant)
    requires UniqueKeys(p.overrides)
    ensures var d := SetOverrideDone(ctx, p, name, v);
      (ExportRecord(ctx, d.p), d.ok) == RecordAfter(ctx.schema, ExportRecord(ctx, p), SetOverride(name, v))
  {
    var key := FilterCtrlChars(name, true);
    OverrideItems(ctx, p);
    MemberSet(ctx, p.overrides, key, v);
    MemberIsSet(ctx, p.overrides, key, v);
    OverridesMember(ctx, p, OverridesSet(ctx, p.overrides, key, v).0);
  }

  lemma OverrideIsUnset(ctx: Context, p: Profile, name: string)
    requires UniqueKeys(p.overrides)
    ensures var d := UnsetOverrideDone(p, name);
      (ExportRecord(ctx, d.p), d.ok) == RecordAfter(ctx.schema, ExportRecord(ctx, p), UnsetOverride(name))
  {
    var key, members := FilterCtrlChars(name, true), OverrideMembers(p.overrides);
    OverrideItems(ctx, p);
    MemberOfUnique(p.overrides, key);
    RemovedMember(p.overrides, key);
    OverridesMember(ctx, p, RemoveOverride(p.overrides, key));
    assert key !in members ==> members - {key} == members;
  }

  lemma AclItems(ctx: Context, p: Profile)
    ensures Items(ExportRecord(ctx, p).acl) == UidItems(p.acl).items
    ensures ExportRecord(ctx, p).acl == ListMember(UidItems(p.acl).items)
  {
  }

  lemma AccessGranted(ctx: Context, p: Profile, uid: Uid)
    ensures var d := GrantDone(p, uid);
      (ExportRecord(ctx, d.p), d.ok) == RecordAfter(ctx.schema, ExportRecord(ctx, p), AccessGrant(uid))
  {
    AclItems(ctx, p);
    UidIsListed(p.acl, uid);
    AclMember(ctx, p, p.acl + [uid]);
    assert UidItems(p.acl + [uid]).items == UidItems(p.acl).items + [JInt(uid)];
  }

  lemma AccessRevoked(ctx: Context, p: Profile, uid: Uid)
    requires NoDuplicates(p.acl)
    ensures var d := RevokeDone(p, uid);
      (ExportRecord(ctx, d.p), d.ok) == RecordAfter(ctx.schema, ExportRecord(ctx, p), AccessRevoke(uid))
  {
    AclItems(ctx, p);
    UidIsListed(p.acl, uid);
    UidErased(p.acl, uid);
    if uid in p.acl {
      RevokeIsExact(p.acl, uid);
      EraseFirstIsKeep(p.acl, uid);
      AclMember(ctx, p, EraseFirst(p.acl, uid));
    }
  }

  lemma PropertyIsSet(ctx: Context, p: Profile, call: Call)
    requires IsPropertySet(call)
    ensures var d := PropertyDone(p, call);
      (ExportRecord(ctx, d.p), d.ok) == RecordAfter(ctx.schema, ExportRecord(ctx, p), call)
  {
  }

  lemma WriteOnRecord(ctx: Context, p: Profile, call: Call)
    requires Readable(ctx, p) && IsWriteMethod(call)
    ensures var d := WriteDone(ctx, p, call);
      (ExportRecord(ctx, d.p), d.ok) == RecordAfter(ctx.schema, ExportRecord(ctx, p), call)
  {
    match call
    case AddTag(raw) => TagAdded(ctx, p, raw);
    case RemoveTag(tag) => TagRemoved(ctx, p, tag);
    case SetOverride(name, v) => OverrideIsSet(ctx, p, name, v);
    case UnsetOverride(name) => OverrideIsUnset(ctx, p, name);
    case AccessGrant(uid) => AccessGranted(ctx, p, uid);
    case AccessRevoke(uid) => AccessRevoked(ctx, p, uid);
    case _ =>
  }

  lemma ValidatedOnRecord(ctx: Context, p: Profile)
    requires p.valid == ValidProfile(p.options)
    ensures var d := ValidateDone(p);
      (ExportRecord(ctx, d.p), d.ok) == RecordAfter(ctx.schema, ExportRecord(ctx, p), Validate)
  {
    assert ValidateDone(p).p == p;
  }

  lemma SealedOnRecord(ctx: Context, p: Profile)
    ensures var d := SealDone(p);
      (ExportRecord(ctx, d.p), d.ok) == RecordAfter(ctx.schema, ExportRecord(ctx, p), Seal)
  {
  }

  lemma FetchedOnRecord(ctx: Context, p: Profile, backendClient: bool, now: U64)
    ensures var d := FetchDone(p, backendClient, now);
      (ExportRecord(ctx, d.p), d.ok) == RecordAfter(ctx.schema, ExportRecord(ctx, p), Fetch(backendClient, now))
  {
  }

  lemma OtherOnRecord(ctx: Context, p: Profile, call: Call)
    requires Readable(ctx, p) && !IsPropertySet(call) && !IsWriteMethod(call)
    ensures var d := CallDone(ctx, p, call);
      (ExportRecord(ctx, d.p), d.ok) == RecordAfter(ctx.schema, ExportRecord(ctx, p), call)
  {
    if call.Validate? {
      ValidatedOnRecord(ctx, p);
    } else if call.Seal? {
      SealedOnRecord(ctx, p);
    } else if call.Fetch? {
      FetchedOnRecord(ctx, p, call.backendClient, call.now);
    }
  }

  /** Every call does to the record of a configuration what the machine says, and ends as it says. */
  lemma CallOnRecord(ctx: Context, p: Profile, call: Call)
    requires Readable(ctx, p)
    ensures var d := CallDone(ctx, p, call);
      (ExportRecord(ctx, d.p), d.ok) == RecordAfter(ctx.schema, ExportRecord(ctx, p), call)
  {
    if IsPropertySet(call) {
      PropertyIsSet(ctx, p, call);
    } else if IsWriteMethod(call) {
      WriteOnRecord(ctx, p, call);
    } else {
      OtherOnRecord(ctx, p, call);
    }
  }

  // ---------------------------------------------------------------- over every run

  /** What the machine needs of a state; every run keeps it, whatever the file holds. */
  ghost predicate Legible(ctx: Context, w: World) {
    w.Live? ==> Readable(ctx, w.p) && (w.p.stored <==> w.disk.Some?)
  }

  lemma LoadedTags(ctx: Context, rec: Record, order: seq<string>, ovOrder: seq<string>)
    ensures LoadRecord(ctx, rec, order, ovOrder).Ok? ==>
      FilterAll(LoadRecord(ctx, rec, order, ovOrder).value.tags) == LoadRecord(ctx, rec, order, ovOrder).value.tags
  {
    if AllAsStrings(Items(rec.tags)).Ok? {
      FilterAllTwice(AllAsStrings(Items(rec.tags)).value);
    }
  }

  lemma CallKeepsTags(ctx: Context, p: Profile, call: Call)
    requires FilterAll(p.tags) == p.tags
    ensures FilterAll(CallDone(ctx, p, call).p.tags) == CallDone(ctx, p, call).p.tags
  {
    if call.AddTag? {
      FilteredAppend(p.tags, call.tag);
    } else if call.RemoveTag? {
      FilteredErase(p.tags, call.tag);
    }
  }

  lemma StepKeepsLegible(ctx: Context, vpnUser: Uid, w: World, ev: Event)
    requires Legible(ctx, w) && Feasible(w, ev)
    ensures Legible(ctx, Step(ctx, vpnUser, w, ev))
  {
    StepKeepsOrderly(ctx, vpnUser, w, ev);
    if ev.Restart? {
      if w.disk.Some? {
        LoadedTags(ctx, w.disk.value, ev.order, ev.ovOrder);
      }
    } else if ev.Invoke? && w.Live? {
      CallKeepsTags(ctx, w.p, ev.call);
    }
  }

  /** A reload changes nothing in the record but the validity, which it computes anew. */
  lemma RecordOfReload(ctx: Context, p: Profile, order: seq<string>, ovOrder: seq<string>)
    requires Laws(ctx) && Sound(ctx, p) && Visits(ExportRecord(ctx, p), order, ovOrder)
    ensures ExportRecord(ctx, Reloaded(ctx, p, order, ovOrder)) == Reread(ctx, ExportRecord(ctx, p), order)
  {
    ReloadOfExport(ctx, p, order, ovOrder);
    ListsOfExport(ctx, p);
    OverridesOfReload(ctx, p.overrides, ovOrder);
    RoundTrip(ctx.syntax, p.options, order);
    ExportIsStable(ctx.syntax, p.options, order);
    FilterIsProjection(p.name);
    FilterAllTwice(p.tags);
  }

  lemma RestartOnRecords(ctx: Context, vpnUser: Uid, w: World, order: seq<string>, ovOrder: seq<string>)
    requires Laws(ctx) && SoundWorld(ctx, w) && Feasible(w, Restart(order, ovOrder))
    ensures BooksOf(ctx, Restarted(ctx, w.disk, order, ovOrder)) ==
            BooksAfter(ctx, vpnUser, BooksOf(ctx, w), Restart(order, ovOrder))
  {
    if w.disk.Some? {
      var q :| SavedFrom(ctx, w.disk.value, q);
      RestartFromSaved(ctx, q, order, ovOrder);
      RecordOfReload(ctx, q, order, ovOrder);
    }
  }

  lemma TransferOnRecords(ctx: Context, vpnUser: Uid, w: World, caller: Option<Uid>, newOwner: Uid)
    requires Legible(ctx, w) && w.Live?
    ensures BooksOf(ctx, Step(ctx, vpnUser, w, Transfer(caller, newOwner))) ==
            BooksAfter(ctx, vpnUser, BooksOf(ctx, w), Transfer(caller, newOwner))
  {
    WhoMayTakeOver(ctx, w.p, caller);
    assert ExportRecord(ctx, w.p.(owner := newOwner)) == ExportRecord(ctx, w.p).(owner := JInt(newOwner));
  }

  lemma InvokeOnRecords(ctx: Context, vpnUser: Uid, w: World, caller: Option<Uid>, call: Call)
    requires Legible(ctx, w) && w.Live?
    ensures BooksOf(ctx, Step(ctx, vpnUser, w, Invoke(caller, call))) ==
            BooksAfter(ctx, vpnUser, BooksOf(ctx, w), Invoke(caller, call))
  {
    WhoMayCall(ctx, w.p, vpnUser, caller, call);
    WhatRemoves(ctx, w.p, call);
    CallOnRecord(ctx, w.p, call);
  }

  lemma StepOnRecords(ctx: Context, vpnUser: Uid, w: World, ev: Event)
    requires Legible(ctx, w) && Feasible(w, ev) && !ev.Restart?
    ensures BooksOf(ctx, Step(ctx, vpnUser, w, ev)) == BooksAfter(ctx, vpnUser, BooksOf(ctx, w), ev)
  {
    if w.Live? {
      if ev.Invoke? {
        InvokeOnRecords(ctx, vpnUser, w, ev.caller, ev.call);
      } else {
        TransferOnRecords(ctx, vpnUser, w, ev.caller, ev.newOwner);
      }
    }
  }

  lemma {:induction false} RunIsLegible(ctx: Context, vpnUser: Uid, ws: seq<World>, evs: seq<Event>, i: nat)
    requires IsRun(ctx, vpnUser, ws, evs) && Legible(ctx, ws[0]) && i <= |evs|
    ensures Legible(ctx, ws[i])
  {
    if i > 0 {
      RunIsLegible(ctx, vpnUser, ws, evs, i - 1);
      assert Follows(ctx, vpnUser, ws, evs, i - 1);
      StepKeepsLegible(ctx, vpnUser, ws[i - 1], evs[i - 1]);
    }
  }

  /**
   * In every run, with any profile and any file, the exported record and the file move with each call and transfer
   * exactly as the machine on records says: it decides who may call, replaces the member the call names and drops
   * what a removal drops.
   */
  lemma CallsOnRecords(ctx: Context, vpnUser: Uid, ws: seq<World>, evs: seq<Event>, i: nat)
    requires IsRun(ctx, vpnUser, ws, evs) && Legible(ctx, ws[0]) && i < |evs| && !evs[i].Restart?
    ensures BooksOf(ctx, ws[i + 1]) == BooksAfter(ctx, vpnUser, BooksOf(ctx, ws[i]), evs[i])
  {
    RunIsLegible(ctx, vpnUser, ws, evs, i);
    assert Follows(ctx, vpnUser, ws, evs, i);
    StepOnRecords(ctx, vpnUser, ws[i], evs[i]);
  }

  /** So they do with each restart, which rereads the file, as long as only this program has written it. */
  lemma RunOnRecords(ctx: Context, vpnUser: Uid, ws: seq<World>, evs: seq<Event>, i: nat)
    requires Laws(ctx) && IsRun(ctx, vpnUser, ws, evs) && i < |evs|
    requires SoundWorld(ctx, ws[0]) && Legible(ctx, ws[0])
    ensures BooksOf(ctx, ws[i + 1]) == BooksAfter(ctx, vpnUser, BooksOf(ctx, ws[i]), evs[i])
  {
    if evs[i].Restart? {
      RunIsSound(ctx, vpnUser, ws, evs, i);
      assert Follows(ctx, vpnUser, ws, evs, i);
      RestartOnRecords(ctx, vpnUser, ws[i], evs[i].order, evs[i].ovOrder);
    } else {
      CallsOnRecords(ctx, vpnUser, ws, evs, i);
    }
  }

  /** Where a run starts: the record of a profile that has just been imported. */
  lemma ImportedRecord(ctx: Context, path: string, name: string, options: seq<Opt>, singleUse: bool, stored: bool,
                       owner: Uid, now: U64)
    ensures var p := NewProfile(path, name, options, singleUse, stored, owner, now);
      var rec := Record(
        JString(path), JInt(owner), JString(FilterCtrlChars(name, true)), JNull, JInt(now), JInt(0), JBool(false),
        JBool(false), JBool(false), JBool(singleUse), JInt(0), JBool(ValidProfile(options)),
        Exported(ctx.syntax, options), JBool(false), JBool(false), JNull, JNull);
      && BooksOf(ctx, Live(p, Written(ctx, p, None))) == Books(Some(rec), if stored then Some(rec) else None)
      && Legible(ctx, Live(p, Written(ctx, p, None)))
  {
    var p := NewProfile(path, name, options, singleUse, stored, owner, now);
    FilterIsProjection(name);
    NewProfileIsSound(ctx, p);
    assert FilterAll([]) == [];
  }
}
