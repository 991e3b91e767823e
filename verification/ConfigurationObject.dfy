/** The configuration object itself (src/configmgr/configmgr-configuration.cpp). */
module ConfigurationObject {
  import opened Outcomes
  import opened Json
  import opened OptionJson
  import opened ProfileCheck
  import opened TextFilter
  import opened Overrides
  import opened AccessControl
  import opened ConfigProfile
  import opened ConfigRuns
  import opened Lists

  /** How a method call or property change ends. */
  datatype Reply = Denied | Threw | Returned

  class Configuration {
    const ctx: Context
    const path: string
    const acl: Acl
    const options: OptionListJson
    const importTimestamp: U64
    const singleUse: bool
    const stored: bool          // the persistent file name is not empty
    var name: string
    var tags: seq<string>
    var lastUsedTimestamp: U64
    var lockedDown: bool
    var transferOwnerSession: bool
    var readonly: bool
    var usedCount: U32
    var valid: bool
    var dco: bool
    var overrideList: seq<Override>
    var disk: Option<Record>    // content of the persistent file
    var removed: bool

    /** The state as a value. */
    function Value(): Profile
      reads this, acl, options
    {
      Profile(path, acl.owner, name, tags, importTimestamp, lastUsedTimestamp, lockedDown, transferOwnerSession,
              readonly, singleUse, usedCount, valid, options.options, dco, acl.publicAccess, acl.accessList,
              overrideList, stored)
    }

    function State(): World
      reads this, acl, options
    {
      if removed then Gone(disk) else Live(Value(), disk)
    }

    /** The option list uses the syntax of the configuration manager. */
    ghost predicate Wired()
      reads this
    {
      ctx.syntax == options.syntax
    }

    /** What every call keeps, whatever file the configuration was loaded from: it is orderly. */
    ghost predicate Valid()
      reads this, acl, options
    {
      && Wired()
      && NoDuplicates(acl.accessList) && Tidy(ctx, overrideList) && valid == ValidProfile(options.options)
    }

    /** A freshly imported profile. */
    constructor Import(ctx: Context, path: string, name: string, options: OptionListJson, singleUse: bool,
                       stored: bool, owner: Uid, now: U64)
      requires ctx.syntax == options.syntax
      ensures Valid() && !removed && this.options == options && this.ctx == ctx
      ensures Value() == NewProfile(path, name, options.options, singleUse, stored, owner, now)
      ensures State() == Live(Value(), Written(ctx, Value(), None))
    {
      this.ctx, this.path, this.options := ctx, path, options;
      this.name := FilterCtrlChars(name, true);
      this.importTimestamp, this.singleUse, this.stored := now, singleUse, stored;
      tags, overrideList := [], [];
      lastUsedTimestamp, usedCount := 0, 0;
      lockedDown, transferOwnerSession, readonly, dco, valid, removed := false, false, false, false, false, false;
      disk := None;
      acl := new Acl(owner);
      new;
      var verdict := ValidateProfile(options.options);
      valid := verdict.Accepted?;
      assert Value() == NewProfile(path, name, options.options, singleUse, stored, owner, now);
      UpdatePersistentFile();
    }

    /** Fields of a reloaded profile that come straight from its record. */
    constructor FromScalars(ctx: Context, acl: Acl, options: OptionListJson, path: string, name: string,
                            n: NumberMembers, f: FlagMembers, rec: Record)
      requires ctx.syntax == options.syntax
      ensures Wired() && !removed && this.options == options && this.acl == acl && this.ctx == ctx
      ensures this.path == path && this.name == name && stored && disk == Some(rec)
      ensures importTimestamp == n.importTimestamp && lastUsedTimestamp == n.lastUsedTimestamp
      ensures usedCount == n.usedCount
      ensures FlagMembers(lockedDown, transferOwnerSession, readonly, singleUse, dco, valid, f.publicAccess) == f
      ensures tags == [] && overrideList == []
    {
      this.ctx, this.acl, this.options, this.path, this.name := ctx, acl, options, path, name;
      importTimestamp, lastUsedTimestamp, usedCount := n.importTimestamp, n.lastUsedTimestamp, n.usedCount;
      lockedDown, transferOwnerSession, readonly := f.lockedDown, f.transferOwnerSession, f.readonly;
      singleUse, dco, valid := f.singleUse, f.dco, f.valid;
      tags, overrideList, stored, disk, removed := [], [], true, Some(rec), false;
    }

    // -------------------------------------------------------------- export

    method ExportOverrides() returns (members: map<string, Json>)
      ensures members == OverrideMembers(overrideList)
    {
      members := map[];
      for i := 0 to |overrideList|
        invariant members == OverrideMembers(overrideList[..i])
      {
        var ov := overrideList[i];
        assert overrideList[..i + 1][..i] == overrideList[..i];
        members := members[ov.key := if ov.value.Flag? then JBool(ov.value.flag) else JString(ov.value.text)];
      }
      assert overrideList[..|overrideList|] == overrideList;
    }

    method ExportTags() returns (j: Json)
      ensures j == if tags == [] then JNull else Strings(FilterAll(tags))
    {
      j := JNull;
      for i := 0 to |tags|
        invariant j == if i == 0 then JNull else Strings(FilterAll(tags[..i]))
      {
        j := JArray(Items(j) + [JString(FilterCtrlChars(tags[i], true))]);
        assert j.items == Strings(FilterAll(tags[..i + 1])).items;
      }
      assert tags[..|tags|] == tags;
    }

    method ExportAcl() returns (j: Json)
      ensures j == if acl.accessList == [] then JNull else UidItems(acl.accessList)
    {
      j := JNull;
      var list := acl.accessList;
      for i := 0 to |list|
        invariant j == if i == 0 then JNull else UidItems(list[..i])
      {
        j := JArray(Items(j) + [JInt(list[i])]);
        assert j.items == UidItems(list[..i + 1]).items;
      }
      assert list[..|list|] == list;
    }

    method Export() returns (rec: Record)
      requires Wired()
      ensures rec == ExportRecord(ctx, Value())
    {
      var profile := options.JsonExport();
      var tagItems := ExportTags();
      var aclItems := ExportAcl();
      var overrides := ExportOverrides();
      rec := Record(
        JString(path), JInt(acl.owner), JString(FilterCtrlChars(name, true)), tagItems, JInt(importTimestamp),
        JInt(lastUsedTimestamp), JBool(lockedDown), JBool(transferOwnerSession), JBool(readonly), JBool(singleUse),
        JInt(usedCount), JBool(valid), profile, JBool(dco), JBool(acl.publicAccess), aclItems,
        if overrideList == [] then JNull else JObject(overrides));
    }

    method UpdatePersistentFile()
      requires Wired()
      modifies this`disk
      ensures disk == Written(ctx, Value(), old(disk))
    {
      if stored {
        var rec := Export();
        disk := Some(rec);
      }
    }

    // -------------------------------------------------------------- tags

    /** The position of a tag, or the number of tags. */
    method CheckForTag(tag: string) returns (at: nat)
      ensures at == IndexIn(tags, tag)
    {
      at := 0;
      while at < |tags| && tags[at] != tag
        invariant at <= |tags| && forall j :: 0 <= j < at ==> tags[j] != tag
      {
        at := at + 1;
      }
    }

    method AddTag(raw: string) returns (ok: bool)
      requires Valid() && !removed
      modifies this`tags, this`disk
      ensures Valid()
      ensures Done(Value(), ok) == AddedTag(old(Value()), raw)
      ensures disk == if ok then Written(ctx, Value(), old(disk)) else old(disk)
    {
      var tag := FilterCtrlChars(raw, true);
      if tag == [] || |tag| > 128 {
        return false;
      }
      var at := CheckForTag(tag);
      if at < |tags| {
        return false;
      }
      assert tags[..|tags|] == tags;
      tags := tags + [tag];
      UpdatePersistentFile();
      ok := true;
    }

    method RemoveTag(tag: string) returns (ok: bool)
      requires Valid() && !removed
      modifies this`tags, this`disk
      ensures Valid()
      ensures Done(Value(), ok) == RemovedTag(old(Value()), tag)
      ensures disk == if ok then Written(ctx, Value(), old(disk)) else old(disk)
    {
      var at := CheckForTag(tag);
      assert tags[..|tags|] == tags;
      if tag == [] || |tag| > 128 || at == |tags| {
        return false;
      }
      tags := tags[..at] + tags[at + 1..];
      UpdatePersistentFile();
      ok := true;
    }

    // -------------------------------------------------------------- overrides

    /** The private `remove_override`. */
    method RemoveOverrideKey(key: string) returns (found: bool)
      modifies this`overrideList
      ensures overrideList == RemoveOverride(old(overrideList), key)
      ensures found <==> HasOverride(old(overrideList), key)
    {
      var i := 0;
      while i < |overrideList|
        invariant i <= |overrideList| && overrideList == old(overrideList)
        invariant forall j :: 0 <= j < i ==> overrideList[j].key != key
      {
        if overrideList[i].key == key {
          assert IndexOf(overrideList, key) == i;
          overrideList := overrideList[..i] + overrideList[i + 1..];
          return true;
        }
        i := i + 1;
      }
      found := false;
    }

    /** The `set_override` template: the caller has checked the type of the value, or nobody has. */
    method PutOverrideValue(key: string, v: Value) returns (ok: bool)
      modifies this`overrideList
      ensures ok <==> ctx.schema(key).Some?
      ensures overrideList == if ok then PutOverride(old(overrideList), key, v) else old(overrideList)
    {
      if ctx.schema(key).None? {
        return false;
      }
      var _ := RemoveOverrideKey(key);
      overrideList := overrideList + [Override(key, v)];
      ok := true;
    }

    method SetOverrideVariant(key: string, v: Variant) returns (ok: bool)
      requires Tidy(ctx, overrideList)
      modifies this`overrideList
      ensures (overrideList, ok) == OverridesSet(ctx, old(overrideList), key, v) && Tidy(ctx, overrideList)
    {
      SetKeepsTidy(ctx, overrideList, key, v);
      var kind := ctx.schema(key);
      if kind.None? {
        return false;
      }
      var _ := RemoveOverrideKey(key);
      match v {
        case VText(s) =>
          if kind.value != TextKind {
            return false;
          }
          ok := PutOverrideValue(key, Text(FilterCtrlChars(s, true)));
        case VFlag(b) =>
          if kind.value != FlagKind {
            return false;
          }
          ok := PutOverrideValue(key, Flag(b));
        case VOther =>
          ok := false;
      }
    }

    method SetOverrideMethod(rawKey: string, v: Variant) returns (ok: bool)
      requires Valid() && !removed
      modifies this`overrideList, this`disk
      ensures Valid()
      ensures (overrideList, ok) == OverridesSet(ctx, old(overrideList), FilterCtrlChars(rawKey, true), v)
      ensures disk == if ok then Written(ctx, Value(), old(disk)) else old(disk)
    {
      ok := SetOverrideVariant(FilterCtrlChars(rawKey, true), v);
      if ok {
        UpdatePersistentFile();
      }
    }

    method UnsetOverrideMethod(rawKey: string) returns (ok: bool)
      requires Valid() && !removed
      modifies this`overrideList, this`disk
      ensures Valid()
      ensures Done(Value(), ok) == UnsetOverrideDone(old(Value()), rawKey)
      ensures disk == if ok then Written(ctx, Value(), old(disk)) else old(disk)
    {
      RemoveKeepsTidy(ctx, overrideList, FilterCtrlChars(rawKey, true));
      ok := RemoveOverrideKey(FilterCtrlChars(rawKey, true));
      if ok {
        UpdatePersistentFile();
      } else {
        assert IndexOf(old(overrideList), FilterCtrlChars(rawKey, true)) == |old(overrideList)|;
      }
    }

    // -------------------------------------------------------------- access, seal, validation, fetch

    method AccessGrantMethod(uid: Uid) returns (ok: bool)
      requires Valid() && !removed
      modifies acl`accessList, this`disk
      ensures Valid()
      ensures Done(Value(), ok) == GrantDone(old(Value()), uid)
      ensures disk == if ok then Written(ctx, Value(), old(disk)) else old(disk)
    {
      ok := acl.GrantAccess(uid);
      if ok {
        UpdatePersistentFile();
      }
    }

    method AccessRevokeMethod(uid: Uid) returns (ok: bool)
      requires Valid() && !removed
      modifies acl`accessList, this`disk
      ensures Valid()
      ensures Done(Value(), ok) == RevokeDone(old(Value()), uid)
      ensures disk == if ok then Written(ctx, Value(), old(disk)) else old(disk)
    {
      if uid in acl.accessList {
        RevokeIsExact(acl.accessList, uid);
      }
      ok := acl.RevokeAccess(uid);
      if ok {
        UpdatePersistentFile();
      }
    }

    method SealMethod() returns (ok: bool)
      requires Valid() && !removed
      modifies this`readonly, this`disk
      ensures Valid()
      ensures Done(Value(), ok) == SealDone(old(Value()))
      ensures disk == if ok then Written(ctx, Value(), old(disk)) else old(disk)
    {
      if !valid {
        return false;
      }
      readonly := true;
      UpdatePersistentFile();
      ok := true;
    }

    method ValidateMethod() returns (ok: bool)
      requires Wired() && !removed
      modifies this`valid
      ensures valid == ValidProfile(options.options)
      ensures Done(Value(), ok) == ValidateDone(old(Value()))
    {
      var verdict := ValidateProfile(options.options);
      valid := verdict.Accepted?;
      ok := valid;
    }

    method RemoveMethod()
      requires Valid() && !removed
      modifies this`removed, this`disk
      ensures Valid()
      ensures State() == Gone(if stored then None else old(disk))
    {
      removed := true;
      if stored {
        disk := None;
      }
    }

    method FetchMethod(backendClient: bool, now: U64)
      requires Valid() && !removed
      modifies this`removed, this`disk, this`usedCount, this`lastUsedTimestamp
      ensures Valid()
      ensures (State(), true) == Perform(ctx, old(Value()), old(disk), Fetch(backendClient, now))
    {
      PerformFetch(ctx, Value(), disk, backendClient, now);
      if !backendClient {
        return;
      }
      if singleUse {
        RemoveMethod();
        return;
      }
      usedCount := (usedCount + 1) % 0x1_0000_0000;
      lastUsedTimestamp := now;
      UpdatePersistentFile();
    }

    method SetNameProperty(v: string)
      requires Valid() && !removed
      modifies this`name, this`disk
      ensures Valid()
      ensures Value() == PropertyDone(old(Value()), SetName(v)).p && disk == Written(ctx, Value(), old(disk))
    {
      name := v;
      UpdatePersistentFile();
    }

    method SetTransferProperty(v: bool)
      requires Valid() && !removed
      modifies this`transferOwnerSession, this`disk
      ensures Valid()
      ensures Value() == PropertyDone(old(Value()), SetTransferOwnerSession(v)).p
      ensures disk == Written(ctx, Value(), old(disk))
    {
      transferOwnerSession := v;
      UpdatePersistentFile();
    }

    method SetLockedDownProperty(v: bool)
      requires Valid() && !removed
      modifies this`lockedDown, this`disk
      ensures Valid()
      ensures Value() == PropertyDone(old(Value()), SetLockedDown(v)).p && disk == Written(ctx, Value(), old(disk))
    {
      lockedDown := v;
      UpdatePersistentFile();
    }

    method SetDcoProperty(v: bool)
      requires Valid() && !removed
      modifies this`dco, this`disk
      ensures Valid()
      ensures Value() == PropertyDone(old(Value()), SetDco(v)).p && disk == Written(ctx, Value(), old(disk))
    {
      dco := v;
      UpdatePersistentFile();
    }

    method SetPublicAccessProperty(v: bool)
      requires Valid() && !removed
      modifies acl`publicAccess, this`disk
      ensures Valid()
      ensures Value() == PropertyDone(old(Value()), SetPublicAccess(v)).p && disk == Written(ctx, Value(), old(disk))
    {
      acl.publicAccess := v;
      UpdatePersistentFile();
    }

    // -------------------------------------------------------------- authorisation and dispatch

    method Authorize(vpnUser: Uid, caller: Option<Uid>, call: Call) returns (granted: bool)
      ensures granted <==> Authorized(Value(), vpnUser, caller, call)
    {
      if IsPropertySet(call) {
        if readonly {
          return false;
        }
        if call.SetName? || call.SetLockedDown? || call.SetPublicAccess? {
          granted := acl.CheckOwnerAccess(caller);
        } else {
          granted := acl.CheckAcl(caller, [acl.owner], true);
        }
        return;
      }
      if IsWriteMethod(call) {
        granted := acl.CheckOwnerAccess(caller);
        return !readonly && granted;
      }
      if call.Fetch? || call.FetchJson? {
        if lockedDown {
          granted := acl.CheckOwnerAccess(caller);
          return granted || caller == Some(vpnUser);
        }
        granted := acl.CheckAcl(caller, [acl.owner, vpnUser], true);
        return;
      }
      if call.Seal? || call.Remove? {
        granted := acl.CheckOwnerAccess(caller);
        return;
      }
      granted := acl.CheckAcl(caller, [acl.owner], false);
    }

    method DispatchProperty(call: Call)
      requires Valid() && !removed && IsPropertySet(call)
      modifies this`name, this`transferOwnerSession, this`lockedDown, this`dco, acl`publicAccess, this`disk
      ensures Valid()
      ensures Value() == PropertyDone(old(Value()), call).p && disk == Written(ctx, Value(), old(disk))
    {
      match call {
        case SetName(v) => SetNameProperty(v);
        case SetTransferOwnerSession(v) => SetTransferProperty(v);
        case SetLockedDown(v) => SetLockedDownProperty(v);
        case SetDco(v) => SetDcoProperty(v);
        case SetPublicAccess(v) => SetPublicAccessProperty(v);
      }
    }

    method DispatchTag(call: Call) returns (ok: bool)
      requires Valid() && !removed && (call.AddTag? || call.RemoveTag?)
      modifies this`tags, this`disk
      ensures Valid()
      ensures Done(Value(), ok) == WriteDone(ctx, old(Value()), call)
      ensures disk == if ok then Written(ctx, Value(), old(disk)) else old(disk)
    {
      if call.AddTag? {
        ok := AddTag(call.tag);
      } else {
        ok := RemoveTag(call.tag);
      }
    }

    method DispatchOverride(call: Call) returns (ok: bool)
      requires Valid() && !removed && (call.SetOverride? || call.UnsetOverride?)
      modifies this`overrideList, this`disk
      ensures Valid()
      ensures Done(Value(), ok) == WriteDone(ctx, old(Value()), call)
      ensures disk == if ok then Written(ctx, Value(), old(disk)) else old(disk)
    {
      if call.SetOverride? {
        ok := SetOverrideMethod(call.name, call.value);
      } else {
        ok := UnsetOverrideMethod(call.name);
      }
    }

    method DispatchWrite(call: Call) returns (ok: bool)
      requires Valid() && !removed && IsWriteMethod(call)
      modifies this`tags, this`overrideList, acl`accessList, this`disk
      ensures Valid()
      ensures Done(Value(), ok) == WriteDone(ctx, old(Value()), call)
      ensures disk == if ok && WritesFile(call) then Written(ctx, Value(), old(disk)) else old(disk)
    {
      match call {
        case SetOption => ok := true;
        case AddTag(_) => ok := DispatchTag(call);
        case RemoveTag(_) => ok := DispatchTag(call);
        case SetOverride(_, _) => ok := DispatchOverride(call);
        case UnsetOverride(_) => ok := DispatchOverride(call);
        case AccessGrant(uid) => ok := AccessGrantMethod(uid);
        case AccessRevoke(uid) => ok := AccessRevokeMethod(uid);
      }
    }

    method Dispatch(call: Call) returns (ok: bool)
      requires Valid() && !removed
      modifies this, acl
      ensures Valid()
      ensures (State(), ok) == Perform(ctx, old(Value()), old(disk), call)
    {
      ok := true;
      if IsPropertySet(call) {
        PerformProperty(ctx, Value(), disk, call);
        DispatchProperty(call);
        return;
      }
      if IsWriteMethod(call) {
        PerformWrite(ctx, Value(), disk, call);
        ok := DispatchWrite(call);
        return;
      }
      ok := DispatchOther(call);
    }

    method DispatchOther(call: Call) returns (ok: bool)
      requires Valid() && !removed && !IsPropertySet(call) && !IsWriteMethod(call)
      modifies this
      ensures Valid()
      ensures (State(), ok) == Perform(ctx, old(Value()), old(disk), call)
    {
      ok := true;
      match call {
        case Validate => ok := ValidateMethod();
        case Fetch(backendClient, now) => FetchMethod(backendClient, now);
        case FetchJson =>
        case Seal => ok := SealMethod();
        case Remove => RemoveMethod();
      }
    }

    /** A D-Bus call: authorised first, then performed; exactly one step of a run. */
    method Handle(vpnUser: Uid, caller: Option<Uid>, call: Call) returns (r: Reply)
      requires Valid() && !removed
      modifies this, acl
      ensures Valid()
      ensures r == Denied <==> !Authorized(old(Value()), vpnUser, caller, call)
      ensures State() == Step(ctx, vpnUser, old(State()), Invoke(caller, call))
      ensures r != Denied ==> (r == Returned <==> Perform(ctx, old(Value()), old(disk), call).1)
    {
      var granted := Authorize(vpnUser, caller, call);
      if !granted {
        return Denied;
      }
      var ok := Dispatch(call);
      r := if ok then Returned else Threw;
    }

    method TransferOwnership(caller: Option<Uid>, newOwner: Uid) returns (found: bool)
      requires Valid() && !removed
      modifies this`disk, acl`owner
      ensures Valid()
      ensures State() == Step(ctx, 0, old(State()), Transfer(caller, newOwner))
      ensures !found ==> State() == old(State())
    {
      found := acl.CheckAcl(caller, [acl.owner, 0], false);
      if found {
        acl.owner := newOwner;
        UpdatePersistentFile();
      }
    }
  }

  // ---------------------------------------------------------------- reload

  /** Grants each persisted uid in turn. */
  method GrantAll(acl: Acl, items: seq<Json>) returns (ok: bool)
    requires acl.accessList == []
    modifies acl`accessList
    ensures ok <==> LoadAcl(items).Ok?
    ensures ok ==> acl.accessList == LoadAcl(items).value
  {
    for i := 0 to |items|
      invariant LoadAcl(items[..i]) == Ok(acl.accessList)
    {
      assert items[..i + 1][..i] == items[..i];
      var n := AsUInt(items[i], 0x1_0000_0000);
      ok := n.Ok?;
      if ok {
        ok := acl.GrantAccess(n.value);
      }
      if !ok {
        LoadAclStops(items, i + 1);
        return;
      }
    }
    assert items[..|items|] == items;
    ok := true;
  }

  lemma {:induction false} LoadAclStops(items: seq<Json>, n: nat)
    requires n <= |items| && LoadAcl(items[..n]).Err?
    ensures LoadAcl(items).Err?
    decreases |items| - n
  {
    if n == |items| {
      assert items[..n] == items;
    } else {
      assert items[..n + 1][..n] == items[..n];
      LoadAclStops(items, n + 1);
    }
  }

  lemma {:induction false} LoadOverridesStops(ctx: Context, members: map<string, Json>, order: seq<string>, n: nat)
    requires n <= |order| && LoadOverrides(ctx, members, order[..n]).Err?
    ensures LoadOverrides(ctx, members, order).Err?
    decreases |order| - n
  {
    if n == |order| {
      assert order[..n] == order;
    } else {
      assert order[..n + 1][..n] == order[..n];
      LoadOverridesStops(ctx, members, order, n + 1);
    }
  }

  /** One persisted override; an unknown key is reported and skipped. */
  method SetPersistedOne(config: Configuration, key: string, j: Json) returns (ok: bool)
    modifies config`overrideList
    ensures ok <==> LoadOverride(config.ctx, old(config.overrideList), key, j).Ok?
    ensures ok ==> config.overrideList == LoadOverride(config.ctx, old(config.overrideList), key, j).value
  {
    match j {
      case JBool(b) =>
        var _ := config.PutOverrideValue(key, Flag(b));
        return true;
      case JString(s) =>
        var _ := config.PutOverrideValue(key, Text(FilterCtrlChars(s, true)));
        return true;
      case _ =>
        return false;
    }
  }

  method SetPersisted(config: Configuration, members: map<string, Json>, order: seq<string>) returns (ok: bool)
    requires config.overrideList == []
    modifies config`overrideList
    ensures ok <==> LoadOverrides(config.ctx, members, order).Ok?
    ensures ok ==> config.overrideList == LoadOverrides(config.ctx, members, order).value
  {
    for i := 0 to |order|
      invariant LoadOverrides(config.ctx, members, order[..i]) == Ok(config.overrideList)
    {
      assert order[..i + 1][..i] == order[..i];
      ok := SetPersistedOne(config, order[i], At(members, order[i]));
      if !ok {
        LoadOverridesStops(config.ctx, members, order, i + 1);
        return;
      }
    }
    assert order[..|order|] == order;
    ok := true;
  }

  /** The members of the record that are lists or objects. */
  method LoadLists(config: Configuration, rec: Record, order: seq<string>, ovOrder: seq<string>) returns (ok: bool)
    requires Visits(rec, order, ovOrder)
    requires config.Wired() && config.acl.accessList == [] && config.overrideList == [] && config.options.options == []
    modifies config`tags, config`overrideList, config.acl`accessList, config.options
    ensures ok <==> LoadListMembers(config.ctx, rec, order, ovOrder).Ok?
    ensures ok ==>
      ListMembers(config.tags, config.acl.accessList, config.overrideList, config.options.options)
      == LoadListMembers(config.ctx, rec, order, ovOrder).value
  {
    var tags := LoadTags(Items(rec.tags));
    if tags.Err? || MemberNames(rec.overrides).Err? {
      return false;
    }
    config.tags := tags.value;
    ok := GrantAll(config.acl, Visited(config.ctx, rec.acl));
    if !ok {
      return;
    }
    ok := SetPersisted(config, Members(rec.overrides), ovOrder);
    if !ok {
      return;
    }
    var imported := config.options.JsonImport(rec.profile, order);
    ok := imported.Ok?;
  }

  /** The object for a record whose numbers, flags and texts could be read. */
  method Build(ctx: Context, rec: Record, path: string, name: string, n: NumberMembers, f: FlagMembers,
               order: seq<string>, ovOrder: seq<string>) returns (r: Option<Configuration>)
    requires Visits(rec, order, ovOrder)
    ensures var l := LoadListMembers(ctx, rec, order, ovOrder);
      && (r.Some? <==> l.Ok?)
      && (r.Some? ==>
            && fresh(r.value) && fresh(r.value.acl) && fresh(r.value.options)
            && r.value.Valid() && r.value.ctx == ctx
            && r.value.State() == Live(Assembled(path, name, n, f, l.value), Some(rec)))
  {
    var acl := new Acl(n.owner);
    acl.publicAccess := f.publicAccess;
    var options := new OptionListJson(ctx.syntax, []);
    var config := new Configuration.FromScalars(ctx, acl, options, path, FilterCtrlChars(name, true), n, f, rec);
    var ok := FillIn(config, rec, order, ovOrder);
    r := if ok then Some(config) else None;
  }

  /** Lists and objects of the record, then the validity of what came out. */
  method FillIn(config: Configuration, rec: Record, order: seq<string>, ovOrder: seq<string>) returns (ok: bool)
    requires Visits(rec, order, ovOrder) && !config.removed
    requires config.Wired() && config.acl.accessList == [] && config.overrideList == [] && config.options.options == []
    modifies config`tags, config`overrideList, config`valid, config.acl`accessList, config.options
    ensures ok <==> LoadListMembers(config.ctx, rec, order, ovOrder).Ok?
    ensures ok ==>
      var l := LoadListMembers(config.ctx, rec, order, ovOrder).value;
      && config.Valid()
      && config.Value() == old(config.Value()).(tags := l.tags, acl := l.acl, overrides := l.overrides,
                                                 options := l.options, valid := ValidProfile(l.options))
  {
    ok := LoadLists(config, rec, order, ovOrder);
    if ok {
      var _ := config.ValidateMethod();
      LoadedListsAreTidy(config.ctx, rec, order, ovOrder);
    }
  }

  lemma LoadedListsAreTidy(ctx: Context, rec: Record, order: seq<string>, ovOrder: seq<string>)
    requires LoadListMembers(ctx, rec, order, ovOrder).Ok?
    ensures var l := LoadListMembers(ctx, rec, order, ovOrder).value;
      NoDuplicates(l.acl) && Tidy(ctx, l.overrides)
  {
    LoadAclDistinct(Visited(ctx, rec.acl));
    LoadOverridesTidy(ctx, Members(rec.overrides), ovOrder);
  }

  /** Rebuilds a configuration from its persistent file. */
  method Load(ctx: Context, rec: Record, order: seq<string>, ovOrder: seq<string>) returns (r: Option<Configuration>)
    requires Visits(rec, order, ovOrder)
    ensures r.Some? <==> LoadRecord(ctx, rec, order, ovOrder).Ok?
    ensures r.Some? ==> fresh(r.value) && fresh(r.value.acl) && fresh(r.value.options)
    ensures r.Some? ==> r.value.Valid() && r.value.ctx == ctx
    ensures r.Some? ==> r.value.State() == Restarted(ctx, Some(rec), order, ovOrder)
  {
    var path, name, numbers, flags := AsString(rec.objectPath), AsString(rec.name), LoadNumbers(rec), LoadFlags(rec);
    if path.Err? || name.Err? || numbers.Err? || flags.Err? {
      return None;
    }
    r := Build(ctx, rec, path.value, name.value, numbers.value, flags.value, order, ovOrder);
  }
}
