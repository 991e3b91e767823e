/**
 * The life cycle of a configuration: authorised calls, property changes, ownership transfers and
 * restarts, and what holds over every run of them (src/configmgr/configmgr-configuration.cpp).
 */
module ConfigRuns {
  import opened Outcomes
  import opened Json
  import opened OptionJson
  import opened ProfileCheck
  import opened TextFilter
  import opened Overrides
  import opened AccessControl
  import opened Lists
  import opened ConfigProfile

  /** A D-Bus variant as `SetOverride` receives it. */
  datatype Variant = VText(text: string) | VFlag(flag: bool) | VOther

  /** D-Bus method calls and property changes of one configuration object. */
  datatype Call =
    | Validate
    | Fetch(backendClient: bool, now: U64)
    | FetchJson
    | SetOption
    | AddTag(tag: string)
    | RemoveTag(tag: string)
    | SetOverride(name: string, value: Variant)
    | UnsetOverride(name: string)
    | AccessGrant(uid: Uid)
    | AccessRevoke(uid: Uid)
    | Seal
    | Remove
    | SetName(name: string)
    | SetTransferOwnerSession(flag: bool)
    | SetLockedDown(flag: bool)
    | SetDco(flag: bool)
    | SetPublicAccess(flag: bool)

  predicate IsWriteMethod(call: Call) {
    call.AccessGrant? || call.AccessRevoke? || call.SetOption? || call.SetOverride? || call.UnsetOverride?
    || call.AddTag? || call.RemoveTag?
  }

  predicate IsPropertySet(call: Call) {
    call.SetName? || call.SetTransferOwnerSession? || call.SetLockedDown? || call.SetDco? || call.SetPublicAccess?
  }

  /** The authorisation of a caller, whose uid may be unknown; `vpnUser` is the service account. */
  predicate Authorized(p: Profile, vpnUser: Uid, caller: Option<Uid>, call: Call) {
    if IsPropertySet(call) then
      if p.readonly then false
      else if call.SetName? || call.SetLockedDown? || call.SetPublicAccess? then caller == Some(p.owner)
      else MayAccess(p.acl, p.publicAccess, caller, [p.owner], true)
    else if IsWriteMethod(call) then !p.readonly && caller == Some(p.owner)
    else if call.Fetch? || call.FetchJson? then
      if p.lockedDown then caller == Some(p.owner) || caller == Some(vpnUser)
      else MayAccess(p.acl, p.publicAccess, caller, [p.owner, vpnUser], true)
    else if call.Seal? || call.Remove? then caller == Some(p.owner)
    else MayAccess(p.acl, p.publicAccess, caller, [p.owner], false)
  }

  // ---------------------------------------------------------------- single calls

  /** The profile after a call and whether the call returned normally. */
  datatype Done = Done(p: Profile, ok: bool)

  function AddedTag(p: Profile, raw: string): (d: Done)
    ensures d.p == p.(tags := d.p.tags)
  {
    var tag := FilterCtrlChars(raw, true);
    if tag == [] || |tag| > 128 || tag in p.tags then Done(p, false)
    else Done(p.(tags := p.tags + [tag]), true)
  }

  function RemovedTag(p: Profile, tag: string): (d: Done)
    ensures d.p == p.(tags := d.p.tags)
  {
    if tag == [] || |tag| > 128 || tag !in p.tags then Done(p, false)
    else Done(p.(tags := EraseFirst(p.tags, tag)), true)
  }

  /**
   * The old value goes before the type of the new one is checked, and once more before the new one is
   * appended.
   */
  function OverridesSet(ctx: Context, list: seq<Override>, key: string, v: Variant): (seq<Override>, bool) {
    match ctx.schema(key)
    case None => (list, false)
    case Some(kind) =>
      match v
      case VText(s) =>
        if kind == TextKind then (PutOverride(RemoveOverride(list, key), key, Text(FilterCtrlChars(s, true))), true)
        else (RemoveOverride(list, key), false)
      case VFlag(b) =>
        if kind == FlagKind then (PutOverride(RemoveOverride(list, key), key, Flag(b)), true)
        else (RemoveOverride(list, key), false)
      case VOther => (RemoveOverride(list, key), false)
  }

  function SetOverrideDone(ctx: Context, p: Profile, rawKey: string, v: Variant): (d: Done)
    ensures d.p == p.(overrides := d.p.overrides)
  {
    var (list, ok) := OverridesSet(ctx, p.overrides, FilterCtrlChars(rawKey, true), v);
    Done(p.(overrides := list), ok)
  }

  predicate HasOverride(list: seq<Override>, key: string) {
    exists i :: 0 <= i < |list| && list[i].key == key
  }

  function UnsetOverrideDone(p: Profile, rawKey: string): (d: Done)
    ensures d.p == p.(overrides := d.p.overrides)
  {
    var key := FilterCtrlChars(rawKey, true);
    if HasOverride(p.overrides, key) then Done(p.(overrides := RemoveOverride(p.overrides, key)), true)
    else Done(p, false)
  }

  function GrantDone(p: Profile, uid: Uid): (d: Done)
    ensures d.p == p.(acl := d.p.acl)
  {
    if uid in p.acl then Done(p, false) else Done(p.(acl := p.acl + [uid]), true)
  }

  function RevokeDone(p: Profile, uid: Uid): (d: Done)
    ensures d.p == p.(acl := d.p.acl)
  {
    if uid !in p.acl then Done(p, false) else Done(p.(acl := Revoked(p.acl, uid)), true)
  }

  function SealDone(p: Profile): (d: Done)
    ensures d.p == p.(readonly := d.p.readonly)
  {
    if p.valid then Done(p.(readonly := true), true) else Done(p, false)
  }

  function ValidateDone(p: Profile): Done {
    Done(p.(valid := ValidProfile(p.options)), ValidProfile(p.options))
  }

  /** A fetch by a backend client is counted; the counter is 32 bits wide. */
  function FetchDone(p: Profile, backendClient: bool, now: U64): (d: Done)
    ensures d.ok && (!backendClient ==> d.p == p)
  {
    if backendClient then Done(p.(usedCount := (p.usedCount + 1) % 0x1_0000_0000, lastUsedTimestamp := now), true)
    else Done(p, true)
  }

  /** A changed property takes its value as it is; only the export filters the name. */
  function PropertyDone(p: Profile, call: Call): (d: Done)
    ensures d.ok && d.p.options == p.options && d.p.acl == p.acl && d.p.overrides == p.overrides
    ensures d.p.valid == p.valid && d.p.stored == p.stored && d.p.path == p.path && d.p.readonly == p.readonly
  {
    match call
    case SetName(name) => Done(p.(name := name), true)
    case SetTransferOwnerSession(b) => Done(p.(transferOwnerSession := b), true)
    case SetLockedDown(b) => Done(p.(lockedDown := b), true)
    case SetDco(b) => Done(p.(dco := b), true)
    case SetPublicAccess(b) => Done(p.(publicAccess := b), true)
    case _ => Done(p, true)
  }

  /** A write method. */
  function WriteDone(ctx: Context, p: Profile, call: Call): (d: Done)
    ensures !call.SetOverride? && !call.UnsetOverride? ==> d.p.overrides == p.overrides
    ensures d.p.options == p.options && d.p.name == p.name
    ensures d.p.valid == p.valid && d.p.stored == p.stored && d.p.path == p.path && d.p.readonly == p.readonly
  {
    match call
    case AddTag(tag) => AddedTag(p, tag)
    case RemoveTag(tag) => RemovedTag(p, tag)
    case SetOverride(name, v) => SetOverrideDone(ctx, p, name, v)
    case UnsetOverride(name) => UnsetOverrideDone(p, name)
    case AccessGrant(uid) => GrantDone(p, uid)
    case AccessRevoke(uid) => RevokeDone(p, uid)
    case _ => Done(p, true)
  }

  /** A call that does not remove the object. */
  function CallDone(ctx: Context, p: Profile, call: Call): (d: Done)
    ensures !call.SetOverride? && !call.UnsetOverride? ==> d.p.overrides == p.overrides
    ensures d.p.options == p.options && d.p.stored == p.stored && d.p.path == p.path
    ensures d.p.readonly <==> p.readonly || (call.Seal? && p.valid)
    ensures d.p.valid == if call.Validate? then ValidProfile(p.options) else p.valid
  {
    if IsPropertySet(call) then PropertyDone(p, call)
    else if IsWriteMethod(call) then WriteDone(ctx, p, call)
    else
      match call
      case Validate => ValidateDone(p)
      case Fetch(backend, now) => FetchDone(p, backend, now)
      case Seal => SealDone(p)
      case _ => Done(p, true)
  }

  predicate RemovesObject(p: Profile, call: Call) {
    call.Remove? || (call.Fetch? && call.backendClient && p.singleUse)
  }

  /** Calls that end by writing the persistent file. */
  predicate WritesFile(call: Call) {
    match call
    case Validate | FetchJson | SetOption | Remove => false
    case Fetch(backend, _) => backend
    case _ => true
  }

  // ---------------------------------------------------------------- runs

  /** The configuration and its persistent file; a removed configuration may come back from its file. */
  datatype World =
    | Gone(disk: Option<Record>)
    | Live(p: Profile, disk: Option<Record>)

  datatype Event =
    | Invoke(caller: Option<Uid>, call: Call)
    | Transfer(caller: Option<Uid>, newOwner: Uid)
    | Restart(order: seq<string>, ovOrder: seq<string>)

  function Written(ctx: Context, p: Profile, disk: Option<Record>): Option<Record> {
    if p.stored then Some(ExportRecord(ctx, p)) else disk
  }

  /** The effect of an authorised call, and whether it returned normally. */
  function Perform(ctx: Context, p: Profile, disk: Option<Record>, call: Call): (World, bool) {
    if RemovesObject(p, call) then (Gone(if p.stored then None else disk), true)
    else
      var d := CallDone(ctx, p, call);
      (Live(d.p, if d.ok && WritesFile(call) then Written(ctx, d.p, disk) else disk), d.ok)
  }

  lemma PerformProperty(ctx: Context, p: Profile, disk: Option<Record>, call: Call)
    requires IsPropertySet(call)
    ensures var q := PropertyDone(p, call).p;
      Perform(ctx, p, disk, call) == (Live(q, Written(ctx, q, disk)), true)
  {
  }

  lemma PerformWrite(ctx: Context, p: Profile, disk: Option<Record>, call: Call)
    requires IsWriteMethod(call)
    ensures var d := WriteDone(ctx, p, call);
      Perform(ctx, p, disk, call) ==
        (Live(d.p, if d.ok && WritesFile(call) then Written(ctx, d.p, disk) else disk), d.ok)
  {
  }

  lemma PerformFetch(ctx: Context, p: Profile, disk: Option<Record>, backendClient: bool, now: U64)
    ensures var q := p.(usedCount := (p.usedCount + 1) % 0x1_0000_0000, lastUsedTimestamp := now);
      Perform(ctx, p, disk, Fetch(backendClient, now)).0 ==
        if !backendClient then Live(p, disk)
        else if p.singleUse then Gone(if p.stored then None else disk)
        else Live(q, Written(ctx, q, disk))
    ensures Perform(ctx, p, disk, Fetch(backendClient, now)).1
  {
  }

  /** A restart: only what is on disk survives. */
  function Restarted(ctx: Context, disk: Option<Record>, order: seq<string>, ovOrder: seq<string>): World {
    if disk.None? then Gone(None)
    else
      match LoadRecord(ctx, disk.value, order, ovOrder)
      case Ok(p) => Live(p, disk)
      case Err(_) => Gone(disk)
  }

  ghost predicate Feasible(w: World, ev: Event) {
    ev.Restart? && w.disk.Some? ==> Visits(w.disk.value, ev.order, ev.ovOrder)
  }

  ghost function Step(ctx: Context, vpnUser: Uid, w: World, ev: Event): World
    requires Feasible(w, ev)
  {
    match ev
    case Restart(order, ovOrder) => Restarted(ctx, w.disk, order, ovOrder)
    case Invoke(caller, call) =>
      if w.Gone? || !Authorized(w.p, vpnUser, caller, call) then w
      else Perform(ctx, w.p, w.disk, call).0
    case Transfer(caller, newOwner) =>
      if w.Gone? || !MayAccess(w.p.acl, w.p.publicAccess, caller, [w.p.owner, 0], false) then w
      else var q := w.p.(owner := newOwner); Live(q, Written(ctx, q, w.disk))
  }

  ghost predicate IsRun(ctx: Context, vpnUser: Uid, ws: seq<World>, evs: seq<Event>) {
    && |ws| == |evs| + 1
    && forall i :: 0 <= i < |evs| ==> Follows(ctx, vpnUser, ws, evs, i)
  }

  ghost predicate Follows(ctx: Context, vpnUser: Uid, ws: seq<World>, evs: seq<Event>, i: nat)
    requires |ws| == |evs| + 1 && i < |evs|
  {
    Feasible(ws[i], evs[i]) && ws[i + 1] == Step(ctx, vpnUser, ws[i], evs[i])
  }

  // ---------------------------------------------------------------- soundness of every state

  /** The file is the record of some sound profile: the last one that was written. */
  ghost predicate SavedFrom(ctx: Context, rec: Record, q: Profile) {
    Sound(ctx, q) && q.stored && rec == ExportRecord(ctx, q)
  }

  ghost predicate SoundWorld(ctx: Context, w: World) {
    && (w.disk.Some? ==> exists q :: SavedFrom(ctx, w.disk.value, q))
    && (w.Live? ==> Sound(ctx, w.p) && (w.p.stored <==> w.disk.Some?))
    && (w.Gone? ==> w.disk.None?)
  }

  lemma RemoveOverrideKeeps(list: seq<Override>, key: string)
    requires UniqueKeys(list)
    ensures var r := RemoveOverride(list, key);
      && UniqueKeys(r)
      && (forall i :: 0 <= i < |r| ==> r[i] in list && r[i].key != key)
      && (forall o :: o in list && o.key != key ==> o in r)
  {
    var n, r := IndexOf(list, key), RemoveOverride(list, key);
    forall o | o in list && o.key != key ensures o in r {
      var j :| 0 <= j < |list| && list[j] == o;
      assert o == if j < n then r[j] else r[j - 1];
    }
  }

  ghost predicate GoodOverrides(ctx: Context, list: seq<Override>) {
    UniqueKeys(list) && WellTyped(ctx.schema, list) && CleanTexts(list)
  }

  lemma RemoveKeepsGood(ctx: Context, list: seq<Override>, key: string)
    requires GoodOverrides(ctx, list)
    ensures GoodOverrides(ctx, RemoveOverride(list, key))
    ensures !HasOverride(RemoveOverride(list, key), key)
  {
    RemoveOverrideKeeps(list, key);
  }

  lemma PutKeepsGood(ctx: Context, list: seq<Override>, key: string, v: Value)
    requires GoodOverrides(ctx, list) && InSchema(ctx.schema, Override(key, v))
    requires v.Text? ==> FilterCtrlChars(v.text, true) == v.text
    ensures GoodOverrides(ctx, PutOverride(list, key, v))
  {
    RemoveKeepsGood(ctx, list, key);
  }

  lemma SetKeepsGood(ctx: Context, list: seq<Override>, key: string, v: Variant)
    requires GoodOverrides(ctx, list)
    ensures GoodOverrides(ctx, OverridesSet(ctx, list, key, v).0)
  {
    RemoveKeepsGood(ctx, list, key);
    if ctx.schema(key) == Some(TextKind) && v.VText? {
      FilterIsProjection(v.text);
      PutKeepsGood(ctx, RemoveOverride(list, key), key, Text(FilterCtrlChars(v.text, true)));
    } else if ctx.schema(key) == Some(FlagKind) && v.VFlag? {
      PutKeepsGood(ctx, RemoveOverride(list, key), key, Flag(v.flag));
    }
  }

  lemma SetOverrideKeepsGood(ctx: Context, p: Profile, name: string, v: Variant)
    requires GoodOverrides(ctx, p.overrides)
    ensures GoodOverrides(ctx, SetOverrideDone(ctx, p, name, v).p.overrides)
  {
    SetKeepsGood(ctx, p.overrides, FilterCtrlChars(name, true), v);
  }

  lemma UnsetOverrideKeepsGood(ctx: Context, p: Profile, name: string)
    requires GoodOverrides(ctx, p.overrides)
    ensures GoodOverrides(ctx, UnsetOverrideDone(p, name).p.overrides)
  {
    RemoveKeepsGood(ctx, p.overrides, FilterCtrlChars(name, true));
  }

  lemma CallKeepsOverrides(ctx: Context, p: Profile, call: Call)
    requires GoodOverrides(ctx, p.overrides)
    ensures GoodOverrides(ctx, CallDone(ctx, p, call).p.overrides)
  {
    if call.SetOverride? {
      SetOverrideKeepsGood(ctx, p, call.name, call.value);
    } else if call.UnsetOverride? {
      UnsetOverrideKeepsGood(ctx, p, call.name);
    }
  }

  lemma CallKeepsAcl(ctx: Context, p: Profile, call: Call)
    requires NoDuplicates(p.acl)
    ensures NoDuplicates(CallDone(ctx, p, call).p.acl)
  {
    if call.AccessRevoke? && call.uid in p.acl {
      RevokeIsExact(p.acl, call.uid);
    }
  }

  lemma CallKeepsSound(ctx: Context, p: Profile, call: Call)
    requires Sound(ctx, p)
    ensures Sound(ctx, CallDone(ctx, p, call).p)
  {
    CallKeepsOverrides(ctx, p, call);
    CallKeepsAcl(ctx, p, call);
  }

  lemma ReorderedKeepsGood(ctx: Context, list: seq<Override>, order: seq<string>)
    requires GoodOverrides(ctx, list) && Enumerates(order, OverrideMembers(list).Keys)
    ensures GoodOverrides(ctx, Reordered(list, order))
    ensures SameOverrides(list, Reordered(list, order))
  {
    var r := Reordered(list, order);
    MembersOfUnique(list);
    forall i | 0 <= i < |order| ensures r[i] in list && r[i].key == order[i] {
      assert order[i] in order;
      var j :| 0 <= j < |list| && list[j].key == order[i];
    }
    forall ov | ov in list ensures ov in r {
      var j :| 0 <= j < |list| && list[j] == ov;
      assert ov.key in order;
      var i :| 0 <= i < |order| && order[i] == ov.key;
      assert r[i] == ov;
    }
  }

  lemma {:induction false} MembersBySet(a: seq<Override>, b: seq<Override>)
    requires UniqueKeys(a) && UniqueKeys(b) && SameOverrides(a, b)
    ensures OverrideMembers(a) == OverrideMembers(b)
  {
    MembersOfUnique(a);
    MembersOfUnique(b);
    forall k ensures k in OverrideMembers(a) <==> k in OverrideMembers(b) {
      if k in OverrideMembers(a) {
        var i :| 0 <= i < |a| && a[i].key == k;
        assert a[i] in b;
      }
      if k in OverrideMembers(b) {
        var i :| 0 <= i < |b| && b[i].key == k;
        assert b[i] in a;
      }
    }
    forall k | k in OverrideMembers(a) ensures OverrideMembers(a)[k] == OverrideMembers(b)[k] {
      var i :| 0 <= i < |a| && a[i].key == k;
      assert a[i] in b;
    }
  }

  /** A reloaded profile is sound and has the same overrides, possibly in another order. */
  lemma ReloadKeepsSound(ctx: Context, p: Profile, order: seq<string>, ovOrder: seq<string>)
    requires Laws(ctx) && Sound(ctx, p) && Visits(ExportRecord(ctx, p), order, ovOrder)
    ensures Sound(ctx, Reloaded(ctx, p, order, ovOrder))
    ensures SameOverrides(p.overrides, Reloaded(ctx, p, order, ovOrder).overrides)
  {
    ReloadOfExport(ctx, p, order, ovOrder);
    ListsOfExport(ctx, p);
    ReorderedKeepsGood(ctx, p.overrides, ovOrder);
    ValidityAfterReload(ctx.syntax, p.options, order);
    CanonicalReadsBack(ctx.syntax, p.options, order);
  }

  lemma OverridesOfReload(ctx: Context, list: seq<Override>, order: seq<string>)
    requires GoodOverrides(ctx, list) && Enumerates(order, OverrideMembers(list).Keys)
    ensures OverrideMembers(Reordered(list, order)) == OverrideMembers(list)
    ensures Reordered(list, order) == [] <==> list == []
  {
    ReorderedKeepsGood(ctx, list, order);
    var r := Reordered(list, order);
    MembersBySet(list, r);
    if list != [] { assert list[0] in r; }
    if r != [] { assert r[0] in list; }
  }

  /** The record survives a restart unchanged exactly when the restart does not change validity. */
  lemma ExportOfReload(ctx: Context, p: Profile, order: seq<string>, ovOrder: seq<string>)
    requires Laws(ctx) && Sound(ctx, p) && Visits(ExportRecord(ctx, p), order, ovOrder)
    ensures ExportRecord(ctx, Reloaded(ctx, p, order, ovOrder)) == ExportRecord(ctx, p) <==>
            (p.valid <==> HasRequired(p.options) && !LastSetenvLocks(p.options))
    ensures p.valid ==> ExportRecord(ctx, Reloaded(ctx, p, order, ovOrder)) == ExportRecord(ctx, p)
  {
    ReloadOfExport(ctx, p, order, ovOrder);
    ListsOfExport(ctx, p);
    OverridesOfReload(ctx, p.overrides, ovOrder);
    ValidityAfterReload(ctx.syntax, p.options, order);
    ExportIsStable(ctx.syntax, p.options, order);
    FilterIsProjection(p.name);
    FilterAllTwice(p.tags);
  }

  // ---------------------------------------------------------------- over every run

  /** A freshly imported configuration. */
  function NewProfile(path: string, name: string, options: seq<Opt>, singleUse: bool, stored: bool, owner: Uid,
                      now: U64): Profile {
    Profile(path, owner, FilterCtrlChars(name, true), [], now, 0, false, false, false, singleUse, 0,
            ValidProfile(options), options, false, false, [], [], stored)
  }

  /** A fresh import is orderly, and sound if and only if its bare option names read back. */
  lemma NewProfileIsSound(ctx: Context, p: Profile)
    requires p == NewProfile(p.path, p.name, p.options, p.singleUse, p.stored, p.owner, p.importTimestamp)
    ensures Orderly(ctx, p)
    ensures SoundWorld(ctx, Live(p, Written(ctx, p, None))) <==> BareNamesReadBack(ctx.syntax, p.options)
  {
    assert p.valid == ValidProfile(p.options) && !p.readonly && p.acl == [] && p.overrides == [];
    if BareNamesReadBack(ctx.syntax, p.options) {
      assert Sound(ctx, p);
      if p.stored {
        assert SavedFrom(ctx, ExportRecord(ctx, p), p);
      }
    }
  }

  lemma RestartFromSaved(ctx: Context, q: Profile, order: seq<string>, ovOrder: seq<string>)
    requires Laws(ctx) && Sound(ctx, q) && q.stored
    requires Visits(ExportRecord(ctx, q), order, ovOrder)
    ensures Restarted(ctx, Some(ExportRecord(ctx, q)), order, ovOrder) ==
            Live(Reloaded(ctx, q, order, ovOrder), Some(ExportRecord(ctx, q)))
    ensures SoundWorld(ctx, Restarted(ctx, Some(ExportRecord(ctx, q)), order, ovOrder))
  {
    ReloadOfExport(ctx, q, order, ovOrder);
    ReloadKeepsSound(ctx, q, order, ovOrder);
    assert SavedFrom(ctx, ExportRecord(ctx, q), q);
  }

  lemma WrittenIsSound(ctx: Context, p: Profile, disk: Option<Record>)
    requires Sound(ctx, p) && (p.stored <==> disk.Some?)
    ensures SoundWorld(ctx, Live(p, Written(ctx, p, disk)))
  {
    if p.stored {
      assert SavedFrom(ctx, ExportRecord(ctx, p), p);
    }
  }

  lemma RestartKeepsSound(ctx: Context, w: World, order: seq<string>, ovOrder: seq<string>)
    requires Laws(ctx) && SoundWorld(ctx, w) && Feasible(w, Restart(order, ovOrder))
    ensures SoundWorld(ctx, Restarted(ctx, w.disk, order, ovOrder))
  {
    if w.disk.Some? {
      var q :| SavedFrom(ctx, w.disk.value, q);
      RestartFromSaved(ctx, q, order, ovOrder);
    }
  }

  /** Replacing the profile by a sound one keeps the world sound, whether or not the file is written. */
  lemma ReplaceKeepsSound(ctx: Context, p: Profile, q: Profile, disk: Option<Record>)
    requires SoundWorld(ctx, Live(p, disk)) && Sound(ctx, q) && q.stored == p.stored
    ensures SoundWorld(ctx, Live(q, disk)) && SoundWorld(ctx, Live(q, Written(ctx, q, disk)))
  {
    WrittenIsSound(ctx, q, disk);
  }

  lemma PerformKeepsSound(ctx: Context, p: Profile, disk: Option<Record>, call: Call)
    requires SoundWorld(ctx, Live(p, disk))
    ensures SoundWorld(ctx, Perform(ctx, p, disk, call).0)
  {
    if !RemovesObject(p, call) {
      var d := CallDone(ctx, p, call);
      CallKeepsSound(ctx, p, call);
      ReplaceKeepsSound(ctx, p, d.p, disk);
      assert Perform(ctx, p, disk, call).0 == Live(d.p, disk)
        || Perform(ctx, p, disk, call).0 == Live(d.p, Written(ctx, d.p, disk));
    }
  }

  lemma StepKeepsSound(ctx: Context, vpnUser: Uid, w: World, ev: Event)
    requires Laws(ctx) && SoundWorld(ctx, w) && Feasible(w, ev)
    ensures SoundWorld(ctx, Step(ctx, vpnUser, w, ev))
  {
    match ev {
      case Restart(order, ovOrder) =>
        RestartKeepsSound(ctx, w, order, ovOrder);
      case Invoke(caller, call) =>
        if w.Live? {
          PerformKeepsSound(ctx, w.p, w.disk, call);
        }
      case Transfer(caller, newOwner) =>
        if w.Live? {
          ReplaceKeepsSound(ctx, w.p, w.p.(owner := newOwner), w.disk);
        }
    }
  }

  lemma SoundFollows(ctx: Context, vpnUser: Uid, ws: seq<World>, evs: seq<Event>, i: nat)
    requires Laws(ctx) && IsRun(ctx, vpnUser, ws, evs) && i < |evs| && SoundWorld(ctx, ws[i])
    ensures SoundWorld(ctx, ws[i + 1])
  {
    assert Follows(ctx, vpnUser, ws, evs, i);
    StepKeepsSound(ctx, vpnUser, ws[i], evs[i]);
  }

  /** Every state of every run is sound: in particular its overrides are unique, known and typed by the schema. */
  lemma {:induction false} RunIsSound(ctx: Context, vpnUser: Uid, ws: seq<World>, evs: seq<Event>, i: nat)
    requires Laws(ctx) && IsRun(ctx, vpnUser, ws, evs) && SoundWorld(ctx, ws[0]) && i <= |evs|
    ensures SoundWorld(ctx, ws[i])
  {
    if i > 0 {
      RunIsSound(ctx, vpnUser, ws, evs, i - 1);
      SoundFollows(ctx, vpnUser, ws, evs, i - 1);
    }
  }

  // ---------------------------------------------------------------- any profile, any file

  lemma SetKeepsTidy(ctx: Context, list: seq<Override>, key: string, v: Variant)
    requires Tidy(ctx, list)
    ensures Tidy(ctx, OverridesSet(ctx, list, key, v).0)
  {
    RemoveKeepsTidy(ctx, list, key);
    if ctx.schema(key).Some? {
      if v.VText? {
        FilterIsProjection(v.text);
        PutKeepsTidy(ctx, RemoveOverride(list, key), key, Text(FilterCtrlChars(v.text, true)));
      } else if v.VFlag? {
        PutKeepsTidy(ctx, RemoveOverride(list, key), key, Flag(v.flag));
      }
    }
  }

  lemma CallKeepsTidy(ctx: Context, p: Profile, call: Call)
    requires Tidy(ctx, p.overrides)
    ensures Tidy(ctx, CallDone(ctx, p, call).p.overrides)
  {
    if call.SetOverride? {
      SetKeepsTidy(ctx, p.overrides, FilterCtrlChars(call.name, true), call.value);
    } else if call.UnsetOverride? {
      RemoveKeepsTidy(ctx, p.overrides, FilterCtrlChars(call.name, true));
    }
  }

  ghost predicate OrderlyWorld(ctx: Context, w: World) {
    w.Live? ==> Orderly(ctx, w.p)
  }

  lemma StepKeepsOrderly(ctx: Context, vpnUser: Uid, w: World, ev: Event)
    requires OrderlyWorld(ctx, w) && Feasible(w, ev)
    ensures OrderlyWorld(ctx, Step(ctx, vpnUser, w, ev))
  {
    if ev.Restart? {
      if w.disk.Some? {
        LoadIsOrderly(ctx, w.disk.value, ev.order, ev.ovOrder);
      }
    } else if ev.Invoke? && w.Live? {
      CallKeepsTidy(ctx, w.p, ev.call);
      CallKeepsAcl(ctx, w.p, ev.call);
    }
  }

  /**
   * In every run, from any imported profile and whatever the file holds, no uid is listed twice, override
   * keys are unique and known, and the validity flag says what the options say.
   */
  lemma {:induction false} RunIsOrderly(ctx: Context, vpnUser: Uid, ws: seq<World>, evs: seq<Event>, i: nat)
    requires IsRun(ctx, vpnUser, ws, evs) && OrderlyWorld(ctx, ws[0]) && i <= |evs|
    ensures OrderlyWorld(ctx, ws[i])
  {
    if i > 0 {
      RunIsOrderly(ctx, vpnUser, ws, evs, i - 1);
      assert Follows(ctx, vpnUser, ws, evs, i - 1);
      StepKeepsOrderly(ctx, vpnUser, ws[i - 1], evs[i - 1]);
    }
  }

  /** Nor does it matter to the client that a restart reorders the overrides. */
  lemma ClientSettingsSurviveRestart(ctx: Context, num: Numbers, start: Settings, p: Profile, order: seq<string>,
                                     ovOrder: seq<string>)
    requires Laws(ctx) && ctx.schema == SCHEMA && Sound(ctx, p) && LevelsInRange(num, p.overrides)
    requires Visits(ExportRecord(ctx, p), order, ovOrder)
    ensures var before := ApplyAll(ClientEffect(num), start, p.overrides);
      && before.completed && OwnValues(num, start, p.overrides, before.settings)
      && ApplyAll(ClientEffect(num), start, Reloaded(ctx, p, order, ovOrder).overrides) == before
  {
    EachTakesItsOwn(num, start, p.overrides);
    ReloadKeepsSound(ctx, p, order, ovOrder);
    OrderIsIrrelevant(num, start, p.overrides, Reloaded(ctx, p, order, ovOrder).overrides);
  }

  // ---------------------------------------------------------------- the file

  /** The file holds the record of the current state. */
  ghost predicate InSync(ctx: Context, w: World) {
    w.Live? && w.p.stored ==> w.disk == Some(ExportRecord(ctx, w.p))
  }

  /** A call that throws changes nothing, except `SetOverride` on a key that is set: it drops the old value. */
  lemma FailedCallEffect(ctx: Context, p: Profile, call: Call)
    requires Sound(ctx, p) && !CallDone(ctx, p, call).ok
    ensures CallDone(ctx, p, call).p == p <==>
            !(call.SetOverride? && HasOverride(p.overrides, FilterCtrlChars(call.name, true)))
  {
    if call.SetOverride? {
      FailedSetOverrideEffect(ctx, p, FilterCtrlChars(call.name, true), call.value);
    } else if call.Validate? {
      assert ValidateDone(p).p == p;
    }
  }

  lemma FailedSetOverrideEffect(ctx: Context, p: Profile, key: string, v: Variant)
    requires GoodOverrides(ctx, p.overrides) && !OverridesSet(ctx, p.overrides, key, v).1
    ensures OverridesSet(ctx, p.overrides, key, v).0 == p.overrides <==> !HasOverride(p.overrides, key)
  {
    RemoveKeepsGood(ctx, p.overrides, key);
    if HasOverride(p.overrides, key) {
      var i :| 0 <= i < |p.overrides| && p.overrides[i].key == key;
      assert InSchema(ctx.schema, p.overrides[i]);
    }
  }

  /** Every call that returns normally leaves the file equal to the export, if it was before or the call writes it. */
  lemma SuccessfulCallSyncs(ctx: Context, p: Profile, disk: Option<Record>, call: Call)
    requires Sound(ctx, p)
    requires Perform(ctx, p, disk, call).1
    requires WritesFile(call) || InSync(ctx, Live(p, disk))
    ensures InSync(ctx, Perform(ctx, p, disk, call).0)
  {
  }

  lemma RemovalReachesTheRecord(ctx: Context, p: Profile, ov: Override)
    requires GoodOverrides(ctx, p.overrides) && ov in p.overrides
    ensures ExportRecord(ctx, p.(overrides := RemoveOverride(p.overrides, ov.key))) != ExportRecord(ctx, p)
  {
    var left := RemoveOverride(p.overrides, ov.key);
    RemoveKeepsGood(ctx, p.overrides, ov.key);
    MembersOfUnique(p.overrides);
    MembersOfUnique(left);
    assert ov.key in OverrideMembers(p.overrides) && ov.key !in OverrideMembers(left);
    ListsOfExport(ctx, p);
    ListsOfExport(ctx, p.(overrides := left));
  }

  /** After a failed `SetOverride` on a set key the override is gone and the file is out of step. */
  lemma DroppedOverrideDesyncs(ctx: Context, p: Profile, call: Call, ov: Override)
    requires Sound(ctx, p) && p.stored
    requires call.SetOverride? && ov in p.overrides && ov.key == FilterCtrlChars(call.name, true)
    requires !CallDone(ctx, p, call).ok
    ensures Perform(ctx, p, Some(ExportRecord(ctx, p)), call).0 ==
            Live(p.(overrides := RemoveOverride(p.overrides, ov.key)), Some(ExportRecord(ctx, p)))
    ensures !HasOverride(RemoveOverride(p.overrides, ov.key), ov.key)
    ensures !InSync(ctx, Perform(ctx, p, Some(ExportRecord(ctx, p)), call).0)
  {
    var i :| 0 <= i < |p.overrides| && p.overrides[i] == ov;
    assert InSchema(ctx.schema, p.overrides[i]);
    RemoveKeepsGood(ctx, p.overrides, ov.key);
    RemovalReachesTheRecord(ctx, p, ov);
    assert CallDone(ctx, p, call).p == p.(overrides := RemoveOverride(p.overrides, ov.key));
  }

  /** A restart in that state brings the dropped override back. */
  lemma DroppedOverrideReturns(ctx: Context, p: Profile, call: Call, ov: Override, order: seq<string>,
                               ovOrder: seq<string>)
    requires Laws(ctx) && Sound(ctx, p) && p.stored
    requires call.SetOverride? && ov in p.overrides && ov.key == FilterCtrlChars(call.name, true)
    requires !CallDone(ctx, p, call).ok
    requires Visits(ExportRecord(ctx, p), order, ovOrder)
    ensures var w := Perform(ctx, p, Some(ExportRecord(ctx, p)), call).0;
      && Feasible(w, Restart(order, ovOrder))
      && Step(ctx, 0, w, Restart(order, ovOrder)).Live?
      && ov in Step(ctx, 0, w, Restart(order, ovOrder)).p.overrides
  {
    DroppedOverrideDesyncs(ctx, p, call, ov);
    RestartFromSaved(ctx, p, order, ovOrder);
    ReloadKeepsSound(ctx, p, order, ovOrder);
  }

  // ---------------------------------------------------------------- sealed configurations

  /** The record without the members a sealed configuration may still change. */
  function Frozen(rec: Record): Record {
    rec.(owner := JNull, usedCount := JNull, lastUsedTimestamp := JNull)
  }

  ghost predicate SealedAs(ctx: Context, w: World, frozen: Record) {
    && w.Live? && SoundWorld(ctx, w) && InSync(ctx, w)
    && w.p.readonly && w.p.valid
    && Frozen(ExportRecord(ctx, w.p)) == frozen
  }

  /** An authorised call on a sealed configuration leaves all of it but the fetch counters alone. */
  lemma SealedCall(ctx: Context, vpnUser: Uid, p: Profile, caller: Option<Uid>, call: Call)
    requires Sound(ctx, p) && p.readonly && Authorized(p, vpnUser, caller, call)
    ensures CallDone(ctx, p, call) == if call.Fetch? then FetchDone(p, call.backendClient, call.now)
                                      else Done(p, true)
  {
    assert !IsPropertySet(call) && !IsWriteMethod(call);
    match call {
      case Validate => assert ValidateDone(p).p == p;
      case Seal => assert SealDone(p).p == p;
      case _ =>
    }
  }

  lemma SealedPerform(ctx: Context, vpnUser: Uid, w: World, caller: Option<Uid>, call: Call, frozen: Record)
    requires SealedAs(ctx, w, frozen) && Authorized(w.p, vpnUser, caller, call)
    ensures var v := Perform(ctx, w.p, w.disk, call).0; v == Gone(None) || SealedAs(ctx, v, frozen)
  {
    SealedCall(ctx, vpnUser, w.p, caller, call);
    PerformKeepsSound(ctx, w.p, w.disk, call);
  }

  lemma SealedStep(ctx: Context, vpnUser: Uid, w: World, ev: Event, frozen: Record)
    requires Laws(ctx) && SealedAs(ctx, w, frozen) && Feasible(w, ev)
    ensures var v := Step(ctx, vpnUser, w, ev); v == Gone(None) || SealedAs(ctx, v, frozen)
  {
    StepKeepsSound(ctx, vpnUser, w, ev);
    match ev {
      case Restart(order, ovOrder) =>
        if w.disk.Some? {
          RestartFromSaved(ctx, w.p, order, ovOrder);
          ExportOfReload(ctx, w.p, order, ovOrder);
        }
      case Invoke(caller, call) =>
        if Authorized(w.p, vpnUser, caller, call) {
          SealedPerform(ctx, vpnUser, w, caller, call, frozen);
        }
      case Transfer(caller, newOwner) =>
    }
  }

  ghost predicate GoneOrSealed(ctx: Context, w: World, frozen: Record) {
    w == Gone(None) || SealedAs(ctx, w, frozen)
  }

  lemma StaysGone(ctx: Context, vpnUser: Uid, ev: Event)
    requires Feasible(Gone(None), ev)
    ensures Step(ctx, vpnUser, Gone(None), ev) == Gone(None)
  {
  }

  lemma SealedNext(ctx: Context, vpnUser: Uid, w: World, ev: Event, v: World, frozen: Record)
    requires Laws(ctx) && GoneOrSealed(ctx, w, frozen) && Feasible(w, ev) && v == Step(ctx, vpnUser, w, ev)
    ensures GoneOrSealed(ctx, v, frozen)
  {
    if w == Gone(None) {
      StaysGone(ctx, vpnUser, ev);
    } else {
      SealedStep(ctx, vpnUser, w, ev, frozen);
    }
  }

  lemma SealedFollows(ctx: Context, vpnUser: Uid, ws: seq<World>, evs: seq<Event>, i: nat, frozen: Record)
    requires Laws(ctx) && IsRun(ctx, vpnUser, ws, evs) && i < |evs| && GoneOrSealed(ctx, ws[i], frozen)
    ensures GoneOrSealed(ctx, ws[i + 1], frozen)
  {
    assert Follows(ctx, vpnUser, ws, evs, i);
    SealedNext(ctx, vpnUser, ws[i], evs[i], ws[i + 1], frozen);
  }

  lemma {:induction false} SealedLasts(ctx: Context, vpnUser: Uid, ws: seq<World>, evs: seq<Event>, i: nat,
                                       frozen: Record)
    requires Laws(ctx) && IsRun(ctx, vpnUser, ws, evs) && i <= |evs| && GoneOrSealed(ctx, ws[0], frozen)
    ensures GoneOrSealed(ctx, ws[i], frozen)
  {
    if i > 0 {
      SealedLasts(ctx, vpnUser, ws, evs, i - 1, frozen);
      SealedFollows(ctx, vpnUser, ws, evs, i - 1, frozen);
    }
  }

  /**
   * Over every run of calls and restarts a sealed configuration stays sealed and valid, and its record
   * never changes except for owner, use counter and last use; all that can happen to it is removal.
   */
  lemma SealedForever(ctx: Context, vpnUser: Uid, ws: seq<World>, evs: seq<Event>, i: nat)
    requires Laws(ctx) && IsRun(ctx, vpnUser, ws, evs) && i <= |evs|
    requires ws[0].Live? && SealedAs(ctx, ws[0], Frozen(ExportRecord(ctx, ws[0].p)))
    ensures ws[i] == Gone(None) || SealedAs(ctx, ws[i], Frozen(ExportRecord(ctx, ws[0].p)))
  {
    SealedLasts(ctx, vpnUser, ws, evs, i, Frozen(ExportRecord(ctx, ws[0].p)));
  }

  /** Sealing is what makes a sound configuration enter that regime. */
  lemma SealSeals(ctx: Context, p: Profile, disk: Option<Record>)
    requires SoundWorld(ctx, Live(p, disk))
    ensures Perform(ctx, p, disk, Seal).1 <==> p.valid
    ensures var w := Perform(ctx, p, disk, Seal).0;
      p.valid ==> w.Live? && SealedAs(ctx, w, Frozen(ExportRecord(ctx, w.p)))
  {
    assert CallDone(ctx, p, Seal) == SealDone(p);
    PerformKeepsSound(ctx, p, disk, Seal);
  }
}
