/** When the persistent file says what the configuration says (src/configmgr/configmgr-configuration.cpp). */
module PersistentFile {
  import opened Outcomes
  import opened Json
  import opened OptionJson
  import opened ProfileCheck
  import opened TextFilter
  import opened Overrides
  import opened AccessControl
  import opened ConfigProfile
  import opened ConfigRuns

  // ---------------------------------------------------------------- what an event does to the file

  predicate Permitted(vpnUser: Uid, w: World, ev: Event)
    requires w.Live?
  {
    match ev
    case Restart(_, _) => true
    case Invoke(caller, call) => Authorized(w.p, vpnUser, caller, call)
    case Transfer(caller, _) => MayAccess(w.p.acl, w.p.publicAccess, caller, [w.p.owner, 0], false)
  }

  /** The call returns normally and ends by writing the file. */
  predicate WritesNow(ctx: Context, p: Profile, call: Call) {
    !RemovesObject(p, call) && WritesFile(call) && CallDone(ctx, p, call).ok
  }

  /** The event writes the file. */
  predicate Writes(ctx: Context, vpnUser: Uid, w: World, ev: Event) {
    && w.Live? && Permitted(vpnUser, w, ev)
    && (ev.Transfer? || (ev.Invoke? && WritesNow(ctx, w.p, ev.call)))
  }

  /** The event is a refused `SetOverride` on a key that is set: the old value is dropped in memory only. */
  predicate DropsOverride(ctx: Context, vpnUser: Uid, w: World, ev: Event) {
    && w.Live? && ev.Invoke? && Permitted(vpnUser, w, ev) && ev.call.SetOverride? && !CallDone(ctx, w.p, ev.call).ok
    && HasOverride(w.p.overrides, FilterCtrlChars(ev.call.name, true))
  }

  /** The options in the file are valid and its flag says they are not, or the other way round. */
  predicate FlipsValidity(ctx: Context, disk: Option<Record>, order: seq<string>) {
    && disk.Some? && Imported(ctx.syntax, disk.value.profile, order).Ok?
    && disk.value.valid != JBool(ValidProfile(Imported(ctx.syntax, disk.value.profile, order).value))
  }

  /**
   * Told from the events and the states they met: since the last write or restart an override was dropped, or
   * the last restart flipped the validity flag and nothing has been written since.
   */
  ghost predicate OutOfStep(ctx: Context, vpnUser: Uid, ws: seq<World>, evs: seq<Event>, i: nat)
    requires IsRun(ctx, vpnUser, ws, evs) && i <= |evs|
  {
    if i == 0 then false
    else
      var w, ev := ws[i - 1], evs[i - 1];
      if ev.Restart? then FlipsValidity(ctx, w.disk, ev.order)
      else if Writes(ctx, vpnUser, w, ev) then false
      else DropsOverride(ctx, vpnUser, w, ev) || OutOfStep(ctx, vpnUser, ws, evs, i - 1)
  }

  // ---------------------------------------------------------------- why a file can be out of step

  ghost predicate MissesOverride(disk: Record, p: Profile) {
    exists k :: k in Members(disk.overrides) && !HasOverride(p.overrides, k)
  }

  /** The flags differ or the file has an override the configuration has not. */
  ghost predicate Differs(w: World) {
    w.Live? && w.p.stored ==>
      w.disk.Some? && (w.disk.value.valid != JBool(w.p.valid) || MissesOverride(w.disk.value, w.p))
  }

  lemma MembersAreOverrides(list: seq<Override>, k: string)
    requires UniqueKeys(list)
    ensures k in OverrideMembers(list) <==> HasOverride(list, k)
  {
    MembersOfUnique(list);
  }

  lemma DiffersIsOutOfSync(ctx: Context, w: World)
    requires w.Live? && w.p.stored && Sound(ctx, w.p) && Differs(w)
    ensures !InSync(ctx, w)
  {
    if InSync(ctx, w) {
      ListsOfExport(ctx, w.p);
      if MissesOverride(w.disk.value, w.p) {
        var k :| k in Members(w.disk.value.overrides) && !HasOverride(w.p.overrides, k);
        MembersAreOverrides(w.p.overrides, k);
      }
    }
  }

  /** A key that is gone in memory and was not there in memory before, or was in the file. */
  lemma MissesAfterDrop(disk: Record, p: Profile, key: string)
    requires UniqueKeys(p.overrides) && (key in Members(disk.overrides) || MissesOverride(disk, p))
    ensures MissesOverride(disk, p.(overrides := RemoveOverride(p.overrides, key)))
  {
    var q := p.(overrides := RemoveOverride(p.overrides, key));
    RemoveOverrideKeeps(p.overrides, key);
    if key in Members(disk.overrides) {
      assert !HasOverride(q.overrides, key);
    } else {
      var k :| k in Members(disk.overrides) && !HasOverride(p.overrides, k);
      forall i | 0 <= i < |q.overrides| ensures q.overrides[i].key != k {
        assert q.overrides[i] in p.overrides;
      }
      assert !HasOverride(q.overrides, k);
    }
  }

  lemma KeyInFile(ctx: Context, w: World, key: string)
    requires w.Live? && w.p.stored && InSync(ctx, w) && UniqueKeys(w.p.overrides) && HasOverride(w.p.overrides, key)
    ensures w.disk.Some? && key in Members(w.disk.value.overrides)
  {
    ListsOfExport(ctx, w.p);
    MembersAreOverrides(w.p.overrides, key);
  }

  lemma DropMakesDiffer(ctx: Context, vpnUser: Uid, w: World, ev: Event)
    requires SoundWorld(ctx, w) && DropsOverride(ctx, vpnUser, w, ev) && (InSync(ctx, w) || Differs(w))
    ensures Differs(Step(ctx, vpnUser, w, ev))
  {
    var key := FilterCtrlChars(ev.call.name, true);
    DropEffect(ctx, w.p, ev.call);
    assert Step(ctx, vpnUser, w, ev) == Live(w.p.(overrides := RemoveOverride(w.p.overrides, key)), w.disk);
    if w.p.stored {
      if InSync(ctx, w) {
        KeyInFile(ctx, w, key);
      }
      if w.disk.value.valid == JBool(w.p.valid) {
        MissesAfterDrop(w.disk.value, w.p, key);
      }
    }
  }

  lemma DropEffect(ctx: Context, p: Profile, call: Call)
    requires Sound(ctx, p) && call.SetOverride? && !CallDone(ctx, p, call).ok
    requires HasOverride(p.overrides, FilterCtrlChars(call.name, true))
    ensures CallDone(ctx, p, call).p == p.(overrides := RemoveOverride(p.overrides, FilterCtrlChars(call.name, true)))
  {
    var key := FilterCtrlChars(call.name, true);
    var i :| 0 <= i < |p.overrides| && p.overrides[i].key == key;
    assert InSchema(ctx.schema, p.overrides[i]);
    assert CallDone(ctx, p, call) == SetOverrideDone(ctx, p, call.name, call.value);
  }

  // ---------------------------------------------------------------- event by event

  lemma WriteSyncs(ctx: Context, vpnUser: Uid, w: World, ev: Event)
    requires Writes(ctx, vpnUser, w, ev)
    ensures InSync(ctx, Step(ctx, vpnUser, w, ev))
  {
  }

  /** An event that neither writes nor drops nor removes changes nothing. */
  lemma QuietEvent(ctx: Context, vpnUser: Uid, w: World, ev: Event)
    requires SoundWorld(ctx, w) && !ev.Restart? && !Writes(ctx, vpnUser, w, ev) && !DropsOverride(ctx, vpnUser, w, ev)
    ensures Step(ctx, vpnUser, w, ev) == w || Step(ctx, vpnUser, w, ev).Gone?
  {
    if w.Live? && ev.Invoke? && Authorized(w.p, vpnUser, ev.caller, ev.call) && !RemovesObject(w.p, ev.call) {
      QuietCall(ctx, w.p, ev.call);
    }
  }

  lemma QuietCall(ctx: Context, p: Profile, call: Call)
    requires Sound(ctx, p) && !(WritesFile(call) && CallDone(ctx, p, call).ok)
    requires !RemovesObject(p, call)
    requires !(call.SetOverride? && !CallDone(ctx, p, call).ok
      && HasOverride(p.overrides, FilterCtrlChars(call.name, true)))
    ensures CallDone(ctx, p, call).p == p
  {
    if !CallDone(ctx, p, call).ok {
      FailedCallEffect(ctx, p, call);
    } else if call.Validate? {
      assert ValidateDone(p).p == p;
    }
  }

  lemma RestartSyncs(ctx: Context, w: World, order: seq<string>, ovOrder: seq<string>)
    requires Laws(ctx) && SoundWorld(ctx, w) && Feasible(w, Restart(order, ovOrder))
    ensures var v := Restarted(ctx, w.disk, order, ovOrder);
      if FlipsValidity(ctx, w.disk, order) then Differs(v) else InSync(ctx, v)
  {
    if w.disk.Some? {
      var q :| SavedFrom(ctx, w.disk.value, q);
      RestartFromSaved(ctx, q, order, ovOrder);
      ExportOfReload(ctx, q, order, ovOrder);
      ReloadOfExport(ctx, q, order, ovOrder);
      RoundTrip(ctx.syntax, q.options, order);
      ValidityAfterReload(ctx.syntax, q.options, order);
    }
  }

  /** The file differs for one of the two reasons, or equals the export. */
  ghost predicate AsTold(ctx: Context, vpnUser: Uid, ws: seq<World>, evs: seq<Event>, i: nat)
    requires IsRun(ctx, vpnUser, ws, evs) && i <= |evs|
  {
    if OutOfStep(ctx, vpnUser, ws, evs, i) then Differs(ws[i]) else InSync(ctx, ws[i])
  }

  lemma StepInStep(ctx: Context, vpnUser: Uid, ws: seq<World>, evs: seq<Event>, i: nat)
    requires Laws(ctx) && IsRun(ctx, vpnUser, ws, evs) && 0 < i <= |evs| && SoundWorld(ctx, ws[i - 1])
    requires AsTold(ctx, vpnUser, ws, evs, i - 1)
    ensures AsTold(ctx, vpnUser, ws, evs, i)
  {
    var w, ev := ws[i - 1], evs[i - 1];
    assert Follows(ctx, vpnUser, ws, evs, i - 1);
    if ev.Restart? {
      RestartSyncs(ctx, w, ev.order, ev.ovOrder);
    } else if Writes(ctx, vpnUser, w, ev) {
      WriteSyncs(ctx, vpnUser, w, ev);
    } else if DropsOverride(ctx, vpnUser, w, ev) {
      DropMakesDiffer(ctx, vpnUser, w, ev);
    } else {
      QuietEvent(ctx, vpnUser, w, ev);
    }
  }

  lemma {:induction false} RunInStep(ctx: Context, vpnUser: Uid, ws: seq<World>, evs: seq<Event>, i: nat)
    requires Laws(ctx) && IsRun(ctx, vpnUser, ws, evs) && i <= |evs|
    requires SoundWorld(ctx, ws[0]) && InSync(ctx, ws[0])
    ensures AsTold(ctx, vpnUser, ws, evs, i)
  {
    if i > 0 {
      RunInStep(ctx, vpnUser, ws, evs, i - 1);
      RunIsSound(ctx, vpnUser, ws, evs, i - 1);
      StepInStep(ctx, vpnUser, ws, evs, i);
    }
  }

  /**
   * In every run that starts in step, the file of a persistent configuration equals its export if and only
   * if no set override was dropped by a refusal since the last write or restart and the last restart, if
   * nothing was written since, did not flip the validity flag.
   */
  lemma FileInStep(ctx: Context, vpnUser: Uid, ws: seq<World>, evs: seq<Event>, i: nat)
    requires Laws(ctx) && IsRun(ctx, vpnUser, ws, evs) && i <= |evs|
    requires SoundWorld(ctx, ws[0]) && InSync(ctx, ws[0])
    requires ws[i].Live? && ws[i].p.stored
    ensures InSync(ctx, ws[i]) <==> !OutOfStep(ctx, vpnUser, ws, evs, i)
  {
    RunInStep(ctx, vpnUser, ws, evs, i);
    RunIsSound(ctx, vpnUser, ws, evs, i);
    if OutOfStep(ctx, vpnUser, ws, evs, i) {
      DiffersIsOutOfSync(ctx, ws[i]);
    }
  }
}
