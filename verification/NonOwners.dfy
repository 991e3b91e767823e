/** What callers other than the owner can do to a configuration (src/configmgr/configmgr-configuration.cpp). */
module NonOwners {
  import opened Outcomes
  import opened Json
  import opened OptionJson
  import opened ProfileCheck
  import opened AccessControl
  import opened ConfigProfile
  import opened ConfigRuns

  /** Whoever is on the access list, root, and everyone under public access may transfer the ownership. */
  predicate MayTransfer(p: Profile, caller: Option<Uid>) {
    MayAccess(p.acl, p.publicAccess, caller, [p.owner, 0], false)
  }

  /** Of the fields no call of a non-owner touches, all are as they were. */
  predicate SameButShared(p: Profile, q: Profile) {
    q == p.(transferOwnerSession := q.transferOwnerSession, dco := q.dco, usedCount := q.usedCount,
            lastUsedTimestamp := q.lastUsedTimestamp, valid := q.valid)
  }

  lemma NonOwnerCallKinds(p: Profile, vpnUser: Uid, caller: Option<Uid>, call: Call)
    requires Authorized(p, vpnUser, caller, call) && caller != Some(p.owner)
    ensures call.SetTransferOwnerSession? || call.SetDco? || call.Fetch? || call.FetchJson? || call.Validate?
    ensures RemovesObject(p, call) ==>
      call.Fetch? && p.singleUse && caller.Some?
        && (caller.value == vpnUser || (!p.lockedDown && caller.value in p.acl))
  {
  }

  lemma SharedProperty(p: Profile, call: Call)
    requires call.SetTransferOwnerSession? || call.SetDco?
    ensures SameButShared(p, PropertyDone(p, call).p)
  {
  }

  lemma SharedFetch(p: Profile, backendClient: bool, now: U64)
    ensures SameButShared(p, FetchDone(p, backendClient, now).p)
  {
  }

  lemma SharedValidity(p: Profile)
    ensures SameButShared(p, ValidateDone(p).p)
  {
  }

  lemma SharedCall(ctx: Context, p: Profile, call: Call)
    requires call.SetTransferOwnerSession? || call.SetDco? || call.Fetch? || call.FetchJson? || call.Validate?
    ensures SameButShared(p, CallDone(ctx, p, call).p)
  {
    if call.Fetch? {
      SharedFetch(p, call.backendClient, call.now);
    } else if call.Validate? {
      SharedValidity(p);
    } else if !call.FetchJson? {
      SharedProperty(p, call);
    }
  }

  /**
   * A call of a non-owner can at most change the session transfer and DCO flags, the use counters and the
   * validity flag.  It removes the configuration only by a single use, as the service account or, unless the
   * configuration is locked down, as a user on the access list.
   */
  lemma NonOwnerCall(ctx: Context, vpnUser: Uid, w: World, caller: Option<Uid>, call: Call)
    requires w.Live? && caller != Some(w.p.owner)
    ensures var v := Step(ctx, vpnUser, w, Invoke(caller, call));
      && (v.Live? ==> SameButShared(w.p, v.p))
      && (v.Gone? ==> call.Fetch? && w.p.singleUse && caller.Some?
                      && (caller.value == vpnUser || (!w.p.lockedDown && caller.value in w.p.acl)))
  {
    if Authorized(w.p, vpnUser, caller, call) {
      NonOwnerCallKinds(w.p, vpnUser, caller, call);
      SharedCall(ctx, w.p, call);
    }
  }

  /**
   * An event of a non-owner changes the owner if and only if it is a transfer to another uid by someone who
   * may transfer, sealed and locked down configurations included; a transfer changes nothing else.
   */
  lemma NonOwnerEvent(ctx: Context, vpnUser: Uid, w: World, ev: Event)
    requires w.Live? && !ev.Restart? && ev.caller != Some(w.p.owner)
    ensures var v := Step(ctx, vpnUser, w, ev);
      && (v.Live? ==> (v.p.owner != w.p.owner <==>
        ev.Transfer? && ev.newOwner != w.p.owner && MayTransfer(w.p, ev.caller)))
      && (ev.Transfer? ==> v.Live? && v.p == w.p.(owner := v.p.owner))
      && (ev.Invoke? && v.Live? ==> SameButShared(w.p, v.p))
      && (v.Gone? ==> ev.Invoke? && ev.call.Fetch? && w.p.singleUse)
  {
    if ev.Invoke? {
      NonOwnerCall(ctx, vpnUser, w, ev.caller, ev.call);
    }
  }

  /** So whoever may transfer takes the configuration over and removes it, file and all, in two events. */
  lemma Takeover(ctx: Context, vpnUser: Uid, w: World, uid: Uid)
    requires w.Live? && uid != w.p.owner
    ensures var v := Step(ctx, vpnUser, w, Transfer(Some(uid), uid));
      && (MayTransfer(w.p, Some(uid)) <==> v.Live? && v.p.owner == uid)
      && (MayTransfer(w.p, Some(uid)) ==>
            Step(ctx, vpnUser, v, Invoke(Some(uid), Remove)) == Gone(if w.p.stored then None else w.disk))
      && Step(ctx, vpnUser, w, Invoke(Some(uid), Remove)) == w
  {
    var t := Transfer(Some(uid), uid);
    if MayTransfer(w.p, Some(uid)) {
      var q := w.p.(owner := uid);
      assert Step(ctx, vpnUser, w, t) == Live(q, Written(ctx, q, w.disk));
      assert Authorized(q, vpnUser, Some(uid), Remove);
    } else {
      assert Step(ctx, vpnUser, w, t) == w;
    }
    assert !Authorized(w.p, vpnUser, Some(uid), Remove);
  }
}
