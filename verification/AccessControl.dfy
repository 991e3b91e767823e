/** Object ownership and access lists (src/dbus/object-ownership.cpp). */
module AccessControl {
  import opened Outcomes
  import opened Lists

  type Uid = u: nat | u < 0x1_0000_0000

  /** The list without a uid, in its old order. */
  function Without(list: seq<Uid>, uid: Uid): seq<Uid> {
    Keep(list, {uid})
  }

  /** `erase(remove(...))` with a single iterator: the compacted front, and the old tail minus one element. */
  function Revoked(list: seq<Uid>, uid: Uid): seq<Uid>
    requires uid in list
  {
    KeepLength(list, {uid});
    Without(list, uid) + list[|Without(list, uid)| + 1..]
  }

  /** `std::remove`: the kept elements move to the front, what is behind them stays as it was. */
  method Compacted(all: seq<Uid>, uid: Uid) returns (list: seq<Uid>, write: nat)
    ensures |list| == |all| && write <= |list|
    ensures list[..write] == Without(all, uid) && list[write..] == all[write..]
  {
    list, write := all, 0;
    for read := 0 to |all|
      invariant write <= read && |list| == |all|
      invariant list[..write] == Without(all[..read], uid)
      invariant forall i :: write <= i < |all| ==> list[i] == all[i]
    {
      CompactStep(all, read, uid);
      if list[read] != uid {
        ghost var front := list[..write];
        list := list[write := list[read]];
        write := write + 1;
        assert list[..write] == front + [all[read]];
      }
    }
    assert all[..|all|] == all;
  }

  lemma CompactStep(all: seq<Uid>, read: nat, uid: Uid)
    requires read < |all|
    ensures Without(all[..read + 1], uid) ==
            if all[read] == uid then Without(all[..read], uid) else Without(all[..read], uid) + [all[read]]
  {
    assert all[..read + 1] == all[..read] + [all[read]];
    KeepSnoc(all[..read], all[read], {uid});
  }

  class Acl {
    var owner: Uid
    var accessList: seq<Uid>
    var publicAccess: bool

    constructor (owner: Uid)
      ensures this.owner == owner && accessList == [] && !publicAccess
    {
      this.owner := owner;
      accessList := [];
      publicAccess := false;
    }

    method Contains(uid: Uid) returns (found: bool)
      ensures found <==> uid in accessList
    {
      for i := 0 to |accessList|
        invariant uid !in accessList[..i]
      {
        if accessList[i] == uid {
          return true;
        }
      }
      found := false;
    }

    method GrantAccess(uid: Uid) returns (ok: bool)
      modifies this`accessList
      ensures ok <==> uid !in old(accessList)
      ensures accessList == if ok then old(accessList) + [uid] else old(accessList)
    {
      var found := Contains(uid);
      ok := !found;
      if ok {
        accessList := accessList + [uid];
      }
    }

    method RevokeAccess(uid: Uid) returns (ok: bool)
      modifies this`accessList
      ensures ok <==> uid in old(accessList)
      ensures accessList == if ok then Revoked(old(accessList), uid) else old(accessList)
    {
      ok := Contains(uid);
      if !ok {
        return;
      }
      var list, write := Compacted(accessList, uid);
      KeepLength(accessList, {uid});
      assert write == |Without(accessList, uid)|;
      assert list[write + 1..] == list[write..][1..] == accessList[write + 1..];
      accessList := list[..write] + list[write + 1..];
    }

    method CheckAcl(caller: Option<Uid>, extra: seq<Uid>, ignorePublic: bool) returns (granted: bool)
      ensures granted <==> MayAccess(accessList, publicAccess, caller, extra, ignorePublic)
    {
      if !ignorePublic && publicAccess {
        return true;
      }
      if caller.None? {
        return false;
      }
      var all := accessList + extra;
      for i := 0 to |all|
        invariant caller.value !in all[..i]
      {
        if all[i] == caller.value {
          return true;
        }
      }
      assert all[..|all|] == all;
      granted := false;
    }

    method CheckOwnerAccess(caller: Option<Uid>) returns (granted: bool)
      ensures granted <==> caller == Some(owner)
    {
      granted := caller.Some? && caller.value == owner;
    }
  }

  /** A caller whose uid cannot be looked up has access only where everyone has. */
  predicate MayAccess(list: seq<Uid>, publicAccess: bool, caller: Option<Uid>, extra: seq<Uid>, ignorePublic: bool) {
    || (!ignorePublic && publicAccess)
    || (caller.Some? && (caller.value in list || caller.value in extra))
  }

  /**
   * Revoking drops exactly the revoked uid, keeping the rest in order, if and only if the uid was
   * listed once.
   */
  lemma RevokeIsExact(list: seq<Uid>, uid: Uid)
    requires uid in list
    ensures Revoked(list, uid) == Without(list, uid) <==> |Without(list, uid)| == |list| - 1
    ensures NoDuplicates(list) ==> Revoked(list, uid) == Without(list, uid) && NoDuplicates(Revoked(list, uid))
  {
    KeepLength(list, {uid});
    if NoDuplicates(list) {
      KeepDistinct(list, {uid});
      EraseFirstIsKeep(list, uid);
      EraseFirstLength(list, uid);
    }
  }

  /** A uid listed twice would still have access after it was revoked. */
  lemma RevokeOfDuplicate(uid: Uid)
    ensures uid in Revoked([uid, uid], uid)
  {
    KeepSnoc([], uid, {uid});
    KeepSnoc([uid], uid, {uid});
    assert [] + [uid] == [uid] && [uid] + [uid] == [uid, uid];
    assert Without([uid, uid], uid) == [];
  }
}
