/** Exactly when the order of the overrides reaches the client settings (src/client/openvpn3-service-client.cpp). */
module OverrideOrder {
  import opened Outcomes
  import opened Overrides

  /** Applied to the start settings the override would change one. */
  predicate Alters(eff: Override -> Effect, start: Settings, ov: Override) {
    var e := eff(ov);
    e.Assign? && !(e.setting in start && start[e.setting] == e.value)
  }

  /** Any order of the same overrides. */
  ghost predicate Rearranges(a: seq<Override>, b: seq<Override>) {
    UniqueKeys(b) && SameOverrides(a, b)
  }

  ghost predicate OrderBlind(eff: Override -> Effect, start: Settings, a: seq<Override>) {
    forall b :: Rearranges(a, b) ==> ApplyAll(eff, start, b) == ApplyAll(eff, start, a)
  }

  lemma {:induction false} NothingAltered(eff: Override -> Effect, start: Settings, list: seq<Override>)
    requires forall i :: 0 <= i < |list| ==> !Alters(eff, start, list[i])
    ensures ApplyAll(eff, start, list).settings == start
    ensures ApplyAll(eff, start, list).completed <==> NeverThrows(eff, list)
  {
    if list != [] {
      var init, last := list[..|list| - 1], list[|list| - 1];
      NothingAltered(eff, start, init);
      assert NeverThrows(eff, list) <==> NeverThrows(eff, init) && eff(last) != Throw;
    }
  }

  /** The one override that throws at position `k`, first or last. */
  lemma FirstOrLast(eff: Override -> Effect, start: Settings, bad: Override, others: seq<Override>)
    requires eff(bad) == Throw && NeverThrows(eff, others)
    ensures ApplyAll(eff, start, [bad] + others) == Applied(start, false)
    ensures ApplyAll(eff, start, others + [bad]) == Applied(ApplyAll(eff, start, others).settings, false)
  {
    assert ([bad] + others)[..1] == [bad] && [bad][..0] == [];
    assert ApplyAll(eff, start, [bad]) == Applied(start, false);
    ThrowStops(eff, start, [bad] + others, 1);
    assert (others + [bad])[..|others|] == others;
    ApplyCompletes(eff, start, others);
  }

  lemma RestElements(a: seq<Override>, k: nat)
    requires k < |a|
    ensures var others := a[..k] + a[k + 1..];
      && (forall i :: 0 <= i < |a| && i != k ==> a[i] in others)
      && forall ov :: ov in a <==> ov in others || ov == a[k]
  {
    var others := a[..k] + a[k + 1..];
    assert a == a[..k] + [a[k]] + a[k + 1..];
    forall i | 0 <= i < |a| && i != k ensures a[i] in others {
      assert others[if i < k then i else i - 1] == a[i];
    }
  }

  lemma RestUnique(a: seq<Override>, k: nat)
    requires UniqueKeys(a) && k < |a|
    ensures var others := a[..k] + a[k + 1..];
      UniqueKeys(others) && UniqueKeys([a[k]] + others) && UniqueKeys(others + [a[k]])
  {
    var others := a[..k] + a[k + 1..];
    assert forall i :: 0 <= i < |others| ==> others[i] == a[if i < k then i else i + 1];
    assert forall i :: 0 <= i < |others| ==> others[i].key != a[k].key;
  }

  lemma WithoutOne(a: seq<Override>, k: nat)
    requires UniqueKeys(a) && k < |a|
    ensures var others := a[..k] + a[k + 1..];
      && UniqueKeys(others) && Rearranges(a, [a[k]] + others) && Rearranges(a, others + [a[k]])
      && forall i :: 0 <= i < |a| && i != k ==> a[i] in others
  {
    RestElements(a, k);
    RestUnique(a, k);
  }

  lemma AlteredIsSeen(eff: Override -> Effect, start: Settings, others: seq<Override>, ov: Override)
    requires UniqueKeys(others) && OneKeyPerSetting(eff) && NeverThrows(eff, others) && ov in others
    requires Alters(eff, start, ov)
    ensures ApplyAll(eff, start, others).settings != start
  {
    var i :| 0 <= i < |others| && others[i] == ov;
    assert Assigns(eff, others, eff(ov).setting, eff(ov).value);
    SettingsByKey(eff, start, others, eff(ov).setting);
  }

  /** With one override that throws, order is blind exactly when no other override would change a setting. */
  lemma BlindWithThrower(eff: Override -> Effect, start: Settings, a: seq<Override>, k: nat)
    requires UniqueKeys(a) && OneKeyPerSetting(eff) && k < |a| && eff(a[k]) == Throw
    requires forall i :: 0 <= i < |a| && i != k ==> eff(a[i]) != Throw
    ensures OrderBlind(eff, start, a) <==> forall i :: 0 <= i < |a| ==> !Alters(eff, start, a[i])
  {
    if forall i :: 0 <= i < |a| ==> !Alters(eff, start, a[i]) {
      NothingAltered(eff, start, a);
      forall b | Rearranges(a, b) ensures ApplyAll(eff, start, b) == ApplyAll(eff, start, a) {
        SameElements(eff, start, a, b, k);
        NothingAltered(eff, start, b);
      }
    } else {
      var j :| 0 <= j < |a| && Alters(eff, start, a[j]);
      OrderShows(eff, start, a, k, j);
    }
  }

  /** The override that throws comes first or last: two results. */
  lemma OrderShows(eff: Override -> Effect, start: Settings, a: seq<Override>, k: nat, j: nat)
    requires UniqueKeys(a) && OneKeyPerSetting(eff) && k < |a| && eff(a[k]) == Throw
    requires forall i :: 0 <= i < |a| && i != k ==> eff(a[i]) != Throw
    requires j < |a| && Alters(eff, start, a[j])
    ensures !OrderBlind(eff, start, a)
  {
    var others := a[..k] + a[k + 1..];
    WithoutOne(a, k);
    forall i | 0 <= i < |others| ensures eff(others[i]) != Throw {
      assert others[i] == a[if i < k then i else i + 1];
    }
    FirstOrLast(eff, start, a[k], others);
    AlteredIsSeen(eff, start, others, a[j]);
    var first, last := [a[k]] + others, others + [a[k]];
    assert Rearranges(a, first) && Rearranges(a, last);
    assert ApplyAll(eff, start, first) != ApplyAll(eff, start, last);
  }

  lemma SameElements(eff: Override -> Effect, start: Settings, a: seq<Override>, b: seq<Override>, k: nat)
    requires SameOverrides(a, b) && k < |a| && eff(a[k]) == Throw
    requires forall i :: 0 <= i < |a| ==> !Alters(eff, start, a[i])
    ensures forall i :: 0 <= i < |b| ==> !Alters(eff, start, b[i])
    ensures !NeverThrows(eff, b)
  {
    forall i | 0 <= i < |b| ensures !Alters(eff, start, b[i]) {
      assert b[i] in a;
    }
    assert a[k] in b;
    var j :| 0 <= j < |b| && b[j] == a[k];
  }

  /**
   * The order of schema typed overrides does not reach the client settings if and only if every log level is
   * in range or no other override would change a setting.
   */
  lemma OrderMattersIff(num: Numbers, start: Settings, a: seq<Override>)
    requires UniqueKeys(a) && WellTyped(SCHEMA, a)
    ensures OrderBlind(ClientEffect(num), start, a) <==>
      LevelsInRange(num, a) || forall i :: 0 <= i < |a| ==> !Alters(ClientEffect(num), start, a[i])
  {
    var eff := ClientEffect(num);
    if LevelsInRange(num, a) {
      forall b | Rearranges(a, b) ensures ApplyAll(eff, start, b) == ApplyAll(eff, start, a) {
        OrderIsIrrelevant(num, start, a, b);
      }
    } else {
      var k :| 0 <= k < |a| && a[k].key == "log-level" && a[k].value.Text? && !(0 <= num.atoi(a[k].value.text) <= 6);
      OneThrower(num, a, k);
      ClientHasOneKeyPerSetting(num);
      BlindWithThrower(eff, start, a, k);
    }
  }

  lemma OneThrower(num: Numbers, a: seq<Override>, k: nat)
    requires UniqueKeys(a) && WellTyped(SCHEMA, a) && k < |a| && a[k].key == "log-level" && a[k].value.Text?
    requires !(0 <= num.atoi(a[k].value.text) <= 6)
    ensures ClientEffect(num)(a[k]) == Throw
    ensures forall i :: 0 <= i < |a| && i != k ==> ClientEffect(num)(a[i]) != Throw
  {
    forall i | 0 <= i < |a| ensures ClientEffect(num)(a[i]) == Throw ==> a[i].key == "log-level" {
      OnlyLogLevelThrows(num, a[i]);
    }
    OnlyLogLevelThrows(num, a[k]);
  }
}
