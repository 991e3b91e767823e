/** Lists without some of their elements. */
module Lists {
  import opened Outcomes

  /** `std::find_if`: the first position that satisfies a predicate, or the length. */
  function First<T>(s: seq<T>, p: T -> bool): (i: nat)
    ensures i <= |s|
    ensures i < |s| ==> p(s[i])
    ensures forall j :: 0 <= j < i ==> !p(s[j])
  {
    if s == [] || p(s[0]) then 0 else 1 + First(s[1..], p)
  }

  /** `std::find`: the first position of an element, or the length. */
  function IndexIn<T(==)>(s: seq<T>, x: T): (i: nat)
    ensures i <= |s|
    ensures i < |s| ==> s[i] == x
    ensures forall j :: 0 <= j < i ==> s[j] != x
  {
    First(s, y => y == x)
  }

  function EraseFirst<T(==)>(s: seq<T>, x: T): seq<T> {
    var i := IndexIn(s, x);
    if i == |s| then s else s[..i] + s[i + 1..]
  }

  /** What is left of `s`, in its old order, without the elements of `gone`. */
  function Keep<T(==)>(s: seq<T>, gone: set<T>): seq<T> {
    if s == [] then [] else (if s[0] in gone then [] else [s[0]]) + Keep(s[1..], gone)
  }

  lemma {:induction false} KeepElements<T>(s: seq<T>, gone: set<T>, x: T)
    ensures x in Keep(s, gone) <==> x in s && x !in gone
  {
    if s != [] {
      KeepElements(s[1..], gone, x);
      assert s == [s[0]] + s[1..];
    }
  }

  lemma {:induction false} KeepAppend<T>(s: seq<T>, t: seq<T>, gone: set<T>)
    ensures Keep(s + t, gone) == Keep(s, gone) + Keep(t, gone)
  {
    if s == [] {
      assert s + t == t;
    } else {
      assert (s + t)[0] == s[0] && (s + t)[1..] == s[1..] + t;
      KeepAppend(s[1..], t, gone);
      var head := if s[0] in gone then [] else [s[0]];
      assert head + (Keep(s[1..], gone) + Keep(t, gone)) == (head + Keep(s[1..], gone)) + Keep(t, gone);
    }
  }

  lemma {:induction false} KeepAll<T>(s: seq<T>, gone: set<T>)
    requires forall x :: x in s ==> x !in gone
    ensures Keep(s, gone) == s
  {
    if s != [] {
      KeepAll(s[1..], gone);
      assert s == [s[0]] + s[1..];
    }
  }

  lemma {:induction false} KeepKeep<T>(s: seq<T>, first: set<T>, second: set<T>)
    ensures Keep(Keep(s, first), second) == Keep(s, first + second)
  {
    if s != [] {
      KeepKeep(s[1..], first, second);
      var rest := Keep(s[1..], first);
      if s[0] in first {
        assert Keep(s, first) == rest;
        assert Keep(s, first + second) == Keep(s[1..], first + second);
      } else {
        assert Keep(s, first)[0] == s[0] && Keep(s, first)[1..] == rest;
      }
    }
  }

  lemma {:induction false} KeepDistinct<T>(s: seq<T>, gone: set<T>)
    requires NoDuplicates(s)
    ensures NoDuplicates(Keep(s, gone))
  {
    if s != [] {
      KeepDistinct(s[1..], gone);
      var t := Keep(s[1..], gone);
      KeepElements(s[1..], gone, s[0]);
      assert s[0] !in s[1..];
      assert forall j :: 0 <= j < |t| ==> t[j] in t;
    }
  }

  /** Erasing the first occurrence erases the element, because it is listed at most once. */
  lemma EraseFirstIsKeep<T>(s: seq<T>, x: T)
    requires NoDuplicates(s)
    ensures EraseFirst(s, x) == Keep(s, {x})
  {
    var i := IndexIn(s, x);
    if i == |s| {
      KeepWithout(s, x);
    } else {
      var a, b := s[..i], s[i + 1..];
      DistinctSplit(s, i);
      KeepSplit(a, x, b);
      KeepWithout(a, x);
      KeepWithout(b, x);
    }
  }

  lemma DistinctSplit<T>(s: seq<T>, i: nat)
    requires NoDuplicates(s) && i < |s|
    ensures s == s[..i] + ([s[i]] + s[i + 1..]) && s[i] !in s[..i] && s[i] !in s[i + 1..]
  {
  }

  lemma KeepWithout<T>(s: seq<T>, x: T)
    requires x !in s
    ensures Keep(s, {x}) == s
  {
    KeepAll(s, {x});
  }

  lemma KeepSplit<T>(a: seq<T>, x: T, b: seq<T>)
    ensures Keep(a + ([x] + b), {x}) == Keep(a, {x}) + Keep(b, {x})
  {
    KeepAppend(a, [x] + b, {x});
    KeepAppend([x], b, {x});
    KeepNone(x);
    assert [] + Keep(b, {x}) == Keep(b, {x});
  }

  lemma KeepNone<T>(x: T)
    ensures Keep([x], {x}) == []
  {
    assert [x][1..] == [];
  }

  /** The length drops exactly when something goes. */
  lemma {:induction false} KeepLength<T>(s: seq<T>, gone: set<T>)
    ensures |Keep(s, gone)| <= |s|
    ensures |Keep(s, gone)| < |s| <==> exists x :: x in s && x in gone
  {
    if s != [] {
      KeepLength(s[1..], gone);
      assert s == [s[0]] + s[1..];
      assert s[0] in gone ==> s[0] in s;
    }
  }

  /** One more element at the end. */
  lemma KeepSnoc<T>(s: seq<T>, x: T, gone: set<T>)
    ensures Keep(s + [x], gone) == if x in gone then Keep(s, gone) else Keep(s, gone) + [x]
  {
    KeepAppend(s, [x], gone);
    assert [x][1..] == [];
  }

  lemma EraseFirstLength<T>(s: seq<T>, x: T)
    requires x in s
    ensures |EraseFirst(s, x)| == |s| - 1
  {
  }

  /** Maps with the same keys and values are the same. */
  lemma SameMap<K, V>(a: map<K, V>, b: map<K, V>)
    requires forall k :: k in a <==> k in b
    requires forall k :: k in a && k in b ==> a[k] == b[k]
    ensures a == b
  {
  }

  lemma PrefixOfPrefix<T>(a: seq<T>, b: seq<T>, c: seq<T>)
    requires a <= b && b <= c
    ensures a <= c
  {
  }

  lemma Associative<T>(a: seq<T>, b: seq<T>, c: seq<T>)
    ensures (a + b) + c == a + (b + c)
  {
  }
}
