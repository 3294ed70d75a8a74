/** Sorting by a key: what any correct sort determines, and the stable sort. */
module Ordering {
  import opened Text

  /** A sort key: the smaller rank first, then the ids compared one after the other. */
  datatype Key = Key(rank: int, ids: seq<string>)

  predicate IdsBelow(a: seq<string>, b: seq<string>) {
    b != [] && (a == [] || Below(a[0], b[0]) || (a[0] == b[0] && IdsBelow(a[1..], b[1..])))
  }

  predicate KeyBelow(a: Key, b: Key) {
    a.rank < b.rank || (a.rank == b.rank && IdsBelow(a.ids, b.ids))
  }

  lemma {:induction false} IdsTransitive(a: seq<string>, b: seq<string>, c: seq<string>)
    requires IdsBelow(a, b) && IdsBelow(b, c)
    ensures IdsBelow(a, c)
  {
    if a != [] {
      if a[0] == b[0] == c[0] {
        if IdsBelow(a[1..], b[1..]) && IdsBelow(b[1..], c[1..]) { IdsTransitive(a[1..], b[1..], c[1..]); }
        BelowTrichotomy(a[0], a[0]);
      } else if Below(a[0], b[0]) && Below(b[0], c[0]) {
        BelowTransitive(a[0], b[0], c[0]);
      } else {
        BelowTrichotomy(a[0], b[0]);
        BelowTrichotomy(b[0], c[0]);
      }
    }
  }

  lemma {:induction false} IdsTrichotomy(a: seq<string>, b: seq<string>)
    ensures a == b <==> !IdsBelow(a, b) && !IdsBelow(b, a)
    ensures !(IdsBelow(a, b) && IdsBelow(b, a))
  {
    if a != [] && b != [] {
      BelowTrichotomy(a[0], b[0]);
      if a[0] == b[0] {
        IdsTrichotomy(a[1..], b[1..]);
        assert a == [a[0]] + a[1..] && b == [b[0]] + b[1..];
      }
    }
  }

  /** `KeyBelow` is a strict total order of keys, hence a strict weak order of items. */
  lemma KeyOrder(a: Key, b: Key, c: Key)
    ensures KeyBelow(a, b) && KeyBelow(b, c) ==> KeyBelow(a, c)
    ensures a == b <==> !KeyBelow(a, b) && !KeyBelow(b, a)
    ensures !(KeyBelow(a, b) && KeyBelow(b, a))
    ensures !KeyBelow(b, a) && !KeyBelow(c, b) ==> !KeyBelow(c, a)
  {
    IdsTrichotomy(a.ids, b.ids);
    IdsTrichotomy(b.ids, c.ids);
    IdsTrichotomy(a.ids, c.ids);
    if IdsBelow(a.ids, b.ids) && IdsBelow(b.ids, c.ids) { IdsTransitive(a.ids, b.ids, c.ids); }
    if IdsBelow(c.ids, a.ids) && IdsBelow(a.ids, b.ids) { IdsTransitive(c.ids, a.ids, b.ids); }
    if IdsBelow(b.ids, c.ids) && IdsBelow(c.ids, a.ids) { IdsTransitive(b.ids, c.ids, a.ids); }
  }

  predicate Sorted<T>(s: seq<T>, key: T -> Key) {
    forall i, j | 0 <= i < j < |s| :: !KeyBelow(key(s[j]), key(s[i]))
  }

  function Keys<T>(s: seq<T>, key: T -> Key): (ks: seq<Key>)
    ensures |ks| == |s|
    ensures forall i | 0 <= i < |s| :: ks[i] == key(s[i])
  {
    seq(|s|, i requires 0 <= i < |s| => key(s[i]))
  }

  predicate DistinctKeys<T>(s: seq<T>, key: T -> Key) {
    forall i, j | 0 <= i < j < |s| :: key(s[i]) != key(s[j])
  }

  /** An occurrence of x splits a list. */
  lemma SplitAround<T>(s: seq<T>, x: T) returns (before: seq<T>, after: seq<T>)
    requires x in multiset(s)
    ensures s == before + [x] + after
    ensures multiset(before + after) == multiset(s) - multiset{x}
  {
    var i :| 0 <= i < |s| && s[i] == x;
    before, after := s[..i], s[i + 1..];
    assert s == before + [x] + after;
  }

  lemma HeadMultiset<T>(s: seq<T>)
    requires s != []
    ensures multiset(s[1..]) == multiset(s) - multiset{s[0]}
    ensures multiset(s) == multiset(s[1..]) + multiset{s[0]}
  {
    assert s == [s[0]] + s[1..];
  }

  lemma KeysAt<T>(a: seq<T>, x: T, b: seq<T>, key: T -> Key)
    ensures multiset(Keys(a + [x] + b, key)) == multiset(Keys(a + b, key)) + multiset{key(x)}
  {
    assert Keys(a + [x] + b, key) == Keys(a, key) + [key(x)] + Keys(b, key);
    assert Keys(a + b, key) == Keys(a, key) + Keys(b, key);
  }

  lemma KeysHead<T>(s: seq<T>, key: T -> Key)
    requires s != []
    ensures multiset(Keys(s, key)) == multiset(Keys(s[1..], key)) + multiset{key(s[0])}
  {
    assert Keys(s, key) == [key(s[0])] + Keys(s[1..], key);
  }

  lemma {:induction false} PermutedKeys<T>(a: seq<T>, b: seq<T>, key: T -> Key)
    requires multiset(a) == multiset(b)
    ensures multiset(Keys(a, key)) == multiset(Keys(b, key))
    decreases |a|
  {
    if a == [] {
      assert |b| == |multiset(b)| == 0;
      assert Keys(a, key) == Keys(b, key);
    } else {
      var before, after := SplitAround(b, a[0]);
      HeadMultiset(a);
      PermutedKeys(a[1..], before + after, key);
      KeysAt(before, a[0], after, key);
      KeysHead(a, key);
    }
  }

  predicate SortedKeys(ks: seq<Key>) {
    forall i, j | 0 <= i < j < |ks| :: !KeyBelow(ks[j], ks[i])
  }

  /** Two sorted arrangements of the same keys are the same sequence. */
  lemma {:induction false} SortedKeysUnique(a: seq<Key>, b: seq<Key>)
    requires multiset(a) == multiset(b)
    requires SortedKeys(a) && SortedKeys(b)
    ensures a == b
  {
    assert |a| == |multiset(a)| == |multiset(b)| == |b|;
    if a != [] {
      assert a[0] in multiset(b) && b[0] in multiset(a);
      KeyOrder(a[0], b[0], a[0]);
      assert a[0] == b[0];
      HeadMultiset(a);
      HeadMultiset(b);
      SortedKeysUnique(a[1..], b[1..]);
    }
  }

  lemma {:induction false} Multiplicity(ks: seq<Key>, k: Key)
    ensures multiset(ks)[k] <= 1 <==> forall i, j | 0 <= i < j < |ks| :: !(ks[i] == k && ks[j] == k)
    ensures multiset(ks)[k] == 0 <==> k !in ks
  {
    if ks != [] {
      HeadMultiset(ks);
      Multiplicity(ks[1..], k);
      var rest := ks[1..];
      assert forall i | 0 <= i < |rest| :: rest[i] == ks[i + 1];
      assert k in ks <==> k == ks[0] || k in rest;
      if multiset(ks)[k] <= 1 {
        forall i, j | 0 <= i < j < |ks| ensures !(ks[i] == k && ks[j] == k) {
          assert ks[j] == rest[j - 1];
          if i > 0 { assert ks[i] == rest[i - 1]; }
        }
      } else if ks[0] == k {
        assert k in rest;
      } else {
        var i, j :| 0 <= i < j < |rest| && rest[i] == k && rest[j] == k;
        assert ks[i + 1] == k && ks[j + 1] == k;
      }
    }
  }

  /** Having distinct keys does not depend on the order. */
  lemma DistinctPermuted<T>(a: seq<T>, b: seq<T>, key: T -> Key)
    requires multiset(a) == multiset(b) && DistinctKeys(a, key)
    ensures DistinctKeys(b, key)
  {
    PermutedKeys(a, b, key);
    forall i, j | 0 <= i < j < |b| ensures key(b[i]) != key(b[j]) {
      Multiplicity(Keys(a, key), key(b[i]));
      Multiplicity(Keys(b, key), key(b[i]));
      assert Keys(b, key)[i] == key(b[i]) && Keys(b, key)[j] == key(b[j]);
    }
  }

  /** Any two sorts of any two arrangements of the same items agree on the key at every position,
      and on the items themselves when no two items share a key. */
  lemma SortsAgree<T>(a: seq<T>, b: seq<T>, key: T -> Key)
    requires multiset(a) == multiset(b)
    requires Sorted(a, key) && Sorted(b, key)
    ensures Keys(a, key) == Keys(b, key)
    ensures DistinctKeys(a, key) ==> a == b
  {
    PermutedKeys(a, b, key);
    SortedKeysUnique(Keys(a, key), Keys(b, key));
    if DistinctKeys(a, key) {
      forall i | 0 <= i < |a| ensures a[i] == b[i] {
        assert Keys(a, key)[i] == Keys(b, key)[i];
        assert b[i] in multiset(a);
        var j :| 0 <= j < |a| && a[j] == b[i];
        assert key(a[j]) == key(a[i]);
      }
    }
  }

  function Take<T>(s: seq<T>, n: nat): (t: seq<T>)
    ensures |t| == if |s| <= n then |s| else n
  {
    if |s| <= n then s else s[..n]
  }

  /** Truncating again and again is one truncation at the smallest limit. */
  lemma TakeTwice<T>(s: seq<T>, m: nat, n: nat)
    ensures Take(Take(s, m), n) == Take(s, if m < n then m else n)
  {
  }

  lemma TakeKeys<T>(s: seq<T>, n: nat, key: T -> Key)
    ensures Keys(Take(s, n), key) == Take(Keys(s, key), n)
  {
  }

  /** The n first items of a sorted list are a top-n selection: nothing dropped precedes anything kept. */
  lemma TakeIsTop<T>(s: seq<T>, n: nat, key: T -> Key)
    requires Sorted(s, key)
    ensures multiset(Take(s, n)) <= multiset(s)
    ensures forall k, d | k in Take(s, n) && d in multiset(s) - multiset(Take(s, n)) :: !KeyBelow(key(d), key(k))
  {
    if |s| > n {
      assert s == s[..n] + s[n..];
      forall k, d | k in s[..n] && d in multiset(s) - multiset(s[..n]) ensures !KeyBelow(key(d), key(k)) {
        assert d in multiset(s[n..]);
        var i :| 0 <= i < n && s[i] == k;
        var j :| n <= j < |s| && s[j] == d;
      }
    }
  }

  /** The items of s whose key is k, in their order. */
  function WithKey<T>(s: seq<T>, key: T -> Key, k: Key): (t: seq<T>) {
    if s == [] then []
    else WithKey(s[..|s| - 1], key, k) + (if key(s[|s| - 1]) == k then [s[|s| - 1]] else [])
  }

  /** x put into a sorted list behind every item that x is not below. */
  function Insert<T>(t: seq<T>, x: T, key: T -> Key): (r: seq<T>)
    ensures |r| == |t| + 1
  {
    if t == [] || !KeyBelow(key(x), key(t[|t| - 1])) then t + [x]
    else Insert(t[..|t| - 1], x, key) + [t[|t| - 1]]
  }

  function StableSort<T>(s: seq<T>, key: T -> Key): (r: seq<T>)
    ensures |r| == |s|
  {
    if s == [] then [] else Insert(StableSort(s[..|s| - 1], key), s[|s| - 1], key)
  }

  lemma {:induction false} InsertPermutes<T>(t: seq<T>, x: T, key: T -> Key)
    ensures multiset(Insert(t, x, key)) == multiset(t) + multiset{x}
  {
    if t != [] && KeyBelow(key(x), key(t[|t| - 1])) {
      InsertPermutes(t[..|t| - 1], x, key);
      assert t == t[..|t| - 1] + [t[|t| - 1]];
    }
  }

  lemma {:induction false} StableSortPermutes<T>(s: seq<T>, key: T -> Key)
    ensures multiset(StableSort(s, key)) == multiset(s)
  {
    if s != [] {
      StableSortPermutes(s[..|s| - 1], key);
      InsertPermutes(StableSort(s[..|s| - 1], key), s[|s| - 1], key);
      assert s == s[..|s| - 1] + [s[|s| - 1]];
    }
  }

  lemma {:induction false} InsertSorted<T>(t: seq<T>, x: T, key: T -> Key)
    requires Sorted(t, key)
    ensures Sorted(Insert(t, x, key), key)
  {
    var r := Insert(t, x, key);
    if t == [] || !KeyBelow(key(x), key(t[|t| - 1])) {
      forall i, j | 0 <= i < j < |r| ensures !KeyBelow(key(r[j]), key(r[i])) {
        if j == |t| { KeyOrder(key(t[i]), key(t[|t| - 1]), key(x)); KeyOrder(key(t[i]), key(x), key(x)); }
      }
    } else {
      var front, last := t[..|t| - 1], t[|t| - 1];
      InsertSorted(front, x, key);
      forall i, j | 0 <= i < j < |r| ensures !KeyBelow(key(r[j]), key(r[i])) {
        if j == |t| {
          InsertPermutes(front, x, key);
          assert r[i] in multiset(front) + multiset{x};
          KeyOrder(key(x), key(last), key(x));
        }
      }
    }
  }

  lemma {:induction false} StableSortSorted<T>(s: seq<T>, key: T -> Key)
    ensures Sorted(StableSort(s, key), key)
  {
    if s != [] {
      StableSortSorted(s[..|s| - 1], key);
      InsertSorted(StableSort(s[..|s| - 1], key), s[|s| - 1], key);
    }
  }

  lemma WithKeySnoc<T>(t: seq<T>, x: T, key: T -> Key, k: Key)
    ensures WithKey(t + [x], key, k) == WithKey(t, key, k) + (if key(x) == k then [x] else [])
  {
  }

  lemma {:induction false} InsertStable<T>(t: seq<T>, x: T, key: T -> Key, k: Key)
    requires Sorted(t, key)
    ensures WithKey(Insert(t, x, key), key, k) == WithKey(t + [x], key, k)
  {
    if t != [] && KeyBelow(key(x), key(t[|t| - 1])) {
      var front, last := t[..|t| - 1], t[|t| - 1];
      InsertStable(front, x, key, k);
      WithKeySnoc(Insert(front, x, key), last, key, k);
      WithKeySnoc(front, x, key, k);
      WithKeySnoc(t, x, key, k);
      KeyOrder(key(x), key(last), key(x));
    }
  }

  /** The sort is stable: items that share a key keep their order. */
  lemma {:induction false} StableSortStable<T>(s: seq<T>, key: T -> Key, k: Key)
    ensures WithKey(StableSort(s, key), key, k) == WithKey(s, key, k)
  {
    if s != [] {
      var front, last := s[..|s| - 1], s[|s| - 1];
      StableSortStable(front, key, k);
      StableSortSorted(front, key);
      InsertStable(StableSort(front, key), last, key, k);
      WithKeySnoc(StableSort(front, key), last, key, k);
    }
  }

  lemma {:induction false} InsertAt<T>(t: seq<T>, x: T, j: nat, key: T -> Key)
    requires j <= |t|
    requires j > 0 ==> !KeyBelow(key(x), key(t[j - 1]))
    requires forall m | j <= m < |t| :: KeyBelow(key(x), key(t[m]))
    ensures Insert(t, x, key) == t[..j] + [x] + t[j..]
  {
    if j < |t| {
      var front := t[..|t| - 1];
      InsertAt(front, x, j, key);
      assert front[..j] == t[..j] && t[j..] == front[j..] + [t[|t| - 1]];
    } else {
      assert t[..j] == t && t[j..] == [];
    }
  }

  /** Moves a[i] down into the sorted part before it. */
  method InsertInPlace<T>(a: array<T>, i: nat, key: T -> Key)
    requires i < a.Length
    modifies a
    ensures a[..i + 1] == Insert(old(a[..i]), old(a[i]), key)
    ensures forall m | i < m < a.Length :: a[m] == old(a[m])
  {
    ghost var t := a[..i];
    var x := a[i];
    var j := i;
    while j > 0 && KeyBelow(key(x), key(a[j - 1]))
      invariant 0 <= j <= i && a[j] == x
      invariant forall m | 0 <= m < j :: a[m] == t[m]
      invariant forall m | j < m <= i :: a[m] == t[m - 1]
      invariant forall m | j <= m < i :: KeyBelow(key(x), key(t[m]))
      invariant forall m | i < m < a.Length :: a[m] == old(a[m])
    {
      a[j], a[j - 1] := a[j - 1], a[j];
      j := j - 1;
    }
    InsertAt(t, x, j, key);
  }

  lemma StableSortStep<T>(s: seq<T>, i: nat, key: T -> Key)
    requires i < |s|
    ensures StableSort(s[..i + 1], key) == Insert(StableSort(s[..i], key), s[i], key)
  {
    assert s[..i + 1][..i] == s[..i];
  }

  /** Sorts an array in place, stably, by insertion. */
  method SortSliceStable<T>(a: array<T>, key: T -> Key)
    modifies a
    ensures a[..] == StableSort(old(a[..]), key)
  {
    ghost var was := a[..];
    for i := 0 to a.Length
      invariant a[..i] == StableSort(was[..i], key)
      invariant forall m | i <= m < a.Length :: a[m] == was[m]
    {
      StableSortStep(was, i, key);
      InsertInPlace(a, i, key);
    }
    assert a[..a.Length] == a[..] && was[..a.Length] == was;
  }

  /** Sorts an array in place. As with sort.Slice, the contract leaves the order of items that
      share a key open. */
  method SortSlice<T>(a: array<T>, key: T -> Key)
    modifies a
    ensures multiset(a[..]) == multiset(old(a[..]))
    ensures Sorted(a[..], key)
  {
    StableSortSorted(a[..], key);
    StableSortPermutes(a[..], key);
    SortSliceStable(a, key);
  }
}
