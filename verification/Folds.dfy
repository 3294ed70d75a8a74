/** Maps and folds over lists: sums of a measure, and concatenations of what items emit. */
module Folds {
  import opened Ordering

  function Map<T, U>(s: seq<T>, f: T -> U): (r: seq<U>)
    ensures |r| == |s| && forall i | 0 <= i < |s| :: r[i] == f(s[i])
  {
    seq(|s|, i requires 0 <= i < |s| => f(s[i]))
  }

  function Sum<T>(s: seq<T>, measure: T -> nat): nat {
    if s == [] then 0 else measure(s[0]) + Sum(s[1..], measure)
  }

  lemma {:induction false} SumConcat<T>(a: seq<T>, b: seq<T>, measure: T -> nat)
    ensures Sum(a + b, measure) == Sum(a, measure) + Sum(b, measure)
  {
    if a == [] {
      assert a + b == b;
    } else {
      assert (a + b)[1..] == a[1..] + b;
      SumConcat(a[1..], b, measure);
    }
  }

  lemma SumSnoc<T>(s: seq<T>, x: T, measure: T -> nat)
    ensures Sum(s + [x], measure) == Sum(s, measure) + measure(x)
  {
    SumConcat(s, [x], measure);
    assert [x][1..] == [];
  }

  lemma SumAt<T>(a: seq<T>, x: T, b: seq<T>, measure: T -> nat)
    ensures Sum(a + [x] + b, measure) == Sum(a + b, measure) + measure(x)
  {
    SumSnoc(a, x, measure);
    SumConcat(a + [x], b, measure);
    SumConcat(a, b, measure);
  }

  /** A sum does not depend on the order of the list. */
  lemma {:induction false} SumPermuted<T>(a: seq<T>, b: seq<T>, measure: T -> nat)
    requires multiset(a) == multiset(b)
    ensures Sum(a, measure) == Sum(b, measure)
    decreases |a|
  {
    if a == [] {
      assert |b| == |multiset(b)| == 0;
    } else {
      var before, after := SplitAround(b, a[0]);
      HeadMultiset(a);
      SumPermuted(a[1..], before + after, measure);
      SumAt(before, a[0], after, measure);
    }
  }

  /** `read`, followed by everything the items emit. */
  function Stream<T, U>(items: seq<T>, emits: T -> seq<U>, read: seq<U>): seq<U> {
    if items == [] then read
    else Stream(items[..|items| - 1], emits, read) + emits(items[|items| - 1])
  }

  lemma {:induction false} StreamExtends<T, U>(items: seq<T>, k: nat, emits: T -> seq<U>, read: seq<U>)
    requires k <= |items|
    ensures Stream(items[..k], emits, read) <= Stream(items, emits, read)
  {
    if k < |items| {
      var front := items[..|items| - 1];
      StreamExtends(front, k, emits, read);
      assert front[..k] == items[..k];
    } else {
      assert items[..k] == items;
    }
  }

  lemma {:induction false} StreamFrom<T, U>(items: seq<T>, emits: T -> seq<U>, read: seq<U>)
    ensures Stream(items, emits, read) == read + Stream(items, emits, [])
  {
    if items != [] { StreamFrom(items[..|items| - 1], emits, read); }
  }

  lemma StreamStep<T, U>(items: seq<T>, k: nat, emits: T -> seq<U>, read: seq<U>)
    requires k < |items|
    ensures Stream(items[..k + 1], emits, read) == Stream(items[..k], emits, read) + emits(items[k])
    ensures emits(items[k]) == [] ==> Stream(items[..k + 1], emits, read) == Stream(items[..k], emits, read)
    ensures Stream(items[..k + 1], emits, read) <= Stream(items, emits, read)
  {
    assert items[..k + 1][..k] == items[..k];
    StreamExtends(items, k + 1, emits, read);
  }

  lemma StreamSnoc<T, U>(items: seq<T>, x: T, emits: T -> seq<U>)
    ensures Stream(items + [x], emits, []) == Stream(items, emits, []) + emits(x)
  {
  }

  lemma {:induction false} StreamConcat<T, U>(a: seq<T>, b: seq<T>, emits: T -> seq<U>, read: seq<U>)
    ensures Stream(a + b, emits, read) == Stream(b, emits, Stream(a, emits, read))
  {
    if b == [] {
      assert a + b == a;
    } else {
      assert (a + b)[..|a + b| - 1] == a + b[..|b| - 1];
      StreamConcat(a, b[..|b| - 1], emits, read);
    }
  }

  lemma StreamAt<T, U>(a: seq<T>, x: T, b: seq<T>, emits: T -> seq<U>)
    ensures multiset(Stream(a + [x] + b, emits, [])) == multiset(Stream(a + b, emits, [])) + multiset(emits(x))
  {
    var before := Stream(a, emits, []);
    StreamConcat(a, b, emits, []);
    StreamConcat(a + [x], b, emits, []);
    assert Stream(a + [x], emits, []) == before + emits(x) by { assert (a + [x])[..|a|] == a; }
    StreamFrom(b, emits, before);
    StreamFrom(b, emits, before + emits(x));
  }

  /** Rearranging the items rearranges the stream. */
  lemma {:induction false} StreamPermuted<T, U>(a: seq<T>, b: seq<T>, emits: T -> seq<U>)
    requires multiset(a) == multiset(b)
    ensures multiset(Stream(a, emits, [])) == multiset(Stream(b, emits, []))
    decreases |a|
  {
    if a == [] {
      assert |b| == |multiset(b)| == 0;
    } else {
      var before, after := SplitAround(b, a[0]);
      HeadMultiset(a);
      StreamPermuted(a[1..], before + after, emits);
      StreamAt(before, a[0], after, emits);
      StreamAt([], a[0], a[1..], emits);
      assert a == [] + [a[0]] + a[1..] && [] + a[1..] == a[1..];
    }
  }

  /** Whatever is in a stream was emitted by one of the items. */
  lemma {:induction false} StreamMember<T, U>(items: seq<T>, emits: T -> seq<U>, u: U) returns (x: T)
    requires u in Stream(items, emits, [])
    ensures x in items && u in emits(x)
  {
    x := items[|items| - 1];
    if u !in emits(x) {
      x := StreamMember(items[..|items| - 1], emits, u);
    }
  }

  /** And whatever an item emits is in the stream. */
  lemma {:induction false} StreamHas<T, U>(items: seq<T>, emits: T -> seq<U>, x: T, u: U)
    requires x in items && u in emits(x)
    ensures u in Stream(items, emits, [])
  {
    if x != items[|items| - 1] {
      assert x in items[..|items| - 1];
      StreamHas(items[..|items| - 1], emits, x, u);
    }
  }

  lemma {:induction false} SumSplit<T>(s: seq<T>, whole: T -> nat, part: T -> nat, rest: T -> nat)
    requires forall x | x in s :: whole(x) == part(x) + rest(x)
    ensures Sum(s, whole) == Sum(s, part) + Sum(s, rest)
  {
    if s != [] {
      assert forall x | x in s[1..] :: x in s;
      SumSplit(s[1..], whole, part, rest);
    }
  }

  lemma {:induction false} SumSame<T>(s: seq<T>, f: T -> nat, g: T -> nat)
    requires forall x | x in s :: f(x) == g(x)
    ensures Sum(s, f) == Sum(s, g)
  {
    if s != [] {
      assert forall x | x in s[1..] :: x in s;
      SumSame(s[1..], f, g);
    }
  }

  /** A sum of smaller terms is smaller, and equal only when every term is. */
  lemma {:induction false} SumBelow<T>(s: seq<T>, f: T -> nat, g: T -> nat)
    requires forall x | x in s :: f(x) <= g(x)
    ensures Sum(s, f) <= Sum(s, g)
    ensures Sum(s, f) == Sum(s, g) <==> forall x | x in s :: f(x) == g(x)
  {
    if s != [] {
      assert forall x :: x in s <==> x == s[0] || x in s[1..];
      SumBelow(s[1..], f, g);
      if f(s[0]) == g(s[0]) && Sum(s[1..], f) == Sum(s[1..], g) {
        assert forall x | x in s :: f(x) == g(x);
      }
    }
  }

  /** Summing a stream is summing what each item emits. */
  lemma {:induction false} SumStream<T, U>(items: seq<T>, emits: T -> seq<U>, measure: U -> nat)
    ensures Sum(Stream(items, emits, []), measure) == Sum(items, x => Sum(emits(x), measure))
  {
    if items != [] {
      var front, last := items[..|items| - 1], items[|items| - 1];
      SumStream(front, emits, measure);
      SumConcat(Stream(front, emits, []), emits(last), measure);
      SumSnoc(front, last, x => Sum(emits(x), measure));
      assert items == front + [last];
    }
  }

  lemma SumStreamAs<T, U>(items: seq<T>, emits: T -> seq<U>, measure: U -> nat, total: T -> nat)
    requires forall x | x in items :: Sum(emits(x), measure) == total(x)
    ensures Sum(Stream(items, emits, []), measure) == Sum(items, total)
  {
    SumStream(items, emits, measure);
    SumSame(items, x => Sum(emits(x), measure), total);
  }

  lemma {:induction false} StreamPart<T, U>(items: seq<T>, emits: T -> seq<U>, x: T)
    requires x in items
    ensures |emits(x)| <= |Stream(items, emits, [])|
  {
    if x != items[|items| - 1] {
      assert x in items[..|items| - 1];
      StreamPart(items[..|items| - 1], emits, x);
    }
  }

  lemma {:induction false} StreamSame<T, U>(items: seq<T>, f: T -> seq<U>, g: T -> seq<U>)
    requires forall x | x in items :: f(x) == g(x)
    ensures Stream(items, f, []) == Stream(items, g, [])
  {
    if items != [] {
      assert forall x | x in items[..|items| - 1] :: x in items;
      StreamSame(items[..|items| - 1], f, g);
    }
  }
}
