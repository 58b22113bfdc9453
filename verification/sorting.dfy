/**
  Stable sorting by a key, as `sort.SliceStable` does it.

  A stable sort is characterised by two facts: the output is ordered by the key, and the
  elements that share a key come out in the order they came in.  `StableOrderIsUnique` shows
  that these two facts leave exactly one output.
 */
module Sorting {

  // Keys are compared lexicographically; a one-level key leaves the second part 0.
  type Key = (int, int)

  predicate Before(a: Key, b: Key) {
    a.0 < b.0 || (a.0 == b.0 && a.1 < b.1)
  }

  ghost predicate Ordered<T>(s: seq<T>, key: T -> Key) {
    forall i, j :: 0 <= i < j < |s| ==> !Before(key(s[j]), key(s[i]))
  }

  /** The elements of `s` that carry key `k`, in their order. */
  function Class<T>(s: seq<T>, key: T -> Key, k: Key): seq<T> {
    if s == [] then []
    else (if key(s[0]) == k then [s[0]] else []) + Class(s[1..], key, k)
  }

  ghost predicate StableSortOf<T>(out: seq<T>, s: seq<T>, key: T -> Key) {
    && Ordered(out, key)
    && forall k :: Class(out, key, k) == Class(s, key, k)
  }

  /** Insertion sort: each element goes in front of its equals, which came after it. */
  function StableSort<T(!new)>(s: seq<T>, key: T -> Key): (r: seq<T>)
    ensures StableSortOf(r, s, key)
    ensures |r| == |s|
    ensures forall x :: x in r <==> x in s
  {
    if s == [] then []
    else
      var rest := StableSort(s[1..], key);
      assert s == [s[0]] + s[1..];
      Insert(s[0], rest, key)
  }

  function Insert<T(!new)>(x: T, s: seq<T>, key: T -> Key): (r: seq<T>)
    requires Ordered(s, key)
    ensures Ordered(r, key)
    ensures |r| == |s| + 1
    ensures forall y :: y in r <==> y == x || y in s
    ensures forall k :: Class(r, key, k) == (if key(x) == k then [x] else []) + Class(s, key, k)
  {
    if s == [] || !Before(key(s[0]), key(x)) then
      assert ([x] + s)[1..] == s;
      [x] + s
    else
      var rest := Insert(x, s[1..], key);
      assert ([s[0]] + rest)[1..] == rest;
      assert forall y :: y in s <==> y == s[0] || y in s[1..];
      LeastInFront(s, x, rest, key);
      [s[0]] + rest
  }

  lemma LeastInFront<T>(s: seq<T>, x: T, rest: seq<T>, key: T -> Key)
    requires s != [] && Ordered(s, key) && Ordered(rest, key) && Before(key(s[0]), key(x))
    requires forall y :: y in rest ==> y == x || y in s[1..]
    ensures Ordered([s[0]] + rest, key)
  {
    forall j | 0 <= j < |rest| ensures !Before(key(rest[j]), key(s[0])) {
      assert rest[j] in rest;
      if rest[j] != x {
        var k :| 0 <= k < |s[1..]| && s[1..][k] == rest[j];
        assert s[k + 1] == rest[j];
      }
    }
  }

  lemma {:induction false} ClassConcat<T>(a: seq<T>, b: seq<T>, key: T -> Key, k: Key)
    ensures Class(a + b, key, k) == Class(a, key, k) + Class(b, key, k)
  {
    if a == [] {
      assert a + b == b;
    } else {
      ClassConcat(a[1..], b, key, k);
      assert (a + b)[0] == a[0] && (a + b)[1..] == a[1..] + b;
    }
  }

  lemma {:induction false} ClassMembers<T>(s: seq<T>, key: T -> Key, k: Key, x: T)
    ensures x in Class(s, key, k) <==> x in s && key(x) == k
    ensures key(x) == k ==> multiset(Class(s, key, k))[x] == multiset(s)[x]
  {
    if s != [] {
      ClassMembers(s[1..], key, k, x);
      assert s == [s[0]] + s[1..];
    }
  }

  /** Sorting only rearranges. */
  lemma StableSortPermutes<T>(out: seq<T>, s: seq<T>, key: T -> Key)
    requires StableSortOf(out, s, key)
    ensures multiset(out) == multiset(s)
  {
    forall x ensures multiset(out)[x] == multiset(s)[x] {
      ClassMembers(out, key, key(x), x);
      ClassMembers(s, key, key(x), x);
    }
  }

  predicate Distinct<T(==)>(s: seq<T>) {
    forall i, j :: 0 <= i < j < |s| ==> s[i] != s[j]
  }

  /** Sorting does not repeat an element. */
  lemma SortingKeepsDistinct<T>(out: seq<T>, s: seq<T>, key: T -> Key)
    requires StableSortOf(out, s, key) && Distinct(s)
    ensures Distinct(out)
  {
    StableSortPermutes(out, s, key);
    forall i, j | 0 <= i < j < |out| ensures out[i] != out[j] {
      if out[i] == out[j] {
        TwiceInSequence(out, i, j);
        OnceInDistinct(s, out[i]);
      }
    }
  }

  lemma TwiceInSequence<T>(s: seq<T>, i: nat, j: nat)
    requires i < j < |s| && s[i] == s[j]
    ensures multiset(s)[s[i]] >= 2
  {
    assert s == s[..i] + [s[i]] + s[i + 1..j] + [s[j]] + s[j + 1..];
  }

  lemma {:induction false} OnceInDistinct<T>(s: seq<T>, x: T)
    requires Distinct(s)
    ensures multiset(s)[x] <= 1
  {
    if s != [] {
      var init, last := s[..|s| - 1], s[|s| - 1];
      assert s == init + [last];
      OnceInDistinct(init, x);
      forall i | 0 <= i < |init| ensures init[i] != last { assert s[i] != s[|s| - 1]; }
    }
  }

  lemma SameClassesSameHead<T>(a: seq<T>, b: seq<T>, key: T -> Key)
    requires Ordered(a, key) && Ordered(b, key)
    requires forall k :: Class(a, key, k) == Class(b, key, k)
    requires a != []
    ensures b != [] && a[0] == b[0]
  {
    ClassMembers(b, key, key(a[0]), a[0]);
    assert a[0] in Class(a, key, key(a[0]));
    ClassMembers(a, key, key(b[0]), b[0]);
    assert b[0] in Class(b, key, key(b[0]));
    assert Class(a, key, key(a[0]))[0] == a[0];
    assert Class(b, key, key(b[0]))[0] == b[0];
  }

  lemma SameClassesSameTails<T>(a: seq<T>, b: seq<T>, key: T -> Key, k: Key)
    requires a != [] && b != [] && a[0] == b[0]
    requires Class(a, key, k) == Class(b, key, k)
    ensures Class(a[1..], key, k) == Class(b[1..], key, k)
  {
    var head := if key(a[0]) == k then [a[0]] else [];
    assert Class(a, key, k) == head + Class(a[1..], key, k);
    assert Class(b, key, k) == head + Class(b[1..], key, k);
    assert Class(a[1..], key, k) == Class(a, key, k)[|head|..];
    assert Class(b[1..], key, k) == Class(b, key, k)[|head|..];
  }

  /** Order by key plus order within each key determine the output. */
  lemma {:induction false} StableOrderIsUnique<T>(a: seq<T>, b: seq<T>, key: T -> Key)
    requires Ordered(a, key) && Ordered(b, key)
    requires forall k :: Class(a, key, k) == Class(b, key, k)
    ensures a == b
  {
    if a == [] {
      if b != [] {
        SameClassesSameHead(b, a, key);
      }
    } else {
      SameClassesSameHead(a, b, key);
      forall k ensures Class(a[1..], key, k) == Class(b[1..], key, k) {
        SameClassesSameTails(a, b, key, k);
      }
      StableOrderIsUnique(a[1..], b[1..], key);
      assert a == [a[0]] + a[1..] && b == [b[0]] + b[1..];
    }
  }

  /** The element with the least key that comes first in the input comes first in the output. */
  lemma LeastComesFirst<T>(out: seq<T>, s: seq<T>, key: T -> Key, i: nat)
    requires StableSortOf(out, s, key)
    requires i < |s|
    requires forall j :: 0 <= j < i ==> Before(key(s[i]), key(s[j]))
    requires forall j :: i <= j < |s| ==> !Before(key(s[j]), key(s[i]))
    ensures |out| > 0 && out[0] == s[i]
  {
    var k := key(s[i]);
    assert s == s[..i] + s[i..];
    ClassConcat(s[..i], s[i..], key, k);
    if Class(s[..i], key, k) != [] {
      ClassMembers(s[..i], key, k, Class(s[..i], key, k)[0]);
      assert false;
    }
    assert Class(s, key, k)[0] == s[i];
    ClassMembers(out, key, k, s[i]);
    ClassMembers(s, key, key(out[0]), out[0]);
    assert out[0] in Class(out, key, key(out[0]));
    assert key(out[0]) == k;
    assert Class(out, key, k)[0] == out[0];
  }

  predicate InThisOrder<T(==)>(s: seq<T>, x: T, y: T) {
    exists p, q :: 0 <= p < q < |s| && s[p] == x && s[q] == y
  }

  lemma {:induction false} OrderInClass<T>(s: seq<T>, key: T -> Key, i: nat, j: nat)
    requires i < j < |s| && key(s[i]) == key(s[j])
    ensures InThisOrder(Class(s, key, key(s[i])), s[i], s[j])
  {
    var k := key(s[i]);
    var rest := Class(s[1..], key, k);
    if i == 0 {
      ClassMembers(s[1..], key, k, s[j]);
      assert s[1..][j - 1] == s[j];
      var y :| 0 <= y < |rest| && rest[y] == s[j];
      assert Class(s, key, k)[0] == s[0] && Class(s, key, k)[y + 1] == s[j];
    } else {
      OrderInClass(s[1..], key, i - 1, j - 1);
      OrderFromTail(s, key, k, s[i], s[j]);
    }
  }

  lemma OrderFromTail<T>(s: seq<T>, key: T -> Key, k: Key, x: T, y: T)
    requires s != [] && InThisOrder(Class(s[1..], key, k), x, y)
    ensures InThisOrder(Class(s, key, k), x, y)
  {
    var rest := Class(s[1..], key, k);
    var p, q :| 0 <= p < q < |rest| && rest[p] == x && rest[q] == y;
    var d := if key(s[0]) == k then 1 else 0;
    assert Class(s, key, k)[p + d] == x && Class(s, key, k)[q + d] == y;
  }

  lemma {:induction false} OrderOfClass<T>(s: seq<T>, key: T -> Key, k: Key, p: nat, q: nat)
    requires p < q < |Class(s, key, k)|
    ensures InThisOrder(s, Class(s, key, k)[p], Class(s, key, k)[q])
  {
    var d := if key(s[0]) == k then 1 else 0;
    var rest := Class(s[1..], key, k);
    var x, y := Class(s, key, k)[p], Class(s, key, k)[q];
    assert y == rest[q - d];
    if p >= d {
      OrderOfClass(s[1..], key, k, p - d, q - d);
      var a, b :| 0 <= a < b < |s[1..]| && s[1..][a] == x && s[1..][b] == y;
      assert s[a + 1] == x && s[b + 1] == y;
    } else {
      ClassMembers(s[1..], key, k, y);
      var b :| 0 <= b < |s[1..]| && s[1..][b] == y;
      assert s[0] == x && s[b + 1] == y;
    }
  }

  /** Elements with the same key come out in an order they came in. */
  lemma SortingIsStable<T>(out: seq<T>, s: seq<T>, key: T -> Key, i: nat, j: nat)
    requires StableSortOf(out, s, key) && i < j < |out| && key(out[i]) == key(out[j])
    ensures InThisOrder(s, out[i], out[j])
  {
    var k := key(out[i]);
    OrderInClass(out, key, i, j);
    var p, q :| 0 <= p < q < |Class(out, key, k)| && Class(out, key, k)[p] == out[i] && Class(out, key, k)[q] == out[j];
    OrderOfClass(s, key, k, p, q);
  }
}
