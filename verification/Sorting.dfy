/** Byte order, and sorting a copy of a slice by a caller's order. Any other correct sort gives
    the same slice when only equal elements tie (SortedPermutationsAgree). */
module Sorting {
  import opened Basics

  // bytes.Compare(a, b) < 0
  predicate Less(a: bytes, b: bytes) {
    if b == [] then false
    else if a == [] then true
    else a[0] < b[0] || (a[0] == b[0] && Less(a[1..], b[1..]))
  }

  lemma {:induction false} LessTrichotomy(a: bytes, b: bytes)
    ensures a == b ==> !Less(a, b)
    ensures a != b ==> Less(a, b) != Less(b, a)
  {
    if a != [] && b != [] {
      LessTrichotomy(a[1..], b[1..]);
      assert a == [a[0]] + a[1..] && b == [b[0]] + b[1..];
    }
  }

  lemma {:induction false} LessTransitive(a: bytes, b: bytes, c: bytes)
    ensures Less(a, b) && Less(b, c) ==> Less(a, c)
  {
    if a != [] && b != [] && c != [] {
      LessTransitive(a[1..], b[1..], c[1..]);
    }
  }

  // Byte strings compare like words in a dictionary: a prefix first, else by the first byte that differs
  ghost predicate Precedes(a: bytes, b: bytes) {
    exists k: nat :: k <= |a| && k <= |b| && a[..k] == b[..k] && (if k < |a| then k < |b| && a[k] < b[k] else k < |b|)
  }

  lemma {:induction false} LessIsDictionaryOrder(a: bytes, b: bytes)
    ensures Less(a, b) <==> Precedes(a, b)
  {
    if a == [] || b == [] {
      assert b != [] ==> a[..0] == b[..0];
    } else {
      var x, y := a[1..], b[1..];
      LessIsDictionaryOrder(x, y);
      if a[0] == b[0] && Precedes(x, y) {
        var k: nat :| k <= |x| && k <= |y| && x[..k] == y[..k] && (if k < |x| then k < |y| && x[k] < y[k] else k < |y|);
        assert a[..k + 1] == [a[0]] + x[..k] && b[..k + 1] == [b[0]] + y[..k];
      }
      if a[0] < b[0] {
        assert a[..0] == b[..0];
      }
      if Precedes(a, b) {
        var k: nat :| k <= |a| && k <= |b| && a[..k] == b[..k] && (if k < |a| then k < |b| && a[k] < b[k] else k < |b|);
        if k > 0 {
          assert a[0] == a[..k][0] == b[..k][0] == b[0];
          assert x[..k - 1] == a[..k][1..] && y[..k - 1] == b[..k][1..];
        }
      }
    }
  }

  // What a sort needs of its comparison: ties are an equivalence
  ghost predicate StrictWeak<T(!new)>(before: (T, T) -> bool) {
    && (forall x, y :: before(x, y) ==> !before(y, x))
    && (forall x, y, z :: before(x, z) ==> before(x, y) || before(y, z))
  }

  ghost predicate Sorted<T>(xs: seq<T>, before: (T, T) -> bool) {
    forall i, j :: 0 <= i < j < |xs| ==> !before(xs[j], xs[i])
  }

  // The order tells different elements of xs apart
  ghost predicate OnlyEqualsTie<T>(xs: seq<T>, before: (T, T) -> bool) {
    forall x, y :: x in xs && y in xs ==> x == y || before(x, y) || before(y, x)
  }

  function Insert<T>(x: T, xs: seq<T>, before: (T, T) -> bool): seq<T> {
    if xs == [] then [x]
    else if before(x, xs[0]) then [x] + xs
    else [xs[0]] + Insert(x, xs[1..], before)
  }

  function Sort<T>(xs: seq<T>, before: (T, T) -> bool): seq<T> {
    if xs == [] then [] else Insert(xs[0], Sort(xs[1..], before), before)
  }

  lemma {:induction false} InsertKeepsElements<T(!new)>(x: T, xs: seq<T>, before: (T, T) -> bool)
    ensures multiset(Insert(x, xs, before)) == multiset{x} + multiset(xs)
  {
    if xs != [] && !before(x, xs[0]) {
      InsertKeepsElements(x, xs[1..], before);
      assert xs == [xs[0]] + xs[1..];
    }
  }

  lemma {:induction false} InsertSorts<T(!new)>(x: T, xs: seq<T>, before: (T, T) -> bool)
    requires StrictWeak(before) && Sorted(xs, before)
    ensures Sorted(Insert(x, xs, before), before)
  {
    if xs != [] {
      if before(x, xs[0]) {
        forall j | 0 <= j < |xs| ensures !before(xs[j], x) {
          assert before(xs[j], xs[0]) || before(xs[0], x) || !before(xs[j], x);
        }
      } else {
        var rest := Insert(x, xs[1..], before);
        InsertSorts(x, xs[1..], before);
        InsertKeepsElements(x, xs[1..], before);
        forall j | 0 <= j < |rest| ensures !before(rest[j], xs[0]) {
          assert rest[j] in multiset(rest);
          assert rest[j] == x || rest[j] in xs[1..];
        }
      }
    }
  }

  lemma {:induction false} SortSorts<T(!new)>(xs: seq<T>, before: (T, T) -> bool)
    requires StrictWeak(before)
    ensures Sorted(Sort(xs, before), before)
    ensures multiset(Sort(xs, before)) == multiset(xs)
  {
    if xs != [] {
      SortSorts(xs[1..], before);
      InsertSorts(xs[0], Sort(xs[1..], before), before);
      InsertKeepsElements(xs[0], Sort(xs[1..], before), before);
      assert xs == [xs[0]] + xs[1..];
    }
  }

  lemma SmallestFirst<T(!new)>(xs: seq<T>, ys: seq<T>, before: (T, T) -> bool)
    requires xs != [] && multiset(xs) == multiset(ys)
    requires OnlyEqualsTie(xs, before)
    requires Sorted(xs, before) && Sorted(ys, before)
    ensures ys != [] && xs[0] == ys[0]
  {
    assert xs[0] in multiset(ys);
    assert ys[0] in multiset(xs);
    var i :| 0 <= i < |xs| && xs[i] == ys[0];
    var j :| 0 <= j < |ys| && ys[j] == xs[0];
    var below, above := before(xs[0], xs[i]), before(xs[i], xs[0]);
    assert xs[0] == xs[i] || below || above;
  }

  lemma SameElements<T>(xs: seq<T>, ys: seq<T>)
    requires multiset(xs) == multiset(ys)
    ensures forall x :: x in xs <==> x in ys
  {
    assert forall x :: x in xs <==> x in multiset(xs);
    assert forall x :: x in ys <==> x in multiset(ys);
  }

  lemma TailElements<T>(xs: seq<T>)
    requires xs != []
    ensures multiset(xs[1..]) == multiset(xs) - multiset{xs[0]}
  {
    assert xs == [xs[0]] + xs[1..];
  }

  // Without ties there is only one sorted arrangement, whichever algorithm finds it
  lemma {:induction false} SortedPermutationsAgree<T(!new)>(xs: seq<T>, ys: seq<T>, before: (T, T) -> bool)
    requires multiset(xs) == multiset(ys)
    requires OnlyEqualsTie(xs, before)
    requires Sorted(xs, before) && Sorted(ys, before)
    ensures xs == ys
  {
    if xs == [] {
      assert |multiset(ys)| == 0;
    } else {
      SmallestFirst(xs, ys, before);
      TailElements(xs);
      TailElements(ys);
      SortedPermutationsAgree(xs[1..], ys[1..], before);
      assert xs == [xs[0]] + xs[1..] && ys == [ys[0]] + ys[1..];
    }
  }

  // Sorting two arrangements of the same elements gives the same slice
  lemma SortForgetsOrder<T(!new)>(xs: seq<T>, ys: seq<T>, before: (T, T) -> bool)
    requires StrictWeak(before) && OnlyEqualsTie(xs, before) && multiset(xs) == multiset(ys)
    ensures Sort(xs, before) == Sort(ys, before)
  {
    SortSorts(xs, before);
    SortSorts(ys, before);
    SameElements(xs, Sort(xs, before));
    SortedPermutationsAgree(Sort(xs, before), Sort(ys, before), before);
  }
}
