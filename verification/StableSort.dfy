/** `Array.prototype.sort` is stable: this module says what that means and that it leaves no
    choice.  `before(a, b)` stands for a comparator that answers a negative number. */
module StableSort {
  ghost predicate StrictWeakOrder<T(!new)>(before: (T, T) -> bool) {
    && (forall a :: !before(a, a))
    && (forall a, b, c :: before(a, b) && before(b, c) ==> before(a, c))
    && (forall a, b, c :: before(a, c) ==> before(a, b) || before(b, c))
  }

  /** Neither comes first. */
  predicate Tied<T>(before: (T, T) -> bool, a: T, b: T) { !before(a, b) && !before(b, a) }

  /** `x` stands in front of `s` in the input, so it only yields to strictly smaller elements. */
  function Insert<T>(x: T, s: seq<T>, before: (T, T) -> bool): seq<T> {
    if s != [] && before(s[0], x) then [s[0]] + Insert(x, s[1..], before) else [x] + s
  }

  function Sort<T>(s: seq<T>, before: (T, T) -> bool): seq<T> {
    if s == [] then [] else Insert(s[0], Sort(s[1..], before), before)
  }

  ghost predicate Sorted<T>(s: seq<T>, before: (T, T) -> bool) {
    forall i, j :: 0 <= i < j < |s| ==> !before(s[j], s[i])
  }

  /** The elements of `s` that tie with `x`, in order. */
  function TiesOf<T>(s: seq<T>, before: (T, T) -> bool, x: T): seq<T> {
    if s == [] then []
    else (if Tied(before, x, s[0]) then [s[0]] else []) + TiesOf(s[1..], before, x)
  }

  /** `r` is `s` in order, with tied elements kept in the order they had. */
  ghost predicate IsStableSort<T(!new)>(r: seq<T>, s: seq<T>, before: (T, T) -> bool) {
    Sorted(r, before) && forall x :: TiesOf(r, before, x) == TiesOf(s, before, x)
  }

  lemma {:induction false} TiesOfAppend<T>(s: seq<T>, t: seq<T>, before: (T, T) -> bool, x: T)
    ensures TiesOf(s + t, before, x) == TiesOf(s, before, x) + TiesOf(t, before, x)
  {
    if s == [] {
      assert s + t == t;
    } else {
      var st := s + t;
      assert st != [] && st[0] == s[0] && st[1..] == s[1..] + t;
      TiesOfAppend(s[1..], t, before, x);
      var h := if Tied(before, x, s[0]) then [s[0]] else [];
      var a, b := TiesOf(s[1..], before, x), TiesOf(t, before, x);
      assert TiesOf(st, before, x) == h + (a + b) == (h + a) + b;
    }
  }

  lemma InsertTies<T(!new)>(e: T, s: seq<T>, before: (T, T) -> bool, x: T)
    requires StrictWeakOrder(before)
    ensures TiesOf(Insert(e, s, before), before, x) == TiesOf([e] + s, before, x)
  {
    assert ([e] + s)[1..] == s;
    if s != [] && before(s[0], e) {
      InsertTies(e, s[1..], before, x);
      var r := Insert(e, s[1..], before);
      assert Insert(e, s, before)[1..] == r && ([e] + s[1..])[1..] == s[1..];
      assert !(Tied(before, x, e) && Tied(before, x, s[0]));
    }
  }

  lemma InsertSorted<T(!new)>(e: T, s: seq<T>, before: (T, T) -> bool)
    requires StrictWeakOrder(before) && Sorted(s, before)
    ensures Sorted(Insert(e, s, before), before)
    ensures forall y :: y in Insert(e, s, before) <==> y == e || y in s
  {
    if s != [] && before(s[0], e) {
      InsertSorted(e, s[1..], before);
      var r := Insert(e, s[1..], before);
      forall j | 0 <= j < |r| ensures !before(r[j], s[0]) {
        assert r[j] == e || r[j] in s[1..];
      }
    } else if s != [] {
      forall j | 0 <= j < |s| ensures !before(s[j], e) {
        assert j > 0 ==> !before(s[j], s[0]);
      }
    }
  }

  lemma {:induction false} SortIsStable<T(!new)>(s: seq<T>, before: (T, T) -> bool)
    requires StrictWeakOrder(before)
    ensures IsStableSort(Sort(s, before), s, before)
    ensures forall y :: y in Sort(s, before) <==> y in s
  {
    if s != [] {
      var r := Sort(s[1..], before);
      SortIsStable(s[1..], before);
      InsertSorted(s[0], r, before);
      forall x ensures TiesOf(Sort(s, before), before, x) == TiesOf(s, before, x) {
        InsertTies(s[0], r, before, x);
        assert ([s[0]] + r)[1..] == r;
      }
    }
  }

  lemma TiesAreTied<T>(s: seq<T>, before: (T, T) -> bool, x: T)
    ensures forall y :: y in TiesOf(s, before, x) <==> y in s && Tied(before, x, y)
  {
  }

  /** Two sorted sequences with the same ties start with the same element. */
  lemma SameHead<T(!new)>(r: seq<T>, q: seq<T>, before: (T, T) -> bool)
    requires StrictWeakOrder(before) && r != [] && Sorted(r, before) && Sorted(q, before)
    requires forall x :: TiesOf(r, before, x) == TiesOf(q, before, x)
    ensures q != [] && q[0] == r[0]
  {
    var a := r[0];
    TiesAreTied(r, before, a);
    TiesAreTied(q, before, a);
    assert a in TiesOf(r, before, a);
    assert a in q;
    var b := q[0];
    TiesAreTied(r, before, b);
    TiesAreTied(q, before, b);
    assert b in TiesOf(q, before, b);
    assert b in r;
    assert Tied(before, a, b);
    assert TiesOf(r, before, a)[0] == a && TiesOf(q, before, a)[0] == b;
  }

  /** There is only one stable sort. */
  lemma {:induction false} StableSortIsUnique<T(!new)>(r: seq<T>, q: seq<T>, before: (T, T) -> bool)
    requires StrictWeakOrder(before) && Sorted(r, before) && Sorted(q, before)
    requires forall x :: TiesOf(r, before, x) == TiesOf(q, before, x)
    ensures r == q
    decreases |r|
  {
    if r == [] {
      if q != [] { SameHead(q, r, before); }
    } else {
      SameHead(r, q, before);
      forall x ensures TiesOf(r[1..], before, x) == TiesOf(q[1..], before, x) {
        var h := if Tied(before, x, r[0]) then [r[0]] else [];
        assert TiesOf(r, before, x) == h + TiesOf(r[1..], before, x);
        assert TiesOf(q, before, x) == h + TiesOf(q[1..], before, x);
        assert (h + TiesOf(r[1..], before, x))[|h|..] == TiesOf(r[1..], before, x);
        assert (h + TiesOf(q[1..], before, x))[|h|..] == TiesOf(q[1..], before, x);
      }
      StableSortIsUnique(r[1..], q[1..], before);
    }
  }

  /** Whatever is sorted and keeps ties in order is `Sort`. */
  lemma StableSortIsSort<T(!new)>(r: seq<T>, s: seq<T>, before: (T, T) -> bool)
    requires StrictWeakOrder(before) && IsStableSort(r, s, before)
    ensures r == Sort(s, before)
  {
    SortIsStable(s, before);
    forall x ensures TiesOf(r, before, x) == TiesOf(Sort(s, before), before, x) {}
    StableSortIsUnique(r, Sort(s, before), before);
  }

  /** Sorting depends only on how the comparator compares the elements that are there. */
  lemma {:induction false} SortCongruence<T(!new)>(s: seq<T>, before: (T, T) -> bool, other: (T, T) -> bool)
    requires StrictWeakOrder(before)
    requires forall a, b :: a in s && b in s ==> before(a, b) == other(a, b)
    ensures Sort(s, before) == Sort(s, other)
  {
    if s != [] {
      SortCongruence(s[1..], before, other);
      SortIsStable(s[1..], before);
      InsertCongruence(s[0], Sort(s[1..], before), before, other);
    }
  }

  lemma InsertCongruence<T>(e: T, s: seq<T>, before: (T, T) -> bool, other: (T, T) -> bool)
    requires forall a :: a in s ==> before(a, e) == other(a, e)
    ensures Insert(e, s, before) == Insert(e, s, other)
  {
  }

  /** A sequence that is already in order stays as it is. */
  lemma SortedIsFixed<T(!new)>(s: seq<T>, before: (T, T) -> bool)
    requires StrictWeakOrder(before) && Sorted(s, before)
    ensures Sort(s, before) == s
  {
    StableSortIsSort(s, s, before);
  }

  /** Sorting neither adds nor drops anything. */
  lemma SortPermutes<T>(s: seq<T>, before: (T, T) -> bool)
    ensures multiset(Sort(s, before)) == multiset(s) && |Sort(s, before)| == |s|
  {
    if s != [] {
      SortPermutes(s[1..], before);
      InsertPermutes(s[0], Sort(s[1..], before), before);
      assert s == [s[0]] + s[1..];
    }
  }

  lemma InsertPermutes<T>(x: T, s: seq<T>, before: (T, T) -> bool)
    ensures multiset(Insert(x, s, before)) == multiset([x] + s) && |Insert(x, s, before)| == |s| + 1
  {
    if s != [] && before(s[0], x) {
      InsertPermutes(x, s[1..], before);
      assert s == [s[0]] + s[1..];
    }
  }

  function MapSeq<S, T>(f: S -> T, s: seq<S>): seq<T> {
    if s == [] then [] else [f(s[0])] + MapSeq(f, s[1..])
  }

  function Through<S, T>(before: (T, T) -> bool, f: S -> T): (S, S) -> bool {
    (a: S, b: S) => before(f(a), f(b))
  }

  lemma InsertMap<S, T>(x: S, s: seq<S>, f: S -> T, before: (T, T) -> bool)
    ensures Insert(f(x), MapSeq(f, s), before) == MapSeq(f, Insert(x, s, Through(before, f)))
  {
    if s != [] && before(f(s[0]), f(x)) {
      InsertMap(x, s[1..], f, before);
      assert MapSeq(f, s)[1..] == MapSeq(f, s[1..]);
      var r := Insert(x, s[1..], Through(before, f));
      assert ([s[0]] + r)[1..] == r;
    } else {
      assert ([x] + s)[1..] == s;
    }
  }

  /** Sorting records by a field and sorting what they come from by that field is the same. */
  lemma {:induction false} SortMap<S, T>(s: seq<S>, f: S -> T, before: (T, T) -> bool)
    ensures Sort(MapSeq(f, s), before) == MapSeq(f, Sort(s, Through(before, f)))
  {
    if s != [] {
      SortMap(s[1..], f, before);
      assert MapSeq(f, s)[1..] == MapSeq(f, s[1..]);
      InsertMap(s[0], Sort(s[1..], Through(before, f)), f, before);
    }
  }

  /** Element `k` comes out first: before everything in front of it, and nothing behind it is before it. */
  ghost predicate IsFirst<T>(s: seq<T>, before: (T, T) -> bool, k: nat) {
    && k < |s|
    && (forall j :: 0 <= j < k ==> before(s[k], s[j]))
    && (forall j :: k < j < |s| ==> !before(s[j], s[k]))
  }

  lemma {:induction false} SortHead<T(!new)>(s: seq<T>, before: (T, T) -> bool) returns (k: nat)
    requires StrictWeakOrder(before) && s != []
    ensures Sort(s, before) != [] && IsFirst(s, before, k) && Sort(s, before)[0] == s[k]
  {
    k := 0;
    if |s| > 1 {
      var rest := s[1..];
      var i := SortHead(rest, before);
      assert forall j :: 0 < j < |s| ==> s[j] == rest[j - 1];
      if before(rest[i], s[0]) {
        k := i + 1;
      } else {
        forall j | 0 < j < |s| ensures !before(s[j], s[0]) {
          assert !before(rest[j - 1], rest[i]);
        }
      }
    } else {
      assert Sort(s[1..], before) == [];
    }
  }

  /** Only one element comes out first. */
  lemma FirstIsUnique<T(!new)>(s: seq<T>, before: (T, T) -> bool, k: nat, i: nat)
    requires IsFirst(s, before, k) && IsFirst(s, before, i)
    ensures k == i
  {
    var first, second := before(s[k], s[i]), before(s[i], s[k]);
  }

  lemma MapSeqAt<T, U>(f: T -> U, s: seq<T>)
    ensures |MapSeq(f, s)| == |s| && forall i :: 0 <= i < |s| ==> MapSeq(f, s)[i] == f(s[i])
  {
  }
}
