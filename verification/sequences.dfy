/** Sequence tools shared by the views: order-preserving sublists (the filter
    stage and the toggles) and the insertion sort behind both sorted lists
    (the breakdown and the history). */
module Sequences {

  /** `a` is obtained from `b` by deleting elements, keeping the order. */
  predicate SubsequenceOf<T(==)>(a: seq<T>, b: seq<T>)
    decreases |b|
  {
    if |a| == 0 then true
    else if |b| == 0 then false
    else (a[0] == b[0] && SubsequenceOf(a[1..], b[1..])) || SubsequenceOf(a, b[1..])
  }

  /** Prepending to the longer sequence keeps the relation. */
  lemma {:induction false} SubsequenceCons<T>(a: seq<T>, b: seq<T>, x: T)
    requires SubsequenceOf(a, b)
    ensures SubsequenceOf(a, [x] + b)
  {
    assert ([x] + b)[1..] == b;
  }

  /** `before(a, b)`: `a` may come before `b`. Any two elements can be placed
      one way or the other, and the relation chains. */
  ghost predicate TotalPreorder<T(!new)>(before: (T, T) -> bool)
  {
    && (forall a, b :: before(a, b) || before(b, a))
    && (forall a, b, c :: before(a, b) && before(b, c) ==> before(a, c))
  }

  predicate SortedBy<T>(before: (T, T) -> bool, s: seq<T>)
  {
    forall i, j :: 0 <= i < j < |s| ==> before(s[i], s[j])
  }

  /** `a` and `b` may stand in either order: the comparator calls them equal. */
  predicate Tied<T>(before: (T, T) -> bool, a: T, b: T)
  {
    before(a, b) && before(b, a)
  }

  /** The elements of `s` tied with `k`, in their order in `s`. A sort is
      stable when it leaves every such list as it was. */
  function TiedWith<T>(before: (T, T) -> bool, s: seq<T>, k: T): seq<T>
    decreases |s|
  {
    if |s| == 0 then []
    else (if Tied(before, s[0], k) then [s[0]] else []) + TiedWith(before, s[1..], k)
  }

  /** `a` and `b` list the elements tied with any given element in the same
      order: what a stable sort keeps of its input. */
  ghost predicate SameTies<T(!new)>(before: (T, T) -> bool, a: seq<T>, b: seq<T>)
  {
    forall k :: TiedWith(before, a, k) == TiedWith(before, b, k)
  }

  /** Places `x` before the first element it may precede. */
  function InsertBy<T(==,!new)>(before: (T, T) -> bool, x: T, s: seq<T>): (r: seq<T>)
    requires TotalPreorder(before)
    requires SortedBy(before, s)
    ensures SortedBy(before, r)
    ensures multiset(r) == multiset(s) + multiset{x}
    ensures SameTies(before, r, [x] + s)
    decreases |s|
  {
    if |s| == 0 || before(x, s[0]) then [x] + s
    else
      var rest := InsertBy(before, x, s[1..]);
      assert s == [s[0]] + s[1..];
      HeadBoundsInsert(before, s[0], s[1..], x, rest);
      assert forall k :: before(x, k) && before(k, s[0]) ==> before(x, s[0]);
      InsertAfterTies(before, x, s[0], s[1..], rest);
      [s[0]] + rest
  }

  /** Unfolds one step of `TiedWith`. */
  lemma TiedWithCons<T>(before: (T, T) -> bool, a: T, s: seq<T>, k: T)
    ensures TiedWith(before, [a] + s, k) == (if Tied(before, a, k) then [a] else []) + TiedWith(before, s, k)
  {
    assert ([a] + s)[1..] == s;
  }

  /** Moving `x` past an element `h` that is never tied with the same
      element as `x` keeps every tie list. */
  lemma {:induction false} InsertAfterTies<T(!new)>(before: (T, T) -> bool, x: T, h: T, tl: seq<T>, rest: seq<T>)
    requires forall k :: !(Tied(before, x, k) && Tied(before, h, k))
    requires SameTies(before, rest, [x] + tl)
    ensures SameTies(before, [h] + rest, [x] + ([h] + tl))
  {
    forall k ensures TiedWith(before, [h] + rest, k) == TiedWith(before, [x] + ([h] + tl), k) {
      TiedWithCons(before, h, rest, k);
      TiedWithCons(before, x, tl, k);
      TiedWithCons(before, x, [h] + tl, k);
      TiedWithCons(before, h, tl, k);
    }
  }

  /** An element that may precede every element of `tl` and `x` may precede
      every element of a permutation of `tl + [x]`. */
  lemma HeadBoundsInsert<T(!new)>(before: (T, T) -> bool, h: T, tl: seq<T>, x: T, rest: seq<T>)
    requires forall j :: 0 <= j < |tl| ==> before(h, tl[j])
    requires before(h, x)
    requires multiset(rest) == multiset(tl) + multiset{x}
    ensures forall j :: 0 <= j < |rest| ==> before(h, rest[j])
  {
    forall j | 0 <= j < |rest| ensures before(h, rest[j]) {
      assert rest[j] in multiset(rest);
      if rest[j] != x {
        assert rest[j] in multiset(tl);
      }
    }
  }

  /** Insertion sort: a sorted permutation of `s` that keeps tied elements
      in their input order, as a stable sort does. */
  function SortBy<T(==,!new)>(before: (T, T) -> bool, s: seq<T>): (r: seq<T>)
    requires TotalPreorder(before)
    ensures SortedBy(before, r)
    ensures multiset(r) == multiset(s)
    ensures SameTies(before, r, s)
    decreases |s|
  {
    if |s| == 0 then []
    else
      assert s == [s[0]] + s[1..];
      var sorted := SortBy(before, s[1..]);
      assert SameTies(before, [s[0]] + sorted, s) by {
        forall k ensures TiedWith(before, [s[0]] + sorted, k) == TiedWith(before, s, k) {
          assert ([s[0]] + sorted)[1..] == sorted;
        }
      }
      InsertBy(before, s[0], sorted)
  }
}
