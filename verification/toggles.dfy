/** The two list-as-set toggles the component defines: `toggleFiltroCat` on
    the category filter list and `toggleEtiqueta` on the tags of the form
    data. No rendered element calls either of them. */
module Toggles {
  import opened Records
  import opened Sequences

  /** The list with every copy of `x` removed. */
  function Without<T(==,!new)>(xs: seq<T>, x: T): (r: seq<T>)
    ensures x !in r
    ensures forall y :: y != x ==> (y in r <==> y in xs)
    ensures SubsequenceOf(r, xs)
    ensures x !in xs ==> r == xs
    ensures forall y :: multiset(r)[y] == if y == x then 0 else multiset(xs)[y]
    decreases |xs|
  {
    if |xs| == 0 then []
    else if xs[0] == x then
      var rest := Without(xs[1..], x);
      SubsequenceCons(rest, xs[1..], xs[0]);
      assert [xs[0]] + xs[1..] == xs;
      rest
    else
      var rest := Without(xs[1..], x);
      assert ([xs[0]] + rest)[1..] == rest;
      assert [xs[0]] + xs[1..] == xs;
      [xs[0]] + rest
  }

  /** Removes `x` when it is present, otherwise appends it. */
  function Toggle<T(==,!new)>(xs: seq<T>, x: T): (r: seq<T>)
    ensures x in r <==> x !in xs
    ensures forall y :: y != x ==> (y in r <==> y in xs)
    ensures x in xs ==> SubsequenceOf(r, xs)
    ensures x !in xs ==> |r| == |xs| + 1 && r[..|xs|] == xs
    ensures forall y :: y != x ==> multiset(r)[y] == multiset(xs)[y]
  {
    if x in xs then Without(xs, x) else xs + [x]
  }

  predicate NoDuplicates<T(==,!new)>(xs: seq<T>)
  {
    forall i, j :: 0 <= i < j < |xs| ==> xs[i] != xs[j]
  }

  /** Removing keeps a list free of duplicates. */
  lemma {:induction false} WithoutKeepsNoDuplicates<T(!new)>(xs: seq<T>, x: T)
    requires NoDuplicates(xs)
    ensures NoDuplicates(Without(xs, x))
    decreases |xs|
  {
    if |xs| > 0 {
      var rest := Without(xs[1..], x);
      WithoutKeepsNoDuplicates(xs[1..], x);
      if xs[0] != x {
        assert xs[0] !in xs[1..];
        assert xs[0] !in rest;
        var r := [xs[0]] + rest;
        forall i, j | 0 <= i < j < |r| ensures r[i] != r[j] {
          if i == 0 {
            assert r[j] == rest[j - 1];
          }
        }
      }
    }
  }

  /** Toggling keeps a list free of duplicates. */
  lemma ToggleKeepsNoDuplicates<T(!new)>(xs: seq<T>, x: T)
    ensures NoDuplicates(xs) ==> NoDuplicates(Toggle(xs, x))
  {
    if x in xs && NoDuplicates(xs) {
      WithoutKeepsNoDuplicates(xs, x);
    }
  }

  /** Toggling leaves every other element where it was, relative to the
      rest: with the toggled element struck out, nothing changed. */
  lemma {:induction false} ToggleKeepsOthersInOrder<T(!new)>(xs: seq<T>, x: T)
    ensures Without(Toggle(xs, x), x) == Without(xs, x)
  {
    if x in xs {
      WithoutIdempotent(xs, x);
    } else {
      WithoutAppend(xs, x);
    }
  }

  lemma {:induction false} WithoutIdempotent<T(!new)>(xs: seq<T>, x: T)
    ensures Without(Without(xs, x), x) == Without(xs, x)
  {
  }

  lemma {:induction false} WithoutAppend<T(!new)>(xs: seq<T>, x: T)
    ensures Without(xs + [x], x) == Without(xs, x)
    decreases |xs|
  {
    if |xs| == 0 {
      assert Without([x][1..], x) == [];
    } else {
      assert (xs + [x])[1..] == xs[1..] + [x];
      WithoutAppend(xs[1..], x);
    }
  }

  /** Toggling an absent element twice restores the list. */
  lemma ToggleTwiceRestores<T(!new)>(xs: seq<T>, x: T)
    requires x !in xs
    ensures Toggle(Toggle(xs, x), x) == xs
  {
    WithoutAppend(xs, x);
  }

  /** `toggleFiltroCat`: flips one category of the filter list. */
  function ToggleCategory(cats: seq<Category>, c: Category): (r: seq<Category>)
    ensures c in r <==> c !in cats
    ensures forall d :: d != c ==> (d in r <==> d in cats)
    ensures forall d :: d != c ==> multiset(r)[d] == multiset(cats)[d]
    ensures NoDuplicates(cats) ==> NoDuplicates(r)
  {
    ToggleKeepsNoDuplicates(cats, c);
    Toggle(cats, c)
  }

  /** `toggleEtiqueta`: flips one tag of the form data. */
  function ToggleTag(tags: seq<string>, t: string): (r: seq<string>)
    ensures t in r <==> t !in tags
    ensures forall u :: u != t ==> (u in r <==> u in tags)
    ensures forall u :: u != t ==> multiset(r)[u] == multiset(tags)[u]
    ensures NoDuplicates(tags) ==> NoDuplicates(r)
  {
    ToggleKeepsNoDuplicates(tags, t);
    Toggle(tags, t)
  }
}
