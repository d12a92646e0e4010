/** The filter stage (`registrosFiltrados`): keeps the rows whose table is in
    the selected category list and whose date lies in the selected window. */
module Filtering {
  import opened Records
  import opened Sequences

  /** The three window labels the dashboard offers. */
  const WINDOW_ALL: string := "Todo"
  const WINDOW_WEEK: string := "Últimos 7 días"
  const WINDOW_MONTH: string := "Último mes"

  /** Milliseconds in a day: the divisor that turns an age in milliseconds
      into days. */
  const DAY_MS: int := 1000 * 3600 * 24

  /** The live filter selections: the category list (a list used as a set)
      and the window label. */
  datatype FilterState = FilterState(categories: seq<Category>, window: string)

  /** The row is at most `days` days old. The source
      divides in floating point; for integer milliseconds the exact comparison
      below has the same outcome. An unparseable date makes the age NaN, and
      every comparison with NaN is false. */
  predicate WithinDays(date: Option<Stamp>, now: int, days: int)
  {
    date.Some? && now - date.value.ms <= days * DAY_MS
  }

  /** The filter callback, branch for branch. */
  predicate Passes(r: Record, st: FilterState, now: int)
  {
    var inCategory := r.categoria in st.categories;
    if st.window == WINDOW_ALL then inCategory
    else if st.window == WINDOW_WEEK then inCategory && WithinDays(r.date, now, 7)
    else if st.window == WINDOW_MONTH then inCategory && WithinDays(r.date, now, 30)
    else inCategory
  }

  /** The filter over the fetched rows: the rows that pass, each as often as
      it occurs, in their original order. */
  function FilterRecords(rs: seq<Record>, st: FilterState, now: int): (kept: seq<Record>)
    ensures SubsequenceOf(kept, rs)
    ensures forall r :: r in kept <==> r in rs && Passes(r, st, now)
    ensures forall r :: r in kept ==> r.categoria in st.categories
    ensures forall r :: multiset(kept)[r] == if Passes(r, st, now) then multiset(rs)[r] else 0
    decreases |rs|
  {
    if |rs| == 0 then []
    else
      assert rs == [rs[0]] + rs[1..];
      var rest := FilterRecords(rs[1..], st, now);
      if Passes(rs[0], st, now) then
        assert ([rs[0]] + rest)[1..] == rest;
        [rs[0]] + rest
      else rest
  }

  /** The rows whose table is in `cats`, ignoring dates: the reference the
      "Todo" window is compared with. */
  function MatchingCategories(rs: seq<Record>, cats: seq<Category>): (kept: seq<Record>)
    ensures forall i :: 0 <= i < |kept| ==> kept[i].categoria in cats
    decreases |rs|
  {
    if |rs| == 0 then []
    else if rs[0].categoria in cats then [rs[0]] + MatchingCategories(rs[1..], cats)
    else MatchingCategories(rs[1..], cats)
  }

  /** A window the code does not date-check: "Todo" and every unrecognised label. */
  predicate IgnoresDates(window: string)
  {
    window == WINDOW_ALL || (window != WINDOW_WEEK && window != WINDOW_MONTH)
  }

  /** Under "Todo" or an unrecognised label the filter is exactly the
      category check, whatever the dates. */
  lemma {:induction false} FilterIgnoringDatesIsCategoryFilter(rs: seq<Record>, st: FilterState, now: int)
    requires IgnoresDates(st.window)
    ensures FilterRecords(rs, st, now) == MatchingCategories(rs, st.categories)
    decreases |rs|
  {
    if |rs| > 0 {
      FilterIgnoringDatesIsCategoryFilter(rs[1..], st, now);
    }
  }

  /** A filter whose test is weaker keeps a supersequence. */
  lemma {:induction false} FilterMonotone(rs: seq<Record>, st1: FilterState, st2: FilterState, now: int)
    requires forall r :: Passes(r, st1, now) ==> Passes(r, st2, now)
    ensures SubsequenceOf(FilterRecords(rs, st1, now), FilterRecords(rs, st2, now))
    decreases |rs|
  {
    if |rs| > 0 {
      var a := FilterRecords(rs, st1, now);
      var b := FilterRecords(rs, st2, now);
      FilterMonotone(rs[1..], st1, st2, now);
      if Passes(rs[0], st1, now) {
        assert a[0] == b[0] && a[1..] == FilterRecords(rs[1..], st1, now) && b[1..] == FilterRecords(rs[1..], st2, now);
      } else if Passes(rs[0], st2, now) {
        var tail := FilterRecords(rs[1..], st2, now);
        assert b[1..] == tail;
        SubsequenceCons(a, tail, rs[0]);
      }
    }
  }

  /** The time windows nest: last 7 days within last month within everything. */
  lemma {:induction false} WindowsNest(rs: seq<Record>, cats: seq<Category>, now: int)
    ensures SubsequenceOf(FilterRecords(rs, FilterState(cats, WINDOW_WEEK), now),
                          FilterRecords(rs, FilterState(cats, WINDOW_MONTH), now))
    ensures SubsequenceOf(FilterRecords(rs, FilterState(cats, WINDOW_MONTH), now),
                          FilterRecords(rs, FilterState(cats, WINDOW_ALL), now))
  {
    FilterMonotone(rs, FilterState(cats, WINDOW_WEEK), FilterState(cats, WINDOW_MONTH), now);
    FilterMonotone(rs, FilterState(cats, WINDOW_MONTH), FilterState(cats, WINDOW_ALL), now);
  }

  /** A row of a selected table dated at or after `now` passes every window. */
  lemma FutureRowPassesEveryWindow(r: Record, st: FilterState, now: int)
    requires r.categoria in st.categories
    requires r.date.Some? && r.date.value.ms >= now
    ensures Passes(r, st, now)
  {
  }

  /** A row whose date does not parse passes exactly when its table is
      selected and the window does not check dates. */
  lemma UndatedRowPassesOnlyWithoutDateCheck(r: Record, st: FilterState, now: int)
    requires r.date.None?
    ensures Passes(r, st, now) <==> r.categoria in st.categories && IgnoresDates(st.window)
  {
  }
}
