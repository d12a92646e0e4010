/** The KPI screen end to end: the views are computed from the filtered
    rows, as the memoised values of the component are. */
module Dashboard {
  import opened Records
  import opened Filtering
  import opened Summary
  import opened Evolution

  /** Under "Todo" the grand total is the number of rows of the selected tables. */
  lemma {:induction false} AllWindowTotalCountsSelectedTables(rs: seq<Record>, cats: seq<Category>, now: int)
    ensures StatsKpi(FilterRecords(rs, FilterState(cats, WINDOW_ALL), now)).total
         == |MatchingCategories(rs, cats)|
  {
    FilterIgnoringDatesIsCategoryFilter(rs, FilterState(cats, WINDOW_ALL), now);
  }

  /** A table that is not selected still has its slice in the summary, with
      count 0; and with `deporte` unselected the exercise time is 0. */
  lemma {:induction false} UnselectedTablesCountZero(rs: seq<Record>, st: FilterState, now: int)
    ensures var k := StatsKpi(FilterRecords(rs, st, now));
      && (forall i :: 0 <= i < |TABLES| && TABLES[i] !in st.categories ==> k.resumen[i].total == 0)
      && (Deporte !in st.categories ==> k.tiempoDeporte == 0)
  {
    var fs := FilterRecords(rs, st, now);
    assert forall i :: 0 <= i < |fs| ==> fs[i] in fs;
  }

  /** The evolution line of a selected category never exceeds its slice in
      the summary over the same rows; in December, with every row dated, the
      two agree. */
  lemma EvolutionWithinSummary(rs: seq<Record>, st: FilterState, now: int, currentMonth: Month, j: nat)
    requires j < |st.categories|
    ensures var fs := FilterRecords(rs, st, now);
      var line := SeriesTotal(EvolutionSeries(fs, st.categories, currentMonth), j);
      && (forall i :: 0 <= i < |TABLES| && TABLES[i] == st.categories[j] ==> line <= StatsKpi(fs).resumen[i].total)
      && (currentMonth == 11 && (forall r :: r in fs ==> r.date.Some?) ==>
            forall i :: 0 <= i < |TABLES| && TABLES[i] == st.categories[j] ==> line == StatsKpi(fs).resumen[i].total)
  {
    var fs := FilterRecords(rs, st, now);
    SeriesTotalCountsUpToCurrentMonth(fs, st.categories, currentMonth, j);
    CountUpToAtMostCount(fs, st.categories[j], currentMonth);
    assert forall i :: 0 <= i < |fs| ==> fs[i] in fs;
  }
}
