/** The monthly evolution (`datosEvolucion`): twelve month slots, one count
    per selected category in each, cut after the current month. */
module Evolution {
  import opened Records

  /** `meses`: the slot labels, January first. */
  const MONTH_LABELS: seq<string> :=
    ["Ene", "Feb", "Mar", "Abr", "May", "Jun", "Jul", "Ago", "Sep", "Oct", "Nov", "Dic"]

  /** One field of a slot: a selected category and its count that month. */
  datatype Series = Series(name: Category, count: nat)

  /** One point of the line chart: the month label and one count per
      selected category. */
  datatype Slot = Slot(name: string, series: seq<Series>)

  /** The row belongs to table `c` and its date's month index is `i`. The year
      plays no part; an unparseable date has month NaN, which equals no index. */
  predicate InMonth(r: Record, c: Category, i: int)
  {
    r.categoria == c && r.date.Some? && r.date.value.month == i
  }

  /** Rows of table `c` dated in month `i` of any year. */
  function MonthCount(fs: seq<Record>, c: Category, i: int): (n: nat)
    ensures n <= |fs|
    decreases |fs|
  {
    if |fs| == 0 then 0
    else (if InMonth(fs[0], c, i) then 1 else 0) + MonthCount(fs[1..], c, i)
  }

  /** Slot `i` before the cut. */
  function MonthSlot(fs: seq<Record>, cats: seq<Category>, i: Month): Slot
  {
    Slot(MONTH_LABELS[i], seq(|cats|, j requires 0 <= j < |cats| => Series(cats[j], MonthCount(fs, cats[j], i))))
  }

  /** The twelve month slots, before the cut. */
  function AllMonths(fs: seq<Record>, cats: seq<Category>): seq<Slot>
  {
    seq(12, i requires 0 <= i < 12 => MonthSlot(fs, cats, i))
  }

  /** `datosEvolucion`: the twelve slots sliced to `currentMonth + 1`.
      Trailing months without data up to the current month are kept. */
  function EvolutionSeries(fs: seq<Record>, cats: seq<Category>, currentMonth: Month): (r: seq<Slot>)
    ensures 1 <= |r| <= 12
    ensures |r| == currentMonth + 1
    ensures forall i :: 0 <= i < |r| ==> r[i].name == MONTH_LABELS[i] && |r[i].series| == |cats|
    ensures forall i, j :: 0 <= i < |r| && 0 <= j < |cats| ==>
      r[i].series[j].name == cats[j] && r[i].series[j].count == MonthCount(fs, cats[j], i)
  {
    AllMonths(fs, cats)[..currentMonth + 1]
  }

  /** Counting by month distributes over concatenation. */
  lemma {:induction false} MonthCountAppend(a: seq<Record>, b: seq<Record>, c: Category, i: int)
    ensures MonthCount(a + b, c, i) == MonthCount(a, c, i) + MonthCount(b, c, i)
    decreases |a|
  {
    if |a| == 0 {
      assert a + b == b;
    } else {
      assert (a + b)[1..] == a[1..] + b;
      MonthCountAppend(a[1..], b, c, i);
    }
  }

  /** A row with no date, or dated in a month after the current one (in any
      year), changes nothing in the series wherever it sits in the list. */
  lemma EvolutionIgnoresLaterRows(a: seq<Record>, r: Record, b: seq<Record>, cats: seq<Category>, currentMonth: Month)
    requires r.date.None? || r.date.value.month > currentMonth
    ensures EvolutionSeries(a + [r] + b, cats, currentMonth) == EvolutionSeries(a + b, cats, currentMonth)
  {
    var lhs := EvolutionSeries(a + [r] + b, cats, currentMonth);
    var rhs := EvolutionSeries(a + b, cats, currentMonth);
    forall i, j | 0 <= i <= currentMonth && 0 <= j < |cats|
      ensures MonthCount(a + [r] + b, cats[j], i) == MonthCount(a + b, cats[j], i)
    {
      MonthCountAppend(a + [r], b, cats[j], i);
      MonthCountAppend(a, [r], cats[j], i);
      MonthCountAppend(a, b, cats[j], i);
    }
    forall i | 0 <= i < |lhs| ensures lhs[i] == rhs[i] {
      assert lhs[i].series == rhs[i].series;
    }
  }

  /** Rows of table `c` dated in a month up to `m`. */
  function CountUpTo(fs: seq<Record>, c: Category, m: int): (n: nat)
    ensures n <= |fs|
    decreases |fs|
  {
    if |fs| == 0 then 0
    else (if fs[0].categoria == c && fs[0].date.Some? && fs[0].date.value.month <= m then 1 else 0)
         + CountUpTo(fs[1..], c, m)
  }

  /** Adding the next month to the window adds that month's rows. */
  lemma {:induction false} CountUpToStep(fs: seq<Record>, c: Category, m: int)
    ensures CountUpTo(fs, c, m) == CountUpTo(fs, c, m - 1) + MonthCount(fs, c, m)
    decreases |fs|
  {
    if |fs| > 0 {
      CountUpToStep(fs[1..], c, m);
    }
  }

  /** The sum of series `j` over the first slots of `r`. */
  function SeriesTotal(r: seq<Slot>, j: nat): nat
    requires forall i :: 0 <= i < |r| ==> j < |r[i].series|
  {
    if |r| == 0 then 0 else SeriesTotal(r[..|r| - 1], j) + r[|r| - 1].series[j].count
  }

  /** The line of a selected category adds up to its rows dated up to the
      current month: rows of later months are never counted. */
  lemma {:induction false} SeriesTotalCountsUpToCurrentMonth(fs: seq<Record>, cats: seq<Category>, currentMonth: Month, j: nat)
    requires j < |cats|
    ensures SeriesTotal(EvolutionSeries(fs, cats, currentMonth), j) == CountUpTo(fs, cats[j], currentMonth)
    decreases currentMonth
  {
    var r := EvolutionSeries(fs, cats, currentMonth);
    CountUpToStep(fs, cats[j], currentMonth);
    if currentMonth == 0 {
      assert r[..0] == [];
      NoneBeforeJanuary(fs, cats[j]);
    } else {
      SeriesTotalCountsUpToCurrentMonth(fs, cats, currentMonth - 1, j);
      assert r[..currentMonth] == EvolutionSeries(fs, cats, currentMonth - 1);
    }
  }

  /** A table's rows dated up to month `m` are among its rows; from
      December on they are all of them when every row is dated. */
  lemma {:induction false} CountUpToAtMostCount(fs: seq<Record>, c: Category, m: int)
    ensures CountUpTo(fs, c, m) <= CountCategory(fs, c)
    ensures m >= 11 && (forall i :: 0 <= i < |fs| ==> fs[i].date.Some?) ==> CountUpTo(fs, c, m) == CountCategory(fs, c)
    decreases |fs|
  {
    if |fs| > 0 {
      CountUpToAtMostCount(fs[1..], c, m);
      assert forall i :: 0 <= i < |fs[1..]| ==> fs[1..][i] == fs[i + 1];
    }
  }

  /** No month index is negative. */
  lemma {:induction false} NoneBeforeJanuary(fs: seq<Record>, c: Category)
    ensures CountUpTo(fs, c, -1) == 0
    decreases |fs|
  {
    if |fs| > 0 {
      NoneBeforeJanuary(fs[1..], c);
    }
  }
}
