/** The pure half of `cargarHistorial`: every fetched row is tagged with the
    table it came from, the tables are concatenated in their fixed order, and
    the result is sorted newest first. */
module History {
  import opened Records
  import opened Sequences

  /** Every fetched row of a table, marked with that table as its category. */
  function TagRows(rows: seq<Record>, c: Category): (tagged: seq<Record>)
    ensures |tagged| == |rows|
    ensures forall i :: 0 <= i < |rows| ==> tagged[i] == rows[i].(categoria := c)
  {
    if |rows| == 0 then [] else [rows[0].(categoria := c)] + TagRows(rows[1..], c)
  }

  /** The loop over the tables: a table whose fetch returned no data adds
      nothing. */
  function Gather(fetched: Category -> Option<seq<Record>>, tables: seq<Category>): seq<Record>
  {
    if |tables| == 0 then []
    else
      TableRows(fetched, tables[0]) + Gather(fetched, tables[1..])
  }

  /** The order of the date comparator: later dates first. A row
      whose date does not parse makes the comparison NaN, which leaves its
      position to the sort implementation; here such rows go last. */
  predicate NewerOrSame(a: Record, b: Record)
  {
    b.date.None? || (a.date.Some? && a.date.value.ms >= b.date.value.ms)
  }

  predicate SortedByDate(s: seq<Record>)
  {
    SortedBy(NewerOrSame, s)
  }

  /** Two rows the comparator calls equal: the same instant, or both
      undated. */
  lemma TiedIsSameInstant(a: Record, b: Record)
    ensures Tied(NewerOrSame, a, b)
        <==> ((a.date.None? && b.date.None?)
              || (a.date.Some? && b.date.Some? && a.date.value.ms == b.date.value.ms))
  {
  }

  /** The sort, newest first; rows of the same instant keep their input
      order, as the engine's stable sort keeps them. */
  function SortByDate(s: seq<Record>): (r: seq<Record>)
    ensures SortedByDate(r)
    ensures multiset(r) == multiset(s)
    ensures SameTies(NewerOrSame, r, s)
  {
    SortBy(NewerOrSame, s)
  }

  /** Rows in a table's fetch result, or 0 when the fetch returned nothing. */
  function Fetched(fetched: Category -> Option<seq<Record>>, c: Category): nat
  {
    match fetched(c)
    case Some(d) => |d|
    case None => 0
  }

  /** `registros` after a load: the tagged rows of every table, newest first;
      rows of the same instant stay in table order, then in fetch order. */
  function LoadHistory(fetched: Category -> Option<seq<Record>>): (rs: seq<Record>)
    ensures SortedByDate(rs)
    ensures multiset(rs) == multiset(Gather(fetched, TABLES))
    ensures SameTies(NewerOrSame, rs, Gather(fetched, TABLES))
    ensures forall c :: CountCategory(rs, c) == Fetched(fetched, c)
    ensures |rs| == Fetched(fetched, Libros) + Fetched(fetched, Peliculas) + Fetched(fetched, Deporte)
                    + Fetched(fetched, Conciertos) + Fetched(fetched, Ocio)
  {
    var all := Gather(fetched, TABLES);
    var rs := SortByDate(all);
    forall c ensures CountCategory(rs, c) == Fetched(fetched, c) {
      SortByDateCount(all, c);
      GatherCounts(fetched, c);
    }
    CountsAddUp(rs);
    rs
  }

  /** Tagging makes every row belong to the tagging table. */
  lemma {:induction false} TagRowsCount(rows: seq<Record>, c: Category, d: Category)
    ensures CountCategory(TagRows(rows, c), d) == if c == d then |rows| else 0
    decreases |rows|
  {
    if |rows| > 0 {
      TagRowsCount(rows[1..], c, d);
    }
  }

  /** One table's contribution to the concatenation. */
  function TableRows(fetched: Category -> Option<seq<Record>>, t: Category): seq<Record>
  {
    match fetched(t)
    case Some(d) => TagRows(d, t)
    case None => []
  }

  lemma TableRowsCount(fetched: Category -> Option<seq<Record>>, t: Category, c: Category)
    ensures CountCategory(TableRows(fetched, t), c) == if t == c then Fetched(fetched, c) else 0
  {
    match fetched(t) {
      case Some(d) => TagRowsCount(d, t, c);
      case None =>
    }
  }

  /** Each table appears once in the fixed list, so its rows are counted once. */
  lemma GatherCounts(fetched: Category -> Option<seq<Record>>, c: Category)
    ensures CountCategory(Gather(fetched, TABLES), c) == Fetched(fetched, c)
  {
    GatherCountsFrom(fetched, TABLES, c);
  }

  lemma {:induction false} GatherCountsFrom(fetched: Category -> Option<seq<Record>>, tables: seq<Category>, c: Category)
    requires forall i, j :: 0 <= i < j < |tables| ==> tables[i] != tables[j]
    ensures CountCategory(Gather(fetched, tables), c) == if c in tables then Fetched(fetched, c) else 0
    decreases |tables|
  {
    if |tables| > 0 {
      var t := tables[0];
      assert Gather(fetched, tables) == TableRows(fetched, t) + Gather(fetched, tables[1..]);
      GatherCountsFrom(fetched, tables[1..], c);
      CountCategoryAppend(TableRows(fetched, t), Gather(fetched, tables[1..]), c);
      TableRowsCount(fetched, t, c);
      assert tables == [t] + tables[1..];
      assert t == c ==> c !in tables[1..];
    }
  }

  /** Inserting a row adds one to its own table's count. */
  lemma {:induction false} InsertByDateCount(x: Record, s: seq<Record>, c: Category)
    requires SortedByDate(s)
    ensures CountCategory(InsertBy(NewerOrSame, x, s), c) == CountCategory(s, c) + (if x.categoria == c then 1 else 0)
    decreases |s|
  {
    var r := InsertBy(NewerOrSame, x, s);
    if |s| == 0 || NewerOrSame(x, s[0]) {
      assert r[1..] == s;
    } else {
      InsertByDateCount(x, s[1..], c);
      assert r[1..] == InsertBy(NewerOrSame, x, s[1..]);
    }
  }

  /** Sorting keeps every table's count. */
  lemma {:induction false} SortByDateCount(s: seq<Record>, c: Category)
    ensures CountCategory(SortBy(NewerOrSame, s), c) == CountCategory(s, c)
    decreases |s|
  {
    if |s| > 0 {
      SortByDateCount(s[1..], c);
      InsertByDateCount(s[0], SortBy(NewerOrSame, s[1..]), c);
    }
  }
}
