/** The category summary (`statsKPI`): one count per table, the grand total
    and the total exercise time over the filtered rows. */
module Summary {
  import opened Records

  /** One slice of the summary chart: a table and its number of rows. */
  datatype CategoryCount = CategoryCount(name: Category, total: nat)

  /** `resumen`, `total` and `tiempoDeporte`. */
  datatype Kpis = Kpis(resumen: seq<CategoryCount>, total: nat, tiempoDeporte: int)

  /** A row's minutes: a missing or non-numeric duration counts as 0. */
  function Minutes(r: Record): int
  {
    match r.duracion
    case Some(m) => m
    case None => 0
  }

  /** Sum of the slice counts. */
  function SumCounts(cs: seq<CategoryCount>): nat
  {
    if |cs| == 0 then 0 else cs[0].total + SumCounts(cs[1..])
  }

  /** The total minutes of the `deporte` rows. */
  function ExerciseMinutes(fs: seq<Record>): (t: int)
    ensures (forall i :: 0 <= i < |fs| ==> fs[i].categoria != Deporte) ==> t == 0
    ensures (forall i :: 0 <= i < |fs| && fs[i].categoria == Deporte ==> Minutes(fs[i]) >= 0) ==> t >= 0
    decreases |fs|
  {
    if |fs| == 0 then 0
    else (if fs[0].categoria == Deporte then Minutes(fs[0]) else 0) + ExerciseMinutes(fs[1..])
  }

  /** Exercise time adds up over concatenation; in particular the total over
      a list is the sum of its rows' contributions. */
  lemma {:induction false} ExerciseMinutesAppend(a: seq<Record>, b: seq<Record>)
    ensures ExerciseMinutes(a + b) == ExerciseMinutes(a) + ExerciseMinutes(b)
  {
    if |a| == 0 {
      assert a + b == b;
    } else {
      assert (a + b)[1..] == a[1..] + b;
      ExerciseMinutesAppend(a[1..], b);
    }
  }

  /** The summary over the filtered rows. */
  function StatsKpi(fs: seq<Record>): (k: Kpis)
    ensures |k.resumen| == |TABLES|
    ensures forall i :: 0 <= i < |TABLES| ==>
      k.resumen[i].name == TABLES[i] && k.resumen[i].total == CountCategory(fs, TABLES[i])
    ensures k.total == |fs|
    ensures SumCounts(k.resumen) == k.total
    ensures k.tiempoDeporte == ExerciseMinutes(fs)
  {
    var resumen := seq(|TABLES|, i requires 0 <= i < |TABLES| => CategoryCount(TABLES[i], CountCategory(fs, TABLES[i])));
    CountsAddUp(fs);
    assert SumCounts(resumen[4..]) == CountCategory(fs, Ocio);
    assert SumCounts(resumen[3..]) == CountCategory(fs, Conciertos) + SumCounts(resumen[4..]);
    assert SumCounts(resumen[2..]) == CountCategory(fs, Deporte) + SumCounts(resumen[3..]);
    assert SumCounts(resumen[1..]) == CountCategory(fs, Peliculas) + SumCounts(resumen[2..]);
    Kpis(resumen, |fs|, ExerciseMinutes(fs))
  }
}
