/** The detail breakdown (`statsDetalladas`): when exactly one category is
    selected, a frequency table of a per-category key, ranked by count. */
module Breakdown {
  import opened Records
  import opened Sequences

  /** One bar of the breakdown chart: `{ name, valor }`. */
  datatype Entry = Entry(key: string, count: nat)

  /** The keys one row contributes when the selected category is `cat`:
      its sport type for `deporte`, its leisure type for `ocio`, and
      otherwise (also when that field is empty) each of its tags. */
  function Contributions(r: Record, cat: Category): seq<string>
  {
    if cat == Deporte && r.tipoDeporte != "" then [r.tipoDeporte]
    else if cat == Ocio && r.tipoOcio != "" then [r.tipoOcio]
    else r.etiquetas
  }

  /** Every key contributed by the rows, in visiting order. */
  function AllKeys(fs: seq<Record>, cat: Category): seq<string>
  {
    if |fs| == 0 then [] else Contributions(fs[0], cat) + AllKeys(fs[1..], cat)
  }

  /** The keys that have an entry in the frequency map, as a set. */
  function KeySet(t: seq<Entry>): set<string>
  {
    if |t| == 0 then {} else {t[0].key} + KeySet(t[1..])
  }

  /** No key has two entries. */
  predicate DistinctKeys(t: seq<Entry>)
  {
    |t| == 0 || (t[0].key !in KeySet(t[1..]) && DistinctKeys(t[1..]))
  }

  /** The count stored for `k`, or 0 when `k` has no entry yet. */
  function CountOf(t: seq<Entry>, k: string): nat
  {
    if |t| == 0 then 0 else if t[0].key == k then t[0].count else CountOf(t[1..], k)
  }

  function SumCounts(t: seq<Entry>): nat
  {
    if |t| == 0 then 0 else t[0].count + SumCounts(t[1..])
  }

  predicate AllPositive(t: seq<Entry>)
  {
    forall i :: 0 <= i < |t| ==> t[i].count >= 1
  }

  /** One visit of a key: increments `k`'s entry, or
      appends a new entry with count 1. */
  function Bump(t: seq<Entry>, k: string): (r: seq<Entry>)
    requires DistinctKeys(t)
    ensures DistinctKeys(r)
    ensures CountOf(r, k) == CountOf(t, k) + 1
    ensures forall k' :: k' != k ==> CountOf(r, k') == CountOf(t, k')
    ensures KeySet(r) == KeySet(t) + {k}
    ensures SumCounts(r) == SumCounts(t) + 1
    ensures AllPositive(t) ==> AllPositive(r)
    decreases |t|
  {
    if |t| == 0 then [Entry(k, 1)]
    else if t[0].key == k then
      var r := [Entry(k, t[0].count + 1)] + t[1..];
      assert r[1..] == t[1..];
      r
    else
      var rest := Bump(t[1..], k);
      var r := [t[0]] + rest;
      assert r[1..] == rest;
      r
  }

  /** In a table with distinct keys, an entry's count is the count of its key. */
  lemma {:induction false} CountOfMember(t: seq<Entry>, e: Entry)
    requires DistinctKeys(t) && e in t
    ensures CountOf(t, e.key) == e.count
    decreases |t|
  {
    if t[0] != e {
      assert e in t[1..];
      KeyOfMember(t[1..], e);
      CountOfMember(t[1..], e);
    }
  }

  lemma {:induction false} KeyOfMember(t: seq<Entry>, e: Entry)
    requires e in t
    ensures e.key in KeySet(t)
    decreases |t|
  {
    if t[0] != e {
      assert e in t[1..];
      KeyOfMember(t[1..], e);
    }
  }

  /** The `forEach` over the rows: builds the frequency table of `keys` in
      first-seen order. */
  function Tally(keys: seq<string>): (t: seq<Entry>)
    ensures DistinctKeys(t)
    ensures forall k :: CountOf(t, k) == multiset(keys)[k]
    ensures KeySet(t) == set k | k in keys
    ensures AllPositive(t)
    ensures SumCounts(t) == |keys|
    decreases |keys|
  {
    if |keys| == 0 then []
    else
      var init := keys[..|keys| - 1];
      var last := keys[|keys| - 1];
      assert keys == init + [last];
      Bump(Tally(init), last)
  }

  /** The order of the comparator on counts: a larger count comes first. */
  predicate CountAtLeast(a: Entry, b: Entry)
  {
    a.count >= b.count
  }

  /** Non-increasing counts. */
  predicate SortedByCount(t: seq<Entry>)
  {
    SortedBy(CountAtLeast, t)
  }

  /** Inserting adds exactly the new key, and its count to the total; a fresh
      key keeps the keys distinct. */
  lemma {:induction false} InsertKeys(e: Entry, s: seq<Entry>)
    requires SortedByCount(s)
    ensures KeySet(InsertBy(CountAtLeast, e, s)) == KeySet(s) + {e.key}
    ensures SumCounts(InsertBy(CountAtLeast, e, s)) == SumCounts(s) + e.count
    ensures DistinctKeys(s) && e.key !in KeySet(s) ==> DistinctKeys(InsertBy(CountAtLeast, e, s))
    decreases |s|
  {
    var r := InsertBy(CountAtLeast, e, s);
    if |s| == 0 || CountAtLeast(e, s[0]) {
      assert r[1..] == s;
    } else {
      var rest := InsertBy(CountAtLeast, e, s[1..]);
      InsertKeys(e, s[1..]);
      assert r[1..] == rest;
    }
  }

  /** Sorting keeps the key set, distinct keys and the count sum. */
  lemma {:induction false} SortKeys(t: seq<Entry>)
    ensures KeySet(SortBy(CountAtLeast, t)) == KeySet(t)
    ensures DistinctKeys(t) ==> DistinctKeys(SortBy(CountAtLeast, t))
    ensures SumCounts(SortBy(CountAtLeast, t)) == SumCounts(t)
    decreases |t|
  {
    if |t| > 0 {
      SortKeys(t[1..]);
      InsertKeys(t[0], SortBy(CountAtLeast, t[1..]));
    }
  }

  /** The sort by count, descending. */
  function SortByCount(t: seq<Entry>): (r: seq<Entry>)
    ensures SortedByCount(r)
    ensures multiset(r) == multiset(t)
    ensures KeySet(r) == KeySet(t)
    ensures DistinctKeys(t) ==> DistinctKeys(r)
    ensures SumCounts(r) == SumCounts(t)
  {
    SortKeys(t);
    SortBy(CountAtLeast, t)
  }

  /** `statsDetalladas`: absent unless exactly one category is selected;
      otherwise the frequency table of the contributed keys, by count. */
  function StatsDetail(fs: seq<Record>, cats: seq<Category>): (r: Option<seq<Entry>>)
    ensures r.None? <==> |cats| != 1
    ensures r.Some? ==> SortedByCount(r.value)
    ensures r.Some? ==> DistinctKeys(r.value)
    ensures r.Some? ==> forall e :: e in r.value ==> e.count >= 1 && e.count == multiset(AllKeys(fs, cats[0]))[e.key]
    ensures r.Some? ==> KeySet(r.value) == set k | k in AllKeys(fs, cats[0])
    ensures r.Some? ==> SumCounts(r.value) == |AllKeys(fs, cats[0])|
  {
    if |cats| != 1 then None
    else
      var t := Tally(AllKeys(fs, cats[0]));
      var r := SortByCount(t);
      assert forall e :: e in r ==> e in t by {
        forall e | e in r ensures e in t {
          assert e in multiset(r);
        }
      }
      assert forall e :: e in t ==> CountOf(t, e.key) == e.count && e.count >= 1 by {
        forall e | e in t ensures CountOf(t, e.key) == e.count && e.count >= 1 { CountOfMember(t, e); }
      }
      Some(r)
  }
}
