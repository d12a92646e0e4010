/** `formatearFecha`: shows a stored `YYYY-MM-DD` date as `DD/MM/YYYY`, with
    the `String.prototype.split` behaviour it relies on. */
module Dates {

  /** String splitting on a one-character separator: always at least one part,
      empty parts kept. */
  function Split(s: string, sep: char): (parts: seq<string>)
    ensures |parts| >= 1
    ensures forall i :: 0 <= i < |parts| ==> sep !in parts[i]
    decreases |s|
  {
    if |s| == 0 then [""]
    else
      var rest := Split(s[1..], sep);
      if s[0] == sep then [""] + rest
      else [[s[0]] + rest[0]] + rest[1..]
  }

  /** Joining parts with a separator between each two. */
  function Join(parts: seq<string>, sep: char): string
    requires |parts| >= 1
    decreases |parts|
  {
    if |parts| == 1 then parts[0] else parts[0] + [sep] + Join(parts[1..], sep)
  }

  /** Joining the parts gives back the split string. */
  lemma {:induction false} JoinSplit(s: string, sep: char)
    ensures Join(Split(s, sep), sep) == s
    decreases |s|
  {
    if |s| > 0 {
      var rest := Split(s[1..], sep);
      JoinSplit(s[1..], sep);
      if s[0] != sep {
        var parts := Split(s, sep);
        assert parts[1..] == rest[1..];
        if |rest| > 1 {
          assert Join(rest, sep) == rest[0] + [sep] + Join(rest[1..], sep);
        }
      }
    }
  }

  /** Splitting joined parts that do not contain the separator gives them back. */
  lemma {:induction false} SplitJoin(parts: seq<string>, sep: char)
    requires |parts| >= 1
    requires forall i :: 0 <= i < |parts| ==> sep !in parts[i]
    ensures Split(Join(parts, sep), sep) == parts
    decreases |parts|, |parts[0]|
  {
    if |parts| == 1 {
      SplitPlain(parts[0], sep);
    } else {
      var s := Join(parts, sep);
      var p := parts[0];
      if |p| == 0 {
        assert s == [sep] + Join(parts[1..], sep);
        assert s[1..] == Join(parts[1..], sep);
        SplitJoin(parts[1..], sep);
        assert parts == [""] + parts[1..];
      } else {
        var shorter := [p[1..]] + parts[1..];
        assert shorter[1..] == parts[1..];
        assert s[1..] == Join(shorter, sep);
        SplitJoin(shorter, sep);
        assert [p[0]] + p[1..] == p;
        assert parts == [p] + parts[1..];
      }
    }
  }

  /** A string without the separator is a single part. */
  lemma {:induction false} SplitPlain(s: string, sep: char)
    requires sep !in s
    ensures Split(s, sep) == [s]
    decreases |s|
  {
    if |s| > 0 {
      SplitPlain(s[1..], sep);
      assert [s[0]] + s[1..] == s;
    }
  }

  /** A destructured part: a missing one is `undefined`, which the template
      literal prints as "undefined". */
  function Part(parts: seq<string>, i: nat): string
  {
    if i < |parts| then parts[i] else "undefined"
  }

  /** `formatearFecha`. */
  function FormatDate(fecha: string): (r: string)
    ensures fecha == "" <==> r == ""
  {
    if fecha == "" then ""
    else
      var parts := Split(fecha, '-');
      Part(parts, 2) + "/" + Part(parts, 1) + "/" + Part(parts, 0)
  }

  /** A `YYYY-MM-DD` date (any three dash-free fields) comes out as `DD/MM/YYYY`. */
  lemma FormatIsoDate(y: string, m: string, d: string)
    requires '-' !in y && '-' !in m && '-' !in d
    ensures FormatDate(y + "-" + m + "-" + d) == d + "/" + m + "/" + y
  {
    var parts := [y, m, d];
    SplitJoin(parts, '-');
    assert parts[1..] == [m, d] && parts[1..][1..] == [d];
    assert Join([m, d], '-') == m + "-" + d by {
      assert [m, d][1..] == [d];
    }
    assert Join(parts, '-') == y + "-" + m + "-" + d;
  }

  /** A non-empty string without a dash has two missing fields. */
  lemma FormatDateWithoutDash(s: string)
    requires s != "" && '-' !in s
    ensures FormatDate(s) == "undefined/undefined/" + s
  {
    SplitPlain(s, '-');
  }

  /** Reads a displayed `DD/MM/YYYY` back into the stored `YYYY-MM-DD` form. */
  function StoredDate(shown: string): string
  {
    var parts := Split(shown, '/');
    Part(parts, 2) + "-" + Part(parts, 1) + "-" + Part(parts, 0)
  }

  /** Displaying a three-field date loses nothing: it can be read back, as
      long as its fields contain neither separator. */
  lemma FormatDateRoundTrip(y: string, m: string, d: string)
    requires '-' !in y && '-' !in m && '-' !in d
    requires '/' !in y && '/' !in m && '/' !in d
    ensures StoredDate(FormatDate(y + "-" + m + "-" + d)) == y + "-" + m + "-" + d
  {
    FormatIsoDate(y, m, d);
    var parts := [d, m, y];
    SplitJoin(parts, '/');
    assert parts[1..] == [m, y] && parts[1..][1..] == [y];
    assert Join([m, y], '/') == m + "/" + y by {
      assert [m, y][1..] == [y];
    }
    assert Join(parts, '/') == d + "/" + m + "/" + y;
  }
}
