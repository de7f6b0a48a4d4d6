/** Dated rows and their windows: what the source query, the month shards and the API filter select. */
module DatedRows {
  import opened Calendar

  /** A day's metric, which names the block it was computed at on each chain, or one record of a chain's block. */
  datatype Row =
    | Metric(date: nat, blocks: map<string, int>, chainsIndexed: seq<nat>, chainsMissing: seq<nat>, complete: bool,
        payload: string)
    | Record(date: nat, blockchain: string, block: int, payload: string)

  /** The rows with `lo <= date <= hi`, in order. */
  function Window(rows: seq<Row>, lo: int, hi: int): seq<Row> {
    if rows == [] then []
    else (if lo <= rows[0].date <= hi then [rows[0]] else []) + Window(rows[1..], lo, hi)
  }

  ghost predicate Sorted(rows: seq<Row>) {
    forall i, j :: 0 <= i <= j < |rows| ==> rows[i].date <= rows[j].date
  }

  function Later(a: int, b: int): int { if a > b then a else b }
  function Earlier(a: int, b: int): int { if a < b then a else b }

  lemma {:induction false} WindowAppend(a: seq<Row>, b: seq<Row>, lo: int, hi: int)
    ensures Window(a + b, lo, hi) == Window(a, lo, hi) + Window(b, lo, hi)
  {
    if a == [] {
      assert a + b == b;
    } else {
      assert (a + b)[1..] == a[1..] + b;
      WindowAppend(a[1..], b, lo, hi);
    }
  }

  /** Selecting twice selects the common part. */
  lemma {:induction false} WindowWindow(rows: seq<Row>, a: int, b: int, c: int, d: int)
    ensures Window(Window(rows, a, b), c, d) == Window(rows, Later(a, c), Earlier(b, d))
  {
    if rows == [] {
    } else {
      var head := if a <= rows[0].date <= b then [rows[0]] else [];
      WindowAppend(head, Window(rows[1..], a, b), c, d);
      WindowWindow(rows[1..], a, b, c, d);
      assert Window([rows[0]], c, d) == if c <= rows[0].date <= d then [rows[0]] else [];
    }
  }

  /** Adjacent windows of date-ordered rows concatenate: no row is lost, repeated or reordered. */
  lemma {:induction false} WindowSplit(rows: seq<Row>, lo: int, mid: int, hi: int)
    requires Sorted(rows) && lo <= mid + 1 && mid <= hi
    ensures Window(rows, lo, mid) + Window(rows, mid + 1, hi) == Window(rows, lo, hi)
  {
    if rows == [] {
    } else {
      WindowSplit(rows[1..], lo, mid, hi);
      if rows[0].date > mid {
        WindowBelow(rows, lo, mid);
      }
    }
  }

  lemma {:induction false} WindowBelow(rows: seq<Row>, lo: int, hi: int)
    requires Sorted(rows) && (rows != [] ==> rows[0].date > hi)
    ensures Window(rows, lo, hi) == []
  {
    if rows == [] {
    } else {
      WindowBelow(rows[1..], lo, hi);
    }
  }

  lemma {:induction false} WindowEmpty(rows: seq<Row>, lo: int, hi: int)
    requires hi < lo
    ensures Window(rows, lo, hi) == []
  {
    if rows == [] {
    } else {
      WindowEmpty(rows[1..], lo, hi);
    }
  }

  lemma {:induction false} WindowMembers(rows: seq<Row>, lo: int, hi: int, r: Row)
    ensures r in Window(rows, lo, hi) <==> r in rows && lo <= r.date <= hi
  {
    if rows == [] {
    } else {
      WindowMembers(rows[1..], lo, hi, r);
      assert rows == [rows[0]] + rows[1..];
    }
  }

  /** No row dated `lo..hi` lies outside `start..end`. */
  ghost predicate CutsNoRow(rows: seq<Row>, lo: int, hi: int, start: int, end: int) {
    forall r :: r in rows && lo <= r.date <= hi ==> start <= r.date <= end
  }

  /** Cutting a window down to `start..end` leaves it as it is if and only if that cuts no row off. */
  lemma WindowCutExact(rows: seq<Row>, lo: int, hi: int, start: int, end: int)
    ensures Window(rows, Later(start, lo), Earlier(end, hi)) == Window(rows, lo, hi)
            <==> CutsNoRow(rows, lo, hi, start, end)
  {
    if CutsNoRow(rows, lo, hi, start, end) {
      WindowUncut(rows, lo, hi, start, end);
    } else {
      var r :| r in rows && lo <= r.date <= hi && !(start <= r.date <= end);
      WindowMembers(rows, lo, hi, r);
      WindowMembers(rows, Later(start, lo), Earlier(end, hi), r);
    }
  }

  lemma {:induction false} WindowUncut(rows: seq<Row>, lo: int, hi: int, start: int, end: int)
    requires CutsNoRow(rows, lo, hi, start, end)
    ensures Window(rows, Later(start, lo), Earlier(end, hi)) == Window(rows, lo, hi)
  {
    if rows == [] {
    } else {
      assert rows[0] in rows && forall r :: r in rows[1..] ==> r in rows;
      WindowUncut(rows[1..], lo, hi, start, end);
    }
  }

  function MonthEnd(month: nat): int {
    MonthStart(month + 1) - 1
  }

  /** `rows.filter((row) => row.date.startsWith(month))`. */
  function InMonth(rows: seq<Row>, month: nat): seq<Row> {
    Window(rows, MonthStart(month), MonthEnd(month))
  }
}
