/**
 Per-shader samples for the plots (aerialvision/organizedata.py).

 A statistics log holds one record per sample, the values of the shader cores one
 after the other, closed by a NULL.  The records are turned into one column per core,
 and long columns are averaged down to 512 points.
 */
module AerialOrganize {
  import opened Wrappers
  import opened Multiples

  datatype Cell = Null | Value(v: int)

  // ----- the log as records -----

  /** The records that a NULL closes. */
  function Records(cells: seq<Cell>): (records: seq<seq<int>>) {
    if |cells| == 0 then []
    else
      var before := cells[..|cells| - 1];
      if cells[|cells| - 1].Null? then Records(before) + [Tail(before)] else Records(before)
  }

  /** The values after the last NULL. */
  function Tail(cells: seq<Cell>): (tail: seq<int>) {
    if |cells| == 0 || cells[|cells| - 1].Null? then []
    else Tail(cells[..|cells| - 1]) + [cells[|cells| - 1].v]
  }

  function Values(record: seq<int>): (cells: seq<Cell>) {
    seq(|record|, k requires 0 <= k < |record| => Value(record[k]))
  }

  function Log(records: seq<seq<int>>, tail: seq<int>): (cells: seq<Cell>) {
    if |records| == 0 then Values(tail)
    else Log(records[..|records| - 1], records[|records| - 1]) + [Null] + Values(tail)
  }

  lemma Snoc<T>(s: seq<T>, x: T)
    ensures (s + [x])[..|s|] == s && (s + [x])[|s|] == x && |s + [x]| == |s| + 1
  {
  }

  lemma LogSnoc(records: seq<seq<int>>, tail: seq<int>, v: int)
    ensures Log(records, tail + [v]) == Log(records, tail) + [Value(v)]
  {
    assert Values(tail + [v]) == Values(tail) + [Value(v)];
  }

  lemma LogClosed(records: seq<seq<int>>, tail: seq<int>)
    ensures Log(records + [tail], []) == Log(records, tail) + [Null]
  {
    Snoc(records, tail);
    assert Values([]) == [];
  }

  /** Reading a log as records loses nothing: written out again they are the log. */
  lemma {:induction false} RecordsAreTheLog(cells: seq<Cell>)
    ensures Log(Records(cells), Tail(cells)) == cells
  {
    if |cells| == 0 {
      assert Values([]) == [];
    } else {
      var before, last := cells[..|cells| - 1], cells[|cells| - 1];
      assert cells == before + [last];
      RecordsAreTheLog(before);
      if last.Null? {
        LogClosed(Records(before), Tail(before));
      } else {
        LogSnoc(Records(before), Tail(before), last.v);
      }
    }
  }

  // ----- how many columns -----

  /** The length of the last record that is not empty; 0 when there is none. */
  function LastLength(records: seq<seq<int>>, tail: seq<int>): (n: nat) {
    if |tail| > 0 then |tail|
    else if |records| == 0 then 0
    else LastLength(records[..|records| - 1], records[|records| - 1])
  }

  function Plots(cells: seq<Cell>): (n: nat) {
    LastLength(Records(cells), Tail(cells))
  }

  /** The number of columns: the length of the last run of values, over whatever empty records follow it. */
  lemma {:induction false} PlotsMean(records: seq<seq<int>>, tail: seq<int>)
    ensures |tail| > 0 ==> LastLength(records, tail) == |tail|
    ensures tail == [] && (forall k | 0 <= k < |records| :: records[k] == []) ==> LastLength(records, tail) == 0
    ensures forall k: nat | tail == [] && LastNonEmpty(records, k) :: LastLength(records, tail) == |records[k]|
  {
    if tail == [] && |records| > 0 {
      var n := |records| - 1;
      PlotsMean(records[..n], records[n]);
      forall k: nat | LastNonEmpty(records, k) && k < n ensures LastNonEmpty(records[..n], k) && records[n] == [] {
      }
    }
  }

  predicate LastNonEmpty(records: seq<seq<int>>, k: nat) {
    k < |records| && records[k] != [] && forall j | k < j < |records| :: records[j] == []
  }

  lemma PlotsClosed(cells: seq<Cell>)
    ensures Records(cells + [Null]) == Records(cells) + [Tail(cells)] && Tail(cells + [Null]) == []
    ensures Plots(cells + [Null]) == Plots(cells)
  {
    Snoc(cells, Null);
    Snoc(Records(cells), Tail(cells));
  }

  lemma PlotsValue(cells: seq<Cell>, v: int)
    ensures Records(cells + [Value(v)]) == Records(cells) && Tail(cells + [Value(v)]) == Tail(cells) + [v]
    ensures Plots(cells + [Value(v)]) == |Tail(cells)| + 1
  {
    Snoc(cells, Value(v));
  }

  method CountPlots(cells: seq<Cell>) returns (count: nat)
    ensures count == Plots(cells)
  {
    count := 0;
    var i := |cells|;
    assert cells[..i] == cells;
    while i > 0
      invariant 0 <= i <= |cells|
      invariant Plots(cells) == if count == 0 then Plots(cells[..i]) else |Tail(cells[..i])| + count
    {
      i := i - 1;
      assert cells[..i + 1] == cells[..i] + [cells[i]];
      if cells[i].Value? {
        PlotsValue(cells[..i], cells[i].v);
        count := count + 1;
      } else {
        PlotsClosed(cells[..i]);
        if count != 0 {
          break;
        }
      }
    }
  }

  // ----- one column per shader core -----

  function At(record: seq<int>, c: nat): (v: int) {
    if c < |record| then record[c] else 0
  }

  /** Column `c`: 0, then the `c`-th value of each record, 0 where it is missing. */
  function Column(records: seq<seq<int>>, c: nat): (column: seq<int>)
    ensures |column| == |records| + 1
  {
    if |records| == 0 then [0]
    else Column(records[..|records| - 1], c) + [At(records[|records| - 1], c)]
  }

  /** The columns of a log; an unfinished record reaches only the columns it has values for. */
  ghost predicate Demultiplexed(columns: seq<seq<int>>, records: seq<seq<int>>, tail: seq<int>) {
    forall c: nat :: c < |columns| ==>
      columns[c] == Column(records, c) + if c < |tail| then [tail[c]] else []
  }

  ghost predicate Fits(records: seq<seq<int>>, tail: seq<int>, n: nat) {
    |tail| <= n && forall k :: 0 <= k < |records| ==> |records[k]| <= n
  }

  ghost predicate LogFits(cells: seq<Cell>, n: nat) {
    Fits(Records(cells), Tail(cells), n)
  }

  lemma {:induction false} PrefixFits(cells: seq<Cell>, i: nat, n: nat)
    requires i <= |cells| && LogFits(cells, n)
    ensures LogFits(cells[..i], n)
    decreases |cells|
  {
    assert cells[..|cells|] == cells;
    if i < |cells| {
      var before := cells[..|cells| - 1];
      assert cells == before + [cells[|cells| - 1]];
      BeforeFits(before, cells[|cells| - 1], n);
      PrefixFits(before, i, n);
      assert before[..i] == cells[..i];
    }
  }

  lemma BeforeFits(cells: seq<Cell>, last: Cell, n: nat)
    requires LogFits(cells + [last], n)
    ensures LogFits(cells, n)
  {
    if last.Null? {
      PlotsClosed(cells);
      var records := Records(cells) + [Tail(cells)];
      assert records[|Records(cells)|] == Tail(cells);
      forall k | 0 <= k < |Records(cells)|
        ensures |Records(cells)[k]| <= n
      {
        assert records[k] == Records(cells)[k];
      }
    } else {
      PlotsValue(cells, last.v);
    }
  }

  method PadColumns(organized: seq<seq<int>>, from: nat) returns (padded: seq<seq<int>>)
    ensures |padded| == |organized|
    ensures forall c: nat :: c < |organized| ==> padded[c] == if from <= c then organized[c] + [0] else organized[c]
  {
    padded := organized;
    var count := from;
    while count < |padded|
      invariant from <= count && |padded| == |organized|
      invariant forall c: nat :: c < |organized| ==>
        padded[c] == if from <= c < count then organized[c] + [0] else organized[c]
    {
      padded := padded[count := padded[count] + [0]];
      count := count + 1;
    }
  }

  /**
   One column per core; None for the IndexError of a record with more values than the
   last non-empty one.
   */
  method NullOrganizedShader(cells: seq<Cell>) returns (r: Option<seq<seq<int>>>)
    ensures r.Some? <==> LogFits(cells, Plots(cells))
    ensures r.Some? ==> |r.value| == Plots(cells) && Demultiplexed(r.value, Records(cells), Tail(cells))
  {
    hide Records, Tail, Column, Plots, LogFits, Fits, Demultiplexed, At;
    var numPlots := CountPlots(cells);
    var organized: seq<seq<int>> := [];
    StartColumns();
    for x := 0 to numPlots
      invariant |organized| == x
      invariant Demultiplexed(organized, [], [])
    {
      StartColumn(organized);
      organized := organized + [[0]];
    }
    var count: nat := 0;
    EmptyLog(numPlots);
    assert cells[..0] == [];
    for x := 0 to |cells|
      invariant |organized| == numPlots
      invariant count == |Tail(cells[..x])|
      invariant Demultiplexed(organized, Records(cells[..x]), Tail(cells[..x]))
      invariant LogFits(cells[..x], numPlots)
    {
      var records, tail := Records(cells[..x]), Tail(cells[..x]);
      assert cells[..x + 1] == cells[..x] + [cells[x]];
      if cells[x].Null? {
        PlotsClosed(cells[..x]);
        FitsClosed(cells[..x], numPlots);
        var padded := PadColumns(organized, count);
        RecordClosed(organized, padded, records, tail);
        organized := padded;
        count := 0;
      } else {
        PlotsValue(cells[..x], cells[x].v);
        FitsValue(cells[..x], cells[x].v, numPlots);
        if count >= numPlots {
          CannotFit(cells, x + 1, numPlots);
          return None;
        }
        ValueAdded(organized, records, tail, cells[x].v);
        organized := organized[count := organized[count] + [cells[x].v]];
        count := count + 1;
      }
    }
    assert cells[..|cells|] == cells;
    r := Some(organized);
  }

  lemma StartColumns()
    ensures Demultiplexed([], [], [])
  {
  }

  lemma StartColumn(columns: seq<seq<int>>)
    requires Demultiplexed(columns, [], [])
    ensures Demultiplexed(columns + [[0]], [], [])
  {
  }

  lemma EmptyLog(n: nat)
    ensures Records([]) == [] && Tail([]) == [] && LogFits([], n)
  {
  }

  lemma FitsClosed(cells: seq<Cell>, n: nat)
    requires LogFits(cells, n)
    ensures LogFits(cells + [Null], n)
  {
    PlotsClosed(cells);
  }

  lemma FitsValue(cells: seq<Cell>, v: int, n: nat)
    requires LogFits(cells, n)
    ensures LogFits(cells + [Value(v)], n) <==> |Tail(cells)| < n
  {
    PlotsValue(cells, v);
  }

  lemma CannotFit(cells: seq<Cell>, i: nat, n: nat)
    requires i <= |cells| && !LogFits(cells[..i], n)
    ensures !LogFits(cells, n)
  {
    if LogFits(cells, n) {
      PrefixFits(cells, i, n);
    }
  }

  lemma RecordClosed(
      columns: seq<seq<int>>, padded: seq<seq<int>>, records: seq<seq<int>>, tail: seq<int>)
    requires Demultiplexed(columns, records, tail) && |padded| == |columns|
    requires forall c: nat :: c < |columns| ==> padded[c] == if |tail| <= c then columns[c] + [0] else columns[c]
    ensures Demultiplexed(padded, records + [tail], [])
  {
    Snoc(records, tail);
    forall c: nat | c < |padded| ensures padded[c] == Column(records, c) + [At(tail, c)] {
      assert |tail| <= c ==> Column(records, c) + [] == Column(records, c);
    }
  }

  lemma ValueAdded(columns: seq<seq<int>>, records: seq<seq<int>>, tail: seq<int>, v: int)
    requires Demultiplexed(columns, records, tail) && |tail| < |columns|
    ensures Demultiplexed(columns[|tail| := columns[|tail|] + [v]], records, tail + [v])
  {
    assert columns[|tail|] == Column(records, |tail|) + [];
  }

  // ----- what the columns hold -----

  lemma {:induction false} ColumnAt(records: seq<seq<int>>, c: nat, k: nat)
    requires k < |records|
    ensures Column(records, c)[0] == 0
    ensures Column(records, c)[k + 1] == if c < |records[k]| then records[k][c] else 0
  {
    if k < |records| - 1 {
      ColumnAt(records[..|records| - 1], c, k);
    } else if k > 0 {
      ColumnAt(records[..|records| - 1], c, k - 1);
    }
  }

  /** When every record is closed the columns are all of one length, one entry more than there are records. */
  lemma Rectangular(cells: seq<Cell>, columns: seq<seq<int>>)
    requires Demultiplexed(columns, Records(cells), Tail(cells))
    requires |cells| > 0 ==> cells[|cells| - 1].Null?
    ensures forall c: nat :: c < |columns| ==> |columns[c]| == |Records(cells)| + 1 && columns[c][0] == 0
    ensures forall c: nat, k: nat :: c < |columns| && k < |Records(cells)| ==>
              columns[c][k + 1] == if c < |Records(cells)[k]| then Records(cells)[k][c] else 0
  {
    var records := Records(cells);
    forall c: nat | c < |columns|
      ensures columns[c] == Column(records, c) && columns[c][0] == 0
      ensures forall k: nat :: k < |records| ==> columns[c][k + 1] == At(records[k], c)
    {
      forall k: nat | k < |records|
        ensures Column(records, c)[k + 1] == At(records[k], c)
      {
        ColumnAt(records, c, k);
      }
      if |records| > 0 {
        ColumnAt(records, c, 0);
      }
    }
  }

  function Sum(s: seq<int>): (total: int) {
    if |s| == 0 then 0 else Sum(s[..|s| - 1]) + s[|s| - 1]
  }

  lemma {:induction false} SumConcat(a: seq<int>, b: seq<int>)
    ensures Sum(a + b) == Sum(a) + Sum(b)
  {
    if |b| == 0 {
      assert a + b == a;
    } else {
      SumConcat(a, b[..|b| - 1]);
      assert (a + b)[..|a + b| - 1] == a + b[..|b| - 1];
    }
  }

  function SumAll(rows: seq<seq<int>>): (total: int) {
    if |rows| == 0 then 0 else SumAll(rows[..|rows| - 1]) + Sum(rows[|rows| - 1])
  }

  /** The sum of what is in the first `n` columns. */
  function ColumnsTotal(records: seq<seq<int>>, tail: seq<int>, n: nat): (total: int) {
    if n == 0 then 0
    else ColumnsTotal(records, tail, n - 1) + Sum(Column(records, n - 1)) + At(tail, n - 1)
  }

  lemma {:induction false} ColumnsTotalIsAll(columns: seq<seq<int>>, records: seq<seq<int>>, tail: seq<int>)
    requires Demultiplexed(columns, records, tail)
    ensures SumAll(columns) == ColumnsTotal(records, tail, |columns|)
  {
    var n := |columns|;
    if n > 0 {
      var fewer := columns[..n - 1];
      assert Demultiplexed(fewer, records, tail);
      ColumnsTotalIsAll(fewer, records, tail);
      SumConcat(Column(records, n - 1), if n - 1 < |tail| then [tail[n - 1]] else []);
      SumOne(At(tail, n - 1));
    }
  }

  lemma SumOne(v: int)
    ensures Sum([v]) == v && Sum([]) == 0
  {
    assert [v][..0] == [];
  }

  /** The first `n` values of a record. */
  function FirstValues(record: seq<int>, n: nat): (total: int) {
    if n == 0 then 0 else FirstValues(record, n - 1) + At(record, n - 1)
  }

  lemma {:induction false} FirstValuesSum(record: seq<int>, n: nat)
    ensures FirstValues(record, n) == Sum(if n < |record| then record[..n] else record)
  {
    if n > 0 {
      FirstValuesSum(record, n - 1);
      if n <= |record| {
        assert record[..n][..n - 1] == record[..n - 1];
        assert n == |record| ==> record[..n] == record;
      } else {
        assert n - 1 == |record| ==> record[..n - 1] == record;
      }
    } else if |record| > 0 {
      assert record[..0] == [];
    } else {
      assert record == [];
    }
  }

  lemma {:induction false} ColumnsTotalSnoc(records: seq<seq<int>>, record: seq<int>, tail: seq<int>, n: nat)
    ensures ColumnsTotal(records + [record], tail, n)
         == ColumnsTotal(records, record, n) + FirstValues(tail, n)
  {
    if n > 0 {
      ColumnsTotalSnoc(records, record, tail, n - 1);
      Snoc(records, record);
      SumConcat(Column(records, n - 1), [At(record, n - 1)]);
      SumOne(At(record, n - 1));
    }
  }

  lemma {:induction false} NoRecords(tail: seq<int>, n: nat)
    ensures ColumnsTotal([], tail, n) == FirstValues(tail, n)
  {
    if n > 0 {
      NoRecords(tail, n - 1);
      SumOne(0);
    }
  }

  lemma {:induction false} NothingLost(records: seq<seq<int>>, tail: seq<int>, n: nat)
    requires Fits(records, tail, n)
    ensures ColumnsTotal(records, tail, n) == SumAll(records) + Sum(tail)
  {
    FirstValuesSum(tail, n);
    if |records| == 0 {
      NoRecords(tail, n);
      assert records == [];
    } else {
      var last := |records| - 1;
      NothingLost(records[..last], records[last], n);
      assert records == records[..last] + [records[last]];
      ColumnsTotalSnoc(records[..last], records[last], tail, n);
    }
  }

  /** The sum of the values of a log. */
  function ValuesTotal(cells: seq<Cell>): (total: int) {
    if |cells| == 0 then 0
    else
      ValuesTotal(cells[..|cells| - 1]) +
      if cells[|cells| - 1].Null? then 0 else cells[|cells| - 1].v
  }

  lemma {:induction false} RecordsTotal(cells: seq<Cell>)
    ensures SumAll(Records(cells)) + Sum(Tail(cells)) == ValuesTotal(cells)
  {
    if |cells| > 0 {
      var before, last := cells[..|cells| - 1], cells[|cells| - 1];
      RecordsTotal(before);
      if last.Null? {
        Snoc(Records(before), Tail(before));
      } else {
        Snoc(Tail(before), last.v);
      }
    }
  }

  /** Every value of the log ends up in the columns exactly once, so their sums agree. */
  lemma ColumnsKeepTotal(cells: seq<Cell>, columns: seq<seq<int>>)
    requires Demultiplexed(columns, Records(cells), Tail(cells))
    requires LogFits(cells, |columns|)
    ensures SumAll(columns) == ValuesTotal(cells)
  {
    ColumnsTotalIsAll(columns, Records(cells), Tail(cells));
    NothingLost(Records(cells), Tail(cells), |columns|);
    RecordsTotal(cells);
  }

  // ----- binning -----

  const NEW_LEN: nat := 512

  /** `int(a / n)` rounds toward zero. */
  function Truncated(a: int, n: nat): (q: int)
    requires n > 0
    ensures a >= 0 ==> 0 <= q && n * q <= a < n * q + n
    ensures a <= 0 ==> n * q - n < a <= n * q
  {
    if a >= 0 then a / n else -((-a) / n)
  }

  /** The sum of the entries that fall into bin `b`. */
  function BinSum(row: seq<int>, n: nat, b: nat): (total: int)
    requires n > 0
  {
    if |row| == 0 then 0
    else
      var last := |row| - 1;
      BinSum(row[..last], n, b) + if last / n == b then row[last] else 0
  }

  function Least(a: nat, b: nat): (m: nat) {
    if a <= b then a else b
  }

  lemma SameBin(k: nat, n: nat, b: nat)
    requires n > 0
    ensures k / n == b <==> b * n <= k < b * n + n
  {
    if b * n <= k < b * n + n {
      QuotientUnique(b, k - b * n, n);
    }
  }

  /** Bin `b` holds a stretch of `n` neighbouring entries. */
  lemma {:induction false} BinIsSlice(row: seq<int>, n: nat, b: nat)
    requires n > 0
    ensures BinSum(row, n, b) == Sum(row[Least(b * n, |row|)..Least(b * n + n, |row|)])
  {
    if |row| > 0 {
      var last := |row| - 1;
      var from, to := b * n, b * n + n;
      BinIsSlice(row[..last], n, b);
      SameBin(last, n, b);
      SliceGrows(row, from, to);
    }
  }

  lemma SliceGrows(row: seq<int>, from: nat, to: nat)
    requires |row| > 0 && from <= to
    ensures Sum(row[Least(from, |row|)..Least(to, |row|)])
         == Sum(row[..|row| - 1][Least(from, |row| - 1)..Least(to, |row| - 1)])
            + if from <= |row| - 1 < to then row[|row| - 1] else 0
  {
    hide Sum;
    var last := |row| - 1;
    if from <= last < to {
      SumOfSuffix(row, from);
    } else if to <= last {
      SliceOfShorter(row, from, to);
    } else {
      assert row[|row|..|row|] == row[..last][last..last];
    }
  }

  lemma SliceOfShorter<T>(s: seq<T>, a: nat, b: nat)
    requires a <= b < |s|
    ensures s[..|s| - 1][a..b] == s[a..b]
  {
  }

  lemma SumOfSuffix(row: seq<int>, from: nat)
    requires from < |row|
    ensures Sum(row[from..|row|]) == Sum(row[..|row| - 1][from..|row| - 1]) + row[|row| - 1]
  {
    hide Least;
    var suffix := row[from..|row|];
    assert suffix[..|suffix| - 1] == row[..|row| - 1][from..|row| - 1];
  }

  /** The sums of the first `m` bins. */
  function BinSums(row: seq<int>, n: nat, m: nat): (sums: seq<int>)
    requires n > 0
    ensures |sums| == m
    ensures forall b: nat :: b < m ==> sums[b] == BinSum(row, n, b)
  {
    if m == 0 then [] else BinSums(row, n, m - 1) + [BinSum(row, n, m - 1)]
  }

  lemma SumCut(row: seq<int>, a: nat, b: nat)
    requires a <= b
    ensures Sum(row[..Least(b, |row|)])
         == Sum(row[..Least(a, |row|)]) + Sum(row[Least(a, |row|)..Least(b, |row|)])
  {
    var from, to := Least(a, |row|), Least(b, |row|);
    assert row[..to] == row[..from] + row[from..to];
    SumConcat(row[..from], row[from..to]);
  }

  lemma NextMultiple(m: nat, n: nat)
    requires m > 0
    ensures m * n == (m - 1) * n + n
  {
  }

  lemma {:induction false} BinsKeepTotal(row: seq<int>, n: nat, m: nat)
    requires n > 0
    ensures Sum(BinSums(row, n, m)) == Sum(row[..Least(m * n, |row|)])
  {
    if m == 0 {
      assert row[..Least(0, |row|)] == [];
    } else {
      var from: nat := (m - 1) * n;
      BinsKeepTotal(row, n, m - 1);
      BinIsSlice(row, n, m - 1);
      NextMultiple(m, n);
      SumCut(row, from, from + n);
      Snoc(BinSums(row, n, m - 1), BinSum(row, n, m - 1));
    }
  }

  /** A row as it is drawn: each of the 512 cells is its bin's sum over the group size. */
  ghost predicate Binned(row: seq<int>, n: nat, cells: seq<int>)
    requires n > 0
  {
    |cells| == 512 && forall b: nat :: b < 512 ==> cells[b] == Truncated(BinSum(row, n, b), n)
  }

  /** The group size for columns of `len` entries: 512 groups reach over all of them. */
  function GroupSize(len: nat): (n: nat)
    ensures n > 0 && len < NEW_LEN * n
  {
    len / NEW_LEN + 1
  }

  lemma BinInRange(col: nat, n: nat)
    requires n > 0 && col < NEW_LEN * n
    ensures col / n < NEW_LEN
  {
    var q := col / n;
    assert col == q * n + col % n;
    if q >= NEW_LEN {
      MulMono(NEW_LEN, q, n);
    }
  }

  method BinRow(row: seq<int>, n: nat) returns (cells: seq<int>)
    requires n > 0 && |row| <= NEW_LEN * n
    ensures Binned(row, n, cells)
  {
    var newy := new int[NEW_LEN](_ => 0);
    for col := 0 to |row|
      invariant forall b: nat :: b < NEW_LEN ==> newy[b] == BinSum(row[..col], n, b)
    {
      var newcol := col / n;
      BinInRange(col, n);
      assert row[..col + 1][..col] == row[..col];
      newy[newcol] := newy[newcol] + row[col];
    }
    assert row[..|row|] == row;
    for col := 0 to NEW_LEN
      invariant forall b: nat :: b < NEW_LEN ==>
        newy[b] == if b < col then Truncated(BinSum(row, n, b), n) else BinSum(row, n, b)
    {
      newy[col] := Truncated(newy[col], n);
    }
    cells := newy[..];
  }

  lemma NoLongerThanFirst(columns: seq<seq<int>>, records: seq<seq<int>>, tail: seq<int>, c: nat)
    requires Demultiplexed(columns, records, tail) && c < |columns|
    ensures |columns[c]| <= |columns[0]|
  {
    assert |Column(records, c)| == |Column(records, 0)|;
  }

  /**
   The columns, averaged down when the first has more than 512 entries; None for an
   IndexError, also for the one that a log without any value gives.
   */
  method NullOrganizedStackedBar(cells: seq<Cell>) returns (r: Option<seq<seq<int>>>)
    ensures r.Some? <==> LogFits(cells, Plots(cells)) && Plots(cells) > 0
    ensures r.Some? ==> |r.value| == Plots(cells)
    ensures r.Some? ==>
      exists columns: seq<seq<int>> ::
        |columns| == Plots(cells) && Demultiplexed(columns, Records(cells), Tail(cells)) &&
        if |columns[0]| <= 512 then r.value == columns
        else forall c: nat :: c < |columns| ==> Binned(columns[c], |columns[0]| / 512 + 1, r.value[c])
  {
    hide Records, Tail, Column, Plots, BinSum, LogFits;
    var shader := NullOrganizedShader(cells);
    if shader.None? {
      return None;
    }
    var organized := shader.value;
    ghost var columns := organized;
    if |organized| == 0 {
      return None;
    }
    if |organized[0]| > NEW_LEN {
      var n := GroupSize(|organized[0]|);
      for row := 0 to |organized|
        invariant |organized| == |columns|
        invariant forall c: nat :: row <= c < |columns| ==> organized[c] == columns[c]
        invariant forall c: nat :: c < row ==> Binned(columns[c], n, organized[c])
      {
        NoLongerThanFirst(columns, Records(cells), Tail(cells), row);
        var newy := BinRow(organized[row], n);
        organized := organized[row := newy];
      }
    }
    r := Some(organized);
  }

  predicate NoneNegative(row: seq<int>) {
    forall k :: 0 <= k < |row| ==> row[k] >= 0
  }

  lemma {:induction false} SumNotNegative(row: seq<int>)
    requires NoneNegative(row)
    ensures Sum(row) >= 0
  {
    if |row| > 0 {
      SumNotNegative(row[..|row| - 1]);
    }
  }

  /**
   What a drawn row shows: before the division the bins hold the row's whole total,
   and for counts, which are never negative, the division loses less than one group
   size per cell.
   */
  lemma BinnedMeans(row: seq<int>, n: nat, cells: seq<int>)
    requires n > 0 && |row| <= 512 * n
    requires Binned(row, n, cells)
    ensures Sum(BinSums(row, n, 512)) == Sum(row)
    ensures NoneNegative(row) ==> NoneNegative(cells)
    ensures NoneNegative(row) ==> Sum(row) - 512 * (n - 1) <= n * Sum(cells) <= Sum(row)
  {
    BinsKeepTotal(row, n, 512);
    assert row[..Least(512 * n, |row|)] == row;
    if NoneNegative(row) {
      forall b: nat | b < 512
        ensures BinSum(row, n, b) >= 0
      {
        BinIsSlice(row, n, b);
        SumNotNegative(row[Least(b * n, |row|)..Least(b * n + n, |row|)]);
      }
      FloorsTotal(BinSums(row, n, 512), n, cells);
    }
  }

  lemma {:induction false} FloorsTotal(sums: seq<int>, n: nat, cells: seq<int>)
    requires n > 0 && |sums| == |cells| && NoneNegative(sums)
    requires forall b: nat :: b < |sums| ==> cells[b] == Truncated(sums[b], n)
    ensures NoneNegative(cells)
    ensures Sum(sums) - |sums| * (n - 1) <= n * Sum(cells) <= Sum(sums)
  {
    hide Truncated;
    var m := |sums|;
    if m > 0 {
      FloorsTotal(sums[..m - 1], n, cells[..m - 1]);
      assert cells[m - 1] == Truncated(sums[m - 1], n);
      FloorStep(n, m, Sum(sums[..m - 1]), Sum(cells[..m - 1]), sums[m - 1], cells[m - 1]);
      StillNoneNegative(cells);
    }
  }

  lemma StillNoneNegative(row: seq<int>)
    requires |row| > 0 && NoneNegative(row[..|row| - 1]) && row[|row| - 1] >= 0
    ensures NoneNegative(row)
  {
    assert row == row[..|row| - 1] + [row[|row| - 1]];
  }

  lemma FloorStep(n: nat, m: nat, sums: int, cells: int, sum: int, cell: int)
    requires n > 0 && m > 0 && sum >= 0
    requires sums - (m - 1) * (n - 1) <= n * cells <= sums
    requires cell == Truncated(sum, n)
    ensures cell >= 0
    ensures sums + sum - m * (n - 1) <= n * (cells + cell) <= sums + sum
  {
    hide Truncated;
    assert n * cell <= sum < n * cell + n;
    assert n * (cells + cell) == n * cells + n * cell;
    assert m * (n - 1) == (m - 1) * (n - 1) + (n - 1);
  }
}
