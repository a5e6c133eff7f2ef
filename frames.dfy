/** A pandas DataFrame as a value: a row index and named columns of
    possibly-missing reals, all as long as the index.  Row selection
    (`dropna`, `iloc`) and label alignment on assignment live here. */
module Frames {
  import opened Numeric

  /** A row label: a trading date (the price history's index) or a
      position (the default range index of a freshly built series). */
  datatype Label = Date(day: int) | Position(pos: nat)

  type Column = seq<Option<real>>

  datatype Table = Table(index: seq<Label>, columns: map<string, Column>)

  const CloseColumn: string := "Close"

  /** Every column has one entry per row label. */
  ghost predicate WellFormed(t: Table)
  {
    forall c :: c in t.columns ==> |t.columns[c]| == |t.index|
  }

  /** Row `i` has a value in every column. */
  predicate RowComplete(t: Table, i: nat)
    requires WellFormed(t) && i < |t.index|
  {
    forall c :: c in t.columns ==> t.columns[c][i].Some?
  }

  predicate StrictlyIncreasing(rows: seq<nat>)
  {
    forall j, k :: 0 <= j < k < |rows| ==> rows[j] < rows[k]
  }

  /** The positions below `n` of complete rows, in increasing order. */
  function CompleteRowsBelow(t: Table, n: nat): (rows: seq<nat>)
    requires WellFormed(t) && n <= |t.index|
    ensures forall k :: 0 <= k < |rows| ==> rows[k] < n
  {
    if n == 0 then []
    else CompleteRowsBelow(t, n - 1) + (if RowComplete(t, n - 1) then [n - 1] else [])
  }

  function CompleteRows(t: Table): (rows: seq<nat>)
    requires WellFormed(t)
    ensures forall k :: 0 <= k < |rows| ==> rows[k] < |t.index|
  {
    CompleteRowsBelow(t, |t.index|)
  }

  lemma {:induction false} CompleteRowsBelowSpec(t: Table, n: nat)
    requires WellFormed(t) && n <= |t.index|
    ensures StrictlyIncreasing(CompleteRowsBelow(t, n))
    ensures forall i :: 0 <= i < n ==> (i in CompleteRowsBelow(t, n) <==> RowComplete(t, i))
  {
    if n > 0 {
      CompleteRowsBelowSpec(t, n - 1);
    }
  }

  /** The positions `lo`, `lo + 1`, ..., `hi - 1`. */
  function Range(lo: nat, hi: nat): (rows: seq<nat>)
    requires lo <= hi
    ensures |rows| == hi - lo
    ensures forall k :: 0 <= k < |rows| ==> rows[k] == lo + k
  {
    seq(hi - lo, k requires 0 <= k < hi - lo => lo + k)
  }

  /** When exactly the rows from `start` on are complete, the complete rows
      below `n` are the contiguous run from `start`. */
  lemma {:induction false} CompleteRowsOfSuffix(t: Table, start: nat, n: nat)
    requires WellFormed(t) && n <= |t.index|
    requires forall i :: 0 <= i < n ==> (RowComplete(t, i) <==> start <= i)
    ensures CompleteRowsBelow(t, n) == if n <= start then [] else Range(start, n)
  {
    if n > 0 {
      CompleteRowsOfSuffix(t, start, n - 1);
      var prev := CompleteRowsBelow(t, n - 1);
      assert CompleteRowsBelow(t, n) == prev + (if RowComplete(t, n - 1) then [n - 1] else []);
      if n - 1 < start {
        assert !RowComplete(t, n - 1);
      } else if n - 1 == start {
        assert RowComplete(t, n - 1) && prev == [];
        assert Range(start, n) == [start];
      } else {
        assert RowComplete(t, n - 1) && prev == Range(start, n - 1);
        assert Range(start, n) == Range(start, n - 1) + [n - 1];
      }
    }
  }

  /** When the complete rows are the run from `start` to the end, `dropna`
      returns the table from row `start` on (nothing when `start` is past
      the end). */
  lemma DropNaOfSuffix(t: Table, start: nat)
    requires WellFormed(t)
    requires CompleteRows(t) == if |t.index| <= start then [] else Range(start, |t.index|)
    ensures |DropNa(t).index| == if |t.index| <= start then 0 else |t.index| - start
    ensures start < |t.index| ==> DropNa(t).index == t.index[start..]
    ensures forall c, j :: c in t.columns && 0 <= j < |DropNa(t).index| ==>
              DropNa(t).columns[c][j] == t.columns[c][start + j]
  {
    if start < |t.index| {
      var rows := Range(start, |t.index|);
      assert Select(t.index, rows) == t.index[start..];
    }
  }

  function Select<T>(xs: seq<T>, rows: seq<nat>): (ys: seq<T>)
    requires forall k :: 0 <= k < |rows| ==> rows[k] < |xs|
    ensures |ys| == |rows|
    ensures forall k :: 0 <= k < |rows| ==> ys[k] == xs[rows[k]]
  {
    seq(|rows|, k requires 0 <= k < |rows| => xs[rows[k]])
  }

  /** The table made of rows `rows` of `t`, with the same columns. */
  function SelectRows(t: Table, rows: seq<nat>): (r: Table)
    requires WellFormed(t)
    requires forall k :: 0 <= k < |rows| ==> rows[k] < |t.index|
    ensures WellFormed(r) && r.columns.Keys == t.columns.Keys && |r.index| == |rows|
    ensures r.index == Select(t.index, rows)
    ensures forall c :: c in t.columns ==> r.columns[c] == Select(t.columns[c], rows)
  {
    Table(Select(t.index, rows), map c | c in t.columns :: Select(t.columns[c], rows))
  }

  /** `DataFrame.dropna()`: the rows without a missing value. */
  function DropNa(t: Table): (r: Table)
    requires WellFormed(t)
    ensures WellFormed(r)
  {
    SelectRows(t, CompleteRows(t))
  }

  /** `dropna` keeps exactly the complete rows, in their original order,
      with their labels and values, and every row it returns is complete. */
  lemma DropNaSpec(t: Table)
    requires WellFormed(t)
    ensures StrictlyIncreasing(CompleteRows(t))
    ensures forall i :: 0 <= i < |t.index| ==> (i in CompleteRows(t) <==> RowComplete(t, i))
    ensures |DropNa(t).index| == |CompleteRows(t)|
    ensures DropNa(t).columns.Keys == t.columns.Keys
    ensures forall j :: 0 <= j < |CompleteRows(t)| ==> DropNa(t).index[j] == t.index[CompleteRows(t)[j]]
    ensures forall c, j :: c in t.columns && 0 <= j < |CompleteRows(t)| ==>
              DropNa(t).columns[c][j] == t.columns[c][CompleteRows(t)[j]]
    ensures forall j :: 0 <= j < |DropNa(t).index| ==> RowComplete(DropNa(t), j)
  {
    var rows, r := CompleteRows(t), DropNa(t);
    CompleteRowsBelowSpec(t, |t.index|);
    forall j | 0 <= j < |r.index| ensures RowComplete(r, j) {
      assert rows[j] in rows;
      assert RowComplete(t, rows[j]);
    }
  }

  /** `t.iloc[-k:]`: the last `k` rows; as in a Python slice, `k == 0`
      (and any `k` beyond the row count) selects every row. */
  function TailRows(t: Table, k: nat): (r: Table)
    requires WellFormed(t)
    ensures WellFormed(r) && r.columns.Keys == t.columns.Keys
    ensures 0 < k <= |t.index| ==> |r.index| == k && r.index == t.index[|t.index| - k..]
    ensures 0 < k <= |t.index| ==> forall c :: c in t.columns ==> r.columns[c] == t.columns[c][|t.index| - k..]
    ensures k == 0 ==> r == t
  {
    if k == 0 || k >= |t.index| then
      assert t.index[0..] == t.index;
      assert forall c :: c in t.columns ==> t.columns[c][0..] == t.columns[c];
      t
    else
      var start := |t.index| - k;
      Table(t.index[start..], map c | c in t.columns :: t.columns[c][start..])
  }

  /** Row `j` of the last `k` rows is row `n - k + j` of the table. */
  lemma TailRowsAt(t: Table, k: nat, j: nat)
    requires WellFormed(t) && 0 < k <= |t.index| && j < k
    ensures TailRows(t, k).index[j] == t.index[|t.index| - k + j]
    ensures forall c :: c in t.columns ==> TailRows(t, k).columns[c][j] == t.columns[c][|t.index| - k + j]
  {
  }

  /** `t[name] = col` for a column already aligned with the rows. */
  function WithColumn(t: Table, name: string, col: Column): (r: Table)
    requires WellFormed(t) && |col| == |t.index|
    ensures WellFormed(r) && r.index == t.index && r.columns.Keys == t.columns.Keys + {name}
    ensures r.columns[name] == col
    ensures forall c :: c in t.columns && c != name ==> r.columns[c] == t.columns[c]
  {
    Table(t.index, t.columns[name := col])
  }

  /** The default range index 0, 1, ..., n - 1 of a freshly built series. */
  function Positions(n: nat): (labels: seq<Label>)
    ensures |labels| == n
    ensures forall k :: 0 <= k < n ==> labels[k] == Position(k)
  {
    seq(n, k requires 0 <= k < n => Position(k))
  }

  /** Assigning a series whose index is the default range index into a
      frame with index `index`: pandas aligns on labels, so row `j` takes
      the series value whose position equals the label, and is missing when
      no position matches. */
  function AlignOnto(values: Column, index: seq<Label>): (r: Column)
    ensures |r| == |index|
  {
    seq(|index|, j requires 0 <= j < |index| =>
      match index[j]
      case Position(p) => if p < |values| then values[p] else None
      case Date(_) => None)
  }

  /** On a date-labelled frame nothing matches: every assigned value is lost. */
  lemma AlignOntoDates(values: Column, index: seq<Label>)
    requires forall j :: 0 <= j < |index| ==> index[j].Date?
    ensures forall j :: 0 <= j < |index| ==> AlignOnto(values, index)[j] == None
  {
  }

  /** On a frame that itself has the default range index, alignment is
      positional. */
  lemma AlignOntoPositions(values: Column)
    ensures AlignOnto(values, Positions(|values|)) == values
  {
  }
}
