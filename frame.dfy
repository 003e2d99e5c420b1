/** The survey table: named columns of equal length, and pandas' column reductions over it. */
module Frame {
  import opened Wrappers
  import opened Numbers

  /**
   * One cell: missing (NaN or None), a number, or a text. `text` is Python's `str()` of the
   * number, which only the multi-option processor reads.
   */
  datatype Cell = Missing | Num(value: real, text: string) | Str(s: string)

  datatype Table = Table(rows: nat, columns: map<string, seq<Cell>>)

  predicate Rectangular(t: Table)
  {
    forall c :: c in t.columns ==> |t.columns[c]| == t.rows
  }

  /** A data frame: every column has one cell per row. */
  type Frame = t: Table | Rectangular(t) witness Table(0, map[])

  /** The numbers of a column, in row order, skipping missing cells and texts. */
  function NumbersIn(cells: seq<Cell>): (xs: seq<real>)
    ensures |xs| <= |cells|
  {
    if |cells| == 0 then []
    else
      var rest := NumbersIn(cells[..|cells| - 1]);
      match cells[|cells| - 1]
      case Num(v, _) => rest + [v]
      case _ => rest
  }

  predicate HasText(cells: seq<Cell>)
  {
    exists i :: 0 <= i < |cells| && cells[i].Str?
  }

  /**
   * `Series.mean()`: a text cell raises a type error; missing cells are skipped;
   * no number at all gives NaN (None here).
   */
  function SeriesMean(cells: seq<Cell>): Result<Option<real>>
  {
    if HasText(cells) then Err(TypeMismatch)
    else
      var xs := NumbersIn(cells);
      if |xs| == 0 then Ok(None) else Ok(Some(Mean(xs)))
  }

  /** `int(x)` of a mean: NaN raises a value error. */
  function IntOfMean(m: Result<Option<real>>): Result<int>
  {
    match m
    case Err(e) => Err(e)
    case Ok(None) => Err(NotANumber)
    case Ok(Some(x)) => Ok(Trunc(x))
  }

  /** Number of cells satisfying `p`. */
  function CountWhere(cells: seq<Cell>, p: Cell -> bool): (n: nat)
    ensures n <= |cells|
  {
    if |cells| == 0 then 0
    else CountWhere(cells[..|cells| - 1], p) + (if p(cells[|cells| - 1]) then 1 else 0)
  }

  lemma {:induction false} NumbersInAllNumbers(cells: seq<Cell>)
    requires forall i :: 0 <= i < |cells| ==> cells[i].Num?
    ensures |NumbersIn(cells)| == |cells|
    ensures forall i :: 0 <= i < |cells| ==> NumbersIn(cells)[i] == cells[i].value
  {
    if |cells| > 0 {
      NumbersInAllNumbers(cells[..|cells| - 1]);
    }
  }

  lemma NumbersInSnoc(cells: seq<Cell>, x: Cell)
    ensures NumbersIn(cells + [x]) == NumbersIn(cells) + (if x.Num? then [x.value] else [])
  {
    assert (cells + [x])[..|cells|] == cells;
  }

  lemma NumbersInPrefix(cells: seq<Cell>, n: nat)
    requires 0 < n <= |cells|
    ensures NumbersIn(cells[..n])
         == NumbersIn(cells[..n - 1]) + (if cells[n - 1].Num? then [cells[n - 1].value] else [])
  {
    assert cells[..n] == cells[..n - 1] + [cells[n - 1]];
    NumbersInSnoc(cells[..n - 1], cells[n - 1]);
  }

  lemma NumbersInSingleton(x: Cell)
    ensures NumbersIn([x]) == if x.Num? then [x.value] else []
  {
    NumbersInSnoc([], x);
    assert [] + [x] == [x];
  }

  /** Every number taken from a column lies within the bounds of that column's numbers. */
  lemma {:induction false} NumbersInRange(cells: seq<Cell>, lo: real, hi: real)
    requires forall i :: 0 <= i < |cells| && cells[i].Num? ==> lo <= cells[i].value <= hi
    ensures forall j :: 0 <= j < |NumbersIn(cells)| ==> lo <= NumbersIn(cells)[j] <= hi
  {
    if |cells| > 0 {
      NumbersInRange(cells[..|cells| - 1], lo, hi);
    }
  }

  /** A whole number, as `int()` produces. */
  predicate IsWhole(x: real)
  {
    x == x.Floor as real
  }

  lemma {:induction false} CountWhereConcat(a: seq<Cell>, b: seq<Cell>, p: Cell -> bool)
    ensures CountWhere(a + b, p) == CountWhere(a, p) + CountWhere(b, p)
    decreases |b|
  {
    if |b| == 0 {
      assert a + b == a;
    } else {
      var b' := b[..|b| - 1];
      CountWhereConcat(a, b', p);
      assert (a + b)[..|a + b| - 1] == a + b';
    }
  }

  /** Counting under a predicate that splits into two exclusive ones adds the two counts. */
  lemma {:induction false} CountWhereSplit(cells: seq<Cell>, p: Cell -> bool, q: Cell -> bool, both: Cell -> bool)
    requires forall c :: both(c) == (p(c) || q(c))
    requires forall c :: !(p(c) && q(c))
    ensures CountWhere(cells, both) == CountWhere(cells, p) + CountWhere(cells, q)
  {
    if |cells| > 0 {
      CountWhereSplit(cells[..|cells| - 1], p, q, both);
    }
  }

  /** A weaker predicate counts at least as many cells. */
  lemma {:induction false} CountWhereMonotone(cells: seq<Cell>, p: Cell -> bool, q: Cell -> bool)
    requires forall c :: p(c) ==> q(c)
    ensures CountWhere(cells, p) <= CountWhere(cells, q)
  {
    if |cells| > 0 {
      CountWhereMonotone(cells[..|cells| - 1], p, q);
    }
  }

  lemma {:induction false} CountAll(cells: seq<Cell>, p: Cell -> bool)
    requires forall i :: 0 <= i < |cells| ==> p(cells[i])
    ensures CountWhere(cells, p) == |cells|
  {
    if |cells| > 0 {
      CountAll(cells[..|cells| - 1], p);
    }
  }

  lemma {:induction false} CountNone(cells: seq<Cell>, p: Cell -> bool)
    requires forall i :: 0 <= i < |cells| ==> !p(cells[i])
    ensures CountWhere(cells, p) == 0
  {
    if |cells| > 0 {
      CountNone(cells[..|cells| - 1], p);
    }
  }

  /** The cells of row `r` across `cols`, in column order. */
  function RowCells(t: Frame, cols: seq<string>, r: nat): (cells: seq<Cell>)
    requires forall c :: c in cols ==> c in t.columns
    requires r < t.rows
    ensures |cells| == |cols|
  {
    seq(|cols|, k requires 0 <= k < |cols| => t.columns[cols[k]][r])
  }

  /** The defined per-row means of the first `n` rows (`apply(np.mean, axis=1)`, NaN rows dropped). */
  function RowMeans(t: Frame, cols: seq<string>, n: nat): (ms: seq<real>)
    requires forall c :: c in cols ==> c in t.columns
    requires n <= t.rows
    ensures |ms| <= n
  {
    if n == 0 then []
    else
      var rest := RowMeans(t, cols, n - 1);
      var xs := NumbersIn(RowCells(t, cols, n - 1));
      if |xs| == 0 then rest else rest + [Mean(xs)]
  }

  predicate AnyText(t: Frame, cols: seq<string>)
    requires forall c :: c in cols ==> c in t.columns
  {
    exists k :: 0 <= k < |cols| && HasText(t.columns[cols[k]])
  }

  /** `df[cols].apply(np.mean, axis=1).mean()`: the mean of the defined row means. */
  function ListMean(t: Frame, cols: seq<string>): Result<Option<real>>
    requires forall c :: c in cols ==> c in t.columns
  {
    if AnyText(t, cols) then Err(TypeMismatch)
    else
      var ms := RowMeans(t, cols, t.rows);
      if |ms| == 0 then Ok(None) else Ok(Some(Mean(ms)))
  }

  lemma {:induction false} RowMeansOneColumn(t: Frame, c: string, n: nat)
    requires c in t.columns && n <= t.rows
    ensures RowMeans(t, [c], n) == NumbersIn(t.columns[c][..n])
  {
    if n > 0 {
      RowMeansOneColumn(t, c, n - 1);
      var x := t.columns[c][n - 1];
      assert RowCells(t, [c], n - 1) == [x];
      NumbersInSingleton(x);
      NumbersInPrefix(t.columns[c], n);
      if x.Num? {
        MeanOfOne(x.value);
      }
    }
  }

  /** Averaging the row means of one column is averaging that column. */
  lemma ListMeanOfOneColumn(t: Frame, c: string)
    requires c in t.columns
    ensures ListMean(t, [c]) == SeriesMean(t.columns[c])
  {
    RowMeansOneColumn(t, c, t.rows);
    assert t.columns[c][..t.rows] == t.columns[c];
    assert AnyText(t, [c]) == HasText(t.columns[c]);
  }

  /** Row means of cells within a range stay within it. */
  lemma {:induction false} RowMeansRange(t: Frame, cols: seq<string>, n: nat, lo: real, hi: real)
    requires forall c :: c in cols ==> c in t.columns
    requires n <= t.rows
    requires forall c, i :: c in cols && 0 <= i < t.rows && t.columns[c][i].Num? ==> lo <= t.columns[c][i].value <= hi
    ensures forall j :: 0 <= j < |RowMeans(t, cols, n)| ==> lo <= RowMeans(t, cols, n)[j] <= hi
  {
    if n > 0 {
      RowMeansRange(t, cols, n - 1, lo, hi);
      var cells := RowCells(t, cols, n - 1);
      NumbersInRange(cells, lo, hi);
      var xs := NumbersIn(cells);
      if |xs| > 0 {
        MeanBounds(xs, lo, hi);
      }
    }
  }
}
