/**
  * The slice of a pandas DataFrame the scraper touches: an ordered list of
  * column labels and rows that hold a cell for some of those columns, keyed
  * by label; a row shows `Missing` (NaN) under a column it has no cell for.
  */
module Frames {

  /** One cell: a decoded value, or `Missing` (pandas' NaN). */
  datatype Cell = Missing | Value(text: string)

  /** No label occurs twice. */
  predicate Distinct(labels: seq<string>) {
    forall i, j | 0 <= i < j < |labels| :: labels[i] != labels[j]
  }

  /** A DataFrame: its column labels in order, and its rows. */
  datatype Frame = Frame(columns: seq<string>, rows: seq<map<string, Cell>>) {
    /**
      * The labels are distinct (the readers rename a repeated header `a` to
      * `a.1`) and every row's cells sit under the frame's own columns.
      */
    predicate Valid() {
      && Distinct(columns)
      && forall r, c | 0 <= r < |rows| && c in rows[r] :: c in columns
    }
  }

  /** One worksheet of a workbook, decoded: its name and its data. */
  datatype Sheet = Sheet(name: string, frame: Frame)

  /** The column the spreadsheet branch adds to every sheet before concatenating. */
  const SheetNameColumn: string := "sheet_name"

  /** `pd.DataFrame()`: no columns and no rows. */
  const EmptyFrame: Frame := Frame([], [])

  /** What `df[c]` shows in row `r`: `Missing` when the row has no cell there (or there is no such row). */
  function CellAt(t: Frame, r: nat, c: string): Cell {
    if r < |t.rows| && c in t.rows[r] then t.rows[r][c] else Missing
  }

  /** Every row with its cell under `c` set to `v`. */
  function PutAll(rows: seq<map<string, Cell>>, c: string, v: Cell): (r: seq<map<string, Cell>>)
    ensures |r| == |rows|
  {
    if rows == [] then [] else [rows[0][c := v]] + PutAll(rows[1..], c, v)
  }

  lemma {:induction false} PutAllAt(rows: seq<map<string, Cell>>, c: string, v: Cell, i: nat)
    requires i < |rows|
    ensures PutAll(rows, c, v)[i] == rows[i][c := v]
  {
    if i > 0 {
      PutAllAt(rows[1..], c, v, i - 1);
    }
  }

  /**
    * `df[c] = v` for a scalar `v`: every row gets `v` under `c`; an existing
    * column keeps its position, a new one becomes the last column.
    */
  function SetColumn(t: Frame, c: string, v: Cell): (r: Frame)
    ensures r.columns == if c in t.columns then t.columns else t.columns + [c]
    ensures |r.rows| == |t.rows|
  {
    var cols := if c in t.columns then t.columns else t.columns + [c];
    Frame(cols, PutAll(t.rows, c, v))
  }

  /** After `df[c] = v`, every row shows `v` under `c` and what it showed before under any other column. */
  lemma SetColumnCell(t: Frame, c: string, v: Cell, i: nat, d: string)
    requires i < |t.rows|
    ensures CellAt(SetColumn(t, c, v), i, d) == if d == c then v else CellAt(t, i, d)
  {
    PutAllAt(t.rows, c, v, i);
  }

  /** The labels of `cols` that are not in `seen`, in their order in `cols`. */
  function Unseen(cols: seq<string>, seen: seq<string>): seq<string> {
    if cols == [] then []
    else (if cols[0] in seen then [] else [cols[0]]) + Unseen(cols[1..], seen)
  }

  lemma {:induction false} UnseenHas(cols: seq<string>, seen: seq<string>, c: string)
    ensures c in Unseen(cols, seen) <==> c in cols && c !in seen
  {
    if cols != [] {
      UnseenHas(cols[1..], seen, c);
      assert cols == [cols[0]] + cols[1..];
    }
  }

  /**
    * `a.append(b)`: the rows of `a` followed by the rows of `b`, over the
    * union of their columns (those of `a`, then the new ones of `b`); each
    * row shows `Missing` under the columns its own frame lacked.
    */
  function Append(a: Frame, b: Frame): (r: Frame)
    ensures |r.rows| == |a.rows| + |b.rows|
  {
    Frame(a.columns + Unseen(b.columns, a.columns), a.rows + b.rows)
  }

  /** The columns of `a` come first, in their order. */
  lemma AppendKeepsOrder(a: Frame, b: Frame)
    ensures |a.columns| <= |Append(a, b).columns| && Append(a, b).columns[..|a.columns|] == a.columns
  {
  }

  /** The appended frame has exactly the columns of both. */
  lemma AppendColumns(a: Frame, b: Frame, c: string)
    ensures c in Append(a, b).columns <==> c in a.columns || c in b.columns
  {
    UnseenHas(b.columns, a.columns, c);
  }

  /** Each row of the appended frame shows what it showed in its own frame. */
  lemma AppendCell(a: Frame, b: Frame, i: nat, c: string)
    requires i < |a.rows| + |b.rows|
    ensures CellAt(Append(a, b), i, c) == if i < |a.rows| then CellAt(a, i, c) else CellAt(b, i - |a.rows|, c)
  {
  }

  /** The number of rows of the first `k` sheets together. */
  function RowsBefore(sheets: seq<Sheet>, k: nat): nat
    requires k <= |sheets|
  {
    if k == 0 then 0 else RowsBefore(sheets, k - 1) + |sheets[k - 1].frame.rows|
  }

  /** A sheet's data with its name written into every row under `tag`. */
  function Tagged(s: Sheet, tag: string): (t: Frame)
    ensures tag in t.columns && |t.rows| == |s.frame.rows|
  {
    SetColumn(s.frame, tag, Value(s.name))
  }

  /**
    * The accumulator after appending the first `k` sheets, each tagged with its
    * name under `tag`, in order, to an empty frame: it has as many rows as
    * those sheets.
    */
  function Concat(sheets: seq<Sheet>, tag: string, k: nat): (r: Frame)
    requires k <= |sheets|
    ensures |r.rows| == RowsBefore(sheets, k)
  {
    if k == 0 then EmptyFrame else Append(Concat(sheets, tag, k - 1), Tagged(sheets[k - 1], tag))
  }

  /** Row `i` of sheet `k` lies inside the first `n > k` sheets, after the rows of the sheets before `k`. */
  lemma {:induction false} BlockWithin(sheets: seq<Sheet>, k: nat, i: nat, n: nat)
    requires k < n <= |sheets| && i < |sheets[k].frame.rows|
    ensures RowsBefore(sheets, k) + i < RowsBefore(sheets, k + 1) <= RowsBefore(sheets, n)
  {
    if k + 1 < n {
      BlockWithin(sheets, k, i, n - 1);
    }
  }

  /** Appending the last sheet leaves the rows of the earlier ones as they were. */
  lemma ConcatEarlier(sheets: seq<Sheet>, tag: string, n: nat, p: nat, c: string)
    requires 0 < n <= |sheets| && p < RowsBefore(sheets, n - 1)
    ensures CellAt(Concat(sheets, tag, n), p, c) == CellAt(Concat(sheets, tag, n - 1), p, c)
  {
    AppendCell(Concat(sheets, tag, n - 1), Tagged(sheets[n - 1], tag), p, c);
  }

  /** The rows after those of the earlier sheets are the last sheet's, tagged with its name. */
  lemma ConcatLast(sheets: seq<Sheet>, tag: string, n: nat, i: nat, c: string)
    requires 0 < n <= |sheets| && i < |sheets[n - 1].frame.rows|
    ensures CellAt(Concat(sheets, tag, n), RowsBefore(sheets, n - 1) + i, c)
         == if c == tag then Value(sheets[n - 1].name) else CellAt(sheets[n - 1].frame, i, c)
  {
    AppendCell(Concat(sheets, tag, n - 1), Tagged(sheets[n - 1], tag), RowsBefore(sheets, n - 1) + i, c);
    SetColumnCell(sheets[n - 1].frame, tag, Value(sheets[n - 1].name), i, c);
  }

  /**
    * Within the concatenation of the first `n` sheets, the rows of sheet
    * `k < n` are the block that starts after the rows of the sheets before
    * it; in that block each row carries the sheet's name under the tag column
    * and, under every other column, the cell it had in its own sheet
    * (`Missing` for a column that only other sheets have).
    */
  lemma {:induction false} ConcatCell(sheets: seq<Sheet>, tag: string, n: nat, k: nat, i: nat, c: string)
    requires k < n <= |sheets| && i < |sheets[k].frame.rows|
    ensures CellAt(Concat(sheets, tag, n), RowsBefore(sheets, k) + i, c)
         == if c == tag then Value(sheets[k].name) else CellAt(sheets[k].frame, i, c)
  {
    if k < n - 1 {
      BlockWithin(sheets, k, i, n - 1);
      ConcatCell(sheets, tag, n - 1, k, i, c);
      ConcatEarlier(sheets, tag, n, RowsBefore(sheets, k) + i, c);
    } else {
      ConcatLast(sheets, tag, n, i, c);
    }
  }

  /** The sheet has a column labelled `c`. */
  predicate HasColumn(s: Sheet, c: string) {
    c in s.frame.columns
  }

  /** Appending a tagged sheet adds its columns and the tag column. */
  lemma ConcatColumnsStep(sheets: seq<Sheet>, tag: string, n: nat, c: string)
    requires 0 < n <= |sheets|
    ensures c in Concat(sheets, tag, n).columns
        <==> c in Concat(sheets, tag, n - 1).columns || c == tag || HasColumn(sheets[n - 1], c)
  {
    AppendColumns(Concat(sheets, tag, n - 1), Tagged(sheets[n - 1], tag), c);
  }

  /** Some sheet among the first `n` has a column labelled `c`. */
  predicate InSomeSheet(sheets: seq<Sheet>, n: nat, c: string)
    requires n <= |sheets|
  {
    n > 0 && (HasColumn(sheets[n - 1], c) || InSomeSheet(sheets, n - 1, c))
  }

  lemma {:induction false} InSomeSheetExists(sheets: seq<Sheet>, n: nat, c: string)
    requires n <= |sheets|
    ensures InSomeSheet(sheets, n, c) <==> exists k | 0 <= k < n :: HasColumn(sheets[k], c)
  {
    if n > 0 {
      InSomeSheetExists(sheets, n - 1, c);
      if !HasColumn(sheets[n - 1], c) && exists k | 0 <= k < n :: HasColumn(sheets[k], c) {
        var k :| 0 <= k < n && HasColumn(sheets[k], c);
        assert k < n - 1;
      }
    }
  }

  lemma {:induction false} ConcatColumnsRec(sheets: seq<Sheet>, tag: string, n: nat, c: string)
    requires n <= |sheets|
    ensures c in Concat(sheets, tag, n).columns <==> (n > 0 && c == tag) || InSomeSheet(sheets, n, c)
  {
    if n > 0 {
      var prev := c in Concat(sheets, tag, n - 1).columns;
      ConcatColumnsRec(sheets, tag, n - 1, c);
      assert prev <==> (n - 1 > 0 && c == tag) || InSomeSheet(sheets, n - 1, c);
      ConcatColumnsStep(sheets, tag, n, c);
      assert c in Concat(sheets, tag, n).columns <==> prev || c == tag || HasColumn(sheets[n - 1], c);
    } else {
      assert Concat(sheets, tag, 0).columns == [];
    }
  }

  /** The first `n` sheets concatenate to exactly their columns, plus the tag column when `n > 0`. */
  lemma ConcatColumns(sheets: seq<Sheet>, tag: string, n: nat, c: string)
    requires n <= |sheets|
    ensures c in Concat(sheets, tag, n).columns <==>
      (n > 0 && c == tag) || exists k | 0 <= k < n :: HasColumn(sheets[k], c)
  {
    ConcatColumnsRec(sheets, tag, n, c);
    InSomeSheetExists(sheets, n, c);
  }

  /** Putting `x` in front of distinct labels that lack it keeps them distinct. */
  lemma ConsDistinct(x: string, r: seq<string>)
    requires Distinct(r) && x !in r
    ensures Distinct([x] + r)
  {
    var s := [x] + r;
    forall i, j | 0 <= i < j < |s| ensures s[i] != s[j] {
      if i == 0 {
        assert s[j] == r[j - 1];
      } else {
        assert s[i] == r[i - 1] && s[j] == r[j - 1];
      }
    }
  }

  lemma {:induction false} UnseenDistinct(cols: seq<string>, seen: seq<string>)
    requires Distinct(cols)
    ensures Distinct(Unseen(cols, seen))
  {
    if cols != [] {
      var rest := cols[1..];
      assert Distinct(rest) by {
        forall i, j | 0 <= i < j < |rest| ensures rest[i] != rest[j] {
          assert rest[i] == cols[i + 1] && rest[j] == cols[j + 1];
        }
      }
      UnseenDistinct(rest, seen);
      if cols[0] !in seen {
        UnseenHas(rest, seen, cols[0]);
        assert cols[0] !in rest by {
          forall j | 0 <= j < |rest| ensures rest[j] != cols[0] {
            assert rest[j] == cols[j + 1];
          }
        }
        ConsDistinct(cols[0], Unseen(rest, seen));
      }
    }
  }

  /** Two distinct label lists with nothing in common concatenate to a distinct one. */
  lemma DisjointDistinct(a: seq<string>, e: seq<string>)
    requires Distinct(a) && Distinct(e)
    requires forall c :: c in e ==> c !in a
    ensures Distinct(a + e)
  {
    var s := a + e;
    forall i, j | 0 <= i < j < |s| ensures s[i] != s[j] {
      if j < |a| {
        assert s[i] == a[i] && s[j] == a[j];
      } else if i >= |a| {
        assert s[i] == e[i - |a|] && s[j] == e[j - |a|];
      } else {
        assert s[i] == a[i] && s[j] in e;
      }
    }
  }

  /** `df[c] = v` keeps a frame well formed. */
  lemma SetColumnValid(t: Frame, c: string, v: Cell)
    requires t.Valid()
    ensures SetColumn(t, c, v).Valid()
  {
    var r := SetColumn(t, c, v);
    assert Distinct(r.columns) by {
      if c !in t.columns {
        ConsDistinctLast(t.columns, c);
      }
    }
    forall i, d | 0 <= i < |r.rows| && d in r.rows[i] ensures d in r.columns {
      PutAllAt(t.rows, c, v, i);
    }
  }

  /** Adding a new label at the end keeps labels distinct. */
  lemma ConsDistinctLast(a: seq<string>, x: string)
    requires Distinct(a) && x !in a
    ensures Distinct(a + [x])
  {
    DisjointDistinct(a, [x]);
  }

  /** `a.append(b)` of well-formed frames is well formed. */
  lemma AppendValid(a: Frame, b: Frame)
    requires a.Valid() && b.Valid()
    ensures Append(a, b).Valid()
  {
    var e := Unseen(b.columns, a.columns);
    UnseenDistinct(b.columns, a.columns);
    forall c | c in e ensures c !in a.columns {
      UnseenHas(b.columns, a.columns, c);
    }
    DisjointDistinct(a.columns, e);
    var r := Append(a, b);
    forall i, d | 0 <= i < |r.rows| && d in r.rows[i] ensures d in r.columns {
      AppendColumns(a, b, d);
      if i < |a.rows| {
        assert r.rows[i] == a.rows[i];
      } else {
        assert r.rows[i] == b.rows[i - |a.rows|];
      }
    }
  }

  /** Every sheet is well formed. */
  predicate AllValid(sheets: seq<Sheet>) {
    forall k | 0 <= k < |sheets| :: sheets[k].frame.Valid()
  }

  /** Concatenating well-formed sheets yields a well-formed frame. */
  lemma {:induction false} ConcatValid(sheets: seq<Sheet>, tag: string, n: nat)
    requires n <= |sheets| && AllValid(sheets)
    ensures Concat(sheets, tag, n).Valid()
  {
    if n > 0 {
      ConcatValid(sheets, tag, n - 1);
      SetColumnValid(sheets[n - 1].frame, tag, Value(sheets[n - 1].name));
      AppendValid(Concat(sheets, tag, n - 1), Tagged(sheets[n - 1], tag));
    }
  }

  /** A table as it is written out: a label per column and, in every row, one cell per column. */
  datatype Grid = Grid(columns: seq<string>, rows: seq<seq<Cell>>)

  /** Row `r` of `t`, read under `cols` in order. */
  function RowCells(t: Frame, r: nat, cols: seq<string>): (cells: seq<Cell>)
    ensures |cells| == |cols|
  {
    if cols == [] then [] else [CellAt(t, r, cols[0])] + RowCells(t, r, cols[1..])
  }

  lemma {:induction false} RowCellsAt(t: Frame, r: nat, cols: seq<string>, j: nat)
    requires j < |cols|
    ensures RowCells(t, r, cols)[j] == CellAt(t, r, cols[j])
  {
    if j > 0 {
      RowCellsAt(t, r, cols[1..], j - 1);
    }
  }

  /** The first `n` rows of `t`, each read under the frame's columns. */
  function GridRows(t: Frame, n: nat): (rows: seq<seq<Cell>>)
    ensures |rows| == n
  {
    if n == 0 then [] else GridRows(t, n - 1) + [RowCells(t, n - 1, t.columns)]
  }

  lemma {:induction false} GridRowsAt(t: Frame, n: nat, r: nat)
    requires r < n
    ensures GridRows(t, n)[r] == RowCells(t, r, t.columns)
  {
    if r < n - 1 {
      GridRowsAt(t, n - 1, r);
    }
  }

  /**
    * `df.columns = labels` followed by writing the frame out: the column at
    * position `j` is now called `labels[j]`, whatever it was called before,
    * so two columns may end up with the same label.
    */
  function Relabel(t: Frame, labels: seq<string>): (g: Grid)
    requires |labels| == |t.columns|
    ensures g.columns == labels && |g.rows| == |t.rows|
  {
    Grid(labels, GridRows(t, |t.rows|))
  }

  /**
    * The relabelled table has the frame's rows in order, each with one cell
    * per column, holding what the frame showed at that position.
    */
  lemma RelabelCell(t: Frame, labels: seq<string>, r: nat, j: nat)
    requires |labels| == |t.columns| && r < |t.rows| && j < |t.columns|
    ensures var g := Relabel(t, labels);
      && g.columns == labels && |g.rows| == |t.rows| && |g.rows[r]| == |labels|
      && g.rows[r][j] == CellAt(t, r, t.columns[j])
  {
    GridRowsAt(t, |t.rows|, r);
    RowCellsAt(t, r, t.columns, j);
  }
}
