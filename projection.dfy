/**
 * The projector: each of the seven template fields is resolved through the
 * mapping to a source column by its letter, copied or blank-filled into an
 * initially row-less frame, after which Lead Time is dropped and rows whose
 * six remaining values are all missing are removed. The frame follows the
 * table library's rule for assigning into a frame without rows: the first
 * non-empty column copied installs the source rows, and every column
 * assigned before it becomes missing.
 */
module Projection {
  import opened Text
  import opened Fields
  import opened Wrappers
  import opened Mapping

  /** A table cell: missing (not a number), or present with its rendered text. */
  datatype Cell = Missing | Val(text: string)

  /** A source table: its header row and its data rows. */
  datatype Table = Table(headers: seq<string>, rows: seq<seq<Cell>>)

  predicate WellFormed(t: Table) {
    forall r :: 0 <= r < |t.rows| ==> |t.rows[r]| == |t.headers|
  }

  /** `df.iloc[:, c]`. */
  function Column(t: Table, c: nat): (col: seq<Cell>)
    requires WellFormed(t) && c < |t.headers|
    ensures |col| == |t.rows| && forall r :: 0 <= r < |t.rows| ==> col[r] == t.rows[r][c]
  {
    seq(|t.rows|, r requires 0 <= r < |t.rows| => t.rows[r][c])
  }

  /** How a field's reference turned out, with the upper-cased reference as logged. */
  datatype Resolution =
    | Copied(index: nat, letter: string)
    | OutOfRange(letter: string)
    | InvalidLetter(letter: string)
    | Unmapped

  /**
   * `ord(ref.upper()) - ord('A')`, tested against the column count; `ord`
   * fails unless the upper-cased reference is exactly one character.
   */
  function ResolveRef(ref: string, columns: nat): (r: Resolution)
    ensures r.Copied? ==> r.index < columns && |r.letter| == 1
    ensures !r.Unmapped? && r.letter == Upper(ref)
  {
    var letter := Upper(ref);
    if |letter| != 1 then InvalidLetter(letter)
    else
      var index := letter[0] as int - 'A' as int;
      if 0 <= index < columns then Copied(index, letter) else OutOfRange(letter)
  }

  /** A field is reported unmapped exactly when the configuration has no entry for it. */
  function Resolve(config: map<string, string>, f: Field, columns: nat): (r: Resolution)
    ensures r.Unmapped? <==> FieldName(f) !in config
    ensures r.Copied? ==> r.index < columns
  {
    if FieldName(f) in config then ResolveRef(config[FieldName(f)], columns) else Unmapped
  }

  /** Every copied index is a column of the table. */
  predicate InRange(res: seq<Resolution>, columns: nat) {
    forall k :: 0 <= k < |res| && res[k].Copied? ==> res[k].index < columns
  }

  /** The resolutions of the seven fields, in template order. */
  function Resolutions(config: map<string, string>, columns: nat): (res: seq<Resolution>)
    ensures |res| == |FieldOrder| && InRange(res, columns)
    ensures forall k :: 0 <= k < |FieldOrder| ==> res[k] == Resolve(config, FieldOrder[k], columns)
  {
    seq(|FieldOrder|, k requires 0 <= k < |FieldOrder| => Resolve(config, FieldOrder[k], columns))
  }

  // ---------------------------------------------------------------------
  // The output frame.

  /** The frame under construction: its row count and its seven columns in template order. */
  datatype Frame = Frame(height: nat, columns: seq<seq<Cell>>)

  predicate ValidFrame(fr: Frame) {
    |fr.columns| == |FieldOrder| && forall k :: 0 <= k < |fr.columns| ==> |fr.columns[k]| == fr.height
  }

  function Fill(n: nat, c: Cell): (col: seq<Cell>)
    ensures |col| == n && forall r :: 0 <= r < n ==> col[r] == c
  {
    seq(n, _ => c)
  }

  /** `pd.DataFrame(columns=output_columns)`: seven columns and no rows. */
  function EmptyFrame(): (fr: Frame)
    ensures ValidFrame(fr) && fr.height == 0
  {
    Frame(0, seq(|FieldOrder|, _ => []))
  }

  /**
   * `output_df[field] = series`. A frame without rows takes the series'
   * rows and its other columns become missing; otherwise the column is
   * replaced (the series shares the frame's row labels).
   */
  function AssignSeries(fr: Frame, k: nat, col: seq<Cell>): (r: Frame)
    requires ValidFrame(fr) && k < |FieldOrder|
    requires fr.height == 0 || |col| == fr.height
    ensures ValidFrame(r)
  {
    if fr.height == 0 && |col| > 0 then
      var blank := Fill(|col|, Missing);
      var columns := seq(|FieldOrder|, j requires 0 <= j < |FieldOrder| => if j == k then col else blank);
      assert forall j :: 0 <= j < |columns| ==> columns[j] == col || columns[j] == blank;
      Frame(|col|, columns)
    else
      Frame(fr.height, fr.columns[k := col])
  }

  /** `output_df[field] = ""`: the empty string on every row there is. */
  function AssignBlank(fr: Frame, k: nat): (r: Frame)
    requires ValidFrame(fr) && k < |FieldOrder|
    ensures ValidFrame(r) && r.height == fr.height
  {
    Frame(fr.height, fr.columns[k := Fill(fr.height, Val(""))])
  }

  /** The assignment for field k under its resolution. */
  function Step(t: Table, fr: Frame, k: nat, res: Resolution): (r: Frame)
    requires WellFormed(t) && ValidFrame(fr) && k < |FieldOrder|
    requires fr.height == 0 || fr.height == |t.rows|
    requires res.Copied? ==> res.index < |t.headers|
    ensures ValidFrame(r) && (r.height == 0 || r.height == |t.rows|)
  {
    match res
    case Copied(i, _) => AssignSeries(fr, k, Column(t, i))
    case _ => AssignBlank(fr, k)
  }

  /** The frame after the first k fields have been assigned. */
  function FrameAfter(t: Table, res: seq<Resolution>, k: nat): (fr: Frame)
    requires WellFormed(t) && |res| == |FieldOrder| && InRange(res, |t.headers|)
    requires k <= |FieldOrder|
    ensures ValidFrame(fr) && (fr.height == 0 || fr.height == |t.rows|)
    decreases k
  {
    if k == 0 then EmptyFrame() else Step(t, FrameAfter(t, res, k - 1), k - 1, res[k - 1])
  }

  /** `output_df.drop("Lead Time", axis=1)`, read row by row. */
  function DataRows(fr: Frame): (rows: seq<seq<Cell>>)
    requires ValidFrame(fr)
    ensures |rows| == fr.height
    ensures forall r :: 0 <= r < fr.height ==>
              |rows[r]| == |DataFields| && forall d :: 0 <= d < |DataFields| ==> rows[r][d] == fr.columns[d + 1][r]
  {
    seq(fr.height, r requires 0 <= r < fr.height =>
      seq(|DataFields|, d requires 0 <= d < |DataFields| => fr.columns[d + 1][r]))
  }

  predicate AllMissing(row: seq<Cell>) {
    forall d :: 0 <= d < |row| ==> row[d].Missing?
  }

  /** `dropna(how='all')`: rows whose values are all missing are removed, the rest keep their order. */
  function DropEmpty(rows: seq<seq<Cell>>): (kept: seq<seq<Cell>>)
    ensures |kept| <= |rows|
    ensures forall r :: 0 <= r < |kept| ==> !AllMissing(kept[r]) && kept[r] in rows
    decreases |rows|
  {
    if |rows| == 0 then []
    else
      var last := rows[|rows| - 1];
      DropEmpty(rows[..|rows| - 1]) + (if AllMissing(last) then [] else [last])
  }

  /** The data rows `process_dataframe` returns. */
  function Projected(t: Table, config: map<string, string>): seq<seq<Cell>>
    requires WellFormed(t)
  {
    var res := Resolutions(config, |t.headers|);
    DropEmpty(DataRows(FrameAfter(t, res, |FieldOrder|)))
  }

  // ---------------------------------------------------------------------
  // The same rows, defined cell by cell.

  /** The first field whose reference copies a column; seven when there is none. */
  function FirstCopied(res: seq<Resolution>): (c: nat)
    ensures c <= |res| && (c < |res| ==> res[c].Copied?)
    ensures forall j :: 0 <= j < c ==> !res[j].Copied?
    decreases |res|
  {
    if |res| == 0 then 0
    else if res[0].Copied? then 0
    else 1 + FirstCopied(res[1..])
  }

  /**
   * What field k holds on row r: the source cell when copied; otherwise
   * missing when the field comes before the first copied one, and the
   * empty string after it.
   */
  function ExpectedCell(t: Table, res: seq<Resolution>, r: nat, k: nat): Cell
    requires WellFormed(t) && |res| == |FieldOrder| && InRange(res, |t.headers|)
    requires r < |t.rows| && k < |FieldOrder|
  {
    match res[k]
    case Copied(i, _) => t.rows[r][i]
    case _ => if FirstCopied(res) < k then Val("") else Missing
  }

  /** Every row with its six data fields, before empty rows are dropped. */
  function ExpectedUnfiltered(t: Table, res: seq<Resolution>): (rows: seq<seq<Cell>>)
    requires WellFormed(t) && |res| == |FieldOrder| && InRange(res, |t.headers|)
    ensures |rows| == |t.rows|
    ensures forall r :: 0 <= r < |t.rows| ==>
              |rows[r]| == |DataFields| && forall d :: 0 <= d < |DataFields| ==> rows[r][d] == ExpectedCell(t, res, r, d + 1)
  {
    seq(|t.rows|, r requires 0 <= r < |t.rows| =>
      seq(|DataFields|, d requires 0 <= d < |DataFields| => ExpectedCell(t, res, r, d + 1)))
  }

  /** No rows at all when nothing is copied; otherwise the non-empty rows. */
  function ExpectedRows(t: Table, res: seq<Resolution>): seq<seq<Cell>>
    requires WellFormed(t) && |res| == |FieldOrder| && InRange(res, |t.headers|)
  {
    if FirstCopied(res) == |FieldOrder| then [] else DropEmpty(ExpectedUnfiltered(t, res))
  }

  /** The frame after k assignments, described without replaying them. */
  ghost predicate FrameShape(t: Table, res: seq<Resolution>, k: nat, fr: Frame)
    requires WellFormed(t) && |res| == |FieldOrder| && InRange(res, |t.headers|)
    requires k <= |FieldOrder| && ValidFrame(fr)
  {
    if |t.rows| == 0 || k <= FirstCopied(res) then fr.height == 0
    else
      fr.height == |t.rows|
      && forall j, r :: 0 <= j < |FieldOrder| && 0 <= r < |t.rows| ==>
           fr.columns[j][r] == if j < k then ExpectedCell(t, res, r, j) else Missing
  }

  lemma {:induction false} FrameAfterShape(t: Table, res: seq<Resolution>, k: nat)
    requires WellFormed(t) && |res| == |FieldOrder| && InRange(res, |t.headers|)
    requires k <= |FieldOrder|
    ensures FrameShape(t, res, k, FrameAfter(t, res, k))
    decreases k
  {
    if k > 0 {
      FrameAfterShape(t, res, k - 1);
      var prev := FrameAfter(t, res, k - 1);
      var fr := FrameAfter(t, res, k);
      var c := FirstCopied(res);
      if |t.rows| > 0 && k > c {
        if k - 1 == c {
          assert prev.height == 0;
          var i := res[c].index;
          assert fr == AssignSeries(prev, c, Column(t, i));
          forall j, r | 0 <= j < |FieldOrder| && 0 <= r < |t.rows|
            ensures fr.columns[j][r] == if j < k then ExpectedCell(t, res, r, j) else Missing
          {
            if j == c {
              assert fr.columns[j] == Column(t, i);
            } else {
              assert fr.columns[j] == Fill(|t.rows|, Missing);
            }
          }
        } else {
          assert prev.height == |t.rows|;
        }
      }
    }
  }

  /** The stepwise frame and the cell-by-cell rows agree. */
  lemma ProjectedIsExpected(t: Table, config: map<string, string>)
    requires WellFormed(t)
    ensures Projected(t, config) == ExpectedRows(t, Resolutions(config, |t.headers|))
  {
    var res := Resolutions(config, |t.headers|);
    var fr := FrameAfter(t, res, |FieldOrder|);
    FrameAfterShape(t, res, |FieldOrder|);
    if |t.rows| == 0 || FirstCopied(res) == |FieldOrder| {
      assert DataRows(fr) == [];
      if |t.rows| == 0 {
        assert ExpectedUnfiltered(t, res) == [];
      }
    } else {
      var rows := DataRows(fr);
      var expected := ExpectedUnfiltered(t, res);
      forall r | 0 <= r < |t.rows|
        ensures rows[r] == expected[r]
      {
        assert |rows[r]| == |expected[r]|;
      }
      assert rows == expected;
    }
  }

  // ---------------------------------------------------------------------
  // Dropping empty rows.

  /** Dropping distributes over concatenation, so survivors keep their order. */
  lemma {:induction false} DropEmptyAppend(a: seq<seq<Cell>>, b: seq<seq<Cell>>)
    ensures DropEmpty(a + b) == DropEmpty(a) + DropEmpty(b)
    decreases |b|
  {
    if |b| == 0 {
      assert a + b == a;
    } else {
      var last := b[|b| - 1];
      assert (a + b)[..|a + b| - 1] == a + b[..|b| - 1];
      DropEmptyAppend(a, b[..|b| - 1]);
    }
  }

  /** A row with some present value survives. */
  lemma {:induction false} DropEmptyKeeps(rows: seq<seq<Cell>>, r: nat)
    requires r < |rows| && !AllMissing(rows[r])
    ensures rows[r] in DropEmpty(rows)
    decreases |rows|
  {
    if r < |rows| - 1 {
      DropEmptyKeeps(rows[..|rows| - 1], r);
    }
  }

  /** No row is dropped exactly when no row is all missing. */
  lemma {:induction false} DropEmptyNone(rows: seq<seq<Cell>>)
    ensures DropEmpty(rows) == rows <==> forall r :: 0 <= r < |rows| ==> !AllMissing(rows[r])
    ensures |DropEmpty(rows)| == |rows| <==> DropEmpty(rows) == rows
    decreases |rows|
  {
    if |rows| > 0 {
      var init := rows[..|rows| - 1];
      DropEmptyNone(init);
      assert rows == init + [rows[|rows| - 1]];
      if forall r :: 0 <= r < |rows| ==> !AllMissing(rows[r]) {
        assert forall r :: 0 <= r < |init| ==> !AllMissing(init[r]) by {
          forall r | 0 <= r < |init| ensures !AllMissing(init[r]) {
            assert init[r] == rows[r];
          }
        }
      }
    }
  }

  // ---------------------------------------------------------------------
  // What comes out.

  /** Every output row has the six data fields; there are never more rows than in the source. */
  lemma ProjectedShape(t: Table, config: map<string, string>)
    requires WellFormed(t)
    ensures |Projected(t, config)| <= |t.rows|
    ensures forall r :: 0 <= r < |Projected(t, config)| ==>
              |Projected(t, config)[r]| == |DataFields| && !AllMissing(Projected(t, config)[r])
  {
    var res := Resolutions(config, |t.headers|);
    var rows := DataRows(FrameAfter(t, res, |FieldOrder|));
    assert forall row :: row in rows ==> |row| == |DataFields|;
  }

  /** When no field's reference resolves to a column, there are no rows at all. */
  lemma NothingCopiedNoRows(t: Table, config: map<string, string>)
    requires WellFormed(t)
    requires forall f :: !Resolve(config, f, |t.headers|).Copied?
    ensures Projected(t, config) == []
  {
    var res := Resolutions(config, |t.headers|);
    ProjectedIsExpected(t, config);
    assert forall k :: 0 <= k < |res| ==> !res[k].Copied?;
  }

  /** References longer than one character never resolve. */
  lemma LongReferenceInvalid(ref: string, columns: nat)
    requires |ref| >= 2
    ensures ResolveRef(ref, columns) == InvalidLetter(Upper(ref))
  {
  }

  /**
   * A mapping whose every value is at least two characters long, such as
   * one holding detected header names, produces no rows.
   */
  lemma HeaderNamesGiveNoRows(t: Table, config: map<string, string>)
    requires WellFormed(t)
    requires forall key :: key in config ==> |config[key]| >= 2
    ensures Projected(t, config) == []
  {
    NothingCopiedNoRows(t, config);
  }

  /**
   * Once some column has been copied, a later field that is left blank
   * puts the empty string on every row, so no row is dropped.
   */
  lemma BlankAfterCopyKeepsRows(t: Table, config: map<string, string>, d: nat)
    requires WellFormed(t) && 1 <= d < |FieldOrder|
    requires FirstCopied(Resolutions(config, |t.headers|)) < d
    requires !Resolutions(config, |t.headers|)[d].Copied?
    ensures Projected(t, config) == ExpectedUnfiltered(t, Resolutions(config, |t.headers|))
    ensures |Projected(t, config)| == |t.rows|
  {
    var res := Resolutions(config, |t.headers|);
    var rows := ExpectedUnfiltered(t, res);
    ProjectedIsExpected(t, config);
    forall r | 0 <= r < |rows|
      ensures !AllMissing(rows[r])
    {
      assert rows[r][d - 1] == Val("");
    }
    DropEmptyNone(rows);
  }

  /**
   * Each data field that resolves to column i holds, on every row before
   * empty rows are dropped, that row's cell of column i, unchanged.
   */
  lemma CopiedVerbatim(t: Table, config: map<string, string>, r: nat, d: nat, i: nat)
    requires WellFormed(t) && r < |t.rows| && d < |DataFields|
    requires Resolve(config, DataFields[d], |t.headers|).Copied?
    requires Resolve(config, DataFields[d], |t.headers|).index == i
    ensures ExpectedUnfiltered(t, Resolutions(config, |t.headers|))[r][d] == t.rows[r][i]
  {
    assert FieldOrder[d + 1] == DataFields[d];
  }

  // ---------------------------------------------------------------------
  // Letters and indices.

  lemma UpperOne(c: char)
    ensures Upper([c]) == UpperChar(c)
  {
    assert [c][1..] == [];
  }

  /** The letters of the first 32 columns resolve back to their own columns. */
  lemma LetterResolves(i: nat, columns: nat)
    requires i < 32
    ensures ResolveRef(Letter(i), columns)
         == if i < columns then Copied(i, Letter(i)) else OutOfRange(Letter(i))
  {
    UpperOne(Letter(i)[0]);
  }

  /**
   * The letters of columns 32 to 57 are the lower-case letters; upper-
   * casing turns them into the letters of columns 0 to 25.
   */
  lemma LowerCaseLetterAliases(i: nat, columns: nat)
    requires 32 <= i < 58
    ensures ResolveRef(Letter(i), columns)
         == if i - 32 < columns then Copied(i - 32, Letter(i - 32)) else OutOfRange(Letter(i - 32))
  {
    UpperOne(Letter(i)[0]);
  }

  /** A reference copies column i exactly when it upper-cases to the single character 65 + i. */
  lemma ResolveRefCopied(ref: string, columns: nat, i: nat)
    requires i < columns && i < MaxColumns
    ensures ResolveRef(ref, columns).Copied? && ResolveRef(ref, columns).index == i
            <==> Upper(ref) == Letter(i)
  {
  }

  /** Sharp s upper-cases to two letters, so it is not a column letter. */
  lemma SharpSInvalid(columns: nat)
    ensures ResolveRef([0xDF as char], columns) == InvalidLetter("SS")
  {
    UpperOne(0xDF as char);
  }

  /** The sample configuration of the test fixture: columns B to G, no Lead Time. */
  function SampleConfig(): map<string, string> {
    map["Brand Name" := "B", "Article" := "C", "Quantity" := "D", "MOQ" := "E", "MSRP" := "F", "Price" := "G"]
  }

  lemma SampleResolutions(columns: nat)
    requires columns >= 7
    ensures Resolutions(SampleConfig(), columns)
         == [Unmapped, Copied(1, "B"), Copied(2, "C"), Copied(3, "D"),
             Copied(4, "E"), Copied(5, "F"), Copied(6, "G")]
  {
    UpperOne('B'); UpperOne('C'); UpperOne('D'); UpperOne('E'); UpperOne('F'); UpperOne('G');
  }

  /** When data field d copies column d + 1 for every d, each row is its columns B to G. */
  lemma {:induction false} IdentityCopy(t: Table, res: seq<Resolution>)
    requires WellFormed(t) && |t.headers| >= 7 && |res| == |FieldOrder| && InRange(res, |t.headers|)
    requires forall k :: 1 <= k < |FieldOrder| ==> res[k].Copied? && res[k].index == k
    ensures ExpectedUnfiltered(t, res) == seq(|t.rows|, r requires 0 <= r < |t.rows| => t.rows[r][1..7])
  {
    var rows := ExpectedUnfiltered(t, res);
    var sliced := seq(|t.rows|, r requires 0 <= r < |t.rows| => t.rows[r][1..7]);
    forall r | 0 <= r < |t.rows|
      ensures rows[r] == sliced[r]
    {
      assert |rows[r]| == |sliced[r]|;
    }
  }

  /** A mapping that sends data field d to column d + 1 projects each row onto its columns B to G. */
  lemma IdentityProjected(t: Table, config: map<string, string>)
    requires WellFormed(t) && |t.headers| >= 7
    requires forall k :: 1 <= k < |FieldOrder| ==>
               Resolutions(config, |t.headers|)[k].Copied? && Resolutions(config, |t.headers|)[k].index == k
    ensures Projected(t, config) == DropEmpty(seq(|t.rows|, r requires 0 <= r < |t.rows| => t.rows[r][1..7]))
  {
    var res := Resolutions(config, |t.headers|);
    ProjectedIsExpected(t, config);
    assert FirstCopied(res) <= 1;
    IdentityCopy(t, res);
  }

  /**
   * The sample configuration on a table of seven or more columns copies
   * columns B to G, in order, into the six data fields.
   */
  lemma SampleConfiguration(t: Table)
    requires WellFormed(t) && |t.headers| >= 7
    ensures Projected(t, SampleConfig())
         == DropEmpty(seq(|t.rows|, r requires 0 <= r < |t.rows| => t.rows[r][1..7]))
  {
    SampleResolutions(|t.headers|);
    IdentityProjected(t, SampleConfig());
  }
}
