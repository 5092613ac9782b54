/**
 * The output files: a table of more than 10000 rows is split into parts of
 * at most 10000 rows each, and every file holds the lead time alone on its
 * first line, then one `;`-separated line per row with an empty first
 * field, so the data start in the second column.
 */
module Output {
  import opened Text
  import opened Projection

  const ChunkSize: nat := 10000

  /** `(n + chunk_size - 1) // chunk_size`. */
  function ChunkCount(n: nat): nat {
    (n + ChunkSize - 1) / ChunkSize
  }

  /** Rows [i * 10000, min((i + 1) * 10000, n)). */
  function Chunk(rows: seq<seq<Cell>>, i: nat): (c: seq<seq<Cell>>)
    requires i < ChunkCount(|rows|)
    ensures c == rows[i * ChunkSize .. if (i + 1) * ChunkSize < |rows| then (i + 1) * ChunkSize else |rows|]
  {
    var start := i * ChunkSize;
    var end := if (i + 1) * ChunkSize < |rows| then (i + 1) * ChunkSize else |rows|;
    assert start < |rows|;
    rows[start..end]
  }

  /** A written field: a missing value is an empty field. */
  function Render(c: Cell): string {
    match c
    case Missing => ""
    case Val(text) => text
  }

  /** One data line: an empty first field, then the row's fields, `;` between them. */
  function RenderRow(row: seq<Cell>): string {
    Join([""] + seq(|row|, d requires 0 <= d < |row| => Render(row[d])), ';')
  }

  /** A file's lines: the lead time alone, then one line per row. */
  function FileLines(leadTime: string, rows: seq<seq<Cell>>): (lines: seq<string>)
    ensures |lines| == |rows| + 1 && lines[0] == leadTime
    ensures forall r :: 0 <= r < |rows| ==> lines[r + 1] == RenderRow(rows[r])
  {
    [leadTime] + seq(|rows|, r requires 0 <= r < |rows| => RenderRow(rows[r]))
  }

  /** The file's text: each line followed by a newline. */
  function FileText(lines: seq<string>): string
    decreases |lines|
  {
    if |lines| == 0 then "" else lines[0] + "\n" + FileText(lines[1..])
  }

  /** A produced file: where it goes and what lines it holds. */
  datatype OutputFile = OutputFile(path: string, lines: seq<string>)

  /** `output_dir / name`. */
  function PathJoin(dir: string, name: string): string {
    if dir == "" then name else dir + "/" + name
  }

  function SingleName(stem: string): string {
    stem + "_output.csv"
  }

  /** Part i (from 0) is numbered i + 1. */
  function PartName(stem: string, i: nat): string {
    stem + "_output_part_" + NatToString(i + 1) + ".csv"
  }

  /** The files `generate_output` writes, in order. */
  function PlannedFiles(dir: string, stem: string, leadTime: string, rows: seq<seq<Cell>>): seq<OutputFile> {
    if |rows| > ChunkSize then
      seq(ChunkCount(|rows|), i requires 0 <= i < ChunkCount(|rows|) =>
        OutputFile(PathJoin(dir, PartName(stem, i)), FileLines(leadTime, Chunk(rows, i))))
    else
      [OutputFile(PathJoin(dir, SingleName(stem)), FileLines(leadTime, rows))]
  }

  /** The last path component without its final suffix, as `Path.stem` has it. */
  function Stem(path: string): string {
    var name := if '/' in path then LastComponent(path) else path;
    var i := LastDot(name);
    if 0 < i < |name| - 1 then name[..i] else name
  }

  function LastComponent(path: string): string
    decreases |path|
  {
    if '/' in path then
      var i := FirstIndex(path, '/');
      LastComponent(path[i + 1..])
    else path
  }

  /** The index of the last '.', or |name| when there is none. */
  function LastDot(name: string): (i: nat)
    ensures i <= |name|
    ensures i < |name| ==> name[i] == '.' && '.' !in name[i + 1..]
    ensures i == |name| ==> '.' !in name
    decreases |name|
  {
    if |name| == 0 then 0
    else if name[|name| - 1] == '.' then |name| - 1
    else
      var i := LastDot(name[..|name| - 1]);
      if i == |name| - 1 then |name| else i
  }

  // ---------------------------------------------------------------------
  // Chunking.

  /** Every row lands in the chunk numbered by its index divided by 10000. */
  lemma ChunkCountBounds(n: nat)
    requires n > 0
    ensures (ChunkCount(n) - 1) * ChunkSize < n <= ChunkCount(n) * ChunkSize
  {
  }

  /** The concatenation of the first k chunks. */
  function Concat(rows: seq<seq<Cell>>, k: nat): seq<seq<Cell>>
    requires k <= ChunkCount(|rows|)
  {
    if k == 0 then [] else Concat(rows, k - 1) + Chunk(rows, k - 1)
  }

  lemma {:induction false} ConcatPrefix(rows: seq<seq<Cell>>, k: nat)
    requires k <= ChunkCount(|rows|)
    ensures Concat(rows, k) == rows[..if k * ChunkSize < |rows| then k * ChunkSize else |rows|]
    decreases k
  {
    if k > 0 {
      ConcatPrefix(rows, k - 1);
      var start := (k - 1) * ChunkSize;
      assert start < |rows|;
      var end := if k * ChunkSize < |rows| then k * ChunkSize else |rows|;
      assert rows[..start] + rows[start..end] == rows[..end];
    }
  }

  /** The chunks, concatenated in order, are the table. */
  lemma ChunksCoverTable(rows: seq<seq<Cell>>)
    ensures Concat(rows, ChunkCount(|rows|)) == rows
  {
    ConcatPrefix(rows, ChunkCount(|rows|));
    if |rows| > 0 {
      ChunkCountBounds(|rows|);
    }
  }

  /** Every chunk but the last holds exactly 10000 rows; the last holds between 1 and 10000. */
  lemma ChunkSizes(rows: seq<seq<Cell>>, i: nat)
    requires i < ChunkCount(|rows|)
    ensures 0 < |Chunk(rows, i)| <= ChunkSize
    ensures i < ChunkCount(|rows|) - 1 ==> |Chunk(rows, i)| == ChunkSize
  {
    ChunkCountBounds(|rows|);
  }

  /** A table of 25000 rows is written as parts of 10000, 10000 and 5000 rows. */
  lemma TwentyFiveThousandRows(rows: seq<seq<Cell>>)
    requires |rows| == 25000
    ensures ChunkCount(|rows|) == 3
    ensures |Chunk(rows, 0)| == 10000 && |Chunk(rows, 1)| == 10000 && |Chunk(rows, 2)| == 5000
  {
  }

  /**
   * Up to 10000 rows, exactly 10000 included, give the single file
   * `<stem>_output.csv` with every row; more give ceil(n / 10000) parts
   * named `<stem>_output_part_<i + 1>.csv`, part i holding chunk i.
   */
  lemma PlannedFilesLayout(dir: string, stem: string, leadTime: string, rows: seq<seq<Cell>>)
    ensures var files := PlannedFiles(dir, stem, leadTime, rows);
            (|rows| <= ChunkSize ==>
               files == [OutputFile(PathJoin(dir, stem + "_output.csv"), FileLines(leadTime, rows))])
            && (|rows| > ChunkSize ==>
               |files| == ChunkCount(|rows|) > 1
               && forall i :: 0 <= i < |files| ==>
                    files[i].path == PathJoin(dir, stem + "_output_part_" + NatToString(i + 1) + ".csv")
                    && files[i].lines == FileLines(leadTime, Chunk(rows, i)))
  {
  }

  /** Two different parts get two different names. */
  lemma PartNamesDistinct(stem: string, i: nat, j: nat)
    requires i != j
    ensures PartName(stem, i) != PartName(stem, j)
  {
    var p := stem + "_output_part_";
    var a := NatToString(i + 1);
    var b := NatToString(j + 1);
    NatToStringInjective(i + 1, j + 1);
    assert (p + a + ".csv")[|p|..|p| + |a|] == a;
    assert (p + b + ".csv")[|p|..|p| + |b|] == b;
  }

  /** So no two files of a split table share a path. */
  lemma PartPathsDistinct(dir: string, stem: string, leadTime: string, rows: seq<seq<Cell>>, i: nat, j: nat)
    requires |rows| > ChunkSize
    requires i < j < |PlannedFiles(dir, stem, leadTime, rows)|
    ensures PlannedFiles(dir, stem, leadTime, rows)[i].path != PlannedFiles(dir, stem, leadTime, rows)[j].path
  {
    PartNamesDistinct(stem, i, j);
    PathJoinInjective(dir, PartName(stem, i), PartName(stem, j));
  }

  /** Joining one directory to two different names gives two different paths. */
  lemma PathJoinInjective(dir: string, x: string, y: string)
    requires x != y
    ensures PathJoin(dir, x) != PathJoin(dir, y)
  {
    if dir != "" {
      assert (dir + "/" + x)[|dir| + 1..] == x;
      assert (dir + "/" + y)[|dir| + 1..] == y;
    }
  }

  /** Every file starts with the lead-time line. */
  lemma EveryFileStartsWithLeadTime(dir: string, stem: string, leadTime: string, rows: seq<seq<Cell>>, i: nat)
    requires i < |PlannedFiles(dir, stem, leadTime, rows)|
    ensures |PlannedFiles(dir, stem, leadTime, rows)[i].lines| >= 1
    ensures PlannedFiles(dir, stem, leadTime, rows)[i].lines[0] == leadTime
  {
  }

  // ---------------------------------------------------------------------
  // Line layout.

  /** No field text of the row holds the separator. */
  predicate SeparatorFree(row: seq<Cell>) {
    forall d :: 0 <= d < |row| ==> ';' !in Render(row[d])
  }

  /**
   * A line of k fields holds exactly k separators, and splitting it at
   * them gives back an empty first field followed by the row's fields.
   */
  lemma RenderRowRoundTrip(row: seq<Cell>)
    requires SeparatorFree(row)
    ensures Count(RenderRow(row), ';') == |row|
    ensures Split(RenderRow(row), ';') == [""] + seq(|row|, d requires 0 <= d < |row| => Render(row[d]))
  {
    var parts := [""] + seq(|row|, d requires 0 <= d < |row| => Render(row[d]));
    assert forall k :: 0 <= k < |parts| ==> ';' !in parts[k] by {
      forall k | 0 <= k < |parts| ensures ';' !in parts[k] {
        if k > 0 {
          assert parts[k] == Render(row[k - 1]);
        }
      }
    }
    JoinCount(parts, ';');
    SplitJoin(parts, ';');
  }

  /** A line starts with the separator: the first field is always empty. */
  lemma RenderRowStartsWithSeparator(row: seq<Cell>)
    requires |row| > 0
    ensures |RenderRow(row)| > 0 && RenderRow(row)[0] == ';'
  {
    var parts := [""] + seq(|row|, d requires 0 <= d < |row| => Render(row[d]));
    var rest := Join(parts[1..], ';');
    assert RenderRow(row) == "" + [';'] + rest;
  }

  /** A missing value is written as an empty field. */
  lemma MissingIsEmptyField(row: seq<Cell>, d: nat)
    requires SeparatorFree(row) && d < |row| && row[d].Missing?
    ensures |Split(RenderRow(row), ';')| == |row| + 1 && Split(RenderRow(row), ';')[d + 1] == ""
  {
    RenderRowRoundTrip(row);
  }

  /** A file of one row: the lead-time line, then the row's line. */
  lemma OneRowFile(leadTime: string, row: seq<Cell>)
    ensures FileText(FileLines(leadTime, [row])) == leadTime + "\n" + RenderRow(row) + "\n"
  {
    var lines := FileLines(leadTime, [row]);
    assert lines == [leadTime, RenderRow(row)];
    assert lines[1..][1..] == [];
    assert FileText(lines[1..]) == RenderRow(row) + "\n" + FileText([]);
  }

  /** An empty lead time gives an empty first line. */
  lemma EmptyLeadTime(rows: seq<seq<Cell>>)
    ensures FileText(FileLines("", rows))[..1] == "\n"
  {
  }

  /** The last component follows the last '/'. */
  lemma {:induction false} LastComponentAfterSlash(dir: string, name: string)
    requires '/' !in name
    ensures LastComponent(dir + "/" + name) == name
    decreases |dir|
  {
    var path := dir + "/" + name;
    var i := FirstIndex(path, '/');
    if i == |dir| {
      assert path[i + 1..] == name;
    } else {
      assert i < |dir|;
      assert dir[i] == '/';
      assert path[i + 1..] == dir[i + 1..] + "/" + name;
      LastComponentAfterSlash(dir[i + 1..], name);
    }
  }

  /** The last '.' of `base.ext` is the one before `ext` when `ext` has none. */
  lemma LastDotOfSuffix(base: string, ext: string)
    requires '.' !in ext
    ensures LastDot(base + "." + ext) == |base|
  {
    var name := base + "." + ext;
    assert name[|base|] == '.';
    assert name[|base| + 1..] == ext;
  }

  /**
   * `Path(dir + "/" + base + "." + ext).stem` is `base` when neither part
   * holds a '/', the suffix holds no '.', and neither part is empty.
   */
  lemma StemOfFileName(dir: string, base: string, ext: string)
    requires '/' !in base && '/' !in ext && '.' !in ext
    requires |base| > 0 && |ext| > 0
    ensures Stem(dir + "/" + base + "." + ext) == base
  {
    var name := base + "." + ext;
    assert '/' !in name;
    assert dir + "/" + base + "." + ext == dir + "/" + name;
    var path := dir + "/" + name;
    assert path[|dir|] == '/';
    LastComponentAfterSlash(dir, name);
    LastDotOfSuffix(base, ext);
    assert name[..|base|] == base;
  }
}
