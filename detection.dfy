/**
 * The header detector: for each template field, the header that some
 * lexicon pattern is found in and whose similarity to that pattern's text
 * is highest, first one winning ties, recorded under the field's name when
 * the similarity exceeds 0.2. The recorded value is the header as the
 * table spells it, not a column letter.
 */
module Detection {
  import opened Text
  import opened Fields
  import opened Similarity
  import opened Wrappers

  /** `col.lower().strip()`. */
  function Normalize(h: string): (r: string)
    ensures |r| <= |h|
  {
    Strip(Lower(h))
  }

  function NormalizeAll(headers: seq<string>): (cols: seq<string>)
    ensures |cols| == |headers|
    ensures forall i :: 0 <= i < |headers| ==> cols[i] == Normalize(headers[i])
  {
    seq(|headers|, i requires 0 <= i < |headers| => Normalize(headers[i]))
  }

  /** The detector's running choice: nothing yet, or the (column, pattern) pair and its score. */
  datatype Best = NoMatch | Match(col: nat, pat: nat, score: Ratio)

  const Zero: Ratio := Ratio(0, 1)

  /** The acceptance threshold 0.2. */
  const Threshold: Ratio := Ratio(1, 5)

  /** `best_score`: 0 until something is chosen. */
  function Score(b: Best): Ratio {
    if b.Match? then b.score else Zero
  }

  /** The score of a normalised header against a lexicon entry. */
  function Similar(col: string, p: Pattern): (r: Ratio)
    ensures r.den > 0 && r.num <= r.den
  {
    RatioOf(col, Raw(p))
  }

  /** Pattern j is found in header i. */
  predicate Hit(cols: seq<string>, pats: seq<Pattern>, i: nat, j: nat) {
    i < |cols| && j < |pats| && Search(pats[j], cols[i])
  }

  /**
   * What the nested loops see at header i, pattern j: nothing when the
   * pattern is not found, its similarity score when it is.
   */
  type Grid = seq<seq<Option<Ratio>>>

  /** Every row has `width` cells and every score has a positive denominator. */
  ghost predicate WellFormedGrid(g: Grid, width: nat) {
    forall i :: 0 <= i < |g| ==>
      (|g[i]| == width && forall j :: 0 <= j < width && g[i][j].Some? ==> g[i][j].value.den > 0)
  }

  function ScoreGrid(cols: seq<string>, pats: seq<Pattern>): (g: Grid)
    ensures |g| == |cols| && WellFormedGrid(g, |pats|)
    ensures forall i: nat, j: nat :: i < |cols| && j < |pats| ==>
              g[i][j] == if Hit(cols, pats, i, j) then Some(Similar(cols[i], pats[j])) else None
  {
    seq(|cols|, i requires 0 <= i < |cols| =>
      seq(|pats|, j requires 0 <= j < |pats| =>
        if Search(pats[j], cols[i]) then Some(Similar(cols[i], pats[j])) else None))
  }

  /** One step of the inner loop: take the pair if it is a hit scoring above the best so far. */
  function Consider(g: Grid, st: Best, i: nat, j: nat): Best
    requires i < |g| && j < |g[i]|
  {
    match g[i][j]
    case Some(s) => if Greater(s, Score(st)) then Match(i, j, s) else st
    case None => st
  }

  /** The inner loop over the first n patterns for header i, starting from st. */
  function ScanRow(g: Grid, i: nat, n: nat, st: Best): Best
    requires i < |g| && n <= |g[i]|
    decreases n
  {
    if n == 0 then st else Consider(g, ScanRow(g, i, n - 1, st), i, n - 1)
  }

  /** The outer loop over the first n headers. */
  function ScanRows(g: Grid, width: nat, n: nat): Best
    requires n <= |g| && WellFormedGrid(g, width)
    decreases n
  {
    if n == 0 then NoMatch
    else ScanRow(g, n - 1, width, ScanRows(g, width, n - 1))
  }

  /** The detector's choice for field f, before the threshold test. */
  function BestFor(headers: seq<string>, f: Field): Best {
    BestIn(NormalizeAll(headers), Patterns(f))
  }

  /** The scan's choice over the whole grid of headers and patterns. */
  function BestIn(cols: seq<string>, pats: seq<Pattern>): (b: Best)
    ensures b.Match? ==> b.col < |cols| && b.pat < |pats|
  {
    var g := ScoreGrid(cols, pats);
    ScanRowsSummary(g, |pats|, |cols|);
    ScanRows(g, |pats|, |cols|)
  }

  function Bests(headers: seq<string>): (bs: seq<Best>)
    ensures |bs| == |FieldOrder|
    ensures forall k :: 0 <= k < |FieldOrder| ==> bs[k] == BestFor(headers, FieldOrder[k])
  {
    BestsOf(NormalizeAll(headers))
  }

  /** The choices over already normalised headers. */
  function BestsOf(cols: seq<string>): (bs: seq<Best>)
    ensures |bs| == |FieldOrder|
  {
    seq(|FieldOrder|, k requires 0 <= k < |FieldOrder| => BestIn(cols, Patterns(FieldOrder[k])))
  }

  /** `if best_match and best_score > 0.2`. */
  predicate Recorded(headers: seq<string>, b: Best) {
    b.Match? && b.col < |headers| && headers[b.col] != "" && Greater(b.score, Threshold)
  }

  /** The detected map after the first k fields of the lexicon, given each field's choice. */
  function RecordUpTo(headers: seq<string>, bs: seq<Best>, k: nat): map<string, string>
    requires k <= |bs| == |FieldOrder|
    decreases k
  {
    if k == 0 then map[]
    else
      var m := RecordUpTo(headers, bs, k - 1);
      var b := bs[k - 1];
      if Recorded(headers, b) then m[FieldName(FieldOrder[k - 1]) := headers[b.col]] else m
  }

  /** What `detect_columns` returns for a table with these headers. */
  function Detected(headers: seq<string>): map<string, string> {
    RecordUpTo(headers, Bests(headers), |FieldOrder|)
  }

  /** The two inner loops of `detect_columns`, for one field's patterns. */
  method BestMatch(columns: seq<string>, patterns: seq<Pattern>) returns (best: Best)
    ensures best == BestIn(columns, patterns)
  {
    ghost var g := ScoreGrid(columns, patterns);
    best := NoMatch;
    for i := 0 to |columns|
      invariant best == ScanRows(g, |patterns|, i)
    {
      best := ScanPatterns(columns, patterns, i, best);
    }
  }

  /** The inner loop of `detect_columns`: every pattern against header i. */
  method ScanPatterns(columns: seq<string>, patterns: seq<Pattern>, i: nat, start: Best)
    returns (best: Best)
    requires i < |columns|
    ensures best == ScanRow(ScoreGrid(columns, patterns), i, |patterns|, start)
  {
    ghost var g := ScoreGrid(columns, patterns);
    best := start;
    for j := 0 to |patterns|
      invariant best == ScanRow(g, i, j, start)
    {
      if Search(patterns[j], columns[i]) {
        var similarity := Similar(columns[i], patterns[j]);
        if Greater(similarity, Score(best)) {
          best := Match(i, j, similarity);
        }
      }
    }
  }

  /** One field of `detect_columns`: scan, then record the header when the score passes. */
  method DetectField(headers: seq<string>, columns: seq<string>, f: Field, detected: map<string, string>)
    returns (updated: map<string, string>)
    requires |columns| == |headers|
    ensures var b := BestIn(columns, Patterns(f));
            updated == if Recorded(headers, b) then detected[FieldName(f) := headers[b.col]] else detected
  {
    var best := BestMatch(columns, Patterns(f));
    updated := detected;
    if best.Match? && headers[best.col] != "" && Greater(best.score, Threshold) {
      updated := detected[FieldName(f) := headers[best.col]];
    }
  }

  /** `detect_columns`: the scan over the lexicon's fields. */
  method DetectColumns(headers: seq<string>) returns (detected: map<string, string>)
    ensures detected == Detected(headers)
  {
    var columns := NormalizeAll(headers);
    detected := RecordFields(headers, columns);
  }

  /** The loop of `detect_columns` over the fields, given the normalised headers. */
  method RecordFields(headers: seq<string>, columns: seq<string>) returns (detected: map<string, string>)
    requires |columns| == |headers|
    ensures detected == RecordUpTo(headers, BestsOf(columns), |FieldOrder|)
  {
    ghost var bs := BestsOf(columns);
    detected := map[];
    for k := 0 to |FieldOrder|
      invariant detected == RecordUpTo(headers, bs, k)
    {
      detected := DetectField(headers, columns, FieldOrder[k], detected);
    }
  }

  // ---------------------------------------------------------------------
  // What the scan computes, independently of how it is computed.

  /**
   * `st` summarises the cells scanned before (I, J): no hit there scores
   * above it, and when it is a pair, that pair is a hit scanned already,
   * carries its own score, and beats every hit scanned before it.
   */
  ghost predicate Summary(g: Grid, width: nat, I: nat, J: nat, st: Best) {
    WellFormedGrid(g, width)
    && (forall i: nat, j: nat :: i < |g| && j < width && Before(i, j, I, J) && g[i][j].Some? ==>
       !Greater(g[i][j].value, Score(st)))
    && (st.Match? ==>
          st.col < |g| && st.pat < width && Before(st.col, st.pat, I, J)
          && g[st.col][st.pat] == Some(st.score)
          && forall i: nat, j: nat :: i < |g| && j < width && Before(i, j, st.col, st.pat) && g[i][j].Some? ==>
               Greater(st.score, g[i][j].value))
  }

  lemma GreaterThanThresholdIsPositive(x: Ratio)
    requires x.den > 0 && Greater(x, Threshold)
    ensures Greater(x, Zero)
  {
  }

  lemma ConsiderKeepsSummary(g: Grid, width: nat, I: nat, J: nat, st: Best)
    requires WellFormedGrid(g, width) && I < |g| && J < width
    requires Summary(g, width, I, J, st)
    ensures Summary(g, width, I, J + 1, Consider(g, st, I, J))
  {
    var next := Consider(g, st, I, J);
    if next != st {
      var s := g[I][J].value;
      forall i: nat, j: nat | i < |g| && j < width && Before(i, j, I, J + 1) && g[i][j].Some?
        ensures !Greater(g[i][j].value, s)
        ensures Before(i, j, I, J) ==> Greater(s, g[i][j].value)
      {
        if Before(i, j, I, J) {
          GreaterThenAtLeast(s, Score(st), g[i][j].value);
        }
      }
    }
  }

  lemma {:induction false} ScanRowSummary(g: Grid, width: nat, I: nat, n: nat, st: Best)
    requires WellFormedGrid(g, width) && I < |g| && n <= width
    requires Summary(g, width, I, 0, st)
    ensures Summary(g, width, I, n, ScanRow(g, I, n, st))
    decreases n
  {
    if n > 0 {
      ScanRowSummary(g, width, I, n - 1, st);
      ConsiderKeepsSummary(g, width, I, n - 1, ScanRow(g, I, n - 1, st));
    }
  }

  lemma {:induction false} ScanRowsSummary(g: Grid, width: nat, n: nat)
    requires WellFormedGrid(g, width) && n <= |g|
    ensures Summary(g, width, n, 0, ScanRows(g, width, n))
    decreases n
  {
    if n > 0 {
      var st := ScanRows(g, width, n - 1);
      ScanRowsSummary(g, width, n - 1);
      ScanRowSummary(g, width, n - 1, width, st);
      forall i: nat, j: nat | i < |g| && j < width && Before(i, j, n, 0)
        ensures Before(i, j, n - 1, width)
      {
      }
    }
  }

  /** Whether a field is recorded, and what, depends on that field's choice alone. */
  lemma {:induction false} RecordUpToLookup(headers: seq<string>, bs: seq<Best>, k: nat, f: Field)
    requires k <= |bs| == |FieldOrder|
    ensures FieldName(f) in RecordUpTo(headers, bs, k) <==>
              Position(f) < k && Recorded(headers, bs[Position(f)])
    ensures FieldName(f) in RecordUpTo(headers, bs, k) ==>
              RecordUpTo(headers, bs, k)[FieldName(f)] == headers[bs[Position(f)].col]
    decreases k
  {
    if k > 0 {
      RecordUpToLookup(headers, bs, k - 1, f);
      FieldNameInjective(f, FieldOrder[k - 1]);
    }
  }

  /** Only template field names are ever keys of the detected map. */
  lemma {:induction false} RecordUpToKeys(headers: seq<string>, bs: seq<Best>, k: nat, key: string)
    requires k <= |bs| == |FieldOrder|
    requires key in RecordUpTo(headers, bs, k)
    ensures exists f :: key == FieldName(f)
    decreases k
  {
    if key != FieldName(FieldOrder[k - 1]) {
      RecordUpToKeys(headers, bs, k - 1, key);
    }
  }

  /** A hit can only occur in a header that is not empty. */
  lemma HitHeaderNotEmpty(headers: seq<string>, pats: seq<Pattern>, i: nat, j: nat)
    requires Hit(NormalizeAll(headers), pats, i, j)
    ensures headers[i] != ""
  {
    SearchNonEmpty(pats[j], NormalizeAll(headers)[i], 0);
  }

  /** The scan's choice, when there is one, is a hit and carries that hit's score. */
  lemma BestInIsHit(cols: seq<string>, pats: seq<Pattern>)
    ensures var b := BestIn(cols, pats);
            b.Match? ==> Hit(cols, pats, b.col, b.pat) && b.score == Similar(cols[b.col], pats[b.pat])
  {
    var g := ScoreGrid(cols, pats);
    ScanRowsSummary(g, |pats|, |cols|);
    var b := BestIn(cols, pats);
    if b.Match? {
      assert g[b.col][b.pat] == Some(b.score);
    }
  }

  /**
   * Every hit is matched or beaten by the scan's choice, and strictly
   * beaten when it comes before the choice in scan order.
   */
  lemma BestInDominates(cols: seq<string>, pats: seq<Pattern>, i: nat, j: nat)
    requires Hit(cols, pats, i, j)
    ensures var b := BestIn(cols, pats);
            var s := Similar(cols[i], pats[j]);
            !Greater(s, Score(b))
            && (b.Match? && Before(i, j, b.col, b.pat) ==> Greater(b.score, s))
  {
    var g := ScoreGrid(cols, pats);
    ScanRowsSummary(g, |pats|, |cols|);
    assert g[i][j] == Some(Similar(cols[i], pats[j]));
    assert Before(i, j, |cols|, 0);
  }

  /** Detected(headers) records field f exactly when its choice passes the test. */
  lemma DetectedLookup(headers: seq<string>, f: Field)
    ensures FieldName(f) in Detected(headers) <==> Recorded(headers, BestFor(headers, f))
    ensures FieldName(f) in Detected(headers) ==>
              Detected(headers)[FieldName(f)] == headers[BestFor(headers, f).col]
  {
    var bs := Bests(headers);
    RecordUpToLookup(headers, bs, |FieldOrder|, f);
    assert bs[Position(f)] == BestFor(headers, f);
  }

  /** Every key of the detected map is a template field name. */
  lemma DetectedKeys(headers: seq<string>, key: string)
    requires key in Detected(headers)
    ensures exists f :: key == FieldName(f)
  {
    RecordUpToKeys(headers, Bests(headers), |FieldOrder|, key);
  }

  /**
   * Every detected value is a header of two or more characters: the
   * lexicon finds nothing shorter, and lower-casing and stripping never
   * lengthen a header.
   */
  lemma DetectedValuesLong(headers: seq<string>, key: string)
    requires key in Detected(headers)
    ensures |Detected(headers)[key]| >= 2
  {
    DetectedKeys(headers, key);
    var f :| key == FieldName(f);
    var cols := NormalizeAll(headers);
    var b := BestIn(cols, Patterns(f));
    DetectedLookup(headers, f);
    BestInIsHit(cols, Patterns(f));
    FoundHeadersLong(f, b.pat, cols[b.col]);
  }

  /**
   * A field is detected exactly when some lexicon pattern of it is found
   * in some header with a similarity above 0.2.
   */
  lemma DetectedIff(headers: seq<string>, f: Field)
    ensures FieldName(f) in Detected(headers) <==>
              exists i: nat, j: nat :: Hit(NormalizeAll(headers), Patterns(f), i, j)
                && Greater(Similar(NormalizeAll(headers)[i], Patterns(f)[j]), Threshold)
  {
    var cols := NormalizeAll(headers);
    var pats := Patterns(f);
    var b := BestIn(cols, pats);
    DetectedLookup(headers, f);
    BestInIsHit(cols, pats);
    if exists i: nat, j: nat :: Hit(cols, pats, i, j) && Greater(Similar(cols[i], pats[j]), Threshold) {
      var i: nat, j: nat :| Hit(cols, pats, i, j) && Greater(Similar(cols[i], pats[j]), Threshold);
      BestInDominates(cols, pats, i, j);
      GreaterThanThresholdIsPositive(Similar(cols[i], pats[j]));
      if b.NoMatch? {
        assert false;
      }
      AtLeastThenGreater(b.score, Similar(cols[i], pats[j]), Threshold);
      HitHeaderNotEmpty(headers, pats, b.col, b.pat);
    }
  }

  /**
   * The pair (i, j) is a hit with the highest similarity of all hits, and
   * with a strictly higher one than every hit scanned before it.
   */
  ghost predicate FirstBest(cols: seq<string>, pats: seq<Pattern>, i: nat, j: nat) {
    Hit(cols, pats, i, j)
    && (forall i': nat, j': nat :: Hit(cols, pats, i', j') ==>
          !Greater(Similar(cols[i'], pats[j']), Similar(cols[i], pats[j])))
    && (forall i': nat, j': nat :: Hit(cols, pats, i', j') && Before(i', j', i, j) ==>
          Greater(Similar(cols[i], pats[j]), Similar(cols[i'], pats[j'])))
  }

  /** The scan's choice, when there is one, is the first best hit. */
  lemma BestInIsFirstBest(cols: seq<string>, pats: seq<Pattern>)
    requires BestIn(cols, pats).Match?
    ensures FirstBest(cols, pats, BestIn(cols, pats).col, BestIn(cols, pats).pat)
  {
    var b := BestIn(cols, pats);
    BestInIsHit(cols, pats);
    forall i': nat, j': nat | Hit(cols, pats, i', j')
      ensures !Greater(Similar(cols[i'], pats[j']), Similar(cols[b.col], pats[b.pat]))
      ensures Before(i', j', b.col, b.pat) ==>
                Greater(Similar(cols[b.col], pats[b.pat]), Similar(cols[i'], pats[j']))
    {
      BestInDominates(cols, pats, i', j');
    }
  }

  /**
   * The detected value of a field is the original header of the first
   * best-scoring hit, and that hit scores above 0.2.
   */
  lemma DetectedChoice(headers: seq<string>, f: Field)
    requires FieldName(f) in Detected(headers)
    ensures exists i: nat, j: nat :: FirstBest(NormalizeAll(headers), Patterns(f), i, j)
              && Greater(Similar(NormalizeAll(headers)[i], Patterns(f)[j]), Threshold)
              && Detected(headers)[FieldName(f)] == headers[i]
  {
    var cols := NormalizeAll(headers);
    var pats := Patterns(f);
    var b := BestIn(cols, pats);
    DetectedLookup(headers, f);
    BestInIsHit(cols, pats);
    BestInIsFirstBest(cols, pats);
    assert FirstBest(cols, pats, b.col, b.pat);
  }

  lemma OneIsTop(s: Ratio, n: nat)
    requires n > 0 && s.den > 0 && s.num <= s.den
    requires !Greater(Ratio(n, n), s)
    ensures s.num == s.den
  {
    if s.num < s.den {
      MulStrict(s.den, s.num, n);
    }
  }

  /** Two full scores are equal in value, so neither beats the other. */
  lemma FullNotGreater(x: Ratio, y: Ratio)
    requires x.num == x.den && y.num == y.den
    ensures !Greater(x, y)
  {
    assert x.num * y.den == y.num * x.den;
  }

  /** A full score at (i, j) makes the choice a full score no later than (i, j). */
  lemma FullScoreChosen(cols: seq<string>, pats: seq<Pattern>, i: nat, j: nat)
    requires Hit(cols, pats, i, j)
    requires Similar(cols[i], pats[j]).num == Similar(cols[i], pats[j]).den
    ensures var b := BestIn(cols, pats);
            b.Match? && b.col <= i && b.score.num == b.score.den
            && Hit(cols, pats, b.col, b.pat) && b.score == Similar(cols[b.col], pats[b.pat])
  {
    var s := Similar(cols[i], pats[j]);
    var b := BestIn(cols, pats);
    BestInIsHit(cols, pats);
    BestInDominates(cols, pats, i, j);
    if b.NoMatch? {
      assert Greater(s, Zero);
      assert false;
    }
    OneIsTop(b.score, s.num);
    FullNotGreater(b.score, s);
  }

  /**
   * A header that, once lower-cased and stripped, is exactly a one-segment
   * lexicon entry of a field gets that field detected; what is recorded is
   * the original name of a header at or before it that scores a full 1.
   */
  lemma ExactHeaderDetected(headers: seq<string>, f: Field, i: nat, j: nat)
    requires i < |headers| && j < |Patterns(f)|
    requires |Patterns(f)[j]| == 1 && Normalize(headers[i]) == Patterns(f)[j][0]
    ensures FieldName(f) in Detected(headers)
    ensures exists c: nat, q: nat :: c <= i && Hit(NormalizeAll(headers), Patterns(f), c, q)
              && Similar(NormalizeAll(headers)[c], Patterns(f)[q]).num
                 == Similar(NormalizeAll(headers)[c], Patterns(f)[q]).den
              && Detected(headers)[FieldName(f)] == headers[c]
  {
    var cols := NormalizeAll(headers);
    var pats := Patterns(f);
    var w := pats[j][0];
    assert pats[j] == [w];
    LiteralFoundInItself(w);
    assert Raw(pats[j]) == w;
    SelfRatio(w);
    assert Hit(cols, pats, i, j);
    FullScoreChosen(cols, pats, i, j);
    var b := BestIn(cols, pats);
    HitHeaderNotEmpty(headers, pats, b.col, b.pat);
    assert Greater(b.score, Threshold);
    DetectedLookup(headers, f);
    assert Hit(cols, pats, b.col, b.pat);
  }
}
