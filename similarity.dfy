/**
 * The similarity ratio of Python's `difflib.SequenceMatcher(None, a, b)`:
 * Ratcliff/Obershelp matching. The longest common block of the window is
 * taken (the one starting earliest in `a`, then earliest in `b`), and the
 * windows to its left and to its right are matched the same way; the
 * ratio is 2·M/(|a|+|b|) where M is the total size of the blocks. No
 * element is junk: there is no junk predicate, and the automatic junk
 * heuristic only applies to a second sequence of 200 or more characters,
 * which no lexicon entry is.
 *
 * Ratios are kept as exact fractions and compared by cross-multiplication.
 * This agrees with comparing the rounded floats `ratio()` returns while
 * |a| + |b| stays below 2^26: two different fractions with smaller
 * denominators are further apart than two rounding errors.
 */
module Similarity {

  datatype Block = Block(i: nat, j: nat, size: nat)

  /** m lies inside the window a[alo..ahi], b[blo..bhi]. */
  predicate InWindow(alo: nat, ahi: nat, blo: nat, bhi: nat, m: Block) {
    alo <= m.i && m.i + m.size <= ahi && blo <= m.j && m.j + m.size <= bhi
  }

  /** m is a common block: the same text of length m.size at a[m.i] and at b[m.j]. */
  ghost predicate Common(a: string, b: string, m: Block) {
    m.i + m.size <= |a| && m.j + m.size <= |b| && a[m.i..m.i + m.size] == b[m.j..m.j + m.size]
  }

  /** m is a common block of a[alo..ahi] and b[blo..bhi]. */
  ghost predicate IsBlock(a: string, b: string, alo: nat, ahi: nat, blo: nat, bhi: nat, m: Block) {
    InWindow(alo, ahi, blo, bhi, m) && ahi <= |a| && bhi <= |b| && Common(a, b, m)
  }

  /** The length of the longest common run starting at a[i], b[j] inside the window. */
  function Run(a: string, b: string, i: nat, j: nat, ahi: nat, bhi: nat): (k: nat)
    requires i <= ahi <= |a| && j <= bhi <= |b|
    ensures i + k <= ahi && j + k <= bhi
    ensures i + k == ahi || j + k == bhi || a[i + k] != b[j + k]
    decreases ahi - i
  {
    if i < ahi && j < bhi && a[i] == b[j] then 1 + Run(a, b, i + 1, j + 1, ahi, bhi) else 0
  }

  /** The run found at (i, j) is a common block. */
  lemma {:induction false} RunIsCommon(a: string, b: string, i: nat, j: nat, ahi: nat, bhi: nat)
    requires i <= ahi <= |a| && j <= bhi <= |b|
    ensures var k := Run(a, b, i, j, ahi, bhi); a[i..i + k] == b[j..j + k]
    decreases ahi - i
  {
    if i < ahi && j < bhi && a[i] == b[j] {
      RunIsCommon(a, b, i + 1, j + 1, ahi, bhi);
      var k := Run(a, b, i + 1, j + 1, ahi, bhi);
      assert a[i..i + 1 + k] == [a[i]] + a[i + 1..i + 1 + k];
      assert b[j..j + 1 + k] == [b[j]] + b[j + 1..j + 1 + k];
    }
  }

  /** (s, t) comes before (i, j) when the window is scanned row by row. */
  predicate Before(s: nat, t: nat, i: nat, j: nat) {
    s < i || (s == i && t < j)
  }

  /**
   * The scan of `find_longest_match`: every start (i, j) of the window in
   * row-major order, keeping the first block that is strictly longer than
   * the best so far.
   */
  function Scan(a: string, b: string, alo: nat, ahi: nat, blo: nat, bhi: nat,
                i: nat, j: nat, best: Block): (r: Block)
    requires alo <= i <= ahi <= |a| && blo <= j <= bhi <= |b|
    requires InWindow(alo, ahi, blo, bhi, best)
    ensures InWindow(alo, ahi, blo, bhi, r) && r.size >= best.size
    decreases ahi - i, bhi - j
  {
    if i == ahi then best
    else if j == bhi then Scan(a, b, alo, ahi, blo, bhi, i + 1, blo, best)
    else Scan(a, b, alo, ahi, blo, bhi, i, j + 1, Candidate(a, b, i, j, ahi, bhi, best))
  }

  /** The best block after looking at the run that starts at (i, j): that run if strictly longer. */
  function Candidate(a: string, b: string, i: nat, j: nat, ahi: nat, bhi: nat, best: Block): Block
    requires i < ahi <= |a| && j < bhi <= |b|
  {
    var k := Run(a, b, i, j, ahi, bhi);
    if k > best.size then Block(i, j, k) else best
  }

  /** The scan keeps its starting block or the run found at some start of the window. */
  lemma {:induction false} ScanIsRun(a: string, b: string, alo: nat, ahi: nat, blo: nat, bhi: nat,
                                     i: nat, j: nat, best: Block)
    requires alo <= i <= ahi <= |a| && blo <= j <= bhi <= |b|
    requires InWindow(alo, ahi, blo, bhi, best)
    ensures var r := Scan(a, b, alo, ahi, blo, bhi, i, j, best);
            r == best || r.size == Run(a, b, r.i, r.j, ahi, bhi)
    decreases ahi - i, bhi - j
  {
    if i == ahi {
    } else if j == bhi {
      ScanIsRun(a, b, alo, ahi, blo, bhi, i + 1, blo, best);
    } else {
      ScanIsRun(a, b, alo, ahi, blo, bhi, i, j + 1, Candidate(a, b, i, j, ahi, bhi, best));
    }
  }

  /** `find_longest_match(alo, ahi, blo, bhi)`; (alo, blo, 0) when nothing matches. */
  function Longest(a: string, b: string, alo: nat, ahi: nat, blo: nat, bhi: nat): (r: Block)
    requires alo <= ahi <= |a| && blo <= bhi <= |b|
    ensures IsBlock(a, b, alo, ahi, blo, bhi, r)
  {
    var r := Scan(a, b, alo, ahi, blo, bhi, alo, blo, Block(alo, blo, 0));
    ScanIsRun(a, b, alo, ahi, blo, bhi, alo, blo, Block(alo, blo, 0));
    RunIsCommon(a, b, r.i, r.j, ahi, bhi);
    r
  }

  /** The total size of the matching blocks of the window. */
  function Matches(a: string, b: string, alo: nat, ahi: nat, blo: nat, bhi: nat): (m: nat)
    requires alo <= ahi <= |a| && blo <= bhi <= |b|
    ensures m <= ahi - alo && m <= bhi - blo
    decreases (ahi - alo) + (bhi - blo)
  {
    var x := Longest(a, b, alo, ahi, blo, bhi);
    if x.size == 0 then 0
    else
      x.size + Matches(a, b, alo, x.i, blo, x.j)
             + Matches(a, b, x.i + x.size, ahi, x.j + x.size, bhi)
  }

  function MatchCount(a: string, b: string): (m: nat)
    ensures m <= |a| && m <= |b|
  {
    Matches(a, b, 0, |a|, 0, |b|)
  }

  /** A fraction num/den with den > 0. */
  datatype Ratio = Ratio(num: nat, den: nat)

  /** `SequenceMatcher(None, a, b).ratio()`, a fraction in [0, 1]. */
  function RatioOf(a: string, b: string): (r: Ratio)
    ensures r.den > 0 && r.num <= r.den
    ensures |a| + |b| > 0 ==> r.den == |a| + |b| && r.num == 2 * MatchCount(a, b)
  {
    var len := |a| + |b|;
    if len == 0 then Ratio(1, 1) else Ratio(2 * MatchCount(a, b), len)
  }

  /** x > y as fractions. */
  predicate Greater(x: Ratio, y: Ratio) {
    x.num * y.den > y.num * x.den
  }

  lemma MulMonotone(p: int, q: int, c: int)
    requires p >= q && c > 0
    ensures p * c >= q * c
  {
  }

  lemma MulStrict(p: int, q: int, c: int)
    requires p > q && c > 0
    ensures p * c > q * c
  {
  }

  /** x > y and y >= z give x > z. */
  lemma GreaterThenAtLeast(x: Ratio, y: Ratio, z: Ratio)
    requires x.den > 0 && y.den > 0 && z.den > 0
    requires Greater(x, y) && !Greater(z, y)
    ensures Greater(x, z)
  {
    MulStrict(x.num * y.den, y.num * x.den, z.den);
    MulMonotone(y.num * z.den, z.num * y.den, x.den);
    assert x.num * z.den * y.den > z.num * x.den * y.den;
    if x.num * z.den <= z.num * x.den {
      MulMonotone(z.num * x.den, x.num * z.den, y.den);
    }
  }

  /** x >= y and y > z give x > z. */
  lemma AtLeastThenGreater(x: Ratio, y: Ratio, z: Ratio)
    requires x.den > 0 && y.den > 0 && z.den > 0
    requires !Greater(y, x) && Greater(y, z)
    ensures Greater(x, z)
  {
    MulMonotone(x.num * y.den, y.num * x.den, z.den);
    MulStrict(y.num * z.den, z.num * y.den, x.den);
    assert x.num * z.den * y.den > z.num * x.den * y.den;
    if x.num * z.den <= z.num * x.den {
      MulMonotone(z.num * x.den, x.num * z.den, y.den);
    }
  }

  /** x >= y and y >= z give x >= z. */
  lemma AtLeastTransitive(x: Ratio, y: Ratio, z: Ratio)
    requires x.den > 0 && y.den > 0 && z.den > 0
    requires !Greater(y, x) && !Greater(z, y)
    ensures !Greater(z, x)
  {
    MulMonotone(x.num * y.den, y.num * x.den, z.den);
    MulMonotone(y.num * z.den, z.num * y.den, x.den);
    assert x.num * z.den * y.den >= z.num * x.den * y.den;
    if x.num * z.den < z.num * x.den {
      MulStrict(z.num * x.den, x.num * z.den, y.den);
    }
  }

  /** The run at (s, t) is no longer than `best`, and shorter when it starts before it. */
  ghost predicate Dominated(a: string, b: string, ahi: nat, bhi: nat, s: nat, t: nat, best: Block)
    requires s <= ahi <= |a| && t <= bhi <= |b|
  {
    Run(a, b, s, t, ahi, bhi) <= best.size
    && (Before(s, t, best.i, best.j) ==> Run(a, b, s, t, ahi, bhi) < best.size)
  }

  /** Every start scanned before (i, j) is summarised by `best`. */
  ghost predicate Summarises(a: string, b: string, alo: nat, ahi: nat, blo: nat, bhi: nat,
                             i: nat, j: nat, best: Block)
    requires ahi <= |a| && bhi <= |b|
  {
    forall s, t {:trigger Dominated(a, b, ahi, bhi, s, t, best)} ::
      alo <= s < ahi && blo <= t < bhi && Before(s, t, i, j) ==> Dominated(a, b, ahi, bhi, s, t, best)
  }

  /** Moving to the next row keeps the summary. */
  lemma SummarisesNextRow(a: string, b: string, alo: nat, ahi: nat, blo: nat, bhi: nat,
                          i: nat, best: Block)
    requires ahi <= |a| && bhi <= |b|
    requires Summarises(a, b, alo, ahi, blo, bhi, i, bhi, best)
    ensures Summarises(a, b, alo, ahi, blo, bhi, i + 1, blo, best)
  {
    forall s, t | alo <= s < ahi && blo <= t < bhi && Before(s, t, i + 1, blo)
      ensures Dominated(a, b, ahi, bhi, s, t, best)
    {
      assert Before(s, t, i, bhi);
    }
  }

  /** Scanning the start (i, j) keeps the summary. */
  lemma SummarisesNextStart(a: string, b: string, alo: nat, ahi: nat, blo: nat, bhi: nat,
                            i: nat, j: nat, best: Block, next: Block)
    requires alo <= i < ahi <= |a| && blo <= j < bhi <= |b|
    requires !Before(i, j, best.i, best.j)
    requires Summarises(a, b, alo, ahi, blo, bhi, i, j, best)
    requires var k := Run(a, b, i, j, ahi, bhi);
             next == if k > best.size then Block(i, j, k) else best
    ensures !Before(i, j + 1, next.i, next.j)
    ensures Summarises(a, b, alo, ahi, blo, bhi, i, j + 1, next)
  {
    forall s, t | alo <= s < ahi && blo <= t < bhi && Before(s, t, i, j + 1)
      ensures Dominated(a, b, ahi, bhi, s, t, next)
    {
      if !Before(s, t, i, j) {
        assert s == i && t == j;
      } else {
        assert Dominated(a, b, ahi, bhi, s, t, best);
      }
    }
  }

  /**
   * The tie rule of `find_longest_match`: the block found is at least as
   * long as every common run of the window, and strictly longer than every
   * run that starts before it.
   */
  lemma {:induction false} ScanFindsFirstLongest(a: string, b: string, alo: nat, ahi: nat, blo: nat, bhi: nat,
                                                 i: nat, j: nat, best: Block)
    requires alo <= i <= ahi <= |a| && blo <= j <= bhi <= |b|
    requires InWindow(alo, ahi, blo, bhi, best)
    requires !Before(i, j, best.i, best.j)
    requires Summarises(a, b, alo, ahi, blo, bhi, i, j, best)
    ensures var r := Scan(a, b, alo, ahi, blo, bhi, i, j, best);
            Summarises(a, b, alo, ahi, blo, bhi, ahi, blo, r)
    decreases ahi - i, bhi - j, 1
  {
    if i == ahi {
      forall s, t | alo <= s < ahi && blo <= t < bhi
        ensures Dominated(a, b, ahi, bhi, s, t, best)
      {
        assert Before(s, t, i, j);
      }
    } else if j == bhi {
      ScanNextRow(a, b, alo, ahi, blo, bhi, i, best);
    } else {
      ScanNextStart(a, b, alo, ahi, blo, bhi, i, j, best);
    }
  }

  lemma {:induction false} ScanNextRow(a: string, b: string, alo: nat, ahi: nat, blo: nat, bhi: nat,
                                       i: nat, best: Block)
    requires alo <= i < ahi <= |a| && blo <= bhi <= |b|
    requires InWindow(alo, ahi, blo, bhi, best)
    requires !Before(i, bhi, best.i, best.j)
    requires Summarises(a, b, alo, ahi, blo, bhi, i, bhi, best)
    ensures var r := Scan(a, b, alo, ahi, blo, bhi, i, bhi, best);
            Summarises(a, b, alo, ahi, blo, bhi, ahi, blo, r)
    decreases ahi - i, 0, 0
  {
    SummarisesNextRow(a, b, alo, ahi, blo, bhi, i, best);
    ScanFindsFirstLongest(a, b, alo, ahi, blo, bhi, i + 1, blo, best);
    var r := Scan(a, b, alo, ahi, blo, bhi, i + 1, blo, best);
    assert Summarises(a, b, alo, ahi, blo, bhi, ahi, blo, r);
    ScanEndOfRow(a, b, alo, ahi, blo, bhi, i, best);
  }

  /** At the end of a row the scan moves to the start of the next one. */
  lemma ScanEndOfRow(a: string, b: string, alo: nat, ahi: nat, blo: nat, bhi: nat, i: nat, best: Block)
    requires alo <= i < ahi <= |a| && blo <= bhi <= |b|
    requires InWindow(alo, ahi, blo, bhi, best)
    ensures Scan(a, b, alo, ahi, blo, bhi, i, bhi, best) == Scan(a, b, alo, ahi, blo, bhi, i + 1, blo, best)
  {
  }

  /** Inside a row the scan looks at the run at (i, j) and moves one column on. */
  lemma ScanStep(a: string, b: string, alo: nat, ahi: nat, blo: nat, bhi: nat, i: nat, j: nat, best: Block)
    requires alo <= i < ahi <= |a| && blo <= j < bhi <= |b|
    requires InWindow(alo, ahi, blo, bhi, best)
    ensures InWindow(alo, ahi, blo, bhi, Candidate(a, b, i, j, ahi, bhi, best))
    ensures Scan(a, b, alo, ahi, blo, bhi, i, j, best)
            == Scan(a, b, alo, ahi, blo, bhi, i, j + 1, Candidate(a, b, i, j, ahi, bhi, best))
  {
  }

  lemma {:induction false} ScanNextStart(a: string, b: string, alo: nat, ahi: nat, blo: nat, bhi: nat,
                                         i: nat, j: nat, best: Block)
    requires alo <= i < ahi <= |a| && blo <= j < bhi <= |b|
    requires InWindow(alo, ahi, blo, bhi, best)
    requires !Before(i, j, best.i, best.j)
    requires Summarises(a, b, alo, ahi, blo, bhi, i, j, best)
    ensures var r := Scan(a, b, alo, ahi, blo, bhi, i, j, best);
            Summarises(a, b, alo, ahi, blo, bhi, ahi, blo, r)
    decreases ahi - i, bhi - j, 0
  {
    var next := Candidate(a, b, i, j, ahi, bhi, best);
    ScanStep(a, b, alo, ahi, blo, bhi, i, j, best);
    SummarisesNextStart(a, b, alo, ahi, blo, bhi, i, j, best, next);
    ScanFindsFirstLongest(a, b, alo, ahi, blo, bhi, i, j + 1, next);
    SummarisesSame(a, b, alo, ahi, blo, bhi,
                   Scan(a, b, alo, ahi, blo, bhi, i, j + 1, next), Scan(a, b, alo, ahi, blo, bhi, i, j, best));
  }

  lemma SummarisesSame(a: string, b: string, alo: nat, ahi: nat, blo: nat, bhi: nat, x: Block, y: Block)
    requires ahi <= |a| && bhi <= |b|
    requires Summarises(a, b, alo, ahi, blo, bhi, ahi, blo, x) && x == y
    ensures Summarises(a, b, alo, ahi, blo, bhi, ahi, blo, y)
  {
  }

  lemma LongestIsFirstLongest(a: string, b: string, alo: nat, ahi: nat, blo: nat, bhi: nat, s: nat, t: nat)
    requires alo <= s < ahi <= |a| && blo <= t < bhi <= |b|
    ensures var r := Longest(a, b, alo, ahi, blo, bhi);
            Run(a, b, s, t, ahi, bhi) <= r.size
            && (Before(s, t, r.i, r.j) ==> Run(a, b, s, t, ahi, bhi) < r.size)
  {
    ScanFindsFirstLongest(a, b, alo, ahi, blo, bhi, alo, blo, Block(alo, blo, 0));
    assert Dominated(a, b, ahi, bhi, s, t, Longest(a, b, alo, ahi, blo, bhi));
  }

  lemma {:induction false} RunOnItself(a: string, i: nat)
    requires i <= |a|
    ensures Run(a, a, i, i, |a|, |a|) == |a| - i
    decreases |a| - i
  {
    if i < |a| {
      RunOnItself(a, i + 1);
    }
  }

  /** A string matches itself completely. */
  lemma SelfMatch(a: string)
    ensures MatchCount(a, a) == |a|
  {
    if |a| > 0 {
      RunOnItself(a, 0);
      LongestIsFirstLongest(a, a, 0, |a|, 0, |a|, 0, 0);
      var x := Longest(a, a, 0, |a|, 0, |a|);
      assert x.size == |a| && x.i == 0 && x.j == 0;
    }
  }

  /** A string compared with itself scores exactly 1. */
  lemma SelfRatio(a: string)
    requires |a| > 0
    ensures RatioOf(a, a).num == RatioOf(a, a).den
  {
    SelfMatch(a);
  }
}
