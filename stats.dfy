/**
 * The eight-day statistics ring: slot 0 counts today's samples, slot 7 the
 * oldest day's, each as (compliant, total). Covers the day rollover, the
 * update a sample makes, and the compliance scores shown in mode 2.
 */
module Stats {
  import opened Format
  import opened Posture
  import opened Arithmetic

  datatype Counter = Counter(compliant: nat, total: nat)

  /** The ring always has exactly eight slots. */
  type Ring = s: seq<Counter> | |s| == 8 witness seq(8, _ => Counter(0, 0))

  const EmptyRing: Ring := [Counter(0, 0), Counter(0, 0), Counter(0, 0), Counter(0, 0), Counter(0, 0), Counter(0, 0), Counter(0, 0), Counter(0, 0)]

  /** No slot counts more compliant samples than samples. */
  predicate WellFormed(counts: seq<Counter>) {
    forall i :: 0 <= i < |counts| ==> counts[i].compliant <= counts[i].total
  }

  /** A new day: a fresh (0, 0) slot in front, every other day one slot older, the oldest dropped. */
  function Rollover(counts: Ring): (r: Ring)
    ensures r[0] == Counter(0, 0)
    ensures forall i :: 1 <= i < 8 ==> r[i] == counts[i - 1]
    ensures WellFormed(counts) ==> WellFormed(r)
  {
    ([Counter(0, 0)] + counts)[..8]
  }

  /**
   * The update a sample makes: an at-desk sample adds to today's total, a
   * compliant one to today's compliant count as well; no other slot changes.
   */
  function Recorded(counts: Ring, s: Sample): (r: Ring)
    ensures r[1..] == counts[1..]
    ensures r[0].total == counts[0].total + (if s == Away then 0 else 1)
    ensures r[0].compliant == counts[0].compliant + (if s == Compliant then 1 else 0)
    ensures WellFormed(counts) ==> WellFormed(r)
  {
    match s
    case Away => counts
    case Compliant => counts[0 := Counter(counts[0].compliant + 1, counts[0].total + 1)]
    case TooClose => counts[0 := Counter(counts[0].compliant, counts[0].total + 1)]
  }

  lemma PercentFacts(c: nat, t: nat, r: int)
    requires r == c * 100 / (1 + t)
    ensures r * (1 + t) <= c * 100 < (r + 1) * (1 + t)
    ensures c <= t ==> r <= 99
  {
    assert c * 100 == r * (1 + t) + c * 100 % (1 + t);
    assert (r + 1) * (1 + t) == r * (1 + t) + (1 + t);
    if c <= t {
      assert c * 100 < 100 * (1 + t);
      MulCancelLess(r, 100, 1 + t);
    }
  }

  /** Python 2's `c * 100 / (1 + t)` on naturals: the floor of the percentage, never a division by zero. */
  function Percent(c: nat, t: nat): (r: nat)
    ensures r * (1 + t) <= c * 100 < (r + 1) * (1 + t)
    ensures c <= t ==> r <= 99
  {
    var r := c * 100 / (1 + t);
    PercentFacts(c, t, r);
    r
  }

  /** Today's score. */
  function TodayScore(c: Counter): (r: nat)
    ensures r * (1 + c.total) <= c.compliant * 100 < (r + 1) * (1 + c.total)
    ensures c.compliant <= c.total ==> r <= 99
  {
    Percent(c.compliant, c.total)
  }

  /** Where Python's slice end `x` falls on an eight-element list. */
  function SliceBound(x: int): (r: int)
    ensures 0 <= r <= 8
    ensures 0 <= x <= 8 ==> r == x
  {
    var y := if x < 0 then x + 8 else x;
    if y < 0 then 0 else if y > 8 then 8 else y
  }

  /** Python's `counts[1 : w + 1]`, for any `w`: a run of slots starting at slot 1. */
  function Window(counts: Ring, w: int): (r: seq<Counter>)
    ensures |r| <= 7 && r == counts[1..1 + |r|]
    ensures 0 <= w <= 7 ==> r == counts[1..w + 1]
  {
    var hi := SliceBound(w + 1);
    if hi <= 1 then [] else counts[1..hi]
  }

  function SumCompliant(cs: seq<Counter>): nat
    decreases |cs|
  {
    if cs == [] then 0 else SumCompliant(cs[..|cs| - 1]) + cs[|cs| - 1].compliant
  }

  function SumTotal(cs: seq<Counter>): nat
    decreases |cs|
  {
    if cs == [] then 0 else SumTotal(cs[..|cs| - 1]) + cs[|cs| - 1].total
  }

  lemma {:induction false} SumsWellFormed(cs: seq<Counter>)
    requires WellFormed(cs)
    ensures SumCompliant(cs) <= SumTotal(cs)
    decreases |cs|
  {
    if cs != [] {
      SumsWellFormed(cs[..|cs| - 1]);
    }
  }

  /** The trailing-window score: compliant over 1 + total, summed over the window's days. */
  function WindowScore(counts: Ring, w: int): (r: nat)
    ensures var win := Window(counts, w);
      r * (1 + SumTotal(win)) <= SumCompliant(win) * 100 < (r + 1) * (1 + SumTotal(win))
    ensures WellFormed(counts) ==> r <= 99
  {
    var win := Window(counts, w);
    WindowSums(counts, w);
    Percent(SumCompliant(win), SumTotal(win))
  }

  lemma WindowSums(counts: Ring, w: int)
    ensures WellFormed(counts) ==> SumCompliant(Window(counts, w)) <= SumTotal(Window(counts, w))
  {
    if WellFormed(counts) {
      SumsWellFormed(Window(counts, w));
    }
  }

  /** run()'s `for i, j in counts[1 : show_days + 1]` loop, with `c1` starting at 1. */
  method SumWindow(counts: Ring, w: int) returns (score: nat)
    ensures score == WindowScore(counts, w)
  {
    var win := Window(counts, w);
    var c0, c1 := 0, 1;
    for k := 0 to |win|
      invariant c0 == SumCompliant(win[..k]) && c1 == 1 + SumTotal(win[..k])
    {
      assert win[..k + 1][..k] == win[..k];
      c0, c1 := c0 + win[k].compliant, c1 + win[k].total;
    }
    assert win[..|win|] == win;
    score := c0 * 100 / c1;
  }

  /** Mode 2's text: 'C%3d' of today's score for window 0, else '%d%3d' of the window and its score. */
  function ScoreText(counts: Ring, w: int): string {
    if w == 0 then "C" + FormatWidth(TodayScore(counts[0]), 3)
    else FormatInt(w) + FormatWidth(WindowScore(counts, w), 3)
  }

  /**
   * With consistent counters and a window the left key can select, the score
   * text fills the four digits exactly and its last three read back as the score.
   */
  lemma ScoreTextFits(counts: Ring, w: int)
    requires WellFormed(counts) && w in {0, 1, 3, 7}
    ensures |ScoreText(counts, w)| == 4
    ensures ParseInt(TrimLeft(ScoreText(counts, w)[1..])) ==
      if w == 0 then TodayScore(counts[0]) else WindowScore(counts, w)
  {
    var score := if w == 0 then TodayScore(counts[0]) else WindowScore(counts, w);
    assert counts[0].compliant <= counts[0].total;
    assert Power10(3) == 1000;
    FormatWidthExact(score, 3);
    FormatWidthInverts(score, 3);
    var text := ScoreText(counts, w);
    if w == 0 {
      assert text[1..] == FormatWidth(score, 3);
    } else {
      assert FormatInt(w) == [DigitChar(w)];
      assert text[1..] == FormatWidth(score, 3);
    }
  }
}
