/**
 * The posture classification every tick applies to a distance reading, the
 * relax-timer constants, and the raw-distance display mode, which both
 * variants of the monitor share.
 *
 * Times are whole tenths of a second.
 */
module Posture {
  import opened Format

  /** How far beyond the safe distance a reading still counts as sitting at the desk, in cm. */
  const Tolerance: int := 30

  /** The relax credit an away sample earns: 2.5 s. */
  const RelaxCredit: int := 25

  /** Twenty minutes of study without relax credit make the LED flash. */
  const StudyLimit: int := 12000

  datatype Sample = Away | Compliant | TooClose

  function Classify(d: int, safeDist: int): (s: Sample)
    ensures s == Compliant <==> safeDist <= d <= safeDist + Tolerance
    ensures s == TooClose <==> d < safeDist
    ensures s == Away <==> d > safeDist + Tolerance
  {
    if d <= safeDist + Tolerance then
      if d >= safeDist then Compliant else TooClose
    else Away
  }

  /** A too-close sample buzzes when the beeper is on and the streak it ends is longer than one. */
  predicate Buzzes(beep: bool, h: int, s: Sample) {
    s == TooClose && beep && h > 1
  }

  /** The LED flashes once the relax timer lags the clock by the study limit. */
  predicate Flashing(t: int, relaxTime: int) {
    t - relaxTime >= StudyLimit
  }

  /** Mode 1's text: '=%3d' of the safe distance while the countdown runs, else '%4d' of the reading. */
  function DistanceText(showSafe: int, safeDist: int, d: int): string {
    if showSafe > 0 then "=" + FormatWidth(safeDist, 3) else FormatWidth(d, 4)
  }

  /** The countdown after a mode-1 tick. */
  function CountDown(showSafe: int): int {
    if showSafe > 0 then showSafe - 1 else showSafe
  }

  /** The texts of successive mode-1 ticks reading `ds`, the countdown starting at `showSafe`. */
  function DistanceTexts(showSafe: int, safeDist: int, ds: seq<int>): seq<string>
    decreases |ds|
  {
    if ds == [] then []
    else [DistanceText(showSafe, safeDist, ds[0])] + DistanceTexts(CountDown(showSafe), safeDist, ds[1..])
  }

  /**
   * After a countdown of `showSafe` (3 after a key press), exactly the first
   * `showSafe` mode-1 ticks show the safe distance; every later tick shows
   * its own reading.
   */
  lemma {:induction false} SafeDistanceShownFirst(showSafe: nat, safeDist: int, ds: seq<int>)
    ensures |DistanceTexts(showSafe, safeDist, ds)| == |ds|
    ensures forall k :: 0 <= k < |ds| ==>
      DistanceTexts(showSafe, safeDist, ds)[k] ==
        if k < showSafe then "=" + FormatWidth(safeDist, 3) else FormatWidth(ds[k], 4)
    decreases |ds|
  {
    if ds != [] {
      var next: nat := CountDown(showSafe);
      SafeDistanceShownFirst(next, safeDist, ds[1..]);
      var texts := DistanceTexts(showSafe, safeDist, ds);
      forall k | 0 <= k < |ds|
        ensures texts[k] == if k < showSafe then "=" + FormatWidth(safeDist, 3) else FormatWidth(ds[k], 4)
      {
        if k > 0 {
          assert texts[k] == DistanceTexts(next, safeDist, ds[1..])[k - 1];
          assert ds[1..][k - 1] == ds[k];
        }
      }
    }
  }
}
