/**
 * The four-digit seven-segment display driver (DigitalDisplay): the glyph
 * table, the scan of the shared text into (glyph, dot) cells, and the
 * multiplexing that strobes the digits over shared segment lines while
 * writing a pin only when its level changes.
 *
 * Pins are named by role: Segment(i) is the line of bit i of a pattern
 * (segments a..g and the decimal point), Select(k) enables digit k.
 */
module Display {
  import opened Wrappers

  /** The segment pattern of each glyph the display can draw. */
  function SegmentCode(g: char): Option<bv8> {
    match g
    case '0' => Some(0x3f)
    case '1' => Some(0x06)
    case '2' => Some(0x5b)
    case '3' => Some(0x4f)
    case '4' => Some(0x66)
    case '5' => Some(0x6d)
    case '6' => Some(0x7d)
    case '7' => Some(0x07)
    case '8' => Some(0x7f)
    case '9' => Some(0x6f)
    case '-' => Some(0x40)
    case '_' => Some(0x08)
    case '=' => Some(0x48)
    case ' ' => Some(0x00)
    case 'A' => Some(0x77)
    case 'B' => Some(0x7c)
    case 'C' => Some(0x39)
    case 'D' => Some(0x5e)
    case 'E' => Some(0x79)
    case 'F' => Some(0x71)
    case _ => None
  }

  /** Every glyph of the table, in the order the table lists them. */
  const Glyphs: string := "0123456789-_= ABCDEF"

  const DotBit: bv8 := 0x80

  /** The pattern driven for a glyph: its code, plus the decimal point when `dot`. */
  function Encode(code: bv8, dot: bool): bv8 {
    code | (if dot then DotBit else 0)
  }

  /** The single-bit masks `1 << i`, for i = 0..7. */
  const BitMasks: seq<bv8> := [0x01, 0x02, 0x04, 0x08, 0x10, 0x20, 0x40, 0x80]

  /** Bit `i` of a pattern, the level of segment pin `i`. */
  predicate Bit(n: bv8, i: nat)
    requires i < 8
  {
    n & BitMasks[i] != 0
  }

  /** The glyph whose table code is `code`, if any (the table read backwards). */
  function GlyphOf(code: bv8): Option<char> {
    match code
    case 0x3f => Some('0')
    case 0x06 => Some('1')
    case 0x5b => Some('2')
    case 0x4f => Some('3')
    case 0x66 => Some('4')
    case 0x6d => Some('5')
    case 0x7d => Some('6')
    case 0x07 => Some('7')
    case 0x7f => Some('8')
    case 0x6f => Some('9')
    case 0x40 => Some('-')
    case 0x08 => Some('_')
    case 0x48 => Some('=')
    case 0x00 => Some(' ')
    case 0x77 => Some('A')
    case 0x7c => Some('B')
    case 0x39 => Some('C')
    case 0x5e => Some('D')
    case 0x79 => Some('E')
    case 0x71 => Some('F')
    case _ => None
  }

  datatype Cell = Cell(glyph: char, dot: bool)

  /** Reads a driven pattern back as the cell it shows. */
  function Decode(n: bv8): Option<Cell> {
    match GlyphOf(n & !DotBit)
    case None => None
    case Some(g) => Some(Cell(g, n & DotBit != 0))
  }

  /**
   * No two glyphs share a pattern and no code uses the decimal-point bit, so
   * every (glyph, dot) cell lights a pattern that identifies it.
   */
  lemma DecodeInvertsEncode(g: char, dot: bool)
    requires SegmentCode(g).Some?
    ensures Decode(Encode(SegmentCode(g).value, dot)) == Some(Cell(g, dot))
  {
  }

  /** The characters the display's pattern `[-_=A-F0-9 #]\.?` accepts as a glyph. */
  predicate InPattern(c: char) {
    c in "-_=ABCDEF0123456789 #"
  }

  function PatternCount(s: string): nat
    decreases |s|
  {
    if s == [] then 0 else (if InPattern(s[0]) then 1 else 0) + PatternCount(s[1..])
  }

  /**
   * The successive non-overlapping matches of `[-_=A-F0-9 #]\.?` in `s`,
   * each as its glyph and whether a '.' followed it; every other character is
   * skipped.
   */
  function Scan(s: string): (cells: seq<Cell>)
    ensures |cells| == PatternCount(s)
    ensures forall i :: 0 <= i < |cells| ==> InPattern(cells[i].glyph)
    decreases |s|
  {
    if s == [] then []
    else if !InPattern(s[0]) then Scan(s[1..])
    else if |s| > 1 && s[1] == '.' then [Cell(s[0], true)] + Scan(s[2..])
    else [Cell(s[0], false)] + Scan(s[1..])
  }

  /** The positions, from `from` on, of the characters of `s` the scanner turns into cells, in increasing order. */
  function PatternPositions(s: string, from: nat): (ps: seq<nat>)
    ensures forall k :: 0 <= k < |ps| ==> from <= ps[k] < |s| && InPattern(s[ps[k]])
    ensures forall k, m :: 0 <= k < m < |ps| ==> ps[k] < ps[m]
    ensures forall i :: from <= i < |s| && InPattern(s[i]) ==> i in ps
    decreases |s| - from
  {
    if from >= |s| then []
    else (if InPattern(s[from]) then [from] else []) + PatternPositions(s, from + 1)
  }

  /** The cell the pattern character at position `p` yields: its glyph, dotted when a '.' follows it. */
  function CellAt(s: string, p: nat): Cell
    requires p < |s|
  {
    Cell(s[p], p + 1 < |s| && s[p + 1] == '.')
  }

  /** Cell k of `cells` is the cell the pattern character at position `ps[k]` of `s` yields. */
  predicate CellsAt(s: string, cells: seq<Cell>, ps: seq<nat>) {
    |cells| == |ps| && forall k :: 0 <= k < |ps| ==> ps[k] < |s| && cells[k] == CellAt(s, ps[k])
  }

  lemma CellsAtCons(s: string, p: nat, cells: seq<Cell>, ps: seq<nat>)
    requires p < |s| && CellsAt(s, cells, ps)
    ensures CellsAt(s, [CellAt(s, p)] + cells, [p] + ps)
  {
    var cells', ps' := [CellAt(s, p)] + cells, [p] + ps;
    forall k | 0 <= k < |ps'|
      ensures ps'[k] < |s| && cells'[k] == CellAt(s, ps'[k])
    {
      if k > 0 {
        assert cells'[k] == cells[k - 1] && ps'[k] == ps[k - 1];
      }
    }
  }

  lemma {:induction false} ScanFrom(s: string, from: nat)
    requires from <= |s|
    ensures CellsAt(s, Scan(s[from..]), PatternPositions(s, from))
    decreases |s| - from
  {
    if from < |s| {
      var t := s[from..];
      assert t[0] == s[from];
      if !InPattern(s[from]) {
        assert t[1..] == s[from + 1..];
        ScanFrom(s, from + 1);
      } else if from + 1 < |s| && s[from + 1] == '.' {
        assert t[1] == '.' && t[2..] == s[from + 2..];
        assert PatternPositions(s, from + 1) == PatternPositions(s, from + 2);
        ScanFrom(s, from + 2);
        CellsAtCons(s, from, Scan(s[from + 2..]), PatternPositions(s, from + 2));
      } else {
        assert t[1..] == s[from + 1..];
        ScanFrom(s, from + 1);
        CellsAtCons(s, from, Scan(s[from + 1..]), PatternPositions(s, from + 1));
      }
    }
  }

  /**
   * The k-th cell of the scan comes from the k-th character of the text
   * that the class `[-_=A-F0-9 #]` accepts: it carries that character as its
   * glyph and a dot exactly when a '.' follows it.
   */
  lemma ScanCells(s: string)
    ensures |Scan(s)| == |PatternPositions(s, 0)|
    ensures forall k :: 0 <= k < |Scan(s)| ==> Scan(s)[k] == CellAt(s, PatternPositions(s, 0)[k])
  {
    assert s[0..] == s;
    ScanFrom(s, 0);
  }

  /** Writes cells back as text, a '.' after each cell that carries one. */
  function Render(cells: seq<Cell>): string
    decreases |cells|
  {
    if cells == [] then "" else [cells[0].glyph] + (if cells[0].dot then "." else "") + Render(cells[1..])
  }

  /** Scanning one rendered cell in front of text that does not start with '.' yields that cell first. */
  lemma ScanCell(c: Cell, tail: string)
    requires InPattern(c.glyph)
    requires tail != [] ==> tail[0] != '.'
    ensures Scan([c.glyph] + (if c.dot then "." else "") + tail) == [c] + Scan(tail)
  {
    var s := [c.glyph] + (if c.dot then "." else "") + tail;
    if c.dot {
      assert s[2..] == tail;
    } else {
      assert s[1..] == tail;
    }
  }

  lemma {:induction false} ScanInvertsRender(cells: seq<Cell>)
    requires forall i :: 0 <= i < |cells| ==> InPattern(cells[i].glyph)
    ensures Scan(Render(cells)) == cells
    decreases |cells|
  {
    if cells != [] {
      ScanInvertsRender(cells[1..]);
      ScanCell(cells[0], Render(cells[1..]));
    }
  }

  /**
   * The table holds exactly the glyphs of `Glyphs`, and the scanner accepts
   * exactly those plus '#', the one glyph it passes on that the table lacks.
   */
  lemma TableAndPattern(c: char)
    ensures SegmentCode(c).Some? <==> c in Glyphs
    ensures InPattern(c) <==> c in Glyphs || c == '#'
  {
  }

  datatype Pin = Segment(index: nat) | Select(digit: nat)

  /** One GPIO output issued by the driver: a pin driven on or off. */
  datatype Write = Write(pin: Pin, on: bool)

  predicate IsDisplayPin(p: Pin) {
    match p
    case Segment(i) => i < 8
    case Select(k) => k < 4
  }

  /** The order in which the driver sets the pins up: segments, then digit selects. */
  const PinOrder: seq<Pin> := seq(8, i requires 0 <= i => Segment(i)) + seq(4, k requires 0 <= k => Select(k))

  /** A pin-state table holding exactly the display's twelve pins. */
  ghost predicate Known(stat: map<Pin, bool>) {
    forall p :: p in stat <==> IsDisplayPin(p)
  }

  /** The segment pins show pattern `n`. */
  predicate Shows(stat: map<Pin, bool>, n: bv8)
    requires Known(stat)
  {
    forall i: nat :: i < 8 ==> stat[Segment(i)] == Bit(n, i)
  }

  predicate AllSelectOff(stat: map<Pin, bool>) {
    forall k: nat :: k < 4 ==> Select(k) in stat && !stat[Select(k)]
  }

  /** The writes that switch off, in digit order, those of digits 0..n-1 that are on in `stat`. */
  function OffWrites(stat: map<Pin, bool>, n: nat): seq<Write>
    requires Known(stat) && n <= 4
  {
    if n == 0 then []
    else OffWrites(stat, n - 1) + (if stat[Select(n - 1)] then [Write(Select(n - 1), false)] else [])
  }

  /** Switching off from two states whose first `n` digits agree issues the same writes. */
  lemma {:induction false} OffWritesAgree(s: map<Pin, bool>, s': map<Pin, bool>, n: nat)
    requires Known(s) && Known(s') && n <= 4
    requires forall k: nat :: k < n ==> s[Select(k)] == s'[Select(k)]
    ensures OffWrites(s, n) == OffWrites(s', n)
  {
    if n > 0 {
      OffWritesAgree(s, s', n - 1);
    }
  }

  /** The writes of flush_bit's segment loop over segments 0..k-1: segment i, with bit i of `n`, when it differs. */
  function SegmentWrites(stat: map<Pin, bool>, n: bv8, k: nat): seq<Write>
    requires Known(stat) && k <= 8
  {
    if k == 0 then []
    else
      var w := if stat[Segment(k - 1)] != Bit(n, k - 1) then [Write(Segment(k - 1), Bit(n, k - 1))] else [];
      SegmentWrites(stat, n, k - 1) + w
  }

  lemma {:induction false} SegmentWritesEmpty(stat: map<Pin, bool>, n: bv8, k: nat)
    requires Known(stat) && k <= 8
    ensures SegmentWrites(stat, n, k) == [] <==> forall i: nat :: i < k ==> stat[Segment(i)] == Bit(n, i)
  {
    if k > 0 {
      SegmentWritesEmpty(stat, n, k - 1);
    }
  }

  /**
   * Every write flush_bit issues, in order. A glyph outside the table only
   * switches its digit off. Otherwise, if some segment differs from the
   * pattern, the lit digits are switched off and the differing segments are
   * written; then the digit is switched on unless it is on already.
   */
  function FlushWrites(stat: map<Pin, bool>, sel: nat, glyph: char, dot: bool): seq<Write>
    requires Known(stat) && sel < 4
  {
    match SegmentCode(glyph)
    case None => if stat[Select(sel)] then [Write(Select(sel), false)] else []
    case Some(code) =>
      var segments := SegmentWrites(stat, Encode(code, dot), 8);
      (if segments == [] then [] else OffWrites(stat, 4)) + segments +
      (if segments != [] || !stat[Select(sel)] then [Write(Select(sel), true)] else [])
  }

  /**
   * The writes of flush_bit's segment loop after segments 0..i-1, from `stat`:
   * the switch-off of the lit digits once some segment has changed (`j` false),
   * then the segment writes.
   */
  function LoopLog(stat: map<Pin, bool>, n: bv8, i: nat, j: bool): seq<Write>
    requires Known(stat) && i <= 8
  {
    (if j then [] else OffWrites(stat, 4)) + SegmentWrites(stat, n, i)
  }

  lemma LoopLogStep(stat: map<Pin, bool>, n: bv8, i: nat, j: bool)
    requires Known(stat) && i < 8
    requires j ==> SegmentWrites(stat, n, i) == []
    ensures stat[Segment(i)] == Bit(n, i) ==> LoopLog(stat, n, i + 1, j) == LoopLog(stat, n, i, j)
    ensures stat[Segment(i)] != Bit(n, i) ==>
      LoopLog(stat, n, i + 1, false) ==
        (if j then OffWrites(stat, 4) else LoopLog(stat, n, i, false)) + [Write(Segment(i), Bit(n, i))]
  {
  }

  /** The segment loop's log followed by the final switch-on of the digit is FlushWrites. */
  lemma FlushWritesOutcome(s0: map<Pin, bool>, s8: map<Pin, bool>, sel: nat, glyph: char, dot: bool, j: bool)
    requires Known(s0) && Known(s8) && sel < 4 && SegmentCode(glyph).Some?
    requires SegmentLoop(s0, s8, Encode(SegmentCode(glyph).value, dot), 8, j)
    ensures FlushWrites(s0, sel, glyph, dot) ==
      LoopLog(s0, Encode(SegmentCode(glyph).value, dot), 8, j) +
      (if !s8[Select(sel)] then [Write(Select(sel), true)] else [])
  {
    SegmentWritesEmpty(s0, Encode(SegmentCode(glyph).value, dot), 8);
  }

  /** `stat` with digits 0..n-1 switched off. */
  ghost function OffState(stat: map<Pin, bool>, n: nat): map<Pin, bool>
    requires Known(stat) && n <= 4
  {
    if n == 0 then stat else OffState(stat, n - 1)[Select(n - 1) := false]
  }

  lemma {:induction false} OffStateFacts(stat: map<Pin, bool>, n: nat)
    requires Known(stat) && n <= 4
    ensures Known(OffState(stat, n))
    ensures forall i: nat :: i < 8 ==> OffState(stat, n)[Segment(i)] == stat[Segment(i)]
    ensures forall m: nat :: m < 4 ==> OffState(stat, n)[Select(m)] == (m >= n && stat[Select(m)])
  {
    if n > 0 {
      OffStateFacts(stat, n - 1);
    }
  }

  /** The pin states after the writes `ws`, starting from `stat`. */
  function Replay(stat: map<Pin, bool>, ws: seq<Write>): map<Pin, bool>
    decreases |ws|
  {
    if ws == [] then stat
    else Replay(stat, ws[..|ws| - 1])[ws[|ws| - 1].pin := ws[|ws| - 1].on]
  }

  /** Every write of `ws` changes the level of the pin it drives. */
  predicate OnlyChanges(stat: map<Pin, bool>, ws: seq<Write>)
    decreases |ws|
  {
    ws == [] ||
    (OnlyChanges(stat, ws[..|ws| - 1]) &&
     var before := Replay(stat, ws[..|ws| - 1]);
     ws[|ws| - 1].pin in before && before[ws[|ws| - 1].pin] != ws[|ws| - 1].on)
  }

  /** Every segment write of `ws` happens while all digits are switched off. */
  predicate DarkSegmentWrites(stat: map<Pin, bool>, ws: seq<Write>)
    decreases |ws|
  {
    ws == [] ||
    (DarkSegmentWrites(stat, ws[..|ws| - 1]) &&
     (ws[|ws| - 1].pin.Segment? ==> AllSelectOff(Replay(stat, ws[..|ws| - 1]))))
  }

  /** The writes `ws` take the pins from `stat` to `final`, each write a change, no segment write on a lit digit. */
  predicate Explains(stat: map<Pin, bool>, ws: seq<Write>, final: map<Pin, bool>) {
    Replay(stat, ws) == final && OnlyChanges(stat, ws) && DarkSegmentWrites(stat, ws)
  }

  /** The log grew from `w0` to `w1` by writes that explain the move from `s0` to `s1`. */
  predicate Logged(w0: seq<Write>, s0: map<Pin, bool>, w1: seq<Write>, s1: map<Pin, bool>) {
    |w0| <= |w1| && w1[..|w0|] == w0 && Explains(s0, w1[|w0|..], s1)
  }

  lemma {:induction false} ExplainsAppend(s0: map<Pin, bool>, a: seq<Write>, s1: map<Pin, bool>, b: seq<Write>, s2: map<Pin, bool>)
    requires Explains(s0, a, s1) && Explains(s1, b, s2)
    ensures Explains(s0, a + b, s2)
    decreases |b|
  {
    if b != [] {
      var b', w := b[..|b| - 1], b[|b| - 1];
      assert (a + b)[..|a + b| - 1] == a + b';
      ExplainsAppend(s0, a, s1, b', Replay(s1, b'));
    } else {
      assert a + b == a;
    }
  }

  lemma LoggedTrans(w0: seq<Write>, s0: map<Pin, bool>, w1: seq<Write>, s1: map<Pin, bool>, w2: seq<Write>, s2: map<Pin, bool>)
    requires Logged(w0, s0, w1, s1) && Logged(w1, s1, w2, s2)
    ensures Logged(w0, s0, w2, s2)
  {
    assert w2[|w0|..] == w1[|w0|..] + w2[|w1|..];
    ExplainsAppend(s0, w1[|w0|..], s1, w2[|w1|..], s2);
  }

  /** A set_pin call, which writes only a pin whose level changes, extends a log when it is no segment write on a lit digit. */
  lemma LoggedSetPin(w0: seq<Write>, s0: map<Pin, bool>, w1: seq<Write>, s1: map<Pin, bool>,
                     pin: Pin, v: bool, w2: seq<Write>, s2: map<Pin, bool>)
    requires Logged(w0, s0, w1, s1)
    requires pin in s1 && s2 == s1[pin := v]
    requires w2 == w1 + (if s1[pin] != v then [Write(pin, v)] else [])
    requires pin.Segment? && s1[pin] != v ==> AllSelectOff(s1)
    ensures Logged(w0, s0, w2, s2)
    ensures Known(s1) ==> Known(s2)
  {
    if s1[pin] != v {
      var ws := w2[|w0|..];
      assert ws[..|ws| - 1] == w1[|w0|..];
    } else {
      assert s2 == s1 && w2 == w1;
    }
  }

  /** A write that changes its pin, and is no segment write on a lit digit, explains its own update. */
  lemma ExplainsOne(s: map<Pin, bool>, w: Write)
    requires w.pin in s && s[w.pin] != w.on
    requires w.pin.Segment? ==> AllSelectOff(s)
    ensures Explains(s, [w], s[w.pin := w.on])
  {
    assert [w][..0] == [];
  }

  /** Two states of the display pins that agree on every pin are the same state. */
  lemma KnownEqual(a: map<Pin, bool>, b: map<Pin, bool>)
    requires Known(a) && Known(b)
    requires forall i: nat :: i < 8 ==> a[Segment(i)] == b[Segment(i)]
    requires forall k: nat :: k < 4 ==> a[Select(k)] == b[Select(k)]
    ensures a == b
  {
    forall p | p in a
      ensures a[p] == b[p]
    {
      match p
      case Segment(i) => assert a[Segment(i)] == b[Segment(i)];
      case Select(k) => assert a[Select(k)] == b[Select(k)];
    }
    assert a.Keys == b.Keys;
  }

  lemma {:induction false} OffWritesExplained(s: map<Pin, bool>, n: nat)
    requires Known(s) && n <= 4
    ensures Explains(s, OffWrites(s, n), OffState(s, n))
  {
    if n > 0 {
      OffWritesExplained(s, n - 1);
      OffStateFacts(s, n - 1);
      var p := OffState(s, n - 1);
      if s[Select(n - 1)] {
        ExplainsOne(p, Write(Select(n - 1), false));
        ExplainsAppend(s, OffWrites(s, n - 1), p, [Write(Select(n - 1), false)], OffState(s, n));
      } else {
        assert OffState(s, n) == p;
        assert OffWrites(s, n) == OffWrites(s, n - 1);
      }
    }
  }

  /** `stat` with segments 0..k-1 set to pattern `n`. */
  ghost function SegState(stat: map<Pin, bool>, n: bv8, k: nat): map<Pin, bool>
    requires k <= 8
  {
    if k == 0 then stat else SegState(stat, n, k - 1)[Segment(k - 1) := Bit(n, k - 1)]
  }

  lemma {:induction false} SegStateFacts(stat: map<Pin, bool>, n: bv8, k: nat)
    requires Known(stat) && k <= 8
    ensures Known(SegState(stat, n, k))
    ensures forall i: nat :: i < 8 ==> SegState(stat, n, k)[Segment(i)] == if i < k then Bit(n, i) else stat[Segment(i)]
    ensures forall m: nat :: m < 4 ==> SegState(stat, n, k)[Select(m)] == stat[Select(m)]
  {
    if k > 0 {
      SegStateFacts(stat, n, k - 1);
      var p, q := SegState(stat, n, k - 1), SegState(stat, n, k);
      assert q == p[Segment(k - 1) := Bit(n, k - 1)];
      forall i: nat | i < 8
        ensures q[Segment(i)] == if i < k then Bit(n, i) else stat[Segment(i)]
      {
        if i != k - 1 {
          assert q[Segment(i)] == p[Segment(i)];
        }
      }
    }
  }

  /** The segment writes worked out on `s0` draw the pattern on a dark state `t` with the same segments. */
  lemma {:induction false} SegmentWritesExplained(s0: map<Pin, bool>, t: map<Pin, bool>, n: bv8, k: nat)
    requires Known(s0) && Known(t) && AllSelectOff(t) && k <= 8
    requires forall i: nat :: i < 8 ==> t[Segment(i)] == s0[Segment(i)]
    ensures Explains(t, SegmentWrites(s0, n, k), SegState(t, n, k))
  {
    if k > 0 {
      SegmentWritesExplained(s0, t, n, k - 1);
      SegStateFacts(t, n, k - 1);
      var p := SegState(t, n, k - 1);
      if s0[Segment(k - 1)] != Bit(n, k - 1) {
        var w := Write(Segment(k - 1), Bit(n, k - 1));
        ExplainsOne(p, w);
        ExplainsAppend(t, SegmentWrites(s0, n, k - 1), p, [w], SegState(t, n, k));
      } else {
        assert SegState(t, n, k) == p;
        assert SegmentWrites(s0, n, k) == SegmentWrites(s0, n, k - 1);
      }
    }
  }

  /** With the pattern already on the segments, at most the digit's switch-on is written. */
  lemma KeptExplained(s0: map<Pin, bool>, s1: map<Pin, bool>, sel: nat, n: bv8)
    requires Known(s0) && Known(s1) && sel < 4 && Shows(s0, n) && Shows(s1, n) && s1[Select(sel)]
    requires forall k: nat :: k < 4 && k != sel ==> s1[Select(k)] == s0[Select(k)]
    ensures Explains(s0, if s0[Select(sel)] then [] else [Write(Select(sel), true)], s1)
  {
    KnownEqual(s1, s0[Select(sel) := true]);
    if !s0[Select(sel)] {
      ExplainsOne(s0, Write(Select(sel), true));
    }
  }

  /** A redraw: every lit digit off, the differing segments written, then the digit on. */
  lemma RedrawExplained(s0: map<Pin, bool>, s1: map<Pin, bool>, sel: nat, n: bv8)
    requires Known(s0) && Known(s1) && sel < 4 && Shows(s1, n) && s1[Select(sel)]
    requires forall k: nat :: k < 4 && k != sel ==> !s1[Select(k)]
    ensures Explains(s0, OffWrites(s0, 4) + SegmentWrites(s0, n, 8) + [Write(Select(sel), true)], s1)
  {
    var off := OffState(s0, 4);
    OffStateFacts(s0, 4);
    OffWritesExplained(s0, 4);
    SegmentWritesExplained(s0, off, n, 8);
    var drawn := SegState(off, n, 8);
    SegStateFacts(off, n, 8);
    ExplainsAppend(s0, OffWrites(s0, 4), off, SegmentWrites(s0, n, 8), drawn);
    ExplainsOne(drawn, Write(Select(sel), true));
    ExplainsAppend(s0, OffWrites(s0, 4) + SegmentWrites(s0, n, 8), drawn, [Write(Select(sel), true)], drawn[Select(sel) := true]);
    KnownEqual(s1, drawn[Select(sel) := true]);
  }

  /**
   * The writes flush_bit issues explain its effect: replayed on the pins
   * before, they give the pins after; each changes its pin; and no segment
   * is written while a digit is lit.
   */
  lemma FlushWritesExplained(s0: map<Pin, bool>, s1: map<Pin, bool>, sel: nat, glyph: char, dot: bool)
    requires Known(s0) && sel < 4 && FlushedBit(s0, s1, sel, glyph, dot)
    ensures Explains(s0, FlushWrites(s0, sel, glyph, dot), s1)
  {
    match SegmentCode(glyph)
    case None =>
      if s0[Select(sel)] {
        ExplainsOne(s0, Write(Select(sel), false));
      } else {
        assert s1 == s0;
      }
    case Some(code) =>
      var n := Encode(code, dot);
      SegmentWritesEmpty(s0, n, 8);
      if SegmentWrites(s0, n, 8) == [] {
        KeptExplained(s0, s1, sel, n);
      } else {
        RedrawExplained(s0, s1, sel, n);
      }
  }

  /** What flush_bit does to the pins, stated on their states before (`s0`) and after (`s1`). */
  ghost predicate FlushedBit(s0: map<Pin, bool>, s1: map<Pin, bool>, sel: nat, glyph: char, dot: bool)
    requires Known(s0) && sel < 4
  {
    Known(s1) &&
    match SegmentCode(glyph)
    case None => s1 == s0[Select(sel) := false]
    case Some(code) =>
      var n := Encode(code, dot);
      Shows(s1, n) && s1[Select(sel)] &&
      forall k: nat :: k < 4 && k != sel ==> s1[Select(k)] == (Shows(s0, n) && s0[Select(k)])
  }

  /** What flush_bit's segment loop keeps true after its first `i` segments, `j` telling that none has changed yet. */
  ghost predicate SegmentLoop(s0: map<Pin, bool>, s: map<Pin, bool>, n: bv8, i: nat, j: bool)
    requires Known(s0) && Known(s) && i <= 8
  {
    && (forall k: nat :: k < i ==> s[Segment(k)] == Bit(n, k))
    && (forall k: nat :: i <= k < 8 ==> s[Segment(k)] == s0[Segment(k)])
    && (j <==> forall k: nat :: k < i ==> s0[Segment(k)] == Bit(n, k))
    && (j ==> forall k: nat :: k < 4 ==> s[Select(k)] == s0[Select(k)])
    && (!j ==> AllSelectOff(s))
  }

  /** One turn of the segment loop: segment `i` either already shows its bit, or is set with every digit off. */
  lemma SegmentStep(s0: map<Pin, bool>, s: map<Pin, bool>, s': map<Pin, bool>, n: bv8, i: nat, j: bool, j': bool)
    requires Known(s0) && Known(s) && Known(s') && i < 8
    requires SegmentLoop(s0, s, n, i, j)
    requires s[Segment(i)] == Bit(n, i) ==> s' == s && j' == j
    requires s[Segment(i)] != Bit(n, i) ==>
      && !j' && AllSelectOff(s') && s'[Segment(i)] == Bit(n, i)
      && forall k: nat :: k < 8 && k != i ==> s'[Segment(k)] == s[Segment(k)]
    ensures SegmentLoop(s0, s', n, i + 1, j')
  {
  }

  /** The pin states at the end of flush_bit's segment loop give the effect FlushedBit states. */
  lemma FlushBitOutcome(s0: map<Pin, bool>, s8: map<Pin, bool>, s1: map<Pin, bool>,
                        sel: nat, glyph: char, dot: bool, j: bool)
    requires Known(s0) && Known(s8) && sel < 4 && SegmentCode(glyph).Some?
    requires SegmentLoop(s0, s8, Encode(SegmentCode(glyph).value, dot), 8, j)
    requires s1 == s8[Select(sel) := true]
    ensures FlushedBit(s0, s1, sel, glyph, dot)
  {
    assert Known(s1);
  }

  /** The number of cells one multiplexing turn flushes: at most four. */
  function FlushCount(cells: seq<Cell>): nat {
    if |cells| < 4 then |cells| else 4
  }

  /** The last cell a turn flushes, if it is in the table, is lit on its digit and drawn on the segments. */
  predicate LastLit(stat: map<Pin, bool>, cells: seq<Cell>)
    requires Known(stat)
  {
    var last := FlushCount(cells) - 1;
    0 <= last && SegmentCode(cells[last].glyph).Some? ==>
      stat[Select(last)] && Shows(stat, Encode(SegmentCode(cells[last].glyph).value, cells[last].dot))
  }

  /**
   * One flush_bit call of cell `c` on digit `sel` took the pins from `s0` to
   * `s1` and the log from `w0` to `w1`: the effect is FlushedBit's, the
   * writes are exactly FlushWrites, and they explain the move.
   */
  ghost predicate FlushStep(s0: map<Pin, bool>, w0: seq<Write>, s1: map<Pin, bool>, w1: seq<Write>, sel: nat, c: Cell)
    requires sel < 4
  {
    && Known(s0)
    && FlushedBit(s0, s1, sel, c.glyph, c.dot)
    && w1 == w0 + FlushWrites(s0, sel, c.glyph, c.dot)
    && Logged(w0, s0, w1, s1)
  }

  /** `states` and `logs` are the pins and the log before and after each of the first `n` flushes of a turn over `cells`. */
  ghost predicate FlushedUpTo(states: seq<map<Pin, bool>>, logs: seq<seq<Write>>, cells: seq<Cell>, n: nat) {
    n <= FlushCount(cells) && |states| == n + 1 && |logs| == n + 1 &&
    forall i :: 0 <= i < n ==> FlushStep(states[i], logs[i], states[i + 1], logs[i + 1], i, cells[i])
  }

  /**
   * `states` and `logs` are the pins and the log before and after each flush
   * of one turn: cell i was drawn on digit i, in turn, by the writes
   * flush_bit issues for it.
   */
  ghost predicate FlushedInTurn(states: seq<map<Pin, bool>>, logs: seq<seq<Write>>, cells: seq<Cell>) {
    FlushedUpTo(states, logs, cells, FlushCount(cells))
  }

  lemma FlushedUpToNext(states: seq<map<Pin, bool>>, logs: seq<seq<Write>>, cells: seq<Cell>, n: nat,
                        s: map<Pin, bool>, w: seq<Write>)
    requires FlushedUpTo(states, logs, cells, n) && n < FlushCount(cells)
    requires FlushStep(states[n], logs[n], s, w, n, cells[n])
    ensures FlushedUpTo(states + [s], logs + [w], cells, n + 1)
  {
    var states', logs' := states + [s], logs + [w];
    forall i | 0 <= i < n + 1
      ensures FlushStep(states'[i], logs'[i], states'[i + 1], logs'[i + 1], i, cells[i])
    {
      assert states'[i] == states[i] && logs'[i] == logs[i];
      assert i < n ==> states'[i + 1] == states[i + 1] && logs'[i + 1] == logs[i + 1];
    }
  }

  /** Every lit digit shows, on the shared segment lines, the pattern of its own cell. */
  predicate Consistent(stat: map<Pin, bool>, cells: seq<Cell>)
    requires Known(stat)
  {
    forall k: nat :: k < 4 && stat[Select(k)] ==>
      k < |cells| && SegmentCode(cells[k].glyph).Some? &&
      Shows(stat, Encode(SegmentCode(cells[k].glyph).value, cells[k].dot))
  }

  /** Flushing cell `sel` of `cells` keeps every lit digit showing its own cell. */
  lemma FlushBitKeepsConsistent(s0: map<Pin, bool>, s1: map<Pin, bool>, sel: nat, cells: seq<Cell>)
    requires Known(s0) && sel < 4 && sel < |cells|
    requires FlushedBit(s0, s1, sel, cells[sel].glyph, cells[sel].dot)
    requires Consistent(s0, cells)
    ensures Consistent(s1, cells)
  {
    match SegmentCode(cells[sel].glyph)
    case None =>
      forall k: nat | k < 4 && s1[Select(k)]
        ensures k < |cells| && SegmentCode(cells[k].glyph).Some?
        ensures Shows(s1, Encode(SegmentCode(cells[k].glyph).value, cells[k].dot))
      {
        assert s0[Select(k)];
      }
    case Some(code) =>
      var n := Encode(code, cells[sel].dot);
      forall k: nat | k < 4 && s1[Select(k)]
        ensures k < |cells| && SegmentCode(cells[k].glyph).Some?
        ensures Shows(s1, Encode(SegmentCode(cells[k].glyph).value, cells[k].dot))
      {
        if k != sel {
          assert Shows(s0, n) && s0[Select(k)];
          var m := Encode(SegmentCode(cells[k].glyph).value, cells[k].dot);
          assert forall i: nat :: i < 8 ==> s1[Segment(i)] == s0[Segment(i)];
          assert Shows(s0, m);
        }
      }
  }

  class DigitalDisplay {
    var pinStat: map<Pin, bool>
    /** The shared text, overwritten by show(). */
    var numbers: string
    /** The multiplexing task's copy of the text it last parsed, and its cells. */
    var shown: string
    var digits: seq<Cell>
    /** Every GPIO output the driver has issued, in order. */
    var writes: seq<Write>

    ghost predicate Valid()
      reads this
    {
      Known(pinStat) && digits == Scan(shown)
    }

    /** Sets every pin up and drives it off; the multiplexing task starts with an empty text. */
    constructor ()
      ensures Valid() && numbers == "" && shown == ""
      ensures forall p :: IsDisplayPin(p) ==> !pinStat[p]
      ensures writes == seq(|PinOrder|, i requires 0 <= i < |PinOrder| => Write(PinOrder[i], false))
    {
      pinStat, writes := map[], [];
      numbers, shown, digits := "", "", [];
      new;
      for i := 0 to |PinOrder|
        invariant forall p :: p in pinStat <==> p in PinOrder[..i]
        invariant forall p :: p in pinStat ==> !pinStat[p]
        invariant |writes| == i
        invariant forall k :: 0 <= k < i ==> writes[k] == Write(PinOrder[k], false)
        invariant numbers == "" && shown == "" && digits == []
      {
        var p := PinOrder[i];
        assert PinOrder[..i + 1] == PinOrder[..i] + [p];
        pinStat := pinStat[p := true];
        SetPin(p, false);
      }
      assert PinOrder[..|PinOrder|] == PinOrder;
      forall p | IsDisplayPin(p) ensures p in PinOrder {
        match p
        case Segment(i) => assert PinOrder[i] == p;
        case Select(k) => assert PinOrder[8 + k] == p;
      }
    }

    /** show(): the next multiplexing pass picks the new text up. */
    method Show(s: string)
      modifies this`numbers
      ensures numbers == s
    {
      numbers := s;
    }

    /** set_pin: records and outputs a pin's level only when it differs from the recorded one. */
    method SetPin(pin: Pin, v: bool)
      requires pin in pinStat
      modifies this`pinStat, this`writes
      ensures pinStat == old(pinStat)[pin := v]
      ensures writes == old(writes) + (if old(pinStat)[pin] != v then [Write(pin, v)] else [])
    {
      if v != pinStat[pin] {
        pinStat := pinStat[pin := v];
        writes := writes + [Write(pin, v)];
      }
    }

    /** Switches every digit off, writing only the select pins that are on. */
    method AllDigitsOff()
      requires Known(pinStat)
      modifies this`pinStat, this`writes
      ensures Known(pinStat) && AllSelectOff(pinStat)
      ensures forall i: nat :: i < 8 ==> pinStat[Segment(i)] == old(pinStat)[Segment(i)]
      ensures writes == old(writes) + OffWrites(old(pinStat), 4)
      ensures Logged(old(writes), old(pinStat), writes, pinStat)
    {
      for k := 0 to 4
        invariant pinStat == OffState(old(pinStat), k)
        invariant writes == old(writes) + OffWrites(old(pinStat), k)
        invariant Logged(old(writes), old(pinStat), writes, pinStat)
      {
        OffStateFacts(old(pinStat), k);
        ghost var w1, s1 := writes, pinStat;
        SetPin(Select(k), false);
        LoggedSetPin(old(writes), old(pinStat), w1, s1, Select(k), false, writes, pinStat);
      }
      OffStateFacts(old(pinStat), 4);
    }

      /**
     * One turn of flush_bit's segment loop: sets segment `i` to bit `i` of
     * `n`, switching every digit off first when it is the first segment of
     * the pass (`j`) that changes.
     */
    method DrawSegment(n: bv8, i: nat, j: bool, ghost s0: map<Pin, bool>) returns (j': bool)
      requires Known(s0) && Known(pinStat) && i < 8 && SegmentLoop(s0, pinStat, n, i, j)
      modifies this`pinStat, this`writes
      ensures Known(pinStat) && SegmentLoop(s0, pinStat, n, i + 1, j')
      ensures writes == old(writes) +
        if s0[Segment(i)] == Bit(n, i) then []
        else (if j then OffWrites(s0, 4) else []) + [Write(Segment(i), Bit(n, i))]
    {
      j' := j;
      var v := Bit(n, i);
      if v != pinStat[Segment(i)] {
        if j {
          OffWritesAgree(s0, pinStat, 4);
          AllDigitsOff();
          j' := false;
        }
        SetPin(Segment(i), v);
      }
      SegmentStep(s0, old(pinStat), pinStat, n, i, j, j');
    }

    /** flush_bit's segment loop: draws pattern `n` on the segments; `j` tells whether no segment changed. */
    method DrawSegments(n: bv8) returns (j: bool)
      requires Known(pinStat)
      modifies this`pinStat, this`writes
      ensures Known(pinStat) && SegmentLoop(old(pinStat), pinStat, n, 8, j)
      ensures writes == old(writes) + LoopLog(old(pinStat), n, 8, j)
    {
      j := true;
      for i := 0 to 8
        invariant Known(pinStat) && SegmentLoop(old(pinStat), pinStat, n, i, j)
        invariant writes == old(writes) + LoopLog(old(pinStat), n, i, j)
      {
        SegmentWritesEmpty(old(pinStat), n, i);
        LoopLogStep(old(pinStat), n, i, j);
        j := DrawSegment(n, i, j, old(pinStat));
      }
    }

    /**
     * flush_bit: draws one cell on digit `sel`. A glyph outside the table
     * only switches that digit off; otherwise the segments take the cell's
     * pattern, every digit being switched off before the first segment that
     * changes, and the digit is switched on.
     */
    method FlushBit(sel: nat, glyph: char, dot: bool)
      requires Known(pinStat) && sel < 4
      modifies this`pinStat, this`writes
      ensures Known(pinStat)
      ensures writes == old(writes) + FlushWrites(old(pinStat), sel, glyph, dot)
      ensures Logged(old(writes), old(pinStat), writes, pinStat)
      ensures FlushedBit(old(pinStat), pinStat, sel, glyph, dot)
    {
      if SegmentCode(glyph).None? {
        SetPin(Select(sel), false);
      } else {
        var n := Encode(SegmentCode(glyph).value, dot);
        var j := DrawSegments(n);
        FlushWritesOutcome(old(pinStat), pinStat, sel, glyph, dot, j);
        ghost var s8 := pinStat;
        SetPin(Select(sel), true);
        FlushBitOutcome(old(pinStat), s8, pinStat, sel, glyph, dot, j);
      }
      FlushWritesExplained(old(pinStat), pinStat, sel, glyph, dot);
      assert writes[..|old(writes)|] == old(writes);
      assert writes[|old(writes)|..] == FlushWrites(old(pinStat), sel, glyph, dot);
    }

    /** flush_4bit's inner loop: flushes the first FlushCount(digits) cells onto digits 0, 1, ... in turn. */
    method FlushCells() returns (ghost states: seq<map<Pin, bool>>, ghost logs: seq<seq<Write>>)
      requires Known(pinStat) && digits != []
      modifies this`pinStat, this`writes
      ensures FlushedInTurn(states, logs, digits)
      ensures states[0] == old(pinStat) && states[|states| - 1] == pinStat
      ensures logs[0] == old(writes) && logs[|logs| - 1] == writes
      ensures Known(pinStat)
      ensures Logged(old(writes), old(pinStat), writes, pinStat)
      ensures LastLit(pinStat, digits)
      ensures Consistent(old(pinStat), digits) ==> Consistent(pinStat, digits)
    {
      states, logs := [pinStat], [writes];
      for i := 0 to FlushCount(digits)
        invariant FlushedUpTo(states, logs, digits, i)
        invariant states[0] == old(pinStat) && states[i] == pinStat
        invariant logs[0] == old(writes) && logs[i] == writes
        invariant Known(pinStat)
        invariant Logged(old(writes), old(pinStat), writes, pinStat)
        invariant Consistent(old(pinStat), digits) ==> Consistent(pinStat, digits)
        invariant 0 < i && SegmentCode(digits[i - 1].glyph).Some? ==>
          pinStat[Select(i - 1)] && Shows(pinStat, Encode(SegmentCode(digits[i - 1].glyph).value, digits[i - 1].dot))
      {
        ghost var w0, s0 := writes, pinStat;
        FlushBit(i, digits[i].glyph, digits[i].dot);
        LoggedTrans(old(writes), old(pinStat), w0, s0, writes, pinStat);
        if Consistent(old(pinStat), digits) {
          FlushBitKeepsConsistent(s0, pinStat, i, digits);
        }
        FlushedUpToNext(states, logs, digits, i, pinStat, writes);
        states, logs := states + [pinStat], logs + [writes];
      }
    }

    /**
     * One turn of flush_4bit's loop: re-scans the shared text when it has
     * changed, then flushes its first four cells onto digits 0..3 in turn, or,
     * when the text has no cell, switches every digit off.
     */
    method FlushPass() returns (ghost states: seq<map<Pin, bool>>, ghost logs: seq<seq<Write>>)
      requires Valid()
      modifies this`pinStat, this`writes, this`shown, this`digits
      ensures Valid() && shown == numbers
      ensures digits != [] ==>
        && FlushedInTurn(states, logs, digits)
        && states[0] == old(pinStat) && states[|states| - 1] == pinStat
        && logs[0] == old(writes) && logs[|logs| - 1] == writes
      ensures Logged(old(writes), old(pinStat), writes, pinStat)
      ensures digits == [] ==> AllSelectOff(pinStat) && writes == old(writes) + OffWrites(old(pinStat), 4)
      ensures digits == [] ==> forall i: nat :: i < 8 ==> pinStat[Segment(i)] == old(pinStat)[Segment(i)]
      ensures LastLit(pinStat, digits)
      ensures Consistent(old(pinStat), digits) ==> Consistent(pinStat, digits)
    {
      if numbers != shown {
        shown := numbers;
        digits := Scan(numbers);
      }
      if digits != [] {
        states, logs := FlushCells();
      } else {
        states, logs := [], [];
        AllDigitsOff();
      }
    }
  }
}
