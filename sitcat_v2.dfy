/**
 * The second-generation monitor. It differs from the first in its distance
 * read (retried until it is at least 8 cm), in the `far_away` counter that
 * blanks the display during a long absence, in resetting the streak to -1 on
 * an away sample, in resetting a relax timer that lags an hour or more, in
 * its mode-0 texts and in the five extra buzzes when the beeper is turned on.
 */
module SitCatV2 {
  import opened Wrappers
  import opened Format
  import opened Posture
  import opened Stats
  import opened Persist
  import opened Keys
  import opened Arithmetic
  import Display

  /** get_distance() retries every reading below 8 cm. */
  const MinReading: int := 8

  /** A relax timer lagging the clock by an hour or more is reset to the clock. */
  const ResetLag: int := 36000

  /** More than 120 away ticks in a row (decayed by at-desk ones) blank the display. */
  const BlankAfter: int := 120

  /** Some reading of the sensor is at least 8 cm, so get_distance() returns. */
  predicate Settles(sensor: seq<int>) {
    exists k :: 0 <= k < |sensor| && sensor[k] >= MinReading
  }

  lemma SettlesTail(sensor: seq<int>)
    requires Settles(sensor) && sensor[0] < MinReading
    ensures Settles(sensor[1..])
  {
    var k :| 0 <= k < |sensor| && sensor[k] >= MinReading;
    assert sensor[1..][k - 1] == sensor[k];
  }

  /** The position of the first reading of at least 8 cm. */
  function FirstSettledIndex(sensor: seq<int>): (k: nat)
    requires Settles(sensor)
    ensures k < |sensor| && sensor[k] >= MinReading
    ensures forall j :: 0 <= j < k ==> sensor[j] < MinReading
    decreases |sensor|
  {
    if sensor[0] >= MinReading then 0
    else
      SettlesTail(sensor);
      1 + FirstSettledIndex(sensor[1..])
  }

  /** The first reading of at least 8 cm: what get_distance() returns. */
  function FirstSettled(sensor: seq<int>): int
    requires Settles(sensor)
  {
    sensor[FirstSettledIndex(sensor)]
  }

  /** get_distance() over the readings `sensor` yields: the first one of at least 8 cm, after `used` readings. */
  method GetDistance(sensor: seq<int>) returns (d: int, used: nat)
    requires Settles(sensor)
    ensures d == FirstSettled(sensor) && used == FirstSettledIndex(sensor) + 1
    ensures 1 <= used <= |sensor| && d == sensor[used - 1]
    ensures d >= MinReading
    ensures forall k :: 0 <= k < used - 1 ==> sensor[k] < MinReading
  {
    d, used := 0, 0;
    while d < MinReading
      invariant used <= |sensor|
      invariant used == 0 ==> d == 0
      invariant used > 0 ==> d == sensor[used - 1]
      invariant forall k :: 0 <= k < used - 1 ==> sensor[k] < MinReading
      invariant d < MinReading ==> forall k :: 0 <= k < used ==> sensor[k] < MinReading
      decreases |sensor| - used
    {
      d := sensor[used];
      used := used + 1;
    }
  }

  /** The streak after a sample: reset to 0 by a compliant one, grown by a too-close one, set to -1 by an away one. */
  function NextStreak(h: int, s: Sample): int {
    match s
    case Compliant => 0
    case TooClose => h + 1
    case Away => -1
  }

  function Streak(h0: int, ss: seq<Sample>): int
    decreases |ss|
  {
    if ss == [] then h0 else NextStreak(Streak(h0, ss[..|ss| - 1]), ss[|ss| - 1])
  }

  /**
   * A run of too-close samples starting at `k` counts up from 0 after a
   * compliant sample and from -1 after an away one. So with the beeper on, the
   * second too-close sample after a compliant one buzzes, but only the third
   * after an away one.
   */
  lemma {:induction false} StreakAfterBreak(h0: int, ss: seq<Sample>, k: nat)
    requires k <= |ss|
    requires k > 0 ==> ss[k - 1] != TooClose
    requires forall i :: k <= i < |ss| ==> ss[i] == TooClose
    ensures Streak(h0, ss) == (if k == 0 then h0 else if ss[k - 1] == Away then -1 else 0) + (|ss| - k)
    ensures 0 < k < |ss| ==>
      (Buzzes(true, Streak(h0, ss), ss[|ss| - 1]) <==> |ss| - k >= if ss[k - 1] == Away then 3 else 2)
    decreases |ss|
  {
    if k < |ss| {
      StreakAfterBreak(h0, ss[..|ss| - 1], k);
    }
  }

  /** `far_away`: one more for an away sample, divided by ten (floor) for an at-desk one. */
  function FarAwayAfter(f: nat, s: Sample): nat {
    if s == Away then f + 1 else f / 10
  }

  function FarAwayRun(f: nat, ss: seq<Sample>): nat
    decreases |ss|
  {
    if ss == [] then f else FarAwayAfter(FarAwayRun(f, ss[..|ss| - 1]), ss[|ss| - 1])
  }

  /**
   * Away samples count up one by one; each at-desk sample divides the count
   * by ten. So from 0 the display blanks on the 121st away tick in a row, and
   * after an absence of `f` ticks it takes as many at-desk ticks as it takes
   * for `f` divided by that power of ten to reach 120.
   */
  lemma {:induction false} FarAwayCounts(f: nat, ss: seq<Sample>)
    ensures (forall i :: 0 <= i < |ss| ==> ss[i] == Away) ==> FarAwayRun(f, ss) == f + |ss|
    ensures (forall i :: 0 <= i < |ss| ==> ss[i] != Away) ==> FarAwayRun(f, ss) == f / Power10(|ss|)
    decreases |ss|
  {
    if ss != [] {
      var init := ss[..|ss| - 1];
      FarAwayCounts(f, init);
      if forall i :: 0 <= i < |ss| ==> ss[i] != Away {
        assert forall i :: 0 <= i < |init| ==> init[i] != Away;
        DivTen(f, Power10(|init|));
      }
      if forall i :: 0 <= i < |ss| ==> ss[i] == Away {
        assert forall i :: 0 <= i < |init| ==> init[i] == Away;
      }
    }
  }

  /**
   * An away sample earns 2.5 s of relax credit; a timer that would then pass
   * the clock or lag it by an hour or more is reset to the clock.
   */
  function RelaxAfter(relax: int, t: int, s: Sample): (r: int)
    ensures s != Away ==> r == relax
    ensures s == Away ==> r <= t && t - r < ResetLag && (r == t || r == relax + RelaxCredit)
    ensures s == Away && relax + RelaxCredit <= t && t - (relax + RelaxCredit) < ResetLag ==> r == relax + RelaxCredit
    ensures s == Away && (relax + RelaxCredit > t || t - (relax + RelaxCredit) >= ResetLag) ==> r == t
  {
    if s == Away then
      var r := relax + RelaxCredit;
      if r > t || t - r >= ResetLag then t else r
    else relax
  }

  /** Mode 0's text: '%4d' of the deviation in a streak longer than one, a right-hand dot after an away sample, else a left-hand dot. */
  function DeviationText(h: int, d: int, safeDist: int): string {
    if h > 1 then FormatWidth(d - safeDist, 4) else if h < 0 then "    ." else " .   "
  }

  /**
   * The deviation text reads back as the deviation; the two idle texts light
   * all four digits blank, with the dot on the rightmost after an away sample
   * and on the leftmost otherwise.
   */
  lemma DeviationTextMeaning(h: int, d: int, safeDist: int)
    ensures h > 1 ==> ParseInt(TrimLeft(DeviationText(h, d, safeDist))) == d - safeDist
    ensures h < 0 ==>
      Display.Scan(DeviationText(h, d, safeDist)) ==
        [Display.Cell(' ', false), Display.Cell(' ', false), Display.Cell(' ', false), Display.Cell(' ', true)]
    ensures 0 <= h <= 1 ==>
      Display.Scan(DeviationText(h, d, safeDist)) ==
        [Display.Cell(' ', true), Display.Cell(' ', false), Display.Cell(' ', false), Display.Cell(' ', false)]
  {
    if h > 1 {
      FormatWidthInverts(d - safeDist, 4);
    } else if h < 0 {
      IdleTexts();
      assert DeviationText(h, d, safeDist) == "    .";
    } else {
      IdleTexts();
      assert DeviationText(h, d, safeDist) == " .   ";
    }
  }

  lemma IdleTexts()
    ensures Display.Scan("    .") ==
      [Display.Cell(' ', false), Display.Cell(' ', false), Display.Cell(' ', false), Display.Cell(' ', true)]
    ensures Display.Scan(" .   ") ==
      [Display.Cell(' ', true), Display.Cell(' ', false), Display.Cell(' ', false), Display.Cell(' ', false)]
  {
    assert Display.Scan(" .") == [Display.Cell(' ', true)] + Display.Scan("");
    assert Display.Scan("  .") == [Display.Cell(' ', false)] + Display.Scan(" .");
    assert Display.Scan("   .") == [Display.Cell(' ', false)] + Display.Scan("  .");
    assert Display.Scan("    .") == [Display.Cell(' ', false)] + Display.Scan("   .");
    assert Display.Scan(" ") == [Display.Cell(' ', false)] + Display.Scan("");
    assert Display.Scan("  ") == [Display.Cell(' ', false)] + Display.Scan(" ");
    assert Display.Scan("   ") == [Display.Cell(' ', false)] + Display.Scan("  ");
    assert Display.Scan(" .   ") == [Display.Cell(' ', true)] + Display.Scan("   ");
  }

  /** The text one tick shows: blank during a long absence, otherwise by mode. */
  function TickText(mode: int, h: int, d: int, safeDist: int, showSafe: int, showDays: int, counts: Ring, farAway: nat): (s: string)
    ensures farAway > BlankAfter ==> s == "    "
  {
    if farAway > BlankAfter then "    "
    else if mode == 0 then DeviationText(h, d, safeDist)
    else if mode == 1 then DistanceText(showSafe, safeDist, d)
    else ScoreText(counts, showDays)
  }

  /** What run() carries from one event to the next: the globals and run()'s own locals. */
  datatype MonitorState = MonitorState(config: Settings, counts: Ring, showSafe: int, yday: int, relaxTime: int,
                                       farAway: nat, h: int)

  /**
   * What one event does: the next state, the tick output when it was a tick,
   * the buzzes a key press gives, and the record saved, if any.
   */
  datatype Stepped = Stepped(next: MonitorState, out: Option<TickOutput>, buzzes: nat, saved: Option<Record>)

  /** What happens between two ticks or as one; a tick and a left-key press carry the readings the sensor would give. */
  datatype Event =
    | Clock(t: int, today: int, sensor: seq<int>)
    | LeftPress(sensor: seq<int>, today: int)
    | RightPress(today: int)

  /** Every event that reads the sensor gets a reading of at least 8 cm, so get_distance() returns. */
  predicate AllSettle(events: seq<Event>) {
    forall i :: 0 <= i < |events| && !events[i].RightPress? ==> Settles(events[i].sensor)
  }

  /** One pass of run()'s loop at clock `t` on day `today`: new day, get_distance(), classification, text. */
  function TickStep(s: MonitorState, t: int, today: int, sensor: seq<int>): Stepped
    requires Settles(sensor)
  {
    var c := s.config;
    var d := FirstSettled(sensor);
    var rolled := s.yday != today;
    var start := if rolled then Rollover(s.counts) else s.counts;
    var sample := Classify(d, c.safeDist);
    var counts := Recorded(start, sample);
    var farAway := FarAwayAfter(s.farAway, sample);
    var h := NextStreak(s.h, sample);
    var relax := RelaxAfter(s.relaxTime, t, sample);
    var saved := if rolled then Some(Save(c, today, start)) else None;
    var text := TickText(c.mode, h, d, c.safeDist, s.showSafe, c.showDays, counts, farAway);
    var showSafe := if c.mode == 1 then CountDown(s.showSafe) else s.showSafe;
    Stepped(MonitorState(c, counts, showSafe, today, relax, farAway, h),
            Some(TickOutput(text, Buzzes(c.beep, h, sample), Flashing(t, relax), saved)), 0, saved)
  }

  /** on_left_key() by mode; in mode 2 a window outside the table changes nothing and saves nothing. */
  function LeftStep(s: MonitorState, sensor: seq<int>, today: int): Stepped
    requires s.config.mode == 1 ==> Settles(sensor)
  {
    var c := s.config;
    if c.mode == 0 then
      var c' := c.(beep := !c.beep);
      Stepped(s.(config := c'), None, if c'.beep then 6 else 1, Some(Save(c', today, s.counts)))
    else if c.mode == 1 then
      var c' := c.(safeDist := FirstSettled(sensor));
      Stepped(s.(config := c', showSafe := 3), None, 1, Some(Save(c', today, s.counts)))
    else
      match NextWindow(c.showDays)
      case None => Stepped(s, None, 1, None)
      case Some(w) =>
        var c' := c.(showDays := w);
        Stepped(s.(config := c'), None, 1, Some(Save(c', today, s.counts)))
  }

  /** on_right_key(): the next mode, the safe distance shown again, one buzz and a save. */
  function RightStep(s: MonitorState, today: int): Stepped {
    var c' := s.config.(mode := NextMode(s.config.mode));
    Stepped(s.(config := c', showSafe := 3), None, 1, Some(Save(c', today, s.counts)))
  }

  /**
   * The handler an event runs. Only a tick emits a display output and only
   * a tick touches the counters, the absence counter, the streak, the relax
   * timer and the day; only a key press changes the configuration and
   * buzzes for the key. Every record saved holds the new configuration and
   * the event's day, and every press saves except a left press in mode 2 on
   * a window outside the table. From a sane configuration and ring the
   * program stays sane, and so does each record it saves.
   */
  function Step(s: MonitorState, e: Event): (r: Stepped)
    requires e.Clock? || (e.LeftPress? && s.config.mode == 1) ==> Settles(e.sensor)
    ensures r.out.Some? <==> e.Clock?
    ensures e.Clock? ==> r.next.config == s.config && r.buzzes == 0 && r.saved == r.out.value.saved && r.next.yday == e.today
    ensures !e.Clock? ==>
      && r.next.counts == s.counts && r.next.yday == s.yday && r.next.farAway == s.farAway
      && r.next.h == s.h && r.next.relaxTime == s.relaxTime && r.buzzes >= 1
    ensures r.saved.Some? ==> r.saved.value.settings == r.next.config && r.saved.value.yday == e.today
    ensures !e.Clock? && r.saved.Some? ==> r.saved.value.counts == s.counts
    ensures e.RightPress? ==> r.saved.Some? && r.next.config.mode == NextMode(s.config.mode)
    ensures e.LeftPress? ==>
      (r.saved.None? <==> s.config.mode != 0 && s.config.mode != 1 && NextWindow(s.config.showDays).None?)
    ensures e.LeftPress? && s.config.mode == 1 ==> r.next.config.safeDist == FirstSettled(e.sensor) >= MinReading
    ensures Sane(s.config, s.counts) ==>
      Sane(r.next.config, r.next.counts) && (r.saved.Some? ==> Sane(r.saved.value.settings, r.saved.value.counts))
  {
    match e
    case Clock(t, today, sensor) => TickStep(s, t, today, sensor)
    case LeftPress(sensor, today) => LeftStep(s, sensor, today)
    case RightPress(today) => RightStep(s, today)
  }

  /** What the program did over a run of events: the final state, the tick outputs and the records saved, in order. */
  datatype Trace = Trace(final: MonitorState, outs: seq<TickOutput>, saves: seq<Record>)

  function Run(s: MonitorState, events: seq<Event>): Trace
    requires AllSettle(events)
    decreases |events|
  {
    if events == [] then Trace(s, [], [])
    else
      var before := Run(s, events[..|events| - 1]);
      var r := Step(before.final, events[|events| - 1]);
      Trace(r.next,
            before.outs + (if r.out.Some? then [r.out.value] else []),
            before.saves + (if r.saved.Some? then [r.saved.value] else []))
  }

  /** Run over one more event: Step from where the shorter run ended. */
  lemma RunNext(s: MonitorState, events: seq<Event>, i: nat)
    requires AllSettle(events) && i < |events|
    ensures AllSettle(events[..i]) && AllSettle(events[..i + 1])
    ensures var before := Run(s, events[..i]);
      var r := Step(before.final, events[i]);
      Run(s, events[..i + 1]) ==
        Trace(r.next,
              before.outs + (if r.out.Some? then [r.out.value] else []),
              before.saves + (if r.saved.Some? then [r.saved.value] else []))
  {
    assert events[..i + 1][..i] == events[..i];
  }

  function TickCount(events: seq<Event>): nat
    decreases |events|
  {
    if events == [] then 0 else TickCount(events[..|events| - 1]) + (if events[|events| - 1].Clock? then 1 else 0)
  }

  /** Over any run, one output per tick and none for a key press. */
  lemma {:induction false} RunCounts(s: MonitorState, events: seq<Event>)
    requires AllSettle(events)
    ensures |Run(s, events).outs| == TickCount(events)
    decreases |events|
  {
    if events != [] {
      RunCounts(s, events[..|events| - 1]);
    }
  }

  /**
   * Over a run from a sane state: one output per tick, a save for every key
   * press at least (a left press can fail only on a window outside the
   * table, which a sane state never has), and every record saved sane.
   */
  lemma {:induction false} RunKeepsSane(s: MonitorState, events: seq<Event>)
    requires Sane(s.config, s.counts) && AllSettle(events)
    ensures Sane(Run(s, events).final.config, Run(s, events).final.counts)
    ensures |Run(s, events).outs| == TickCount(events)
    ensures |Run(s, events).saves| >= |events| - TickCount(events)
    ensures forall r :: r in Run(s, events).saves ==> Sane(r.settings, r.counts)
    decreases |events|
  {
    if events != [] {
      var init := events[..|events| - 1];
      RunKeepsSane(s, init);
      var before := Run(s, init);
      var e := events[|events| - 1];
      if e.LeftPress? {
        assert NextWindow(before.final.config.showDays).Some?;
      }
      assert before.saves <= Run(s, events).saves;
    }
  }

  /**
   * A run of ticks alone never changes the configuration and shows one text
   * per tick; over a run of key presses alone the counters, the day and the
   * relax timer stay as they were.
   */
  lemma {:induction false} RunFrames(s: MonitorState, events: seq<Event>)
    requires AllSettle(events)
    ensures (forall i :: 0 <= i < |events| ==> events[i].Clock?) ==>
      Run(s, events).final.config == s.config && |Run(s, events).outs| == |events|
    ensures (forall i :: 0 <= i < |events| ==> !events[i].Clock?) ==>
      && Run(s, events).final.counts == s.counts && Run(s, events).final.yday == s.yday
      && Run(s, events).final.relaxTime == s.relaxTime && Run(s, events).outs == []
    decreases |events|
  {
    if events != [] {
      RunFrames(s, events[..|events| - 1]);
    }
  }

  /** The state run() starts its loop in: load()'s result over the defaults, the safe distance on show, the clock and day. */
  function Start(stored: Option<Record>, start: int, startDay: int): MonitorState {
    var loaded := Persist.Load(Defaults, EmptyRing, stored, startDay);
    MonitorState(loaded.0, loaded.1, 3, startDay, start, 0, 0)
  }

  class Monitor {
    // the module's globals
    var mode: int
    var beep: bool
    var safeDist: int
    var showDays: int
    var counts: Ring
    var showSafe: int
    // run()'s locals
    var yday: int
    var relaxTime: int
    var farAway: nat
    var h: int

    function Config(): Settings
      reads this
    {
      Settings(mode, beep, safeDist, showDays)
    }

    function Snapshot(): MonitorState
      reads this
    {
      MonitorState(Config(), counts, showSafe, yday, relaxTime, farAway, h)
    }

    /** The module's initial globals. */
    constructor ()
      ensures Config() == Defaults && counts == EmptyRing
    {
      mode, beep, safeDist, showDays := 0, false, 50, 0;
      counts := EmptyRing;
      showSafe, yday, relaxTime, farAway, h := 0, 0, 0, 0, 0;
    }

    /** load(), given what the file yields (None when it cannot be read) and today's day of the year. */
    method Load(stored: Option<Record>, today: int)
      modifies this`mode, this`beep, this`safeDist, this`showDays, this`counts
      ensures (Config(), counts) == Persist.Load(old(Config()), old(counts), stored, today)
    {
      match stored {
        case None =>
        case Some(r) =>
          mode, beep, safeDist, showDays := r.settings.mode, r.settings.beep, r.settings.safeDist, r.settings.showDays;
          if r.yday == today {
            counts := r.counts;
          }
      }
    }

    /** run()'s set-up before its loop, at clock `t` on day `today`. */
    method StartRun(t: int, today: int)
      modifies this`relaxTime, this`yday, this`showSafe, this`farAway, this`h
      ensures relaxTime == t && yday == today && showSafe == 3 && farAway == 0 && h == 0
    {
      relaxTime, yday, showSafe, farAway, h := t, today, 3, 0, 0;
    }

    /** on_right_key(): one buzz, the next mode, the safe distance shown again, and a save. */
    method OnRightKey(today: int) returns (buzzes: nat, saved: Record)
      modifies this`mode, this`showSafe
      ensures buzzes == 1 && mode == NextMode(old(mode)) && showSafe == 3
      ensures saved == Save(Config(), today, counts)
    {
      buzzes := 1;
      mode := (mode + 1) % 3;
      showSafe := 3;
      saved := Save(Config(), today, counts);
    }

    /**
     * on_left_key(), with `sensor` the readings get_distance() takes in mode 1.
     * Turning the beeper on buzzes six times in all. In mode 2 a window
     * outside the table raises KeyError after the first buzz: nothing changes
     * and nothing is saved.
     */
    method OnLeftKey(sensor: seq<int>, today: int) returns (buzzes: nat, saved: Option<Record>)
      requires mode == 1 ==> Settles(sensor)
      modifies this`beep, this`safeDist, this`showSafe, this`showDays
      ensures mode == 0 ==> beep == !old(beep) && buzzes == (if beep then 6 else 1)
      ensures mode == 1 ==> safeDist == FirstSettled(sensor) && showSafe == 3 && buzzes == 1
      ensures mode != 0 && mode != 1 ==>
        (buzzes == 1 && showDays == match NextWindow(old(showDays)) case Some(w) => w case None => old(showDays))
      ensures mode != 0 ==> beep == old(beep)
      ensures mode != 1 ==> safeDist == old(safeDist) && showSafe == old(showSafe)
      ensures mode == 0 || mode == 1 ==> showDays == old(showDays)
      ensures saved == if mode != 0 && mode != 1 && NextWindow(old(showDays)).None? then None
                       else Some(Save(Config(), today, counts))
    {
      buzzes := 1;
      if mode == 0 {
        beep := !beep;
        if beep {
          for i := 0 to 5
            invariant buzzes == 1 + i
          {
            buzzes := buzzes + 1;
          }
        }
      } else if mode == 1 {
        var d, _ := GetDistance(sensor);
        safeDist := d;
        showSafe := 3;
      } else {
        if showDays !in WindowSteps {
          return buzzes, None;
        }
        showDays := WindowSteps[showDays];
      }
      saved := Some(Save(Config(), today, counts));
    }

    /** The new-day step at the top of run()'s loop: roll the ring over and save. */
    method NewDay(today: int) returns (saved: Option<Record>)
      modifies this`counts, this`yday
      ensures yday == today
      ensures old(yday) != today ==> counts == Rollover(old(counts)) && saved == Some(Save(Config(), today, counts))
      ensures old(yday) == today ==> counts == old(counts) && saved == None
    {
      saved := None;
      if today != yday {
        yday := today;
        counts := Rollover(counts);
        saved := Some(Save(Config(), today, counts));
      }
    }

    /** The classification step of run()'s loop: absence, counters, streak, buzz and relax timer. */
    method Record(t: int, d: int) returns (buzz: bool)
      modifies this`counts, this`farAway, this`h, this`relaxTime
      ensures var sample := Classify(d, safeDist);
        && farAway == FarAwayAfter(old(farAway), sample)
        && counts == Recorded(old(counts), sample)
        && h == NextStreak(old(h), sample)
        && relaxTime == RelaxAfter(old(relaxTime), t, sample)
        && buzz == Buzzes(beep, h, sample)
    {
      buzz := false;
      if d <= safeDist + Tolerance {
        farAway := farAway / 10;
        counts := counts[0 := Counter(counts[0].compliant, counts[0].total + 1)];
        if d >= safeDist {
          counts := counts[0 := Counter(counts[0].compliant + 1, counts[0].total)];
          h := 0;
        } else {
          h := h + 1;
          if beep && h > 1 {
            buzz := true;
          }
        }
      } else {
        farAway := farAway + 1;
        h := -1;
        relaxTime := relaxTime + RelaxCredit;
        if relaxTime > t || t - relaxTime >= ResetLag {
          relaxTime := t;
        }
      }
    }

    /** The text step of run()'s loop for reading `d`; the countdown runs even when the text is blanked. */
    method Text(d: int) returns (s: string)
      modifies this`showSafe
      ensures s == TickText(mode, h, d, safeDist, old(showSafe), showDays, counts, farAway)
      ensures showSafe == if mode == 1 then CountDown(old(showSafe)) else old(showSafe)
    {
      if mode == 0 {
        s := if h > 1 then FormatWidth(d - safeDist, 4) else if h < 0 then "    ." else " .   ";
      } else if mode == 1 {
        if showSafe > 0 {
          s := "=" + FormatWidth(safeDist, 3);
          showSafe := showSafe - 1;
        } else {
          s := FormatWidth(d, 4);
        }
      } else {
        if showDays == 0 {
          var score := counts[0].compliant * 100 / (1 + counts[0].total);
          s := "C" + FormatWidth(score, 3);
        } else {
          var score := SumWindow(counts, showDays);
          s := FormatInt(showDays) + FormatWidth(score, 3);
        }
      }
      if farAway > BlankAfter {
        s := "    ";
      }
    }

    /** One pass of run()'s loop at clock `t` on day `today`; `d` is the distance get_distance() took from `sensor`. */
    method Tick(t: int, today: int, sensor: seq<int>) returns (out: TickOutput, d: int)
      requires Settles(sensor)
      modifies this`counts, this`yday, this`farAway, this`h, this`relaxTime, this`showSafe
      ensures d == FirstSettled(sensor) && d >= MinReading
      ensures var rolled := old(yday) != today;
              var start := if rolled then Rollover(old(counts)) else old(counts);
              var sample := Classify(d, safeDist);
        && yday == today
        && counts == Recorded(start, sample)
        && out.saved == (if rolled then Some(Save(Config(), today, start)) else None)
        && farAway == FarAwayAfter(old(farAway), sample)
        && h == NextStreak(old(h), sample)
        && relaxTime == RelaxAfter(old(relaxTime), t, sample)
        && out.buzz == Buzzes(beep, h, sample)
        && out.flashing == Flashing(t, relaxTime)
        && showSafe == (if mode == 1 then CountDown(old(showSafe)) else old(showSafe))
        && out.text == TickText(mode, h, d, safeDist, old(showSafe), showDays, counts, farAway)
      ensures WellFormed(old(counts)) ==> WellFormed(counts)
    {
      var saved := NewDay(today);
      var used;
      d, used := GetDistance(sensor);
      var buzz := Record(t, d);
      var flashing := t - relaxTime >= StudyLimit;
      var s := Text(d);
      out := TickOutput(s, buzz, flashing, saved);
    }
  }

  /**
   * Hands one event to its handler: Tick for a tick, OnLeftKey or OnRightKey
   * for a key press. The monitor ends in the state Step gives, and the
   * output, the key buzzes and the record saved are Step's.
   */
  method Dispatch(m: Monitor, e: Event) returns (out: Option<TickOutput>, buzzes: nat, saved: Option<Record>)
    requires e.Clock? || (e.LeftPress? && m.mode == 1) ==> Settles(e.sensor)
    modifies m
    ensures var r := Step(old(m.Snapshot()), e);
      m.Snapshot() == r.next && out == r.out && buzzes == r.buzzes && saved == r.saved
    ensures e.RightPress? ==> m.mode == NextMode(old(m.mode)) && saved == Some(Save(m.Config(), e.today, m.counts))
    ensures e.Clock? ==> out.Some? && saved == out.value.saved && m.Config() == old(m.Config())
    ensures Sane(old(m.Config()), old(m.counts)) ==> Sane(m.Config(), m.counts)
  {
    match e {
      case Clock(t, today, sensor) =>
        var o, _ := m.Tick(t, today, sensor);
        out, buzzes, saved := Some(o), 0, o.saved;
      case LeftPress(sensor, today) =>
        buzzes, saved := m.OnLeftKey(sensor, today);
        out := None;
      case RightPress(today) =>
        var s;
        buzzes, s := m.OnRightKey(today);
        out, saved := None, Some(s);
    }
  }

  /** run()'s loop over the events, from whatever state the monitor is in: the outputs and saves are `Run`'s. */
  method RunLoop(m: Monitor, events: seq<Event>) returns (outs: seq<TickOutput>, saves: seq<Record>)
    requires AllSettle(events)
    modifies m
    ensures m.Snapshot() == Run(old(m.Snapshot()), events).final
    ensures outs == Run(old(m.Snapshot()), events).outs && saves == Run(old(m.Snapshot()), events).saves
  {
    ghost var s0 := m.Snapshot();
    outs, saves := [], [];
    for i := 0 to |events|
      invariant AllSettle(events[..i])
      invariant m.Snapshot() == Run(s0, events[..i]).final
      invariant outs == Run(s0, events[..i]).outs && saves == Run(s0, events[..i]).saves
    {
      RunNext(s0, events, i);
      var out, _, saved := Dispatch(m, events[i]);
      if out.Some? {
        outs := outs + [out.value];
      }
      if saved.Some? {
        saves := saves + [saved.value];
      }
    }
    assert events[..|events|] == events;
  }

  /**
   * The program from start to stop: load() with what the file yields, run()
   * over the events, and the final save() on `endDay`. The outputs and saves
   * are those of Run from Start, followed by the save of the final state.
   * From a readable record the program itself wrote (or none), every record
   * it saves is again one, no left-key press fails and each one saves.
   */
  method Session(stored: Option<Record>, start: int, startDay: int, events: seq<Event>, endDay: int)
    returns (outs: seq<TickOutput>, saves: seq<Record>)
    requires AllSettle(events)
    ensures outs == Run(Start(stored, start, startDay), events).outs
    ensures saves == Run(Start(stored, start, startDay), events).saves +
      [Save(Run(Start(stored, start, startDay), events).final.config, endDay,
            Run(Start(stored, start, startDay), events).final.counts)]
    ensures |outs| == TickCount(events)
    ensures saves != [] && saves[|saves| - 1].yday == endDay
    ensures (stored.Some? ==> Sane(stored.value.settings, stored.value.counts)) ==>
      |saves| >= |events| - TickCount(events) + 1 && forall r :: r in saves ==> Sane(r.settings, r.counts)
  {
    var m := new Monitor();
    m.Load(stored, startDay);
    m.StartRun(start, startDay);
    ghost var s0 := Start(stored, start, startDay);
    assert m.Snapshot() == s0;
    ghost var sane := stored.Some? ==> Sane(stored.value.settings, stored.value.counts);
    if sane {
      LoadKeepsSane(Defaults, EmptyRing, stored, startDay);
    }
    outs, saves := RunLoop(m, events);
    RunCounts(s0, events);
    if sane {
      RunKeepsSane(s0, events);
    }
    saves := saves + [Save(m.Config(), endDay, m.counts)];
  }
}
