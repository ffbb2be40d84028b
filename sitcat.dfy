/**
 * The first-generation monitor: the global configuration and statistics,
 * the two key handlers, load(), and one pass of run()'s loop, which reads a
 * distance, updates the statistics and the violation streak, keeps the relax
 * timer and chooses the text for the display.
 */
module SitCat {
  import opened Wrappers
  import opened Format
  import opened Posture
  import opened Stats
  import opened Persist
  import opened Keys
  import Display

  /** The violation streak `h` after a sample: reset by a compliant one, grown by a too-close one, kept by an away one. */
  function NextStreak(h: int, s: Sample): int {
    match s
    case Compliant => 0
    case TooClose => h + 1
    case Away => h
  }

  /** The streak after a run of samples, starting from `h0`. */
  function Streak(h0: int, ss: seq<Sample>): int
    decreases |ss|
  {
    if ss == [] then h0 else NextStreak(Streak(h0, ss[..|ss| - 1]), ss[|ss| - 1])
  }

  function CountOf(ss: seq<Sample>, x: Sample): nat
    decreases |ss|
  {
    if ss == [] then 0 else CountOf(ss[..|ss| - 1], x) + (if ss[|ss| - 1] == x then 1 else 0)
  }

  /**
   * The streak counts the too-close samples since the last compliant one
   * (position `k - 1`), or since the start when there is none. So with the
   * beeper on, the second such sample and every later one buzz.
   */
  lemma {:induction false} StreakCountsTooClose(h0: int, ss: seq<Sample>, k: nat)
    requires k <= |ss|
    requires k > 0 ==> ss[k - 1] == Compliant
    requires forall i :: k <= i < |ss| ==> ss[i] != Compliant
    ensures Streak(h0, ss) == (if k == 0 then h0 else 0) + CountOf(ss[k..], TooClose)
    ensures k > 0 && ss != [] ==>
      (Buzzes(true, Streak(h0, ss), ss[|ss| - 1]) <==> ss[|ss| - 1] == TooClose && CountOf(ss[k..], TooClose) >= 2)
    decreases |ss|
  {
    if k < |ss| {
      var init := ss[..|ss| - 1];
      StreakCountsTooClose(h0, init, k);
      assert ss[k..][..|ss[k..]| - 1] == init[k..];
    }
  }

  /** An away sample earns 2.5 s of relax credit, but the timer never passes the clock. */
  function RelaxAfter(relax: int, t: int, s: Sample): (r: int)
    ensures s != Away ==> r == relax
    ensures s == Away ==> r <= t && r <= relax + RelaxCredit && (r == t || r == relax + RelaxCredit)
  {
    if s == Away then (if relax + RelaxCredit > t then t else relax + RelaxCredit) else relax
  }

  /** Mode 0's text: '%4d' of the deviation during a streak longer than one, else a lone dot. */
  function DeviationText(h: int, d: int, safeDist: int): string {
    if h > 1 then FormatWidth(d - safeDist, 4) else " ."
  }

  /** The deviation text reads back as the deviation; the idle text shows one dotted blank digit. */
  lemma DeviationTextMeaning(h: int, d: int, safeDist: int)
    ensures h > 1 ==> ParseInt(TrimLeft(DeviationText(h, d, safeDist))) == d - safeDist
    ensures h > 1 ==> |DeviationText(h, d, safeDist)| >= 4
    ensures h <= 1 ==> Display.Scan(DeviationText(h, d, safeDist)) == [Display.Cell(' ', true)]
  {
    if h > 1 {
      FormatWidthInverts(d - safeDist, 4);
    } else {
      assert Display.Scan(" .") == [Display.Cell(' ', true)] + Display.Scan("");
    }
  }

  /** The text one tick shows, by mode; any mode other than 0 and 1 shows the score. */
  function TickText(mode: int, h: int, d: int, safeDist: int, showSafe: int, showDays: int, counts: Ring): string {
    if mode == 0 then DeviationText(h, d, safeDist)
    else if mode == 1 then DistanceText(showSafe, safeDist, d)
    else ScoreText(counts, showDays)
  }

  /** What run() carries from one event to the next: the globals and run()'s own locals. */
  datatype MonitorState = MonitorState(config: Settings, counts: Ring, showSafe: int, yday: int, relaxTime: int, h: int)

  /**
   * What one event does: the next state, the tick output when it was a tick,
   * the buzzes a key press gives, and the record saved, if any.
   */
  datatype Stepped = Stepped(next: MonitorState, out: Option<TickOutput>, buzzes: nat, saved: Option<Record>)

  /** What happens between two ticks or as one: a tick, or a key press handled whole. */
  datatype Event =
    | Clock(t: int, today: int, d: int)
    | LeftPress(reading: int, today: int)
    | RightPress(today: int)

  /** One pass of run()'s loop at clock `t` on day `today` with reading `d`: new day, classification, text. */
  function TickStep(s: MonitorState, t: int, today: int, d: int): Stepped {
    var c := s.config;
    var rolled := s.yday != today;
    var start := if rolled then Rollover(s.counts) else s.counts;
    var sample := Classify(d, c.safeDist);
    var counts := Recorded(start, sample);
    var h := NextStreak(s.h, sample);
    var relax := RelaxAfter(s.relaxTime, t, sample);
    var saved := if rolled then Some(Save(c, today, start)) else None;
    var text := TickText(c.mode, h, d, c.safeDist, s.showSafe, c.showDays, counts);
    var showSafe := if c.mode == 1 then CountDown(s.showSafe) else s.showSafe;
    Stepped(MonitorState(c, counts, showSafe, today, relax, h),
            Some(TickOutput(text, Buzzes(c.beep, h, sample), Flashing(t, relax), saved)), 0, saved)
  }

  /** on_left_key() by mode; in mode 2 a window outside the table changes nothing and saves nothing. */
  function LeftStep(s: MonitorState, reading: int, today: int): Stepped {
    var c := s.config;
    if c.mode == 0 then
      var c' := c.(beep := !c.beep);
      Stepped(s.(config := c'), None, if c'.beep then 2 else 1, Some(Save(c', today, s.counts)))
    else if c.mode == 1 then
      var c' := c.(safeDist := reading);
      Stepped(s.(config := c', showSafe := 3), None, 1, Some(Save(c', today, s.counts)))
    else
      var w := NextWindow(c.showDays);
      if w.None? then Stepped(s, None, 1, None)
      else
        var c' := c.(showDays := w.value);
        Stepped(s.(config := c'), None, 1, Some(Save(c', today, s.counts)))
  }

  /** on_right_key(): the next mode, the safe distance shown again, one buzz and a save. */
  function RightStep(s: MonitorState, today: int): Stepped {
    var c' := s.config.(mode := NextMode(s.config.mode));
    Stepped(s.(config := c', showSafe := 3), None, 1, Some(Save(c', today, s.counts)))
  }

  /**
   * The handler an event runs. Only a tick emits a display output and only
   * a tick touches the counters, the streak, the relax timer and the day;
   * only a key press changes the configuration and buzzes for the key. Every
   * record saved holds the new configuration and the event's day, and every
   * press saves except a left press in mode 2 on a window outside the table.
   * From a sane configuration and ring the program stays sane, and so does
   * each record it saves.
   */
  function Step(s: MonitorState, e: Event): (r: Stepped)
    ensures r.out.Some? <==> e.Clock?
    ensures e.Clock? ==> r.next.config == s.config && r.buzzes == 0 && r.saved == r.out.value.saved && r.next.yday == e.today
    ensures !e.Clock? ==>
      r.next.counts == s.counts && r.next.yday == s.yday && r.next.h == s.h && r.next.relaxTime == s.relaxTime && r.buzzes >= 1
    ensures r.saved.Some? ==> r.saved.value.settings == r.next.config && r.saved.value.yday == e.today
    ensures !e.Clock? && r.saved.Some? ==> r.saved.value.counts == s.counts
    ensures e.RightPress? ==> r.saved.Some? && r.next.config.mode == NextMode(s.config.mode)
    ensures e.LeftPress? ==>
      (r.saved.None? <==> s.config.mode != 0 && s.config.mode != 1 && NextWindow(s.config.showDays).None?)
    ensures Sane(s.config, s.counts) ==>
      Sane(r.next.config, r.next.counts) && (r.saved.Some? ==> Sane(r.saved.value.settings, r.saved.value.counts))
  {
    match e
    case Clock(t, today, d) => TickStep(s, t, today, d)
    case LeftPress(reading, today) => LeftStep(s, reading, today)
    case RightPress(today) => RightStep(s, today)
  }

  /** What the program did over a run of events: the final state, the tick outputs and the records saved, in order. */
  datatype Trace = Trace(final: MonitorState, outs: seq<TickOutput>, saves: seq<Record>)

  function Run(s: MonitorState, events: seq<Event>): Trace
    decreases |events|
  {
    if events == [] then Trace(s, [], [])
    else
      var before := Run(s, events[..|events| - 1]);
      var r := Step(before.final, events[|events| - 1]);
      Trace(r.next,
            before.outs + (if r.out.Some? then [r.out.value] else []),
            before.saves + (if r.saved.Some? then [r.saved.value] else []))
  }

  /** Run over one more event: Step from where the shorter run ended. */
  lemma RunNext(s: MonitorState, events: seq<Event>, i: nat)
    requires i < |events|
    ensures var before := Run(s, events[..i]);
      var r := Step(before.final, events[i]);
      Run(s, events[..i + 1]) ==
        Trace(r.next,
              before.outs + (if r.out.Some? then [r.out.value] else []),
              before.saves + (if r.saved.Some? then [r.saved.value] else []))
  {
    assert events[..i + 1][..i] == events[..i];
  }

  function TickCount(events: seq<Event>): nat
    decreases |events|
  {
    if events == [] then 0 else TickCount(events[..|events| - 1]) + (if events[|events| - 1].Clock? then 1 else 0)
  }

  /** Over any run, one output per tick and none for a key press. */
  lemma {:induction false} RunCounts(s: MonitorState, events: seq<Event>)
    ensures |Run(s, events).outs| == TickCount(events)
    decreases |events|
  {
    if events != [] {
      RunCounts(s, events[..|events| - 1]);
    }
  }

  /**
   * Over a run from a sane state: one output per tick, a save for every key
   * press at least (a left press can fail only on a window outside the
   * table, which a sane state never has), and every record saved sane.
   */
  lemma {:induction false} RunKeepsSane(s: MonitorState, events: seq<Event>)
    requires Sane(s.config, s.counts)
    ensures Sane(Run(s, events).final.config, Run(s, events).final.counts)
    ensures |Run(s, events).outs| == TickCount(events)
    ensures |Run(s, events).saves| >= |events| - TickCount(events)
    ensures forall r :: r in Run(s, events).saves ==> Sane(r.settings, r.counts)
    decreases |events|
  {
    if events != [] {
      var init := events[..|events| - 1];
      RunKeepsSane(s, init);
      var before := Run(s, init);
      var e := events[|events| - 1];
      var r := Step(before.final, e);
      if e.LeftPress? {
        assert NextWindow(before.final.config.showDays).Some?;
      }
      assert before.saves <= Run(s, events).saves;
    }
  }

  /**
   * A run of ticks alone never changes the configuration and shows one text
   * per tick; over a run of key presses alone the counters, the day and the
   * relax timer stay as they were.
   */
  lemma {:induction false} RunFrames(s: MonitorState, events: seq<Event>)
    ensures (forall i :: 0 <= i < |events| ==> events[i].Clock?) ==>
      Run(s, events).final.config == s.config && |Run(s, events).outs| == |events|
    ensures (forall i :: 0 <= i < |events| ==> !events[i].Clock?) ==>
      && Run(s, events).final.counts == s.counts && Run(s, events).final.yday == s.yday
      && Run(s, events).final.relaxTime == s.relaxTime && Run(s, events).outs == []
    decreases |events|
  {
    if events != [] {
      RunFrames(s, events[..|events| - 1]);
    }
  }

  /** The state run() starts its loop in: load()'s result over the defaults, the safe distance on show, the clock and day. */
  function Start(stored: Option<Record>, start: int, startDay: int): MonitorState {
    var loaded := Persist.Load(Defaults, EmptyRing, stored, startDay);
    MonitorState(loaded.0, loaded.1, 3, startDay, start, 0)
  }

  class Monitor {
    // the module's globals
    var mode: int
    var beep: bool
    var safeDist: int
    var showDays: int
    var counts: Ring
    var showSafe: int
    // run()'s locals
    var yday: int
    var relaxTime: int
    var h: int

    function Config(): Settings
      reads this
    {
      Settings(mode, beep, safeDist, showDays)
    }

    function Snapshot(): MonitorState
      reads this
    {
      MonitorState(Config(), counts, showSafe, yday, relaxTime, h)
    }

    /** The module's initial globals. */
    constructor ()
      ensures Config() == Defaults && counts == EmptyRing
    {
      mode, beep, safeDist, showDays := 0, false, 50, 0;
      counts := EmptyRing;
      showSafe, yday, relaxTime, h := 0, 0, 0, 0;
    }

    /** load(), given what the file yields (None when it cannot be read) and today's day of the year. */
    method Load(stored: Option<Record>, today: int)
      modifies this`mode, this`beep, this`safeDist, this`showDays, this`counts
      ensures (Config(), counts) == Persist.Load(old(Config()), old(counts), stored, today)
    {
      match stored {
        case None =>
        case Some(r) =>
          mode, beep, safeDist, showDays := r.settings.mode, r.settings.beep, r.settings.safeDist, r.settings.showDays;
          if r.yday == today {
            counts := r.counts;
          }
      }
    }

    /** run()'s set-up before its loop, at clock `t` on day `today`. */
    method StartRun(t: int, today: int)
      modifies this`relaxTime, this`yday, this`showSafe, this`h
      ensures relaxTime == t && yday == today && showSafe == 3 && h == 0
    {
      relaxTime, yday, showSafe, h := t, today, 3, 0;
    }

    /** on_right_key(): one buzz, the next mode, the safe distance shown again, and a save. */
    method OnRightKey(today: int) returns (buzzes: nat, saved: Record)
      modifies this`mode, this`showSafe
      ensures buzzes == 1 && mode == NextMode(old(mode)) && showSafe == 3
      ensures saved == Save(Config(), today, counts)
    {
      buzzes := 1;
      mode := (mode + 1) % 3;
      showSafe := 3;
      saved := Save(Config(), today, counts);
    }

    /**
     * on_left_key(), with `reading` the distance the sensor returns in mode 1.
     * In mode 2 a window outside the table raises KeyError after the first
     * buzz: nothing changes and nothing is saved.
     */
    method OnLeftKey(reading: int, today: int) returns (buzzes: nat, saved: Option<Record>)
      modifies this`beep, this`safeDist, this`showSafe, this`showDays
      ensures mode == 0 ==> beep == !old(beep) && buzzes == (if beep then 2 else 1)
      ensures mode == 1 ==> safeDist == reading && showSafe == 3 && buzzes == 1
      ensures mode != 0 && mode != 1 ==>
        (buzzes == 1 && showDays == match NextWindow(old(showDays)) case Some(w) => w case None => old(showDays))
      ensures mode != 0 ==> beep == old(beep)
      ensures mode != 1 ==> safeDist == old(safeDist) && showSafe == old(showSafe)
      ensures mode == 0 || mode == 1 ==> showDays == old(showDays)
      ensures saved == if mode != 0 && mode != 1 && NextWindow(old(showDays)).None? then None
                       else Some(Save(Config(), today, counts))
    {
      buzzes := 1;
      if mode == 0 {
        beep := !beep;
        if beep {
          buzzes := buzzes + 1;
        }
      } else if mode == 1 {
        safeDist := reading;
        showSafe := 3;
      } else {
        if showDays !in WindowSteps {
          return buzzes, None;
        }
        showDays := WindowSteps[showDays];
      }
      saved := Some(Save(Config(), today, counts));
    }

    /** The new-day step at the top of run()'s loop: roll the ring over and save. */
    method NewDay(today: int) returns (saved: Option<Record>)
      modifies this`counts, this`yday
      ensures yday == today
      ensures old(yday) != today ==> counts == Rollover(old(counts)) && saved == Some(Save(Config(), today, counts))
      ensures old(yday) == today ==> counts == old(counts) && saved == None
    {
      saved := None;
      if today != yday {
        yday := today;
        counts := Rollover(counts);
        saved := Some(Save(Config(), today, counts));
      }
    }

    /** The classification step of run()'s loop: the counters, the streak, the buzz and the relax timer. */
    method Record(t: int, d: int) returns (buzz: bool)
      modifies this`counts, this`h, this`relaxTime
      ensures var sample := Classify(d, safeDist);
        && counts == Recorded(old(counts), sample)
        && h == NextStreak(old(h), sample)
        && relaxTime == RelaxAfter(old(relaxTime), t, sample)
        && buzz == Buzzes(beep, h, sample)
    {
      buzz := false;
      if d <= safeDist + Tolerance {
        counts := counts[0 := Counter(counts[0].compliant, counts[0].total + 1)];
        if d >= safeDist {
          counts := counts[0 := Counter(counts[0].compliant + 1, counts[0].total)];
          h := 0;
        } else {
          h := h + 1;
          if beep && h > 1 {
            buzz := true;
          }
        }
      } else {
        relaxTime := relaxTime + RelaxCredit;
        if relaxTime > t {
          relaxTime := t;
        }
      }
    }

    /** The text step of run()'s loop for reading `d`. */
    method Text(d: int) returns (s: string)
      modifies this`showSafe
      ensures s == TickText(mode, h, d, safeDist, old(showSafe), showDays, counts)
      ensures showSafe == if mode == 1 then CountDown(old(showSafe)) else old(showSafe)
    {
      if mode == 0 {
        if h > 1 {
          s := FormatWidth(d - safeDist, 4);
        } else {
          s := " .";
        }
      } else if mode == 1 {
        if showSafe > 0 {
          s := "=" + FormatWidth(safeDist, 3);
          showSafe := showSafe - 1;
        } else {
          s := FormatWidth(d, 4);
        }
      } else {
        if showDays == 0 {
          var score := counts[0].compliant * 100 / (1 + counts[0].total);
          s := "C" + FormatWidth(score, 3);
        } else {
          var score := SumWindow(counts, showDays);
          s := FormatInt(showDays) + FormatWidth(score, 3);
        }
      }
    }

    /** One pass of run()'s loop at clock `t` on day `today`, with `d` the distance read. */
    method Tick(t: int, today: int, d: int) returns (out: TickOutput)
      modifies this`counts, this`yday, this`h, this`relaxTime, this`showSafe
      ensures var rolled := old(yday) != today;
              var start := if rolled then Rollover(old(counts)) else old(counts);
              var sample := Classify(d, safeDist);
        && yday == today
        && counts == Recorded(start, sample)
        && out.saved == (if rolled then Some(Save(Config(), today, start)) else None)
        && h == NextStreak(old(h), sample)
        && relaxTime == RelaxAfter(old(relaxTime), t, sample)
        && out.buzz == Buzzes(beep, h, sample)
        && out.flashing == Flashing(t, relaxTime)
        && showSafe == (if mode == 1 then CountDown(old(showSafe)) else old(showSafe))
        && out.text == TickText(mode, h, d, safeDist, old(showSafe), showDays, counts)
      ensures WellFormed(old(counts)) ==> WellFormed(counts)
    {
      var saved := NewDay(today);
      var buzz := Record(t, d);
      var flashing := t - relaxTime >= StudyLimit;
      var s := Text(d);
      out := TickOutput(s, buzz, flashing, saved);
    }
  }

  /**
   * Hands one event to its handler: Tick for a tick, OnLeftKey or OnRightKey
   * for a key press. The monitor ends in the state Step gives, and the
   * output, the key buzzes and the record saved are Step's.
   */
  method Dispatch(m: Monitor, e: Event) returns (out: Option<TickOutput>, buzzes: nat, saved: Option<Record>)
    modifies m
    ensures var r := Step(old(m.Snapshot()), e);
      m.Snapshot() == r.next && out == r.out && buzzes == r.buzzes && saved == r.saved
    ensures e.RightPress? ==> m.mode == NextMode(old(m.mode)) && saved == Some(Save(m.Config(), e.today, m.counts))
    ensures e.Clock? ==> out.Some? && saved == out.value.saved && m.Config() == old(m.Config())
    ensures Sane(old(m.Config()), old(m.counts)) ==> Sane(m.Config(), m.counts)
  {
    match e {
      case Clock(t, today, d) =>
        var o := m.Tick(t, today, d);
        out, buzzes, saved := Some(o), 0, o.saved;
      case LeftPress(reading, today) =>
        buzzes, saved := m.OnLeftKey(reading, today);
        out := None;
      case RightPress(today) =>
        var s;
        buzzes, s := m.OnRightKey(today);
        out, saved := None, Some(s);
    }
  }

  /** run()'s loop over the events, from whatever state the monitor is in: the outputs and saves are `Run`'s. */
  method RunLoop(m: Monitor, events: seq<Event>) returns (outs: seq<TickOutput>, saves: seq<Record>)
    modifies m
    ensures m.Snapshot() == Run(old(m.Snapshot()), events).final
    ensures outs == Run(old(m.Snapshot()), events).outs && saves == Run(old(m.Snapshot()), events).saves
  {
    ghost var s0 := m.Snapshot();
    outs, saves := [], [];
    for i := 0 to |events|
      invariant m.Snapshot() == Run(s0, events[..i]).final
      invariant outs == Run(s0, events[..i]).outs && saves == Run(s0, events[..i]).saves
    {
      RunNext(s0, events, i);
      var out, _, saved := Dispatch(m, events[i]);
      if out.Some? {
        outs := outs + [out.value];
      }
      if saved.Some? {
        saves := saves + [saved.value];
      }
    }
    assert events[..|events|] == events;
  }

  /**
   * The program from start to stop: load() with what the file yields, run()
   * over the events, and the final save() on `endDay`. The outputs and saves
   * are those of Run from Start, followed by the save of the final state.
   * From a readable record the program itself wrote (or none), every record
   * it saves is again one: the mode stays in 0..2, the window in the table
   * and the counters consistent, so no left-key press ever fails and each
   * one saves.
   */
  method Session(stored: Option<Record>, start: int, startDay: int, events: seq<Event>, endDay: int)
    returns (outs: seq<TickOutput>, saves: seq<Record>)
    ensures outs == Run(Start(stored, start, startDay), events).outs
    ensures saves == Run(Start(stored, start, startDay), events).saves +
      [Save(Run(Start(stored, start, startDay), events).final.config, endDay,
            Run(Start(stored, start, startDay), events).final.counts)]
    ensures |outs| == TickCount(events)
    ensures saves != [] && saves[|saves| - 1].yday == endDay
    ensures (stored.Some? ==> Sane(stored.value.settings, stored.value.counts)) ==>
      |saves| >= |events| - TickCount(events) + 1 && forall r :: r in saves ==> Sane(r.settings, r.counts)
  {
    var m := new Monitor();
    m.Load(stored, startDay);
    m.StartRun(start, startDay);
    ghost var s0 := Start(stored, start, startDay);
    assert m.Snapshot() == s0;
    ghost var sane := stored.Some? ==> Sane(stored.value.settings, stored.value.counts);
    if sane {
      LoadKeepsSane(Defaults, EmptyRing, stored, startDay);
    }
    outs, saves := RunLoop(m, events);
    RunCounts(s0, events);
    if sane {
      RunKeepsSane(s0, events);
    }
    saves := saves + [Save(m.Config(), endDay, m.counts)];
  }
}
