/**
 * What save() writes and load() reads back: the configuration, the day of
 * the year it was written and the statistics ring, as one record.
 */
module Persist {
  import opened Wrappers
  import opened Stats

  datatype Settings = Settings(mode: int, beep: bool, safeDist: int, showDays: int)

  /** The configuration the program starts with. */
  const Defaults: Settings := Settings(0, false, 50, 0)

  /** The stored tuple (mode, beep, safe_dist, show_days, yday, counts). */
  datatype Record = Record(settings: Settings, yday: int, counts: Ring)

  /** What one pass of the run loop emits: the display text, a buzz, the LED state and a save on a new day. */
  datatype TickOutput = TickOutput(text: string, buzz: bool, flashing: bool, saved: Option<Record>)

  function Save(s: Settings, today: int, counts: Ring): Record {
    Record(s, today, counts)
  }

  /**
   * load(): a readable record restores the configuration, and its counters
   * only when it was written today; an unreadable one (None) changes nothing.
   */
  function Load(s: Settings, counts: Ring, stored: Option<Record>, today: int): (Settings, Ring) {
    match stored
    case None => (s, counts)
    case Some(r) => (r.settings, if r.yday == today then r.counts else counts)
  }

  /** Saving then loading gives the configuration back, and the counters too on the same day. */
  lemma SaveThenLoad(s: Settings, counts: Ring, day: int, s': Settings, counts': Ring, today: int)
    ensures Load(s', counts', Some(Save(s, day, counts)), today).0 == s
    ensures Load(s', counts', Some(Save(s, day, counts)), today).1 == if day == today then counts else counts'
  {
  }

  /** A configuration and ring the program itself produces. */
  predicate Sane(s: Settings, counts: Ring) {
    0 <= s.mode < 3 && s.showDays in {0, 1, 3, 7} && WellFormed(counts)
  }

  lemma LoadKeepsSane(s: Settings, counts: Ring, stored: Option<Record>, today: int)
    requires Sane(s, counts)
    requires stored.Some? ==> Sane(stored.value.settings, stored.value.counts)
    ensures Sane(Load(s, counts, stored, today).0, Load(s, counts, stored, today).1)
  {
  }
}
