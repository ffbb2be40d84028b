# sitcat: a verified model of the sitting-posture monitor

sitcat is a Raspberry Pi desk companion. An ultrasonic sensor measures how far
the user sits from the desk twice a second. The readings drive these outputs:
- a four-digit seven-segment display;
- a buzzer for sustained too-close posture;
- a flashing LED after twenty minutes of study without a break;
- eight days of compliance statistics, saved to a file.

Two keys configure it:
- the right key cycles the display mode: deviation, distance, score;
- the left key acts in the current mode. It toggles the beeper, re-learns the safe distance from the sensor, or steps the score window.

This project models the control logic of both program generations, `Program/sitcat.py` (first board) and `Program/SAKS-V2/sitcat.py` (second board):

- `Format`: Python's `'%d'` and `'%<w>d'`, with a parser that reads them back.
- `Display`: the first board's `DigitalDisplay`. This covers:
  - the glyph table and the scan of the text into (glyph, dot) cells;
  - `set_pin`, which writes a pin only when its level changes;
  - `flush_bit`, which draws one digit;
  - one turn of `flush_4bit`.

  It is a class over the pin-state map. A `writes` field logs every GPIO write. `AllDigitsOff` and `FlushBit` state their writes exactly, in order (`OffWrites`, `FlushWrites`), and `FlushCells` and `FlushPass` return the log before and after each digit's flush.
- `Posture`: how a reading is classified, when a sample buzzes, the timing constants, and the mode-1 countdown.
- `Stats`: the eight-slot ring of (compliant, total) counters. It covers:
  - the day rollover;
  - the per-sample update;
  - today's score and the trailing-window score, including `run()`'s `c0`/`c1` summing loop.
- `Keys`: the mode cycle and the score-window table.
- `Persist`: the saved record, `save()` and `load()`, and what one tick emits (text, buzz, LED, record to save).
- `SitCat` and `SitCatV2`: each variant's globals and `run()`'s locals, as a `Monitor` class. Each has:
  - a `Tick` method for one pass of `run()`'s loop;
  - the two key handlers, `Load` and `StartRun`;
  - a pure step model: `Step` says which handler an event runs and what it does to the state (`MonitorState`), and `Run` folds it over a sequence of events;
  - a `Dispatch` method that hands one event to its handler and ends in `Step`'s state, and a `Session` method that runs a whole program (load, then ticks and key presses, then the final save) and produces exactly `Run`'s outputs and saves.

  `SitCatV2` also has the `get_distance` retry loop.

Time is counted in tenths of a second: 2.5 s is 25, twenty minutes is 12000 and an hour is 36000. The clock (`t`), the day of the year (`today`) and the sensor readings are inputs. Buzzes, the LED state, the display text and every saved record are outputs.

Three behaviours of the code that a quick reading could take otherwise; the model follows the code in each:
- `load()` with a record from another day keeps the counters already in memory; it does not reset them to zero. At start-up the counters in memory are the all-zero defaults, so at start-up the result is the same as a reset (`Persist.Load`).
- The trailing-window score divides by `1 + Σtotal`, not by `Σtotal`, because `c1` starts at 1 (`Stats.WindowScore`).
- The first variant leaves the streak `h` unchanged on an away sample. Only the second variant sets it to -1 (`SitCat.NextStreak`, `SitCatV2.NextStreak`).

## Model

| member | source | states |
|---|---|---|
| Format.FormatInt | Program/sitcat.py:317 | `'%d'` is a digit or `-` followed by digits, never starts with a blank, and the `-` appears exactly for negative numbers |
| Format.PadLeft | Program/sitcat.py:298 | right-justifies in the field width: blanks in front, the text unchanged at the end, and a longer text is never cut |
| Format.FormatWidthInverts | Program/sitcat.py:298 | every `'%<w>d'` text, stripped of its padding, reads back as the number it formats |
| Format.FormatWidthExact | Program/sitcat.py:303 | a natural below 10^k fills a `'%<k>d'` field exactly |
| Format.ParseIntInverts | Program/sitcat.py:317 | `'%d'` loses nothing: its text reads back as the number |
| Display.DecodeInvertsEncode | Program/sitcat.py:57-59 | no two table glyphs share a segment code and no code uses the 0x80 point bit, so each (glyph, dot) pattern identifies its cell |
| Display.TableAndPattern | Program/sitcat.py:57-68 | the table holds exactly the 20 glyphs; the scanner's class adds only `#`, which has no code |
| Display.Scan | Program/sitcat.py:107-112 | there are as many cells as characters of `[-_=A-F0-9 #]` in the text, and every cell's glyph is in that class |
| Display.PatternPositions | Program/sitcat.py:109 | the positions of the class characters: all of them, and nothing else, in increasing order |
| Display.ScanCells | Program/sitcat.py:107-112 | the k-th cell comes from the k-th class character: that character is its glyph, and the cell is dotted exactly when a `.` follows it |
| Display.ScanInvertsRender | Program/sitcat.py:109-112 | scanning cells written back as text (a `.` after a dotted cell) yields the same cells |
| Display.DigitalDisplay.constructor | Program/sitcat.py:63-67 | every segment and select pin is set up and driven off, in order, one write each |
| Display.DigitalDisplay.Show | Program/sitcat.py:76-77 | the shared text becomes the new one |
| Display.DigitalDisplay.SetPin | Program/sitcat.py:79-82 | the recorded level becomes `v`; a write is issued only when the level changes |
| Display.DigitalDisplay.AllDigitsOff | Program/sitcat.py:96-97 | all select pins are off and the segments are untouched. The writes are exactly `Select(k)` off for each digit k that was on, in order 0..3 |
| Display.DigitalDisplay.DrawSegment | Program/sitcat.py:91-99 | one turn of the segment loop: segment i takes bit i of the code. The writes are none when the segment already has that level; otherwise the switch-off of every lit digit if this is the first change, then the segment's write |
| Display.DigitalDisplay.DrawSegments | Program/sitcat.py:90-99 | the whole segment loop: the segments show the code, and the writes are the digits' switch-off before the first changed segment (if any segment changes), then one write per changed segment in order 0..7 |
| Display.DigitalDisplay.FlushBit | Program/sitcat.py:84-100 | a glyph outside the table only switches its digit off. Otherwise: segment i equals bit i of the code, with 0x80 for the dot; the digit is on; and any digit that stays on already showed that pattern. The writes are exactly `FlushWrites` of the old pins: the select write for an unknown glyph; otherwise the switch-off of the lit digits and the changed segments when any segment changes, then the digit's select write unless it was already on. Every segment write follows the switch-off of all digits, and no write repeats a level |
| Display.FlushWritesExplained | Program/sitcat.py:84-100 | replaying the writes `FlushWrites` lists from the old pins gives exactly the new pins of a `FlushBit` effect, each write changes a level, and every segment write comes while all digits are off |
| Display.FlushBitKeepsConsistent | Program/sitcat.py:84-100 | flushing one cell keeps every lit digit showing its own cell's pattern |
| Display.DigitalDisplay.FlushCells | Program/sitcat.py:113-116 | the returned pin states and write logs show the first min(4, n) cells flushed in turn: step i is a `FlushBit` effect (`FlushedBit`) of cell i on digit i, and the log grows by exactly that step's `FlushWrites`, which explain the step. The first state and log are the old ones and the last are the new ones. The last cell is lit if it is in the table, and lit digits keep showing their own cells |
| Display.DigitalDisplay.FlushPass | Program/sitcat.py:102-120 | re-scans a changed text. With no cells, every digit is switched off and the segments are kept, and the writes are exactly `OffWrites`: each lit digit switched off, in order 0..3. Otherwise the returned pin states and logs show each cell flushed on its digit in turn by exactly its `FlushWrites`. Every write is logged as a change |
| Posture.Classify | Program/sitcat.py:282-284 | compliant iff `safe <= d <= safe + 30`, too close iff `d < safe`, away iff `d > safe + 30` |
| Posture.SafeDistanceShownFirst | Program/sitcat.py:301-306 | after a countdown of n (3 after a key press), exactly the first n mode-1 ticks show `'=%3d'` of the safe distance; later ticks show `'%4d'` of their reading |
| Stats.Rollover | Program/sitcat.py:276-280 | eight slots; slot 0 is (0, 0); old slot i moves to i + 1; old slot 7 is dropped; compliant <= total is kept |
| Stats.Recorded | Program/sitcat.py:282-286 | an at-desk sample adds 1 to today's total, and also to today's compliant count when compliant; an away sample changes nothing; slots 1..7 never change |
| Stats.Percent | Program/sitcat.py:309 | the floor of `c * 100 / (1 + t)`, with a denominator that is never 0; at most 99 when c <= t |
| Stats.TodayScore | Program/sitcat.py:308-310 | today's score is the floor of 100 * compliant / (1 + total), in 0..99 for consistent counters |
| Stats.Window | Program/sitcat.py:313 | Python's `counts[1 : w + 1]` for any w: a run of slots starting at slot 1, exactly slots 1..w for 0 <= w <= 7 |
| Stats.SumsWellFormed | Program/sitcat.py:312-316 | summed over consistent slots, the compliant count never exceeds the total |
| Stats.WindowScore | Program/sitcat.py:312-316 | the window score is the floor of 100 * Σcompliant / (1 + Σtotal) over the window, in 0..99 for consistent counters |
| Stats.SumWindow | Program/sitcat.py:312-316 | the `c0`, `c1` loop computes exactly the window score |
| Stats.ScoreTextFits | Program/sitcat.py:307-317 | for consistent counters and a table window, `'C%3d'` and `'%d%3d'` are exactly four characters, and the last three read back as the score |
| Keys.NextMode | Program/sitcat.py:207 | the next mode is in 0..2 and one more than the old mode, modulo 3 |
| Keys.ThreePressesRestoreMode | Program/sitcat.py:207 | three right-key presses restore any mode in 0..2 |
| Keys.NextWindow | Program/sitcat.py:226 | a window in {0, 1, 3, 7} steps to a different one in the set; any other window is the KeyError (None) |
| Keys.FourPressesRestoreWindow | Program/sitcat.py:226 | the steps visit 0, 1, 3, 7 in order, and four presses are the identity |
| Persist.SaveThenLoad | Program/sitcat.py:156-177 | loading a saved record gives the configuration back, and the counters only when the record is from the same day |
| Persist.LoadKeepsSane | Program/sitcat.py:165-177 | a record the program could have written leaves the mode in 0..2, the window in the table and every slot consistent |
| SitCat.StreakCountsTooClose | Program/sitcat.py:284-290 | `h` counts the too-close samples since the last compliant one. With the beeper on, the second such sample and each later one buzz |
| SitCat.RelaxAfter | Program/sitcat.py:291-294 | an away sample advances the relax timer by 2.5 s but never past the clock; other samples leave it alone |
| SitCat.DeviationTextMeaning | Program/sitcat.py:296-300 | during a streak of more than one, mode 0 shows a deviation that reads back as `d - safe`; otherwise one dotted blank cell |
| SitCat.Monitor.constructor | Program/sitcat.py:153-154 | the defaults: mode 0, beeper off, safe distance 50, window 0, eight (0, 0) slots |
| SitCat.Monitor.Load | Program/sitcat.py:165-177 | the configuration and counters become what `Persist.Load` gives |
| SitCat.Monitor.StartRun | Program/sitcat.py:270-273 | the relax timer starts at the clock, the countdown at 3, the streak at 0 |
| SitCat.Monitor.OnRightKey | Program/sitcat.py:201-209 | one buzz, the next mode, a countdown of 3, and a save of the new state |
| SitCat.Monitor.OnLeftKey | Program/sitcat.py:211-227 | mode 0 toggles the beeper (2 buzzes when it turns on, else 1); mode 1 takes the reading as the safe distance, with a countdown of 3; otherwise the window steps. An unknown window changes nothing and saves nothing; every other press saves |
| SitCat.Monitor.NewDay | Program/sitcat.py:276-280 | on a new day the ring rolls over and is saved, with the day recorded; otherwise nothing changes |
| SitCat.Monitor.Record | Program/sitcat.py:282-294 | counters, streak, buzz and relax timer follow `Recorded`, `NextStreak`, `Buzzes` and `RelaxAfter` for the reading's class |
| SitCat.Monitor.Text | Program/sitcat.py:296-317 | the text is the mode's text (deviation, countdown or reading, score); the countdown drops only in mode 1 |
| SitCat.Monitor.Tick | Program/sitcat.py:274-318 | one pass combines rollover and save, the sample's update, the buzz, the relax timer, the LED (flashing iff `t - relax >= 20 min`) and the text; consistent counters stay consistent |
| SitCat.Step | Program/sitcat.py:201-318 | only a tick emits a display output and only it changes the counters, the streak, the relax timer and the day; only a key press changes the configuration and buzzes. A right press steps the mode and saves; a left press saves unless in mode 2 on a window outside the table. Each save holds the new configuration and the event's day; a sane state stays sane and saves sane records |
| SitCat.RunKeepsSane | Program/sitcat.py:270-318 | over any run from a sane state: one output per tick, a save for every key press at least, a sane final state, and every saved record sane |
| SitCat.RunFrames | Program/sitcat.py:274-318 | ticks alone never change the configuration and give one text each; key presses alone leave the counters, the day and the relax timer as they were and show nothing |
| SitCat.Dispatch | Program/sitcat.py:201-227 | a tick runs `Tick` and a key press its handler: the new monitor state, the output, the key buzzes and the save are exactly `Step`'s. A right press steps the mode and saves the new state; a tick keeps the configuration and reports its own save. A sane state stays sane |
| SitCat.RunLoop | Program/sitcat.py:274-318 | `run()`'s loop over a sequence of events ends in `Run`'s final state and yields exactly `Run`'s outputs and saves, from whatever state it starts in |
| SitCat.RunCounts | Program/sitcat.py:274-318 | over any run, from any state, there is exactly one output per tick |
| SitCat.Session | Program/sitcat.py:329-333 | for any stored record (or none), the outputs and saves are exactly `Run`'s from `Start` (load()'s state), then the save of the final state on the last day, with one output per tick. From a sane record (or none) there is also at least one save per key press plus the final one, and every saved record is sane |
| SitCatV2.FirstSettledIndex | Program/SAKS-V2/sitcat.py:30-34 | the position of a reading of at least 8 cm with every earlier reading below 8 cm |
| SitCatV2.GetDistance | Program/SAKS-V2/sitcat.py:30-34 | the result is `FirstSettled`, the first reading of at least 8 cm, taken after exactly that many readings. So the `d < 5` resample can never fire |
| SitCatV2.StreakAfterBreak | Program/SAKS-V2/sitcat.py:155-167 | too-close samples count up from 0 after a compliant sample and from -1 after an away one. With the beeper on, the second sample after compliance buzzes, but only the third after an absence |
| SitCatV2.FarAwayCounts | Program/SAKS-V2/sitcat.py:156-166 | away samples add one each to `far_away`; n at-desk samples divide it by 10^n (floor) |
| SitCatV2.RelaxAfter | Program/SAKS-V2/sitcat.py:168-170 | after an away sample the timer is the old timer plus 2.5 s when that is neither past the clock nor an hour or more behind it; otherwise it is the clock. Other samples leave it alone |
| SitCatV2.DeviationTextMeaning | Program/SAKS-V2/sitcat.py:172-173 | during a streak the deviation reads back as `d - safe`. Read by the `[-_=A-F0-9 #]\.?` scanner (`Display.Scan`), the idle texts are four blank cells, with the point on the last cell after an away sample and on the first otherwise |
| SitCatV2.TickText | Program/SAKS-V2/sitcat.py:191-192 | with `far_away > 120` the text is four blanks, whatever the mode |
| SitCatV2.Monitor.constructor | Program/SAKS-V2/sitcat.py:60-61 | the defaults: mode 0, beeper off, safe distance 50, window 0, eight (0, 0) slots |
| SitCatV2.Monitor.Load | Program/SAKS-V2/sitcat.py:72-84 | the configuration and counters become what `Persist.Load` gives |
| SitCatV2.Monitor.StartRun | Program/SAKS-V2/sitcat.py:140-144 | the relax timer starts at the clock, the countdown at 3, `far_away` and the streak at 0 |
| SitCatV2.Monitor.OnRightKey | Program/SAKS-V2/sitcat.py:86-94 | one buzz, the next mode, a countdown of 3, and a save of the new state |
| SitCatV2.Monitor.OnLeftKey | Program/SAKS-V2/sitcat.py:96-112 | mode 0 toggles the beeper (1 + 5 buzzes when it turns on, else 1); mode 1 sets the safe distance to `FirstSettled` of the sensor (its first reading of at least 8 cm), with a countdown of 3; otherwise the window steps. An unknown window changes nothing and saves nothing |
| SitCatV2.Monitor.NewDay | Program/SAKS-V2/sitcat.py:147-151 | on a new day the ring rolls over and is saved, with the day recorded; otherwise nothing changes |
| SitCatV2.Monitor.Record | Program/SAKS-V2/sitcat.py:155-170 | `far_away`, counters, streak, buzz and relax timer follow `FarAwayAfter`, `Recorded`, `NextStreak`, `Buzzes` and `RelaxAfter` |
| SitCatV2.Monitor.Text | Program/SAKS-V2/sitcat.py:172-192 | the text is `TickText`; the countdown drops only in mode 1, even when the text is blanked |
| SitCatV2.Monitor.Tick | Program/SAKS-V2/sitcat.py:146-193 | one pass reads `FirstSettled` of the sensor, the first reading of at least 8 cm. It then combines rollover and save, the sample's update, the buzz, the relax timer, the LED (flashing iff `t - relax >= 20 min`) and the text |
| SitCatV2.Step | Program/SAKS-V2/sitcat.py:86-193 | only a tick emits a display output and only it changes the counters, `far_away`, the streak, the relax timer and the day; only a key press changes the configuration and buzzes. A right press steps the mode and saves; a left press saves unless in mode 2 on a window outside the table, and in mode 1 takes `FirstSettled` as the safe distance. Each save holds the new configuration and the event's day; a sane state stays sane and saves sane records |
| SitCatV2.RunKeepsSane | Program/SAKS-V2/sitcat.py:140-193 | over any run from a sane state: one output per tick, a save for every key press at least, a sane final state, and every saved record sane |
| SitCatV2.RunFrames | Program/SAKS-V2/sitcat.py:146-193 | ticks alone never change the configuration and give one text each; key presses alone leave the counters, the day and the relax timer as they were and show nothing |
| SitCatV2.Dispatch | Program/SAKS-V2/sitcat.py:86-112 | a tick runs `Tick` and a key press its handler: the new monitor state, the output, the key buzzes and the save are exactly `Step`'s. A right press steps the mode and saves the new state; a tick keeps the configuration and reports its own save. A sane state stays sane |
| SitCatV2.RunLoop | Program/SAKS-V2/sitcat.py:146-193 | `run()`'s loop over a sequence of events ends in `Run`'s final state and yields exactly `Run`'s outputs and saves, from whatever state it starts in |
| SitCatV2.RunCounts | Program/SAKS-V2/sitcat.py:146-193 | over any run, from any state, there is exactly one output per tick |
| SitCatV2.Session | Program/SAKS-V2/sitcat.py:202-206 | for any stored record (or none), the outputs and saves are exactly `Run`'s from `Start` (load()'s state), then the save of the final state on the last day, with one output per tick. From a sane record (or none) there is also a save for every key press plus the final one, and every saved record is sane |

## Left out

- GPIO set-up, pin numbers and output levels: display pins are named by role (`Segment(i)`, `Select(k)`), a write is recorded as (pin, on), and active-low levels are not modelled.
- The display's daemon thread, the `time.sleep` dwell times and the pacing of ticks to half a second: `FlushPass` is one turn of the multiplexing loop, run on its own. How it interleaves with `show()` and with ticks is not modelled.
- `flush_4bit`'s `except: pass` and `run()`'s exception handlers, `init()`, `done()` and all console printing: nothing in the model can raise, except the KeyError in `on_left_key`.
- `get_temperature`, the speed of sound and the echo timing of both `get_distance` versions: distances are inputs (a reading for the first variant, a stream of readings for the second).
- `SitCatV2.GetDistance`: requires some reading of at least 8 cm. On a sensor that never gives one the source loops forever, which the model does not capture.
- SitCatV2.Session: asks, through `AllSettle`, for readings that settle on every left press, even in modes 0 and 2, where `on_left_key` reads no sensor. The mode at a press is known only by running the events, and any readings can be given for those presses, so no run of the source is lost. `Step` and `Dispatch` ask for settling readings only on a tick or a mode-1 left press.
- The second variant's `if d < 5: d = get_distance()` resample is not in `SitCatV2.Monitor.Tick`. `GetDistance` proves it can never fire.
- `pickle` and the file: `load()` receives the stored tuple as an `Option<Record>`, with None when it cannot be read. A file that unpickles to a tuple of other types or shapes is not modelled, for example a ring without eight (compliant, total) pairs of naturals.
- `led()`'s blinking with `int(time.time()) % 2`: the model outputs only whether the LED flashes.
- The buzzer, LED row and display calls of the second board's library are foreign code. They are modelled as outputs: a buzz count or flag, the flashing flag, and the text. The second board's display driver is not part of this model.
- SitCatV2.DeviationTextMeaning: reads the idle texts with the first board's scanner. How the second board's display library lays a text out on its digits is not modelled.
- Key handlers are GPIO callbacks and signal handlers that can preempt a tick. In the model each key press runs whole, between two ticks.
- Floating-point time: times are whole tenths of a second, and the clock and day of the year are inputs.
- `Program/first.py` and `Program/SAKS-V2/first.py`: hardware polling loops, not part of this model.
