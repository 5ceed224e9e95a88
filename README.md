# Cyberpunk Threat Matrix — a Dafny model of the simulation core

The Cyberpunk Threat Matrix is a Tkinter desktop application. It simulates
named cyber attacks. A run plays the attack's script one step at a time.
Each step is logged with a severity and a threat score, and the score drives
a gauge and a 60-sample sparkline. When the run ends, a verdict and the
prevention protocols are shown. Under the widgets sits a small, sequential
core, and this project models and proves that core:

- `AppState` (module `State`): the threat level, clamped to 0..100 on every
  write; the running flag; and a history deque of 60 levels with `maxlen` 60.
  The class `State.AppState` keeps the history in a fixed array used as a
  ring. Its setters are proved against the value-level functions `SetLevel`,
  `SetRunning` and `Reset`. The Tk virtual events that the setters raise are
  counted.
- `calculate_threat_level` (module `Scoring`): the linear ramp up to 70,
  truncated by `int()`, plus a bonus from the severity's band, capped at 100.
  The random draw is an input.
- `ATTACK_DATA` (module `Catalog`): the seven attack scripts, entry for entry.
- The simulation lifecycle (modules `Simulation` and `ThreatMatrix`):
  - `initiate_simulation` and `abort_simulation` are guarded commands.
  - `run_simulation` is the producer. It walks the script, checks
    `stop_simulation_flag` before each step, puts `log` / `error` /
    `attack_complete` messages on the queue and runs its `finally` clause.
  - `process_queue` is the dispatcher. It drains the queue oldest first.
  - Module `Simulation` states each of these as a transition function on the
    value `AppView`. The class `ThreatMatrix.CyberpunkThreatMatrix` has the
    application's fields and methods with loops, and each method is proved
    to perform exactly its transition.
- Pure helpers (modules `Colors` and `Events`):
  - `hex_to_rgb` and `rgb_to_hex`, a parse/format pair;
  - the three-band `get_threat_color`;
  - the severity icons of `log_message`;
  - the text that `show_recommendations` builds.

The producer runs on a thread in the application. Here one producer run is
a single step of the state machine. Two inputs fix what the thread would
see while it runs:

- `flagAt(k)` is the value of `stop_simulation_flag` at the producer's k-th
  read of it. There is one read per loop check, one after the loop, and one
  in `finally`.
- `draw(i)` is the random source's value for step i + 1.
  `Scoring.Draw` maps it into the `randint` band, and every value of the
  band is reachable.

Timestamps are parameters of the commands that write log lines.

Two details the model keeps as the code has them:

- `calculate_threat_level` truncates with `int()`, so step 2 of 3 scores 46
  (`Scoring.ThreatLevelTruncates`).
- `ATTACK_DATA.get(attack_type)` followed by `if not attack_info` would also
  reject an entry that exists but is empty. No entry of the table is empty
  (`Catalog.AttackDataWellFormed`), so the model tests membership.

## Model

| member | source | states |
|---|---|---|
| Colors.ClampChannel | app.py:49 | the channel lies in 0..255; it is unchanged in range, 0 below and 255 above |
| Colors.Hex2 | app.py:50 | `{c:02x}` is two lowercase hex digits whose value is c |
| Colors.RgbToHex | app.py:46-50 | the result is `#` followed by six lowercase hex digits |
| Colors.LStripHash | app.py:42 | `lstrip('#')` leaves a suffix that does not start with '#', and everything it dropped is '#' |
| Colors.Slice | app.py:43 | a Python slice `t[i:j]` is `t[min(i, len(t)) .. min(j, len(t))]`: the exact slice when in range, clipped to the end of the string otherwise |
| Colors.StripSpace | app.py:43 | stripping leaves no white space at either end and keeps at most the input's length |
| Colors.StripSpaceInfix | app.py:43 | the stripped string is one contiguous piece `s[a:b]` of the input with only white space before a and from b on; with `StripSpace`'s ends this fixes its value |
| Colors.StripSpaceKeeps | app.py:43 | stripping leaves a string without white space unchanged, and empties exactly the all-white-space strings |
| Colors.StripSpaceMembers | app.py:43 | stripping removes white space and nothing else: every character it keeps is from the input, and every non-white-space character of the input is kept |
| Colors.MagnitudeKeeps | app.py:43 | dropping the sign removes at most a leading '+' or '-' |
| Colors.StrippedHexInt | app.py:43 | Python's rule for `int(u, 16)`: the empty string raises, and a value comes back exactly when what remains after stripping white space and a sign is a non-empty run of hex digits |
| Colors.ParseHexInt | app.py:43 | `int(u, 16)` form by form: two hex digits give 16·hi + lo; the empty string raises (None) |
| Colors.ParseHexIntIsStripped | app.py:43 | the table of forms used by `hex_to_rgb` is exactly Python's rule on every string of at most two characters |
| Colors.StrippedHexIntNeedsDigit | app.py:43 | whatever `int()` accepts contains a hex digit of the input |
| Colors.StrippedHexIntRejects | app.py:43 | a character that is neither a hex digit, white space nor a sign makes `int()` raise |
| Colors.HexToRgbRejectsSeparator | app.py:40-43 | regression example of `StrippedHexIntRejects`: `#\x1c1ffff` does not parse: the separator \x1c is not white space to `int()` |
| Colors.HexToRgb | app.py:40-43 | when fewer than 5 characters remain after stripping '#', a slice is empty and parsing fails |
| Colors.RgbToHexRoundTrip | app.py:40-50 | `hex_to_rgb(rgb_to_hex(r, g, b))` gives the three clamped channels, for every integer input |
| Colors.RgbToHexRoundTripInRange | app.py:40-50 | for channels in 0..255 the round trip gives back exactly (r, g, b) |
| Colors.HexToRgbOfCanonical | app.py:40-43 | a canonical `#rrggbb` parses to the values of its three digit pairs |
| Colors.HexToRgbRoundTrip | app.py:40-50 | a canonical `#rrggbb` parses, and formatting the result again gives back the same string |
| Colors.RgbToHexOfPairs | app.py:46-50 | formatting the values of the three digit pairs of a canonical colour gives that colour back |
| Colors.ThreatColor | app.py:65-72 | blue exactly below 30, orange exactly in 30..69, purple exactly from 70 up |
| Colors.ThreatColorMonotone | app.py:65-72 | a higher level is never shown in a lower band |
| Colors.ThreatColorParses | app.py:32-36 | every threat colour is a canonical hex colour that `hex_to_rgb` parses |
| Scoring.Draw | app.py:1456-1465 | the bonus lies in the severity's band (INFO 0..5, WARNING 5..15, ERROR 15..25, CRITICAL 25..30, other 0), and every value of the band is drawn by some seed |
| Scoring.TruncDiv | app.py:1466 | `int()` of a non-negative quotient is the floor quotient, and it is non-negative |
| Scoring.TruncDivNegative | app.py:1466 | for a negative numerator, `int()` truncates toward zero: the quotient is not positive, and n − q·d lies in (−d, 0] |
| Scoring.TruncDivMonotone | app.py:1466 | truncating division is monotone in the numerator |
| Scoring.CalculateThreatLevel | app.py:1454-1466 | the score is at most 100, and non-negative for non-negative steps |
| Scoring.ThreatLevelInRun | app.py:1454-1466 | for 0 < step <= total_steps the cap never applies: the score is ⌊70·step/total⌋ + bonus, in 0..100 |
| Scoring.ThreatLevelMonotone | app.py:1454-1466 | with the bonus fixed, a later step never scores lower |
| Scoring.ThreatLevelTruncates | app.py:1454-1466 | step 1, 2, 3 of 3 at INFO with bonus 0 score 23, 46 and 70 (truncated, not rounded) |
| Catalog.AttackData | app.py:76-198 | the dictionary's keys are exactly the seven attack identifiers, each mapped to its entry (`BufferOverflow` … `SupplyChainPoisoning`) with the verdict, the prevention steps and the scripted (severity, message) steps as the dictionary lists them |
| Catalog.AttackDataWellFormed | app.py:76-198 | the table has seven attack types; every script is non-empty, and every step carries one of the four severities |
| State.Clamp | app.py:217 | `max(0, min(100, v))`: in 0..100, unchanged in range, 0 below and 100 above |
| State.Append | app.py:218 | `append` on a deque with maxlen 60 adds on the right and, once the deque is full, drops the leftmost entry |
| State.Initial | app.py:205-209 | the initial record is well formed: level 0, not running, history of 60 zeros |
| State.SetLevel | app.py:215-220 | the setter stores the clamped value; the history keeps 60 entries, with the old entries 2..60 followed by the clamped value; well-formedness is preserved; one level-update event is raised |
| State.SetRunning | app.py:227-231 | the setter stores the flag, leaves level and history alone and raises one state-change event |
| State.Reset | app.py:233-238 | afterwards the history is exactly 60 zeros (even though the setter appends an extra 0), the level is 0, and the record is well formed |
| State.ResetIdempotent | app.py:233-238 | resetting twice is observably the same as resetting once |
| State.ResetForgetsLevels | app.py:215-238 | a reset erases every trace of a previous level write |
| State.RingOverwrite | app.py:218 | overwriting the oldest slot of the ring and advancing its start is the deque append with eviction |
| State.AppState.constructor | app.py:205-209 | the new record is valid and its value is `Initial()` |
| State.AppState.GetThreatLevel | app.py:211-213 | the getter returns the stored level, which lies in 0..100 and equals the newest history entry |
| State.AppState.SetThreatLevel | app.py:215-221 | updating the ring array performs exactly `SetLevel` on the record's value |
| State.AppState.SetIsRunning | app.py:227-231 | performs exactly `SetRunning` |
| State.AppState.ResetHistory | app.py:233-238 | clearing the array and then calling the setter performs exactly `Reset` |
| Events.SeverityIcon | app.py:1337 | the icon is one character, and it is "●" exactly when the severity is not one of the four known ones |
| Events.SeverityIconInjective | app.py:1337 | different known severities get different icons |
| Events.LogLine | app.py:1336-1338 | the line is the timestamp, a space, the icon, a space, the message and a newline |
| Events.UpperAscii | app.py:1243 | `upper()` maps each ASCII lowercase letter to its capital and leaves every other character alone |
| Events.UnderscoresToSpaces | app.py:1243 | `replace('_', ' ')` maps each '_' to ' ' and leaves every other character alone |
| Events.DecimalString | app.py:1439 | `str(k)` is a non-empty string of decimal digits |
| Events.DecimalStringValue | app.py:1439 | the digits of `str(k)` denote k; there is no leading zero except for 0 itself, and one digit exactly below 10 |
| Events.StartMessage | app.py:1243 | the START line is as long as the fixed prefix, the attack name and the fixed suffix together |
| Events.StartMessageLayout | app.py:1243 | the START line is the fixed prefix, then the attack name with each character upper-cased and each underscore shown as a space, then the fixed suffix |
| Events.RecommendationHeader | app.py:1437 | the head of the text is the verdict title and a line break, the verdict, a blank line, and the prevention title with its line break, in that order and with nothing else |
| Events.StepLine | app.py:1439 | a step's line ends with a line break |
| Events.StepLineLayout | app.py:1439 | a step's line is `  ⟫ [`, the number k written by `str(k)`, `] `, the step and a line break |
| Events.NumberedSteps | app.py:1438-1439 | the numbered steps are empty exactly when there are no steps, and otherwise end with a line break |
| Events.Recommendations | app.py:1437-1439 | the text begins with the header: the verdict title on its own line, then the verdict; it is only the header exactly when there are no steps |
| Events.NumberedStepsSnoc | app.py:1438-1439 | one more step adds exactly one line, numbered after the others |
| Events.NumberedStepsPrefix | app.py:1438-1439 | the loop's i-th pass adds exactly the line for step i + 1 |
| Events.BuildRecommendations | app.py:1436-1439 | the accumulating loop builds the header and then the steps numbered from 1 (`Recommendations`) |
| Events.RecommendationsLineCount | app.py:1437-1439 | for a one-line verdict and one-line steps, the text has 4 header lines plus exactly one line per step |
| Simulation.Start | app.py:949-966 | the window starts well formed, not running, with the flag clear, an empty queue and no producers |
| Simulation.Initiate | app.py:1232-1248 | while a run is active, nothing changes. Otherwise: running; flag clear; level 0; history all zeros; the log replaced by the START line; the active text shown; one producer added; the queue untouched; well-formedness kept |
| Simulation.Abort | app.py:1250-1260 | when no run is active, nothing changes. Otherwise: the flag is set; not running; level 0; history all zeros; one WARNING line appended; queue, producers and recommendation untouched |
| Simulation.AbortIdempotent | app.py:1250-1260 | a second abort right after the first changes nothing |
| Simulation.InitiateTwice | app.py:1232-1233 | a second start during a run changes nothing, and the run stays active |
| Simulation.FirstSet | app.py:1272-1275 | the index of the first check that sees the flag set: every earlier check saw it clear |
| Simulation.LogAt | app.py:1277-1288 | the log message of step i + 1 carries that entry's severity and message, and its level is the `calculate_threat_level` score `(i + 1) * 70 // n` (n the number of steps) plus that step's drawn bonus, which lies in 0..100 |
| Simulation.LoopEvents | app.py:1272-1289 | check i reads `flagAt(i)`: a set flag queues the aborted error and ends the loop, a clear one queues `LogAt` of step i + 1 and goes on; the loop queues nothing exactly when no step is left (the whole shape is `LoopEventsShape`) |
| Simulation.LoopEventsLength | app.py:1272-1289 | the loop from step i + 1 puts at most one message per remaining step on the queue |
| Simulation.LoopReads | app.py:1271-1274 | the loop reads `stop_simulation_flag` at most once per step; every read but the last was clear, and a loop that stops before the last step stopped on a set read |
| Simulation.Completion | app.py:1291-1297 | the completion message is terminal, carries the entry's verdict and prevention steps, and sets the level to 0 |
| Simulation.Emitted | app.py:1263-1297 | an unknown attack type emits only the unknown-type error; a known one emits at most one message per step and one more |
| Simulation.FinallyClears | app.py:1272-1304 | the `finally` clause clears `is_running` only for a known attack type, and always does when the flag is never set |
| Simulation.FinallyClearsAfterCompletion | app.py:1272-1304 | if the flag never drops back once set, a producer whose `finally` clears `is_running` emitted every step's log message and then the completion |
| Simulation.LogsUpTo | app.py:1272-1288 | the log messages of steps 1..m, in script order |
| Simulation.LoopEventsShape | app.py:1272-1289 | the loop emits the log messages of the steps before the first set check, in order, then the abort error if that check lies inside the script, and nothing else |
| Simulation.EmittedUnknown | app.py:1263-1266 | an unknown attack type emits exactly one error and nothing else, and the `finally` clause is not reached |
| Simulation.AbortSeenAtStep | app.py:1272-1297 | flag first seen set at the check before step k, and still set after the loop: exactly the log messages of steps 1..k-1, then the abort error, and no completion |
| Simulation.RunToCompletion | app.py:1272-1297 | with no abort: every step's log message in script order, then the completion with level 0 |
| Simulation.EmittedLogsFollowScript | app.py:1277-1288 | the j-th log message of any run is `LogAt` of step j + 1 of the script: its severity, its message and its `calculate_threat_level` score |
| Simulation.LoopEventsTerminal | app.py:1272-1289 | the loop never emits a completion; it emits at most one terminal message, as its last, and it ends with one exactly when a check inside the script saw the flag set |
| Simulation.CompletionIffFlagClear | app.py:1291-1297 | a completion is emitted if and only if the attack type is known and the read after the loop sees the flag clear; it is then the last message and carries the entry's verdict and protocols |
| Simulation.TerminalMessages | app.py:1262-1304 | if the flag never drops back once set, a run emits at most one terminal message, as its last; it ends without one exactly when the abort came after the last step was logged |
| Simulation.StaleProducerCompletes | app.py:1272-1297 | if a new start clears the flag after the first check saw it set, the producer emits the abort error and then the completion |
| Simulation.ProduceRun | app.py:1262-1304 | a producer run removes its thread; appends what it emits to the queue; clears `is_running` and the flag exactly when its `finally` read sees the flag clear, and otherwise leaves the flag as it was; leaves level, history, log and recommendation alone; keeps the state well formed |
| Simulation.RunOutcome | app.py:1263-1304 | the body of `run_simulation` only appends to the queue and, in `finally`, clears `is_running` and the flag; the producers, level, history, log and recommendation are left alone |
| Simulation.EventLogEntry | app.py:1309-1323 | each message's log line carries the drain's timestamp: a log message as it came; for a completion, the INFO "Final verdict issued" line that `show_recommendations` writes (app.py:1441); the error text behind the `[SYSTEM FAILURE] ` prefix at CRITICAL |
| Simulation.ApplyEvent | app.py:1309-1329 | each message appends exactly one log line. A log message sets the clamped level. A completion or an error leaves the run inactive with level 0 and zero history, and shows the verdict text or the error text. Well-formedness is kept |
| Simulation.QueueLog | app.py:1308-1329 | one log line per queued message |
| Simulation.QueueLogAt | app.py:1308-1329 | the i-th log line written is the one for the i-th message queued, with the i-th timestamp |
| Simulation.DrainQueueEffect | app.py:1306-1329 | draining leaves the queue empty and appends the log lines of the messages oldest first; flag and producers are untouched and well-formedness is kept |
| Simulation.DrainQueue | app.py:1306-1329 | draining empties the queue, writes one log line per message, and touches neither the flag nor the producers |
| Simulation.DrainQueueLog | app.py:1308-1329 | the log after draining is the old log followed by the messages' lines in FIFO order |
| Simulation.DrainQueueValid | app.py:1308-1329 | draining keeps the state well formed |
| Simulation.DrainQueueRunning | app.py:1308-1329 | after draining, a run is active exactly when it was active before and no queued message was terminal |
| Simulation.DrainQueueLast | app.py:1308-1329 | the newest message decides the level (its clamped level, or 0 with zero history after a terminal message) and which text is shown |
| Simulation.UninterruptedRun | app.py:1232-1333 | start, one unaborted producer run and one drain end the run: level 0, zero history, the verdict and protocols shown, and a log of the START line, one line per step and the verdict line last |
| ThreatMatrix.CyberpunkThreatMatrix.constructor | app.py:949-966 | the window's value is `Start(stamp)`, and its catalog is `ATTACK_DATA` |
| ThreatMatrix.CyberpunkThreatMatrix.LogMessage | app.py:1335-1343 | appends exactly one log line and touches nothing else |
| ThreatMatrix.CyberpunkThreatMatrix.InitiateSimulation | app.py:1232-1248 | performs exactly `Initiate` |
| ThreatMatrix.CyberpunkThreatMatrix.AbortSimulation | app.py:1250-1260 | performs exactly `Abort` |
| ThreatMatrix.CyberpunkThreatMatrix.RunSimulation | app.py:1262-1304 | performs exactly `ProduceRun` on the table the window was built with |
| ThreatMatrix.CyberpunkThreatMatrix.RunAttack | app.py:1263-1304 | filling the queue and then the `finally` clause, which runs only after a successful lookup, together perform exactly `RunOutcome` |
| ThreatMatrix.CyberpunkThreatMatrix.EmitRun | app.py:1263-1297 | the lookup, the loop and the completion check put exactly `Emitted` on the queue, report whether the lookup succeeded, and report `LoopReads` flag reads |
| ThreatMatrix.CyberpunkThreatMatrix.RunScript | app.py:1272-1289 | the for-loop puts exactly `LoopEvents` on the queue, reads the flag `LoopReads` times, and changes nothing else |
| ThreatMatrix.CyberpunkThreatMatrix.PutStep | app.py:1277-1288 | one step of the loop queues exactly `LogAt` for that step and changes nothing else |
| ThreatMatrix.CyberpunkThreatMatrix.ShowRecommendations | app.py:1436-1441 | shows `Recommendations(verdict, prevention)` and logs the verdict line |
| ThreatMatrix.CyberpunkThreatMatrix.Dispatch | app.py:1309-1329 | handling one message performs exactly `ApplyEvent` |
| ThreatMatrix.CyberpunkThreatMatrix.ProcessQueue | app.py:1306-1331 | the while-loop performs exactly `DrainQueue` |

## Left out

- Widget rendering: the animated background, the globe, the glow buttons,
  the traceroute, the status panel, the header animations, the threat meter
  and the data stream. They draw on Tk canvases and have no state that the
  core reads.
- `lerp_color` and every other floating-point computation: projections,
  particle motion and the metric random walk.
- Scoring.CalculateThreatLevel: computes the base term `step / total_steps * 70`
  exactly, as ⌊70·step/total_steps⌋. Cases where IEEE-754 round-off puts the
  float product just below an integer are not captured.
- `SoundManager` and every `play_tone` call: these are subprocess and
  platform calls with no effect on the state.
- Threads, `time.sleep`, `queue.Queue` locking and the `after` timers:
  - A producer run is one atomic step. The flag values it reads are the
    free input `flagAt`, so any pattern of aborts and restarts up to the
    end of the run shapes what the producer emits.
  - Drains that happen in the middle of a run are not modelled. The
    producer puts all of its messages on the queue in that single step, so
    the dispatcher cannot show an early log line, end the run at an error
    or clear `is_running` while the producer is still sleeping. Which
    interleaving actually occurs is not modelled either.
  - The producer's write of `is_running` from its own thread becomes part
    of that step.
  - The repeated scheduling of `process_queue` every 100 ms is left out;
    one call of it is a single drain.
- The `random` module: the bonus comes from the parameter `draw`.
- `datetime.now()`: each log line's timestamp is a parameter.
- Tk `IntVar` and `BooleanVar` become plain fields. `event_generate` becomes
  the two counters `levelUpdates` and `stateChanges`. The handler of the
  threat-level event (app.py:979-980) redraws the meter. The handler of the
  state-change event (app.py:983-989) enables the attack buttons and
  disables the abort button when `is_running` is false, and the reverse
  when it is true. Those button states are not modelled; they follow from
  `isRunning` alone.
- The `except Exception` branch of `run_simulation` (the "Simulation failed"
  error). No statement of the modelled loop can raise once the attack type
  is known.
- `except queue.Empty` in `process_queue`: with a single consumer it cannot
  fire.
- Colors.ParseHexInt and Colors.StrippedHexInt: the white space skipped is only the ASCII space,
  `\t`, `\n`, `\v`, `\f` and `\r`, and digits are only ASCII. The
  separators `\x1c`–`\x1f` are rejected, as Python's `int()` rejects them.
  Python's `int()` also accepts Unicode white space (such as `\x85` or
  `\u2028`) and Unicode digits, and the model rejects them. No colour
  string of the application contains them. An underscore between digits,
  which `int()` also accepts, cannot occur in the two-character slices.
- Events.UpperAscii: upper-cases ASCII letters only. Python's `upper()`
  covers all of Unicode, but attack type names are ASCII.
- The text widget's tags, scrolling and enabled/disabled toggling.
- Fullscreen handling and the other widget set-up of `__init__`.
