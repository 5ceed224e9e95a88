/**
 * The simulation lifecycle of CyberpunkThreatMatrix as a sequential state
 * machine on values: the guarded commands initiate_simulation and
 * abort_simulation, one whole run of the producer run_simulation, and the
 * dispatcher process_queue that drains the message queue in FIFO order.
 *
 * The producer is one step of this machine. What the presentation thread
 * does while it sleeps is summed up by `flagAt`: the value of
 * stop_simulation_flag at the producer's k-th read of it. Random draws come
 * from `draw`, and timestamps are given with each command.
 */
module Simulation {
  import opened Scoring
  import opened Catalog
  import opened State
  import opened Events

  const UnknownAttackMessage: string := "Unknown attack type."
  const AbortedMessage: string := "Simulation aborted by user."
  const AbortRequestMessage: string := "User requested abort. Attempting to stop simulation..."
  const VerdictIssuedMessage: string := "Final verdict issued. Recommendations updated."
  const InitMessage: string := "[INIT] ▶ System online. Neural network synchronized."
  const FailurePrefix: string := "[SYSTEM FAILURE] "
  const AwaitingText: string := "⟫ Awaiting simulation initiation..."
  const ActiveText: string := "⟫ Simulation active. Analyzing threat vector..."
  const ErrorText: string := "⚠ ERROR: Simulation terminated unexpectedly or aborted."

  /**
   * Everything of the application the core reads or writes: the shared
   * AppState, stop_simulation_flag, msg_queue, the lines of the log widget,
   * the text of the recommendations label and the attack types of the producer
   * threads started and not yet run.
   */
  datatype AppView = AppView(state: StateView, stopFlag: bool, queue: seq<Event>,
                             log: seq<LogEntry>, recommendation: string, threads: seq<string>)

  ghost predicate Valid(a: AppView) {
    Wellformed(a.state)
  }

  /** `CyberpunkThreatMatrix.__init__`: fresh state, empty queue, the INIT line logged. */
  function Start(stamp: string): (a: AppView)
    ensures Valid(a) && !a.state.isRunning && !a.stopFlag && a.queue == [] && a.threads == []
  {
    AppView(Initial(), false, [], [LogEntry(stamp, Info, InitMessage)], AwaitingText, [])
  }

  // ---------------------------------------------------------------- commands

  /**
   * initiate_simulation: ignored while a run is active; otherwise marks the
   * run active, clears the stop flag, writes 0 to the level, resets the
   * history, replaces the log by the START line and starts one producer.
   */
  function Initiate(a: AppView, attackType: string, stamp: string): (r: AppView)
    ensures a.state.isRunning ==> r == a
    ensures !a.state.isRunning ==>
              && r.state.isRunning && !r.stopFlag
              && r.state.threatLevel == 0 && r.state.history == Zeros(MaxThreatHistory)
              && r.queue == a.queue
              && r.threads == a.threads + [attackType]
              && r.log == [LogEntry(stamp, Critical, StartMessage(attackType))]
              && r.recommendation == ActiveText
    ensures Valid(a) ==> Valid(r)
  {
    if a.state.isRunning then a
    else
      var s := Reset(SetLevel(SetRunning(a.state, true), 0));
      a.(state := s, stopFlag := false,
         log := [LogEntry(stamp, Critical, StartMessage(attackType))],
         recommendation := ActiveText, threads := a.threads + [attackType])
  }

  /**
   * abort_simulation: ignored unless a run is active; otherwise sets the
   * stop flag, logs the request, marks the run inactive and resets the history.
   */
  function Abort(a: AppView, stamp: string): (r: AppView)
    ensures !a.state.isRunning ==> r == a
    ensures a.state.isRunning ==>
              && r.stopFlag && !r.state.isRunning
              && r.state.threatLevel == 0 && r.state.history == Zeros(MaxThreatHistory)
              && r.log == a.log + [LogEntry(stamp, Warning, AbortRequestMessage)]
              && r.queue == a.queue && r.threads == a.threads && r.recommendation == a.recommendation
    ensures Valid(a) ==> Valid(r)
  {
    if !a.state.isRunning then a
    else
      a.(stopFlag := true,
         log := a.log + [LogEntry(stamp, Warning, AbortRequestMessage)],
         state := Reset(SetRunning(a.state, false)))
  }

  /** A second abort right after the first changes nothing. */
  lemma AbortIdempotent(a: AppView, stamp1: string, stamp2: string)
    ensures Abort(Abort(a, stamp1), stamp2) == Abort(a, stamp1)
  {
  }

  /** Starting while a run is active fails silently: the second start changes nothing and the run stays active. */
  lemma InitiateTwice(a: AppView, first: string, second: string, stamp1: string, stamp2: string)
    ensures Initiate(Initiate(a, first, stamp1), second, stamp2) == Initiate(a, first, stamp1)
    ensures Initiate(Initiate(a, first, stamp1), second, stamp2).state.isRunning
  {
  }

  // ---------------------------------------------------------------- the producer

  /** The first index in [i, n) at which the flag is read as set, or n. */
  function FirstSet(flagAt: nat -> bool, i: nat, n: nat): (k: nat)
    requires i <= n
    ensures i <= k <= n
    ensures forall j :: i <= j < k ==> !flagAt(j)
    ensures k < n ==> flagAt(k)
    decreases n - i
  {
    if i == n then n else if flagAt(i) then i else FirstSet(flagAt, i + 1, n)
  }

  /** The `log` message for step i + 1 of the script. */
  function LogAt(info: AttackInfo, i: nat, draw: nat -> nat): (e: Event)
    requires i < |info.logs|
    ensures e.LogEvent? && e.severity == info.logs[i].severity && e.message == info.logs[i].message
    ensures e.threatLevel == (i + 1) * RampMax / |info.logs| + Draw(info.logs[i].severity, draw(i))
    ensures 0 <= e.threatLevel <= MaxThreatLevel
  {
    var step := info.logs[i];
    ThreatLevelInRun(i + 1, |info.logs|, step.severity, Draw(step.severity, draw(i)));
    LogEvent(step.severity, step.message,
             CalculateThreatLevel(i + 1, |info.logs|, step.severity, Draw(step.severity, draw(i))))
  }

  /** What the for-loop of run_simulation puts on the queue from step i + 1 on; check i reads flagAt(i). */
  function LoopEvents(info: AttackInfo, i: nat, flagAt: nat -> bool, draw: nat -> nat): (r: seq<Event>)
    requires i <= |info.logs|
    ensures r == [] <==> i == |info.logs|
    decreases |info.logs| - i
  {
    if i == |info.logs| then []
    else if flagAt(i) then [ErrorEvent(AbortedMessage)]
    else [LogAt(info, i, draw)] + LoopEvents(info, i + 1, flagAt, draw)
  }

  /** The loop from step i + 1 on puts at most one message per remaining step on the queue. */
  lemma {:induction false} LoopEventsLength(info: AttackInfo, i: nat, flagAt: nat -> bool, draw: nat -> nat)
    requires i <= |info.logs|
    ensures |LoopEvents(info, i, flagAt, draw)| <= |info.logs| - i
    decreases |info.logs| - i
  {
    if i < |info.logs| && !flagAt(i) {
      LoopEventsLength(info, i + 1, flagAt, draw);
    }
  }

  /** How many times the loop read the flag: up to and including the first set reading. */
  function LoopReads(info: AttackInfo, flagAt: nat -> bool): (count: nat)
    ensures count <= |info.logs|
    ensures forall j :: 0 <= j < count - 1 ==> !flagAt(j)
    ensures count < |info.logs| ==> count > 0 && flagAt(count - 1)
  {
    var k := FirstSet(flagAt, 0, |info.logs|);
    if k < |info.logs| then k + 1 else k
  }

  /** The completion message drawn from the catalog entry, with level 0. */
  function Completion(info: AttackInfo): (e: Event)
    ensures e.Terminal() && e.AttackComplete?
    ensures e.verdict == info.verdict && e.prevention == info.prevention && e.threatLevel == 0
  {
    AttackComplete(info.verdict, info.prevention, 0)
  }

  /**
   * Everything one run of run_simulation puts on the queue: an error for an
   * unknown key; otherwise the loop's messages, then the completion message
   * if the read after the loop finds the flag clear. At most one message per
   * step and one more.
   */
  function Emitted(catalog: map<string, AttackInfo>, attackType: string,
                   flagAt: nat -> bool, draw: nat -> nat): (e: seq<Event>)
    ensures attackType !in catalog ==> e == [ErrorEvent(UnknownAttackMessage)]
    ensures attackType in catalog ==> |e| <= |catalog[attackType].logs| + 1
  {
    if attackType !in catalog then [ErrorEvent(UnknownAttackMessage)]
    else
      var info := catalog[attackType];
      LoopEventsLength(info, 0, flagAt, draw);
      LoopEvents(info, 0, flagAt, draw)
      + (if !flagAt(LoopReads(info, flagAt)) then [Completion(info)] else [])
  }

  /**
   * The `finally` of run_simulation: on its own read of a clear flag the
   * producer clears is_running. It does not run for an unknown key, whose
   * early return lies outside the `try`, and always runs when the flag is
   * never set.
   */
  function FinallyClears(catalog: map<string, AttackInfo>, attackType: string, flagAt: nat -> bool): (clears: bool)
    ensures clears ==> attackType in catalog
    ensures attackType in catalog && (forall j: nat :: !flagAt(j)) ==> clears
  {
    attackType in catalog && !flagAt(LoopReads(catalog[attackType], flagAt) + 1)
  }

  /** The log messages of steps 1..m, in script order. */
  function LogsUpTo(info: AttackInfo, m: nat, draw: nat -> nat): (s: seq<Event>)
    requires m <= |info.logs|
    ensures |s| == m && forall j :: 0 <= j < m ==> s[j] == LogAt(info, j, draw)
  {
    seq(m, j requires 0 <= j < m => LogAt(info, j, draw))
  }

  /**
   * The loop emits the log messages of the steps before the first set
   * reading, in script order, then the abort error if that reading lies inside
   * the script, and nothing else.
   */
  lemma {:induction false} LoopEventsShape(info: AttackInfo, i: nat, flagAt: nat -> bool, draw: nat -> nat)
    requires i <= |info.logs|
    ensures var k := FirstSet(flagAt, i, |info.logs|);
            LoopEvents(info, i, flagAt, draw)
            == seq(k - i, j requires 0 <= j < k - i => LogAt(info, i + j, draw))
               + (if k < |info.logs| then [ErrorEvent(AbortedMessage)] else [])
    decreases |info.logs| - i
  {
    var n := |info.logs|;
    var k := FirstSet(flagAt, i, n);
    if i == n {
    } else if flagAt(i) {
      assert k == i;
    } else {
      LoopEventsShape(info, i + 1, flagAt, draw);
      var rest := seq(k - (i + 1), j requires 0 <= j < k - (i + 1) => LogAt(info, i + 1 + j, draw));
      assert seq(k - i, j requires 0 <= j < k - i => LogAt(info, i + j, draw)) == [LogAt(info, i, draw)] + rest;
    }
  }

  /** run_simulation for an identifier missing from the catalog: exactly one error and nothing else. */
  lemma EmittedUnknown(catalog: map<string, AttackInfo>, attackType: string, flagAt: nat -> bool, draw: nat -> nat)
    requires attackType !in catalog
    ensures Emitted(catalog, attackType, flagAt, draw) == [ErrorEvent(UnknownAttackMessage)]
    ensures !FinallyClears(catalog, attackType, flagAt)
  {
  }

  /**
   * The flag first read as set at the check before step k: exactly the log
   * messages of steps 1..k-1, then the abort error; and if the flag is still
   * set when read after the loop, no completion.
   */
  lemma AbortSeenAtStep(catalog: map<string, AttackInfo>, attackType: string,
                        flagAt: nat -> bool, draw: nat -> nat, k: nat)
    requires attackType in catalog
    requires 1 <= k <= |catalog[attackType].logs|
    requires forall j :: 0 <= j < k - 1 ==> !flagAt(j)
    requires flagAt(k - 1) && flagAt(k)
    ensures Emitted(catalog, attackType, flagAt, draw)
            == LogsUpTo(catalog[attackType], k - 1, draw) + [ErrorEvent(AbortedMessage)]
  {
    var info := catalog[attackType];
    assert FirstSet(flagAt, 0, |info.logs|) == k - 1;
    LoopEventsShape(info, 0, flagAt, draw);
    assert LoopReads(info, flagAt) == k;
    assert seq(k - 1, j requires 0 <= j < k - 1 => LogAt(info, 0 + j, draw)) == LogsUpTo(info, k - 1, draw);
  }

  /** Without an abort: every step's log message in script order, then the completion with level 0. */
  lemma RunToCompletion(catalog: map<string, AttackInfo>, attackType: string,
                        flagAt: nat -> bool, draw: nat -> nat)
    requires attackType in catalog
    requires forall j :: 0 <= j <= |catalog[attackType].logs| ==> !flagAt(j)
    ensures Emitted(catalog, attackType, flagAt, draw)
            == LogsUpTo(catalog[attackType], |catalog[attackType].logs|, draw) + [Completion(catalog[attackType])]
  {
    var info := catalog[attackType];
    var n := |info.logs|;
    assert FirstSet(flagAt, 0, n) == n;
    LoopEventsShape(info, 0, flagAt, draw);
    assert LoopReads(info, flagAt) == n;
    assert seq(n, j requires 0 <= j < n => LogAt(info, 0 + j, draw)) == LogsUpTo(info, n, draw);
  }

  /** Every log message of a run carries the script entry of its position and a level in 0..100. */
  lemma EmittedLogsFollowScript(catalog: map<string, AttackInfo>, attackType: string,
                                flagAt: nat -> bool, draw: nat -> nat, j: nat)
    requires j < |Emitted(catalog, attackType, flagAt, draw)|
    requires Emitted(catalog, attackType, flagAt, draw)[j].LogEvent?
    ensures attackType in catalog && j < |catalog[attackType].logs|
    ensures Emitted(catalog, attackType, flagAt, draw)[j] == LogAt(catalog[attackType], j, draw)
  {
    var info := catalog[attackType];
    LoopEventsShape(info, 0, flagAt, draw);
  }

  /** The loop itself never emits a completion, and at most one terminal message, as its last. */
  lemma LoopEventsTerminal(info: AttackInfo, flagAt: nat -> bool, draw: nat -> nat)
    ensures var l := LoopEvents(info, 0, flagAt, draw);
            && (forall j :: 0 <= j < |l| ==> !l[j].AttackComplete?)
            && (forall j :: 0 <= j < |l| - 1 ==> !l[j].Terminal())
            && (|l| > 0 && l[|l| - 1].Terminal() <==> FirstSet(flagAt, 0, |info.logs|) < |info.logs|)
  {
    var k := FirstSet(flagAt, 0, |info.logs|);
    var logs := seq(k, j requires 0 <= j < k => LogAt(info, 0 + j, draw));
    var tail: seq<Event> := if k < |info.logs| then [ErrorEvent(AbortedMessage)] else [];
    LoopEventsShape(info, 0, flagAt, draw);
    var l := LoopEvents(info, 0, flagAt, draw);
    assert l == logs + tail;
    assert forall j :: 0 <= j < k ==> l[j] == logs[j] && logs[j].LogEvent?;
    assert |l| == k + |tail|;
  }

  /** A completion message is emitted exactly when the flag is read clear after the loop, and only last. */
  lemma CompletionIffFlagClear(catalog: map<string, AttackInfo>, attackType: string,
                               flagAt: nat -> bool, draw: nat -> nat)
    ensures var e := Emitted(catalog, attackType, flagAt, draw);
            (exists j :: 0 <= j < |e| && e[j].AttackComplete?)
            <==> (attackType in catalog && !flagAt(LoopReads(catalog[attackType], flagAt)))
    ensures var e := Emitted(catalog, attackType, flagAt, draw);
            forall j :: 0 <= j < |e| && e[j].AttackComplete? ==>
              j == |e| - 1 && e[j] == Completion(catalog[attackType])
  {
    var e := Emitted(catalog, attackType, flagAt, draw);
    if attackType in catalog {
      var info := catalog[attackType];
      var l := LoopEvents(info, 0, flagAt, draw);
      LoopEventsTerminal(info, flagAt, draw);
      if !flagAt(LoopReads(info, flagAt)) {
        assert e == l + [Completion(info)];
        assert e[|e| - 1].AttackComplete?;
      } else {
        assert e == l;
      }
    }
  }

  /**
   * Once set the flag stays set (no new run cleared it meanwhile): a run
   * emits at most one terminal message, as its last, and none only when the
   * abort came after the last step was already logged.
   */
  lemma TerminalMessages(catalog: map<string, AttackInfo>, attackType: string,
                         flagAt: nat -> bool, draw: nat -> nat)
    requires forall j: nat :: flagAt(j) ==> flagAt(j + 1)
    ensures var e := Emitted(catalog, attackType, flagAt, draw);
            forall j :: 0 <= j < |e| - 1 ==> !e[j].Terminal()
    ensures var e := Emitted(catalog, attackType, flagAt, draw);
            (|e| > 0 && e[|e| - 1].Terminal())
            <==> !(attackType in catalog && FirstSet(flagAt, 0, |catalog[attackType].logs|) == |catalog[attackType].logs|
                   && flagAt(|catalog[attackType].logs|))
  {
    var e := Emitted(catalog, attackType, flagAt, draw);
    if attackType in catalog {
      var info := catalog[attackType];
      var n := |info.logs|;
      var k := FirstSet(flagAt, 0, n);
      var l := LoopEvents(info, 0, flagAt, draw);
      LoopEventsTerminal(info, flagAt, draw);
      if k < n {
        assert LoopReads(info, flagAt) == k + 1;
        assert flagAt(k + 1);
        assert e == l;
      } else if flagAt(n) {
        assert e == l;
      } else {
        assert e == l + [Completion(info)];
      }
    }
  }

  /**
   * Without that assumption the shared flag lets a stale producer finish: a
   * producer that saw the abort, but reads the flag after a new start has
   * cleared it, emits the abort error and then the completion.
   */
  lemma StaleProducerCompletes(catalog: map<string, AttackInfo>, attackType: string,
                               flagAt: nat -> bool, draw: nat -> nat)
    requires attackType in catalog && |catalog[attackType].logs| > 0
    requires flagAt(0) && !flagAt(1)
    ensures Emitted(catalog, attackType, flagAt, draw)
            == [ErrorEvent(AbortedMessage), Completion(catalog[attackType])]
  {
    var info := catalog[attackType];
    assert FirstSet(flagAt, 0, |info.logs|) == 0;
  }

  /**
   * Once set the flag stays set: a producer whose `finally` clears
   * is_running saw no abort and emitted every step's log message and then
   * the completion.
   */
  lemma FinallyClearsAfterCompletion(catalog: map<string, AttackInfo>, attackType: string,
                                     flagAt: nat -> bool, draw: nat -> nat)
    requires forall j: nat :: flagAt(j) ==> flagAt(j + 1)
    requires FinallyClears(catalog, attackType, flagAt)
    ensures Emitted(catalog, attackType, flagAt, draw)
            == LogsUpTo(catalog[attackType], |catalog[attackType].logs|, draw) + [Completion(catalog[attackType])]
  {
    var info := catalog[attackType];
    var n := |info.logs|;
    var k := FirstSet(flagAt, 0, n);
    var m := LoopReads(info, flagAt);
    var m1, k1 := m + 1, k + 1;
    assert !flagAt(m) by {
      assert flagAt(m) ==> flagAt(m1);
    }
    assert !flagAt(k) by {
      assert flagAt(k) ==> flagAt(k1);
    }
    assert k == n && m == n;
    LoopEventsShape(info, 0, flagAt, draw);
    assert seq(n, j requires 0 <= j < n => LogAt(info, 0 + j, draw)) == LogsUpTo(info, n, draw);
  }

  /**
   * One run of producer thread t (alone on the queue): removes the thread,
   * appends what it emits and applies its `finally`.
   */
  function ProduceRun(a: AppView, catalog: map<string, AttackInfo>, t: nat,
                      flagAt: nat -> bool, draw: nat -> nat): (r: AppView)
    requires t < |a.threads|
    ensures r.queue == a.queue + Emitted(catalog, a.threads[t], flagAt, draw)
    ensures r.threads == a.threads[..t] + a.threads[t + 1..]
    ensures r.log == a.log && r.recommendation == a.recommendation
    ensures r.state.isRunning == (a.state.isRunning && !FinallyClears(catalog, a.threads[t], flagAt))
    ensures r.stopFlag == (if FinallyClears(catalog, a.threads[t], flagAt) then false else a.stopFlag)
    ensures r.state.threatLevel == a.state.threatLevel && r.state.history == a.state.history
    ensures Valid(a) ==> Valid(r)
  {
    RunOutcome(a.(threads := a.threads[..t] + a.threads[t + 1..]), catalog, a.threads[t], flagAt, draw)
  }

  /**
   * What the body of run_simulation does for one attack type, once its
   * thread is gone: it only appends to the queue and, in its `finally`,
   * clears is_running and the flag; the level, the history and the widgets
   * stay as they were.
   */
  function RunOutcome(a: AppView, catalog: map<string, AttackInfo>, attackType: string,
                      flagAt: nat -> bool, draw: nat -> nat): (r: AppView)
    ensures r.queue == a.queue + Emitted(catalog, attackType, flagAt, draw)
    ensures r.threads == a.threads && r.log == a.log && r.recommendation == a.recommendation
    ensures r.state.isRunning == (a.state.isRunning && !FinallyClears(catalog, attackType, flagAt))
    ensures r.stopFlag == (if FinallyClears(catalog, attackType, flagAt) then false else a.stopFlag)
    ensures r.state.threatLevel == a.state.threatLevel && r.state.history == a.state.history
    ensures Valid(a) ==> Valid(r)
  {
    var a' := a.(queue := a.queue + Emitted(catalog, attackType, flagAt, draw));
    if FinallyClears(catalog, attackType, flagAt) then
      a'.(state := SetRunning(a'.state, false), stopFlag := false)
    else a'
  }

  // ---------------------------------------------------------------- the dispatcher

  /**
   * The log line process_queue writes for each message, under the given
   * timestamp: a log message as it came, the verdict notice at INFO for a
   * completion, and the error text behind the failure prefix at CRITICAL.
   */
  function EventLogEntry(e: Event, stamp: string): (l: LogEntry)
    ensures l.stamp == stamp
    ensures e.LogEvent? ==> l.severity == e.severity && l.message == e.message
    ensures e.AttackComplete? ==> l.severity == Info && l.message == VerdictIssuedMessage
    ensures e.ErrorEvent? ==> l.severity == Critical && |FailurePrefix| <= |l.message|
                              && l.message[..|FailurePrefix|] == FailurePrefix
                              && l.message[|FailurePrefix|..] == e.message
    ensures e.Terminal() ==> KnownSeverity(l.severity)
  {
    match e
    case LogEvent(severity, message, _) => LogEntry(stamp, severity, message)
    case AttackComplete(_, _, _) => LogEntry(stamp, Info, VerdictIssuedMessage)
    case ErrorEvent(message) =>
      var m := FailurePrefix + message;
      assert m[..|FailurePrefix|] == FailurePrefix && m[|FailurePrefix|..] == message;
      LogEntry(stamp, Critical, m)
  }

  /**
   * One branch of process_queue: a log message is logged and its level
   * stored through the setter; a completion or an error ends the run (flag
   * and history reset) and updates the recommendations label.
   */
  function ApplyEvent(a: AppView, e: Event, stamp: string): (r: AppView)
    ensures r.log == a.log + [EventLogEntry(e, stamp)]
    ensures r.queue == a.queue && r.threads == a.threads && r.stopFlag == a.stopFlag
    ensures e.LogEvent? ==> r.state == SetLevel(a.state, e.threatLevel) && r.recommendation == a.recommendation
    ensures e.Terminal() ==>
              !r.state.isRunning && r.state.threatLevel == 0 && r.state.history == Zeros(MaxThreatHistory)
    ensures e.AttackComplete? ==> r.recommendation == Recommendations(e.verdict, e.prevention)
    ensures e.ErrorEvent? ==> r.recommendation == ErrorText
    ensures Valid(a) ==> Valid(r)
  {
    match e
    case LogEvent(severity, message, level) =>
      a.(log := a.log + [LogEntry(stamp, severity, message)], state := SetLevel(a.state, level))
    case AttackComplete(verdict, prevention, _) =>
      a.(state := Reset(SetRunning(a.state, false)),
         recommendation := Recommendations(verdict, prevention),
         log := a.log + [LogEntry(stamp, Info, VerdictIssuedMessage)])
    case ErrorEvent(message) =>
      a.(log := a.log + [LogEntry(stamp, Critical, FailurePrefix + message)],
         recommendation := ErrorText,
         state := Reset(SetRunning(a.state, false)))
  }

  /** process_queue: applies the queued messages oldest first, one timestamp per log line written. */
  function DrainQueue(a: AppView, stamps: seq<string>): (r: AppView)
    requires |stamps| == |a.queue|
    ensures r.queue == []
    ensures r.stopFlag == a.stopFlag && r.threads == a.threads
    ensures |r.log| == |a.log| + |a.queue|
    decreases |a.queue|
  {
    if a.queue == [] then a
    else DrainQueue(ApplyEvent(a.(queue := a.queue[1..]), a.queue[0], stamps[0]), stamps[1..])
  }

  /** The log lines of a queue in the order it was filled. */
  function QueueLog(q: seq<Event>, stamps: seq<string>): (s: seq<LogEntry>)
    requires |stamps| == |q|
    ensures |s| == |q|
  {
    if q == [] then [] else [EventLogEntry(q[0], stamps[0])] + QueueLog(q[1..], stamps[1..])
  }

  /** The i-th line written is the one for the i-th message queued, with the i-th stamp. */
  lemma {:induction false} QueueLogAt(q: seq<Event>, stamps: seq<string>, i: nat)
    requires |stamps| == |q| && i < |q|
    ensures QueueLog(q, stamps)[i] == EventLogEntry(q[i], stamps[i])
  {
    if i > 0 {
      QueueLogAt(q[1..], stamps[1..], i - 1);
    }
  }

  /**
   * Draining leaves the queue empty, appends one log line per message in
   * FIFO order, leaves the flag and the threads alone, and keeps the state
   * well formed.
   */
  lemma DrainQueueEffect(a: AppView, stamps: seq<string>)
    requires |stamps| == |a.queue|
    ensures DrainQueue(a, stamps).queue == []
    ensures DrainQueue(a, stamps).log == a.log + QueueLog(a.queue, stamps)
    ensures DrainQueue(a, stamps).stopFlag == a.stopFlag && DrainQueue(a, stamps).threads == a.threads
    ensures Valid(a) ==> Valid(DrainQueue(a, stamps))
  {
    DrainQueueLog(a, stamps);
    if Valid(a) {
      DrainQueueValid(a, stamps);
    }
  }

  lemma {:induction false} DrainQueueLog(a: AppView, stamps: seq<string>)
    requires |stamps| == |a.queue|
    ensures DrainQueue(a, stamps).log == a.log + QueueLog(a.queue, stamps)
    decreases |a.queue|
  {
    if a.queue == [] {
      assert QueueLog(a.queue, stamps) == [];
    } else {
      var b := ApplyEvent(a.(queue := a.queue[1..]), a.queue[0], stamps[0]);
      var e := [EventLogEntry(a.queue[0], stamps[0])];
      var rest := QueueLog(a.queue[1..], stamps[1..]);
      assert DrainQueue(a, stamps).log == b.log + rest by {
        assert b.queue == a.queue[1..];
        DrainQueueLog(b, stamps[1..]);
      }
      assert b.log == a.log + e;
      assert QueueLog(a.queue, stamps) == e + rest;
    }
  }

  lemma {:induction false} DrainQueueValid(a: AppView, stamps: seq<string>)
    requires |stamps| == |a.queue| && Valid(a)
    ensures Valid(DrainQueue(a, stamps))
    decreases |a.queue|
  {
    if a.queue != [] {
      var b := ApplyEvent(a.(queue := a.queue[1..]), a.queue[0], stamps[0]);
      DrainQueueValid(b, stamps[1..]);
    }
  }

  /** After draining, the run is active exactly when it was before and no message on the queue ended it. */
  lemma {:induction false} DrainQueueRunning(a: AppView, stamps: seq<string>)
    requires |stamps| == |a.queue|
    ensures DrainQueue(a, stamps).state.isRunning
            == (a.state.isRunning && forall i :: 0 <= i < |a.queue| ==> !a.queue[i].Terminal())
    decreases |a.queue|
  {
    if a.queue != [] {
      var b := ApplyEvent(a.(queue := a.queue[1..]), a.queue[0], stamps[0]);
      DrainQueueRunning(b, stamps[1..]);
      assert forall i :: 1 <= i < |a.queue| ==> a.queue[i] == b.queue[i - 1];
    }
  }

  /**
   * The level after draining is set by the newest message: its clamped level
   * for a log message, and 0 with an all-zero history for a completion or an
   * error, which also leave their text in the recommendations label.
   */
  lemma {:induction false} DrainQueueLast(a: AppView, stamps: seq<string>)
    requires |stamps| == |a.queue| && a.queue != []
    ensures var last, r := a.queue[|a.queue| - 1], DrainQueue(a, stamps);
            && (last.LogEvent? ==> r.state.threatLevel == Clamp(last.threatLevel))
            && (last.Terminal() ==>
                  r.state.threatLevel == 0 && r.state.history == Zeros(MaxThreatHistory) && !r.state.isRunning)
            && (last.AttackComplete? ==> r.recommendation == Recommendations(last.verdict, last.prevention))
            && (last.ErrorEvent? ==> r.recommendation == ErrorText)
    decreases |a.queue|
  {
    var b := ApplyEvent(a.(queue := a.queue[1..]), a.queue[0], stamps[0]);
    if b.queue != [] {
      DrainQueueLast(b, stamps[1..]);
      assert b.queue[|b.queue| - 1] == a.queue[|a.queue| - 1];
    } else {
      assert DrainQueue(b, stamps[1..]) == b;
    }
  }

  /**
   * A run nobody aborts, from an idle window: after the start, the whole
   * producer run and one drain of the queue, the run is over, the gauge and
   * its history are back at zero, the verdict and prevention protocols are
   * shown, and the log holds the START line, one line per step and the
   * verdict line.
   */
  lemma UninterruptedRun(a: AppView, catalog: map<string, AttackInfo>, attackType: string,
                         stamp: string, draw: nat -> nat, stamps: seq<string>)
    requires Valid(a) && !a.state.isRunning && a.queue == []
    requires attackType in catalog && |stamps| == |catalog[attackType].logs| + 1
    ensures var info, b := catalog[attackType], Initiate(a, attackType, stamp);
            var c := ProduceRun(b, catalog, |b.threads| - 1, (j: nat) => false, draw);
            && c.queue == LogsUpTo(info, |info.logs|, draw) + [Completion(info)]
            && |stamps| == |c.queue|
            && var d := DrainQueue(c, stamps);
               && Valid(d) && !d.state.isRunning && !d.stopFlag && d.queue == []
               && d.state.threatLevel == 0 && d.state.history == Zeros(MaxThreatHistory)
               && d.recommendation == Recommendations(info.verdict, info.prevention)
               && d.log == [LogEntry(stamp, Critical, StartMessage(attackType))] + QueueLog(c.queue, stamps)
               && d.log[|d.log| - 1] == LogEntry(stamps[|stamps| - 1], Info, VerdictIssuedMessage)
  {
    var info, b := catalog[attackType], Initiate(a, attackType, stamp);
    var never := (j: nat) => false;
    var c := ProduceRun(b, catalog, |b.threads| - 1, never, draw);
    assert b.threads[|b.threads| - 1] == attackType;
    RunToCompletion(catalog, attackType, never, draw);
    assert c.queue == LogsUpTo(info, |info.logs|, draw) + [Completion(info)];
    DrainQueueEffect(c, stamps);
    DrainQueueLast(c, stamps);
    var d := DrainQueue(c, stamps);
    QueueLogAt(c.queue, stamps, |c.queue| - 1);
    assert d.log[|d.log| - 1] == QueueLog(c.queue, stamps)[|c.queue| - 1];
  }
}
