/**
 * The simulation core of the CyberpunkThreatMatrix window: the fields the
 * core shares with the producer thread and the methods that change them,
 * each proved to change the application exactly as the corresponding
 * transition function of module Simulation says.
 */
module ThreatMatrix {
  import opened Scoring
  import opened Catalog
  import opened State
  import opened Events
  import opened Simulation

  class CyberpunkThreatMatrix {
    const state: AppState
    /** the module-level ATTACK_DATA table the producer looks attack types up in */
    const catalog: map<string, AttackInfo>
    var stopSimulationFlag: bool
    /** msg_queue, oldest message first */
    var msgQueue: seq<Event>
    /** the lines of the log widget */
    var log: seq<LogEntry>
    /** the text of the recommendations label */
    var recommendation: string
    /** the attack types of the producer threads started and not yet run */
    var threads: seq<string>

    ghost predicate Valid()
      reads this, state, state.data
    {
      state.Valid()
    }

    ghost function View(): AppView
      reads this, state, state.data
      requires state.Shaped()
    {
      AppView(state.View(), stopSimulationFlag, msgQueue, log, recommendation, threads)
    }

    constructor (stamp: string)
      ensures Valid() && fresh(state) && fresh(state.data)
      ensures View() == Start(stamp)
      ensures catalog == AttackData()
    {
      state := new AppState();
      catalog := AttackData();
      stopSimulationFlag := false;
      msgQueue := [];
      log := [LogEntry(stamp, Info, InitMessage)];
      recommendation := AwaitingText;
      threads := [];
    }

    /** log_message: appends one line; the timestamp is the clock reading `stamp`. */
    method LogMessage(message: string, severity: string, stamp: string)
      modifies this
      ensures log == old(log) + [LogEntry(stamp, severity, message)]
      ensures stopSimulationFlag == old(stopSimulationFlag) && msgQueue == old(msgQueue)
      ensures recommendation == old(recommendation) && threads == old(threads)
    {
      log := log + [LogEntry(stamp, severity, message)];
    }

    method InitiateSimulation(attackType: string, stamp: string)
      requires Valid()
      modifies this, state, state.data
      ensures Valid()
      ensures View() == Initiate(old(View()), attackType, stamp)
    {
      if state.isRunning {
        return;
      }
      state.SetIsRunning(true);
      stopSimulationFlag := false;
      state.SetThreatLevel(0);
      state.ResetHistory();
      log := [];
      LogMessage(StartMessage(attackType), Critical, stamp);
      recommendation := ActiveText;
      // The new producer thread is only recorded here; RunSimulation runs it.
      threads := threads + [attackType];
    }

    method AbortSimulation(stamp: string)
      requires Valid()
      modifies this, state, state.data
      ensures Valid()
      ensures View() == Abort(old(View()), stamp)
    {
      if !state.isRunning {
        return;
      }
      stopSimulationFlag := true;
      LogMessage(AbortRequestMessage, Warning, stamp);
      state.SetIsRunning(false);
      state.ResetHistory();
    }

    /**
     * run_simulation, executed by producer thread t: the k-th read of
     * stop_simulation_flag sees flagAt(k), and the draw for step i + 1 is draw(i).
     */
    method RunSimulation(t: nat, flagAt: nat -> bool, draw: nat -> nat)
      requires Valid() && t < |threads|
      modifies this, state, state.data
      ensures Valid()
      ensures View() == ProduceRun(old(View()), catalog, t, flagAt, draw)
    {
      var attackType := threads[t];
      threads := threads[..t] + threads[t + 1..];
      RunAttack(attackType, flagAt, draw);
    }

    /** The try/finally of run_simulation for one attack type, looked up in the catalog. */
    method RunAttack(attackType: string, flagAt: nat -> bool, draw: nat -> nat)
      requires Valid()
      modifies this, state, state.data
      ensures Valid()
      ensures View() == RunOutcome(old(View()), catalog, attackType, flagAt, draw)
    {
      var known, flagReads := EmitRun(attackType, flagAt, draw);
      // the finally clause, reached only once the lookup succeeded
      if known && !flagAt(flagReads + 1) {
        state.SetIsRunning(false);
        stopSimulationFlag := false;
      }
    }

    /**
     * The part of run_simulation that fills the queue: the lookup with its
     * early return, the loop and the completion check. Reports whether the
     * lookup succeeded and how often the flag was read.
     */
    method EmitRun(attackType: string, flagAt: nat -> bool, draw: nat -> nat) returns (known: bool, flagReads: nat)
      modifies this`msgQueue
      ensures msgQueue == old(msgQueue) + Emitted(catalog, attackType, flagAt, draw)
      ensures known == (attackType in catalog)
      ensures known ==> flagReads == LoopReads(catalog[attackType], flagAt)
    {
      if attackType !in catalog {
        msgQueue := msgQueue + [ErrorEvent(UnknownAttackMessage)];
        return false, 0;
      }
      var info := catalog[attackType];
      known := true;
      flagReads := RunScript(info, flagAt, draw);
      if !flagAt(flagReads) {
        msgQueue := msgQueue + [AttackComplete(info.verdict, info.prevention, 0)];
      }
    }

    /**
     * The for-loop of run_simulation: before each step it reads the flag and
     * stops with the abort error if it is set; otherwise it scores the step
     * and queues its log message. Returns how often it read the flag.
     */
    method RunScript(info: AttackInfo, flagAt: nat -> bool, draw: nat -> nat) returns (flagReads: nat)
      modifies this`msgQueue
      ensures msgQueue == old(msgQueue) + LoopEvents(info, 0, flagAt, draw)
      ensures flagReads == LoopReads(info, flagAt)
      ensures threads == old(threads) && log == old(log) && recommendation == old(recommendation)
      ensures stopSimulationFlag == old(stopSimulationFlag)
    {
      var logs := info.logs;
      var totalSteps := |logs|;
      flagReads := 0;
      var i := 0;
      while i < totalSteps
        invariant 0 <= i <= totalSteps && flagReads == i
        invariant forall j :: 0 <= j < i ==> !flagAt(j)
        invariant msgQueue + LoopEvents(info, i, flagAt, draw) == old(msgQueue) + LoopEvents(info, 0, flagAt, draw)
      {
        var stop := flagAt(flagReads);
        flagReads := flagReads + 1;
        if stop {
          assert LoopEvents(info, i, flagAt, draw) == [ErrorEvent(AbortedMessage)];
          msgQueue := msgQueue + [ErrorEvent(AbortedMessage)];
          assert FirstSet(flagAt, 0, totalSteps) == i;
          return;
        }
        assert LoopEvents(info, i, flagAt, draw) == [LogAt(info, i, draw)] + LoopEvents(info, i + 1, flagAt, draw);
        PutStep(info, i, draw);
        i := i + 1;
      }
      assert FirstSet(flagAt, 0, totalSteps) == totalSteps;
    }

    /** One step of that loop: scores step i + 1 from its severity and queues its log message. */
    method PutStep(info: AttackInfo, i: nat, draw: nat -> nat)
      requires i < |info.logs|
      modifies this`msgQueue
      ensures msgQueue == old(msgQueue) + [LogAt(info, i, draw)]
      ensures threads == old(threads) && log == old(log) && recommendation == old(recommendation)
      ensures stopSimulationFlag == old(stopSimulationFlag)
    {
      var step := i + 1;
      var severity := info.logs[i].severity;
      var level := CalculateThreatLevel(step, |info.logs|, severity, Draw(severity, draw(i)));
      msgQueue := msgQueue + [LogEvent(severity, info.logs[i].message, level)];
    }

    /** show_recommendations: builds the text, shows it and logs that the verdict was issued. */
    method ShowRecommendations(verdict: string, prevention: seq<string>, stamp: string)
      modifies this
      ensures recommendation == Recommendations(verdict, prevention)
      ensures log == old(log) + [LogEntry(stamp, Info, VerdictIssuedMessage)]
      ensures stopSimulationFlag == old(stopSimulationFlag) && msgQueue == old(msgQueue) && threads == old(threads)
    {
      var text := BuildRecommendations(verdict, prevention);
      recommendation := text;
      LogMessage(VerdictIssuedMessage, Info, stamp);
    }

    /** One pass of the loop of process_queue: applies one message taken off the queue. */
    method Dispatch(data: Event, stamp: string)
      requires Valid()
      modifies this, state, state.data
      ensures Valid()
      ensures View() == ApplyEvent(old(View()), data, stamp)
    {
      match data
      case LogEvent(severity, message, level) =>
        LogMessage(message, severity, stamp);
        state.SetThreatLevel(level);
      case AttackComplete(verdict, prevention, _) =>
        state.SetIsRunning(false);
        state.ResetHistory();
        ShowRecommendations(verdict, prevention, stamp);
      case ErrorEvent(message) =>
        LogMessage(FailurePrefix + message, Critical, stamp);
        recommendation := ErrorText;
        state.SetIsRunning(false);
        state.ResetHistory();
    }

    /** process_queue: drains the whole queue, one timestamp per log line written. */
    method ProcessQueue(stamps: seq<string>)
      requires Valid() && |stamps| == |msgQueue|
      modifies this, state, state.data
      ensures Valid()
      ensures View() == DrainQueue(old(View()), stamps)
    {
      var k := 0;
      while msgQueue != []
        invariant Valid() && 0 <= k <= |stamps| && |msgQueue| == |stamps| - k
        invariant DrainQueue(View(), stamps[k..]) == DrainQueue(old(View()), stamps)
        decreases |msgQueue|
      {
        ghost var before := View();
        var data := msgQueue[0];
        msgQueue := msgQueue[1..];
        Dispatch(data, stamps[k]);
        assert View() == ApplyEvent(before.(queue := before.queue[1..]), before.queue[0], stamps[k..][0]);
        assert stamps[k..][1..] == stamps[k + 1..];
        k := k + 1;
      }
    }
  }
}
