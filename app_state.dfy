/**
 * AppState: the one record every display reads. It holds the threat level
 * (clamped to 0..100 on every write), the running flag and a 60-slot
 * history of past levels (a deque with maxlen 60, initially all zeros).
 * The Tk virtual events the setters raise are counted.
 *
 * The pure functions below give the abstract value (StateView) and how each
 * setter changes it; the class keeps the history in a fixed array used as a
 * ring and is proved against them.
 */
module State {
  import opened Scoring

  const MaxThreatHistory: nat := 60

  /**
   * threatLevel, isRunning and history as the displays read them, and the number of
   * <<ThreatLevelUpdate>> and <<SimulationStateChange>> events raised so far.
   */
  datatype StateView = StateView(threatLevel: int, isRunning: bool, history: seq<int>,
                                 levelUpdates: nat, stateChanges: nat)

  /** `max(0, min(MAX_THREAT_LEVEL, value))` */
  function Clamp(v: int): (l: int)
    ensures 0 <= l <= MaxThreatLevel
    ensures 0 <= v <= MaxThreatLevel ==> l == v
    ensures v < 0 ==> l == 0
    ensures v > MaxThreatLevel ==> l == MaxThreatLevel
  {
    if v < 0 then 0 else if v > MaxThreatLevel then MaxThreatLevel else v
  }

  function Zeros(n: nat): (z: seq<int>)
    ensures |z| == n && forall i :: 0 <= i < n ==> z[i] == 0
  {
    seq(n, _ => 0)
  }

  /** `deque.append` on a deque with maxlen 60: adds on the right and, once full, evicts the leftmost. */
  function Append(h: seq<int>, x: int): (r: seq<int>)
    ensures |h| < MaxThreatHistory ==> r == h + [x]
    ensures |h| >= MaxThreatHistory ==> |r| == MaxThreatHistory
    ensures |h| == MaxThreatHistory ==> r == h[1..] + [x]
  {
    var e := h + [x];
    if |e| > MaxThreatHistory then e[|e| - MaxThreatHistory..] else e
  }

  /** What holds of the record at all times: a full history in range whose newest entry is the level. */
  ghost predicate Wellformed(s: StateView) {
    && 0 <= s.threatLevel <= MaxThreatLevel
    && |s.history| == MaxThreatHistory
    && (forall i :: 0 <= i < |s.history| ==> 0 <= s.history[i] <= MaxThreatLevel)
    && s.history[MaxThreatHistory - 1] == s.threatLevel
  }

  /** `AppState.__init__`: level 0, not running, history of 60 zeros. */
  function Initial(): (s: StateView)
    ensures Wellformed(s)
    ensures s.threatLevel == 0 && !s.isRunning && s.history == Zeros(MaxThreatHistory)
  {
    StateView(0, false, Zeros(MaxThreatHistory), 0, 0)
  }

  /**
   * The threat_level setter: stores the clamped value, appends it to the
   * history (evicting the oldest entry) and raises one level-update event.
   */
  function SetLevel(s: StateView, v: int): (r: StateView)
    ensures r.threatLevel == Clamp(v)
    ensures |s.history| == MaxThreatHistory ==>
              && |r.history| == MaxThreatHistory
              && r.history[MaxThreatHistory - 1] == Clamp(v)
              && r.history[..MaxThreatHistory - 1] == s.history[1..]
    ensures Wellformed(s) ==> Wellformed(r)
    ensures r.isRunning == s.isRunning
    ensures r.levelUpdates == s.levelUpdates + 1 && r.stateChanges == s.stateChanges
  {
    var level := Clamp(v);
    s.(threatLevel := level, history := Append(s.history, level), levelUpdates := s.levelUpdates + 1)
  }

  /** The is_running setter: stores the flag and raises one state-change event. */
  function SetRunning(s: StateView, b: bool): (r: StateView)
    ensures r.isRunning == b
    ensures r.threatLevel == s.threatLevel && r.history == s.history
    ensures r.levelUpdates == s.levelUpdates && r.stateChanges == s.stateChanges + 1
    ensures Wellformed(s) ==> Wellformed(r)
  {
    s.(isRunning := b, stateChanges := s.stateChanges + 1)
  }

  /**
   * reset_history: refills the history with 60 zeros and then writes 0
   * through the setter; the extra 0 it appends evicts a 0, so the history
   * is exactly 60 zeros afterwards.
   */
  function Reset(s: StateView): (r: StateView)
    ensures Wellformed(r)
    ensures r.history == Zeros(MaxThreatHistory) && r.threatLevel == 0
    ensures r.isRunning == s.isRunning
    ensures r.levelUpdates == s.levelUpdates + 1 && r.stateChanges == s.stateChanges
  {
    var r := SetLevel(s.(history := Zeros(MaxThreatHistory)), 0);
    assert r.history == Zeros(MaxThreatHistory)[1..] + [0];
    r
  }

  /** What a display observes: everything but the event counters. */
  function Observed(s: StateView): (o: (int, bool, seq<int>)) {
    (s.threatLevel, s.isRunning, s.history)
  }

  /** Resetting twice is observably the same as resetting once. */
  lemma ResetIdempotent(s: StateView)
    ensures Observed(Reset(Reset(s))) == Observed(Reset(s))
  {
  }

  /** A reset erases everything the previous level writes left in the history. */
  lemma ResetForgetsLevels(s: StateView, v: int)
    ensures Observed(Reset(SetLevel(s, v))) == Observed(Reset(s))
  {
  }

  /**
   * Overwriting the oldest slot of a full ring and advancing its start
   * appends to the history it represents and drops the oldest entry.
   */
  lemma RingOverwrite(d: seq<int>, start: nat, x: int)
    requires |d| == MaxThreatHistory && start < MaxThreatHistory
    ensures var d', s' := d[start := x], if start + 1 < MaxThreatHistory then start + 1 else 0;
            d'[s'..] + d'[..s'] == (d[start..] + d[..start])[1..] + [x]
  {
    var d' := d[start := x];
    if start + 1 < MaxThreatHistory {
      assert d'[start + 1..] == d[start + 1..];
      assert d'[..start + 1] == d[..start] + [x];
      assert (d[start..] + d[..start])[1..] == d[start + 1..] + d[..start];
    } else {
      assert d'[0..] == d[..start] + [x];
      assert (d[start..] + d[..start])[1..] == d[..start];
    }
  }

  class AppState {
    /** The 60 history slots, used as a ring whose oldest entry is at `start`. */
    const data: array<int>
    var start: nat
    var threatLevel: int
    var isRunning: bool
    var levelUpdates: nat
    var stateChanges: nat

    ghost predicate Shaped()
      reads this
    {
      data.Length == MaxThreatHistory && start < MaxThreatHistory
    }

    /** The history, oldest first: the ring read from `start` round to `start - 1`. */
    ghost function History(): seq<int>
      reads this, data
      requires Shaped()
    {
      data[start..] + data[..start]
    }

    ghost function View(): StateView
      reads this, data
      requires Shaped()
    {
      StateView(threatLevel, isRunning, History(), levelUpdates, stateChanges)
    }

    ghost predicate Valid()
      reads this, data
    {
      Shaped() && Wellformed(View())
    }

    constructor ()
      ensures Valid() && fresh(data)
      ensures View() == Initial()
    {
      data := new int[MaxThreatHistory](_ => 0);
      start := 0;
      threatLevel := 0;
      isRunning := false;
      levelUpdates := 0;
      stateChanges := 0;
      new;
      assert History() == data[..];
    }

    /** The threat_level property getter. */
    method GetThreatLevel() returns (level: int)
      requires Valid()
      ensures 0 <= level <= MaxThreatLevel
      ensures level == View().threatLevel && level == View().history[MaxThreatHistory - 1]
    {
      level := threatLevel;
    }

    /** The threat_level property setter. */
    method SetThreatLevel(value: int)
      requires Shaped()
      modifies this, data
      ensures Shaped()
      ensures View() == SetLevel(old(View()), value)
    {
      ghost var slots := data[..];
      var level := Clamp(value);
      threatLevel := level;
      data[start] := level;
      // the slot just written held the oldest entry; the next slot now does
      RingOverwrite(slots, start, level);
      assert data[..] == slots[start := level];
      start := if start + 1 < MaxThreatHistory then start + 1 else 0;
      levelUpdates := levelUpdates + 1;
      assert History() == data[..][start..] + data[..][..start];
    }

    /** The is_running property setter. */
    method SetIsRunning(value: bool)
      requires Shaped()
      modifies this
      ensures Shaped()
      ensures View() == SetRunning(old(View()), value)
    {
      isRunning := value;
      stateChanges := stateChanges + 1;
    }

    method ResetHistory()
      requires Shaped()
      modifies this, data
      ensures Shaped()
      ensures View() == Reset(old(View()))
    {
      // The history is emptied and refilled with one zero per slot.
      forall i | 0 <= i < data.Length {
        data[i] := 0;
      }
      start := 0;
      assert History() == Zeros(MaxThreatHistory);
      SetThreatLevel(0);
    }
  }
}
