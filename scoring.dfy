/**
 * calculate_threat_level: the threat score of one script step, a linear
 * ramp over the run plus a bonus drawn from the band of the step's severity,
 * capped at 100. The random draw is an input, so the score is a function.
 */
module Scoring {

  const MaxThreatLevel: int := 100
  /** The ramp reaches 70 at the last step. */
  const RampMax: int := 70

  const Info: string := "INFO"
  const Warning: string := "WARNING"
  const Error: string := "ERROR"
  const Critical: string := "CRITICAL"

  /** The four severities a script step can carry. */
  predicate KnownSeverity(severity: string) {
    severity == Info || severity == Warning || severity == Error || severity == Critical
  }

  /** The inclusive bounds of random.randint for each severity; any other severity draws nothing. */
  function BonusLow(severity: string): int {
    if severity == Info then 0
    else if severity == Warning then 5
    else if severity == Error then 15
    else if severity == Critical then 25
    else 0
  }

  function BonusHigh(severity: string): int {
    if severity == Info then 5
    else if severity == Warning then 15
    else if severity == Error then 25
    else if severity == Critical then 30
    else 0
  }

  predicate InBand(severity: string, bonus: int) {
    BonusLow(severity) <= bonus <= BonusHigh(severity)
  }

  /**
   * The value random.randint(lo, hi) returns when the random source yields
   * `seed`: every seed lands in the band, and every value of the band is hit.
   */
  function Draw(severity: string, seed: nat): (bonus: int)
    ensures InBand(severity, bonus)
    ensures 0 <= bonus <= 30
    ensures forall b :: InBand(severity, b) && seed == b - BonusLow(severity) ==> bonus == b
  {
    BonusLow(severity) + seed % (BonusHigh(severity) - BonusLow(severity) + 1)
  }

  /** Python's int() on the rational n / d: truncation toward zero. */
  function TruncDiv(n: int, d: int): (q: int)
    requires d > 0
    ensures n >= 0 ==> q == n / d
    ensures n >= 0 ==> q >= 0
  {
    if n >= 0 then n / d else -((-n) / d)
  }

  /** For a negative numerator int() rounds up, toward zero: the quotient is not positive and overshoots by less than d. */
  lemma TruncDivNegative(n: int, d: int)
    requires n < 0 && d > 0
    ensures TruncDiv(n, d) <= 0 && -d < n - TruncDiv(n, d) * d <= 0
  {
    var m := (-n) / d;
    assert -n == d * m + (-n) % d;
    assert TruncDiv(n, d) * d == -(d * m);
  }

  lemma DivMonotone(a: int, b: int, d: int)
    requires 0 <= a <= b && d > 0
    ensures a / d <= b / d
  {
    var qa, qb := a / d, b / d;
    assert a == d * qa + a % d && b == d * qb + b % d;
    if qa > qb {
      MulAtLeast(d, qa - qb);
      assert false;
    }
  }

  lemma TruncDivMonotone(a: int, b: int, d: int)
    requires a <= b && d > 0
    ensures TruncDiv(a, d) <= TruncDiv(b, d)
  {
    if a >= 0 {
      DivMonotone(a, b, d);
    } else if b >= 0 {
      assert TruncDiv(a, d) <= 0 <= TruncDiv(b, d);
    } else {
      DivMonotone(-b, -a, d);
    }
  }

  /**
   * calculate_threat_level(step, total_steps, severity) with the random bonus
   * given: `min(int(step / total_steps * 70 + bonus), 100)`, the base term
   * computed exactly.
   */
  function CalculateThreatLevel(step: int, totalSteps: int, severity: string, bonus: int): (level: int)
    requires totalSteps > 0
    requires InBand(severity, bonus)
    ensures level <= MaxThreatLevel
    ensures step >= 0 ==> level >= 0
  {
    var raw := TruncDiv(step * RampMax + bonus * totalSteps, totalSteps);
    if raw < MaxThreatLevel then raw else MaxThreatLevel
  }

  /** Inside a run the cap never applies: the score is the floor of the ramp plus the bonus. */
  lemma ThreatLevelInRun(step: int, totalSteps: int, severity: string, bonus: int)
    requires 0 < step <= totalSteps
    requires InBand(severity, bonus)
    ensures CalculateThreatLevel(step, totalSteps, severity, bonus) == step * RampMax / totalSteps + bonus
    ensures 0 <= CalculateThreatLevel(step, totalSteps, severity, bonus) <= MaxThreatLevel
  {
    var base := step * RampMax;
    var extra := bonus * totalSteps;
    MulNonNegative(bonus, totalSteps);
    assert TruncDiv(base + extra, totalSteps) == (base + extra) / totalSteps;
    DivAddMultiple(base, bonus, totalSteps);
    assert base <= totalSteps * RampMax;
    DivMonotone(base, totalSteps * RampMax, totalSteps);
    DivUnique(totalSteps * RampMax, totalSteps, RampMax, 0);
  }

  lemma MulNonNegative(x: int, y: int)
    requires x >= 0 && y >= 0
    ensures x * y >= 0
  {
  }

  lemma DivAddMultiple(a: int, k: int, d: int)
    requires a >= 0 && k >= 0 && d > 0
    ensures (a + k * d) / d == a / d + k
  {
    var q, r := a / d, a % d;
    assert a == d * q + r && 0 <= r < d;
    assert a + k * d == d * (q + k) + r;
    DivUnique(a + k * d, d, q + k, r);
  }

  lemma DivUnique(n: int, d: int, q: int, r: int)
    requires d > 0 && n == d * q + r && 0 <= r < d
    ensures n / d == q
  {
    var q', r' := n / d, n % d;
    assert d * (q - q') == r' - r;
    if q > q' {
      MulAtLeast(d, q - q');
      assert false;
    } else if q < q' {
      MulAtLeast(d, q' - q);
      assert false;
    }
  }

  lemma MulAtLeast(d: int, x: int)
    requires d > 0 && x >= 1
    ensures d * x >= d
  {
  }

  /** With the bonus held fixed, a later step never scores lower. */
  lemma ThreatLevelMonotone(step1: int, step2: int, totalSteps: int, severity: string, bonus: int)
    requires step1 <= step2
    requires totalSteps > 0
    requires InBand(severity, bonus)
    ensures CalculateThreatLevel(step1, totalSteps, severity, bonus)
         <= CalculateThreatLevel(step2, totalSteps, severity, bonus)
  {
    TruncDivMonotone(step1 * RampMax + bonus * totalSteps, step2 * RampMax + bonus * totalSteps, totalSteps);
  }

  /**
   * The level is truncated, not rounded: for an INFO step with bonus 0, step
   * 2 of 3 scores 46 (ramp 46.67), and the last step reaches the full ramp.
   */
  lemma ThreatLevelTruncates()
    ensures CalculateThreatLevel(1, 3, Info, 0) == 23
    ensures CalculateThreatLevel(2, 3, Info, 0) == 46
    ensures CalculateThreatLevel(3, 3, Info, 0) == RampMax
  {
  }
}
