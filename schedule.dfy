/**
 * The generation schedule: whether a new topic is due at a given turn count,
 * and at which count the next generation falls due. Counts 1, 2, 3, 5 and 8
 * form the ramp; past 8 a topic is regenerated every `regenInterval` turns.
 */
module Schedule {

  /** The ramp thresholds, in increasing order. */
  const RampThresholds: seq<nat> := [1, 2, 3, 5, 8]

  /** The last ramp threshold; the periodic phase is counted from here. */
  const RampEnd: nat := 8

  /** The interval every caller in the repository uses (the parameters' default). */
  const DefaultRegenInterval: nat := 10

  /**
   * Whether a topic should be generated at `count`. An empty `currentTopic`
   * is JavaScript-falsy, so generation is always due. With a zero interval,
   * `sinceFib % 0` is NaN and never equals 0, so nothing past 8 is due.
   */
  function ShouldGenerate(count: nat, currentTopic: string, regenInterval: nat): (due: bool)
    ensures currentTopic == "" ==> due
    ensures count in RampThresholds ==> due
    ensures currentTopic != "" && count <= RampEnd ==> (due <==> count in RampThresholds)
    ensures currentTopic != "" && count > RampEnd && regenInterval > 0 ==>
              (due <==> (count - RampEnd) % regenInterval == 0)
    ensures currentTopic != "" && count > RampEnd && regenInterval == 0 ==> !due
  {
    if currentTopic == "" then true
    else if count in RampThresholds then true
    else if count > RampEnd then
      var sinceFib := count - RampEnd;
      regenInterval > 0 && sinceFib % regenInterval == 0
    else false
  }

  /** `Math.ceil(a / b)` for non-negative `a` and positive `b`. */
  function CeilDiv(a: nat, b: nat): (q: nat)
    requires b > 0
    ensures a <= q * b < a + b
  {
    var q := (a + b - 1) / b;
    assert (a + b - 1) == q * b + (a + b - 1) % b;
    q
  }

  /**
   * The next count at which generation is due: the next ramp threshold
   * strictly above `count` while `count` is below 8, and from 8 on the first
   * point of the periodic phase at or above `count`.
   */
  function NextGenerationAt(count: nat, regenInterval: nat): (n: nat)
    requires regenInterval > 0
    ensures count < RampEnd ==> n in RampThresholds && n > count
    ensures count < RampEnd ==> forall t | t in RampThresholds && t > count :: n <= t
    ensures count >= RampEnd ==> count <= n < count + regenInterval
    ensures count >= RampEnd ==> (n - RampEnd) % regenInterval == 0
  {
    if count < 1 then 1
    else if count < 2 then 2
    else if count < 3 then 3
    else if count < 5 then 5
    else if count < 8 then 8
    else
      var sinceFib := count - RampEnd;
      var q := CeilDiv(sinceFib, regenInterval);
      assert (q * regenInterval) % regenInterval == 0 by {
        MultipleMod(q, regenInterval);
      }
      RampEnd + q * regenInterval
  }

  /** Multiplication by a natural number is monotone. */
  lemma MulMonotone(a: nat, b: nat, r: nat)
    ensures a <= b ==> a * r <= b * r
    decreases b
  {
    if a < b {
      MulMonotone(a, b - 1, r);
      assert b * r == (b - 1) * r + r;
    }
  }

  /** Quotient and remainder are unique. */
  lemma DivModUnique(k: nat, r: nat, m: nat)
    requires r > 0 && m < r
    ensures (k * r + m) / r == k && (k * r + m) % r == m
  {
    var x := k * r + m;
    var q := x / r;
    assert x == q * r + x % r;
    MulMonotone(k + 1, q, r);
    MulMonotone(q + 1, k, r);
    assert (k + 1) * r == k * r + r;
    assert (q + 1) * r == q * r + r;
  }

  lemma MultipleMod(q: nat, r: nat)
    requires r > 0
    ensures (q * r) % r == 0
  {
    DivModUnique(q, r, 0);
  }

  /** A multiple of `r` lies in the half-open window `[a, a + r)` only at the point `CeilDiv(a, r) * r`. */
  lemma OnlyMultipleInWindow(a: nat, r: nat, m: nat)
    requires r > 0
    requires a <= m < a + r && m % r == 0
    ensures m == CeilDiv(a, r) * r
  {
    var q := CeilDiv(a, r);
    var k := m / r;
    assert m == k * r + m % r;
    MulMonotone(q + 1, k, r);
    MulMonotone(k + 1, q, r);
    assert (q + 1) * r == q * r + r;
    assert (k + 1) * r == k * r + r;
  }

  /** The count `NextGenerationAt` reports is due, whatever the current topic. */
  lemma DueAtNextGeneration(count: nat, currentTopic: string, regenInterval: nat)
    requires regenInterval > 0
    ensures ShouldGenerate(NextGenerationAt(count, regenInterval), currentTopic, regenInterval)
  {
  }

  /**
   * No count strictly between `count` and the next generation point is due
   * (with a topic present), and from 8 on `count` itself is due exactly when
   * it is its own next generation point.
   */
  lemma {:induction false} NextGenerationIsFirstDue(count: nat, m: nat, currentTopic: string, regenInterval: nat)
    requires regenInterval > 0 && currentTopic != ""
    requires count < m < NextGenerationAt(count, regenInterval) || (count >= RampEnd && m == count)
    ensures ShouldGenerate(m, currentTopic, regenInterval) <==> m == NextGenerationAt(count, regenInterval)
  {
    var n := NextGenerationAt(count, regenInterval);
    if count >= RampEnd {
      var a := count - RampEnd;
      assert n - RampEnd == CeilDiv(a, regenInterval) * regenInterval;
      if m > RampEnd && (m - RampEnd) % regenInterval == 0 {
        OnlyMultipleInWindow(a, regenInterval, m - RampEnd);
      }
      if m == RampEnd {
        assert a == 0;
        assert CeilDiv(0, regenInterval) == 0;
      }
    }
  }

  /** A later count never has an earlier next generation point. */
  lemma {:induction false} NextGenerationMonotone(c1: nat, c2: nat, regenInterval: nat)
    requires regenInterval > 0 && c1 <= c2
    ensures NextGenerationAt(c1, regenInterval) <= NextGenerationAt(c2, regenInterval)
  {
    if c1 >= RampEnd {
      var r := regenInterval;
      var q1 := CeilDiv(c1 - RampEnd, r);
      var q2 := CeilDiv(c2 - RampEnd, r);
      MulMonotone(q2 + 1, q1, r);
      assert (q2 + 1) * r == q2 * r + r;
      MulMonotone(q1, q2, r);
    }
  }

  /**
   * From 8 on, the source's closed form `8 + ceil((count - 8) / r) * r` is
   * the only point of the periodic phase in the window `[count, count + r)`:
   * any such point is the next generation point.
   */
  lemma NextGenerationIsOnlyPeriodicPoint(count: nat, regenInterval: nat, n: nat)
    requires regenInterval > 0 && count >= RampEnd
    requires count <= n < count + regenInterval && (n - RampEnd) % regenInterval == 0
    ensures n == NextGenerationAt(count, regenInterval)
  {
    OnlyMultipleInWindow(count - RampEnd, regenInterval, n - RampEnd);
  }

  /** The unit-test vectors of the schedule, with the default interval. */
  lemma ScheduleVectors()
    ensures ShouldGenerate(1, "", 10) && ShouldGenerate(0, "", 10) && ShouldGenerate(10, "", 10)
    ensures ShouldGenerate(2, "existing topic", 10) && ShouldGenerate(3, "existing topic", 10)
    ensures ShouldGenerate(5, "existing topic", 10) && ShouldGenerate(8, "existing topic", 10)
    ensures !ShouldGenerate(4, "existing topic", 10) && !ShouldGenerate(6, "existing topic", 10)
    ensures !ShouldGenerate(7, "existing topic", 10)
    ensures ShouldGenerate(18, "existing topic", 10) && ShouldGenerate(28, "existing topic", 10)
    ensures ShouldGenerate(38, "existing topic", 10)
    ensures NextGenerationAt(0, 10) == 1 && NextGenerationAt(1, 10) == 2
    ensures NextGenerationAt(2, 10) == 3 && NextGenerationAt(4, 10) == 5
    ensures NextGenerationAt(9, 10) == 18 && NextGenerationAt(20, 10) == 28
  {
    assert NextGenerationAt(9, 10) == 8 + CeilDiv(1, 10) * 10;
    assert NextGenerationAt(20, 10) == 8 + CeilDiv(12, 10) * 10;
  }
}
