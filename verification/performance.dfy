/**
 * The decision part of checkServerPerformance: the used-memory percentage and
 * the two threshold tests that decide which warnings are broadcast.
 * The sensor readings (ticks per second, bytes in use, the memory_limit
 * setting) are parameters.
 */
module Performance {
  import opened Wrappers
  import opened MemoryLimit

  /** TPS below this is considered laggy. */
  const LowTpsThreshold: real := 18.0
  /** A used-memory percentage above this is considered high. */
  const HighMemoryThreshold: real := 80.0

  /** A warning broadcast to every player, carrying the value it reports. */
  datatype Alert = LowTps(tps: real) | HighMemory(percentage: real)

  /** PHP 8 throws DivisionByZeroError when the memory limit reads as 0 megabytes. */
  datatype PerformanceError = DivisionByZero

  /** memory_get_usage(true) / 1024 / 1024: bytes in use as megabytes. */
  function MemoryUsageMB(usageBytes: nat): (mb: real)
    ensures mb * BytesPerMB == usageBytes as real
  {
    usageBytes as real / 1024.0 / 1024.0
  }

  /** The share of the limit in use, in percent; a zero limit is a division by zero. */
  function UsedPercentage(usageMB: real, limitMB: real): (r: Result<real, PerformanceError>)
    ensures r.Success? <==> limitMB != 0.0
    ensures r.Success? ==> r.value * limitMB == usageMB * 100.0
  {
    if limitMB == 0.0 then Failure(DivisionByZero) else Success(usageMB / limitMB * 100.0)
  }

  /** The warnings for one reading: low TPS first, then high memory, each on its own strict test. */
  function Alerts(tps: real, usedPercentage: real): (alerts: seq<Alert>)
    ensures LowTps(tps) in alerts <==> tps < LowTpsThreshold
    ensures HighMemory(usedPercentage) in alerts <==> usedPercentage > HighMemoryThreshold
    ensures forall a :: a in alerts ==> a == LowTps(tps) || a == HighMemory(usedPercentage)
    ensures forall i, j :: 0 <= i < j < |alerts| ==> alerts[i].LowTps? && alerts[j].HighMemory?
  {
    (if tps < LowTpsThreshold then [LowTps(tps)] else [])
    + (if usedPercentage > HighMemoryThreshold then [HighMemory(usedPercentage)] else [])
  }

  /**
   * checkServerPerformance: the percentage is computed before either test, so a
   * limit that reads as zero raises before any warning is sent.
   */
  function CheckServerPerformance(tps: real, usageBytes: nat, memoryLimit: string): (r: Result<seq<Alert>, PerformanceError>)
    ensures r.Failure? <==> GetMemoryLimitInMB(memoryLimit) == 0.0
    ensures r.Success? ==>
      var p := UsedPercentage(MemoryUsageMB(usageBytes), GetMemoryLimitInMB(memoryLimit));
      p.Success? && r.value == Alerts(tps, p.value)
  {
    match UsedPercentage(MemoryUsageMB(usageBytes), GetMemoryLimitInMB(memoryLimit))
    case Failure(e) => Failure(e)
    case Success(p) => Success(Alerts(tps, p))
  }

  /** With a positive limit, the memory warning fires exactly when more than 80% of the limit is in use. */
  lemma HighMemoryIffOverFourFifths(tps: real, usageMB: real, limitMB: real)
    requires limitMB > 0.0
    ensures UsedPercentage(usageMB, limitMB).Success?
    ensures HighMemory(UsedPercentage(usageMB, limitMB).value) in Alerts(tps, UsedPercentage(usageMB, limitMB).value)
            <==> usageMB * 5.0 > limitMB * 4.0
  {
    var p := UsedPercentage(usageMB, limitMB).value;
    assert p * limitMB == usageMB * 100.0;
    if p > HighMemoryThreshold {
      assert p * limitMB > 80.0 * limitMB;
    } else {
      assert p * limitMB <= 80.0 * limitMB;
    }
  }

  /** The two tests are independent: either, both or neither warning can be raised. */
  lemma AlertsIndependent()
    ensures Alerts(12.5, 85.3) == [LowTps(12.5), HighMemory(85.3)]
    ensures Alerts(12.5, 50.0) == [LowTps(12.5)]
    ensures Alerts(20.0, 85.3) == [HighMemory(85.3)]
    ensures Alerts(20.0, 50.0) == []
  {
  }

  /** Both tests are strict: exactly 18 TPS and exactly 80% raise nothing. */
  lemma ThresholdsAreStrict()
    ensures Alerts(LowTpsThreshold, HighMemoryThreshold) == []
  {
  }

  /** A memory_limit with no leading number ("abc", "M", "G") makes the check raise instead of warning. */
  lemma NonNumericLimitRaises(tps: real, usageBytes: nat)
    ensures CheckServerPerformance(tps, usageBytes, "abc") == Failure(DivisionByZero)
  {
    NonNumericIsZero("abc");
  }

  /**
   * A limit that reads as negative never raises the memory warning: the usage is
   * never negative, so the percentage is never positive. The TPS warning is unaffected.
   */
  lemma NegativeLimitNeverWarnsHighMemory(tps: real, usageBytes: nat, memoryLimit: string)
    requires GetMemoryLimitInMB(memoryLimit) < 0.0
    ensures CheckServerPerformance(tps, usageBytes, memoryLimit).Success?
    ensures forall a :: a in CheckServerPerformance(tps, usageBytes, memoryLimit).value ==> a == LowTps(tps)
    ensures LowTps(tps) in CheckServerPerformance(tps, usageBytes, memoryLimit).value <==> tps < LowTpsThreshold
  {
    NonPositivePercentage(MemoryUsageMB(usageBytes), GetMemoryLimitInMB(memoryLimit));
  }

  /** Usage that is not negative against a negative limit gives a percentage that is not positive. */
  lemma NonPositivePercentage(usageMB: real, limitMB: real)
    requires usageMB >= 0.0 && limitMB < 0.0
    ensures UsedPercentage(usageMB, limitMB).Success?
    ensures UsedPercentage(usageMB, limitMB).value <= 0.0
  {
    var p := UsedPercentage(usageMB, limitMB).value;
    if p > 0.0 {
      assert p * limitMB < 0.0;
    }
  }

  /** PHP's "no limit" setting "-1" therefore never raises the memory warning. */
  lemma UnlimitedNeverWarnsHighMemory(tps: real, usageBytes: nat)
    ensures CheckServerPerformance(tps, usageBytes, "-1").Success?
    ensures forall a :: a in CheckServerPerformance(tps, usageBytes, "-1").value ==> a == LowTps(tps)
  {
    ExampleUnlimited();
    NegativeLimitNeverWarnsHighMemory(tps, usageBytes, "-1");
  }
}
