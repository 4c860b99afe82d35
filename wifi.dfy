/** The mock device's WiFi signal: a slowly drifting RSSI with second-by-second
    jitter and occasional interference dips, reported within -95..-25 dBm. */
module WiFi {
  import opened Common

  const MinDriftTarget := -90
  const MaxDriftTarget := -30
  const MinReported := -95
  const MaxReported := -25

  /** The random draws one call of get_rssi may consume. */
  datatype WifiDraws = WifiDraws(
    refreshGate: real,           // uniform(30, 60): seconds between drift-target updates
    drift: real,                 // randint(-5, 5)
    interferenceRoll: real,      // random() < 0.05
    interferenceAmount: real,    // randint(10, 20)
    interferenceDuration: real,  // uniform(5, 30)
    jitter: real)                // randint(-2, 2)
  {
    predicate Valid()
    {
      Unit(refreshGate) && Unit(drift) && Unit(interferenceRoll)
      && Unit(interferenceAmount) && Unit(interferenceDuration) && Unit(jitter)
    }
  }

  /** A new drift target: the base RSSI moved by at most 5 dBm, kept within -90..-30. */
  function DriftTarget(baseRssi: int, u: real): (r: int)
    requires Unit(u)
    ensures MinDriftTarget <= r <= MaxDriftTarget
    ensures MinDriftTarget + 5 <= baseRssi <= MaxDriftTarget - 5 ==> baseRssi - 5 <= r <= baseRssi + 5
  {
    Clamp(baseRssi + RandInt(-5, 5, u), MinDriftTarget, MaxDriftTarget)
  }

  /** One step of the gradual move toward the drift target. */
  function StepToward(current: int, target: int): (r: int)
    ensures current < target ==> r == current + 1
    ensures current > target ==> r == current - 1
    ensures current == target ==> r == current
    ensures Dist(r, target) == if current == target then 0 else Dist(current, target) - 1
  {
    if current < target then Min(current + 1, target)
    else if current > target then Max(current - 1, target)
    else current
  }

  /** The RSSI after n calls that do not change the drift target. */
  function StepsToward(current: int, target: int, n: nat): int
    decreases n
  {
    if n == 0 then current else StepsToward(StepToward(current, target), target, n - 1)
  }

  /** The signal reaches a fixed drift target after as many calls as it is
      dBm away from it, and stays there. */
  lemma {:induction false} ReachesTarget(current: int, target: int, n: nat)
    requires n >= Dist(current, target)
    ensures StepsToward(current, target, n) == target
    decreases n
  {
    if n > 0 {
      ReachesTarget(StepToward(current, target), target, n - 1);
    }
  }

  /** Each call moves the signal at most one step closer, never past the target. */
  lemma {:induction false} StepsStayBetween(current: int, target: int, n: nat)
    ensures Dist(StepsToward(current, target, n), target) <= Dist(current, target)
    ensures Dist(StepsToward(current, target, n), current) <= n
    decreases n
  {
    if n > 0 {
      var next := StepToward(current, target);
      StepsStayBetween(next, target, n - 1);
    }
  }

  /** The reported value: the current RSSI plus jitter, minus an active
      interference dip, clamped to -95..-25. */
  function Reported(current: int, jitter: int, dip: int): (r: int)
    ensures MinReported <= r <= MaxReported
    ensures MinReported <= current + jitter - dip <= MaxReported ==> r == current + jitter - dip
  {
    Clamp(current + jitter - dip, MinReported, MaxReported)
  }

  class WiFiSimulator {
    var baseRssi: int
    var currentRssi: int
    var lastUpdate: real
    var driftTarget: int
    var interferenceUntil: real
    var interferenceAmount: int

    /** An interference dip, once one has been drawn, is 10..20 dBm; the drift
        target is the base RSSI until the first refresh and within -90..-30 after. */
    ghost predicate Valid()
      reads this
    {
      (interferenceAmount == 0 || 10 <= interferenceAmount <= 20)
      && (driftTarget == baseRssi || MinDriftTarget <= driftTarget <= MaxDriftTarget)
    }

    constructor(baseRssi: int)
      ensures Valid()
      ensures this.baseRssi == baseRssi && currentRssi == baseRssi && driftTarget == baseRssi
      ensures lastUpdate == 0.0 && interferenceUntil == 0.0 && interferenceAmount == 0
    {
      this.baseRssi := baseRssi;
      currentRssi := baseRssi;
      lastUpdate := 0.0;
      driftTarget := baseRssi;
      interferenceUntil := 0.0;
      interferenceAmount := 0;
    }

    /** get_rssi at clock reading `now`. */
    method GetRssi(now: real, d: WifiDraws) returns (rssi: int)
      requires Valid() && d.Valid()
      modifies this
      ensures Valid()
      ensures baseRssi == old(baseRssi)
      ensures now - old(lastUpdate) > Uniform(30.0, 60.0, d.refreshGate) ==>
        lastUpdate == now && driftTarget == DriftTarget(baseRssi, d.drift)
        && (if d.interferenceRoll < 0.05
            then interferenceAmount == RandInt(10, 20, d.interferenceAmount)
              && interferenceUntil == now + Uniform(5.0, 30.0, d.interferenceDuration)
            else interferenceAmount == old(interferenceAmount) && interferenceUntil == old(interferenceUntil))
      ensures now - old(lastUpdate) <= Uniform(30.0, 60.0, d.refreshGate) ==>
        lastUpdate == old(lastUpdate) && driftTarget == old(driftTarget)
        && interferenceAmount == old(interferenceAmount) && interferenceUntil == old(interferenceUntil)
      ensures currentRssi == StepToward(old(currentRssi), driftTarget)
      ensures rssi == Reported(currentRssi, RandInt(-2, 2, d.jitter), if now < interferenceUntil then interferenceAmount else 0)
      ensures MinReported <= rssi <= MaxReported
    {
      if now - lastUpdate > Uniform(30.0, 60.0, d.refreshGate) {
        lastUpdate := now;
        driftTarget := DriftTarget(baseRssi, d.drift);
        if d.interferenceRoll < 0.05 {
          interferenceAmount := RandInt(10, 20, d.interferenceAmount);
          interferenceUntil := now + Uniform(5.0, 30.0, d.interferenceDuration);
        }
      }
      currentRssi := StepToward(currentRssi, driftTarget);
      var r := currentRssi + RandInt(-2, 2, d.jitter);
      if now < interferenceUntil {
        r := r - interferenceAmount;
      }
      rssi := Clamp(r, MinReported, MaxReported);
    }
  }
}
