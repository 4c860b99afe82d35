/** The household a P1 meter would see: a base load, a time-of-day load,
    occasional cooking and appliance events, and second-by-second
    fluctuations, never reported below 50 W. */
module Household {
  import opened Common

  const MinConsumption := 50
  const EventCheckInterval := 30.0

  /** The random draws one call of get_consumption may consume. */
  datatype HouseholdDraws = HouseholdDraws(
    fluctuationGate: real,   // uniform(0.5, 2.0): seconds between fluctuation targets
    spikeRoll: real,         // random() < 0.1
    spikeSign: real,         // choice([-1, 1])
    spikeSize: real,         // randint(50, 200)
    drift: real,             // randint(-20, 20)
    timeLoad: real,          // the randint of the time-of-day band
    cookingRoll: real,       // random() < cooking chance
    cookingPower: real,      // randint(1500, 3000)
    cookingMinutes: real,    // randint(5, 30)
    applianceRoll: real,     // random() < 0.03
    applianceChoice: real,   // choice(appliances)
    appliancePower: real,    // randint(min_power, max_power)
    applianceMinutes: real)  // randint(min_mins, max_mins)
  {
    predicate Valid()
    {
      Unit(fluctuationGate) && Unit(spikeRoll) && Unit(spikeSign) && Unit(spikeSize) && Unit(drift)
      && Unit(timeLoad) && Unit(cookingRoll) && Unit(cookingPower) && Unit(cookingMinutes)
      && Unit(applianceRoll) && Unit(applianceChoice) && Unit(appliancePower) && Unit(applianceMinutes)
    }
  }

  /** The extra load of the hour's band: morning peak, midday, evening peak, night. */
  function TimeBasedLoad(hour: int, u: real): (r: int)
    requires Unit(u)
    ensures 6 <= hour < 9 ==> 200 <= r <= 500
    ensures 9 <= hour < 17 ==> 50 <= r <= 150
    ensures 17 <= hour < 22 ==> 300 <= r <= 800
    ensures (hour < 6 || 22 <= hour) ==> 0 <= r <= 50
  {
    if 6 <= hour < 9 then RandInt(200, 500, u)
    else if 9 <= hour < 17 then RandInt(50, 150, u)
    else if 17 <= hour < 22 then RandInt(300, 800, u)
    else RandInt(0, 50, u)
  }

  const CookingHours: seq<int> := [7, 8, 12, 13, 18, 19, 20]

  /** The chance of a cooking event starting at a check: higher at meal times. */
  function CookingChance(hour: int): (p: real)
    ensures p == 0.20 || p == 0.05
    ensures p == 0.20 <==> hour in CookingHours
  {
    if hour in CookingHours then 0.20 else 0.05
  }

  datatype Appliance = Appliance(name: string, minPower: int, maxPower: int, minMinutes: int, maxMinutes: int)
  {
    predicate Valid()
    {
      0 < minPower <= maxPower && 0 < minMinutes <= maxMinutes
    }
  }

  const Appliances: seq<Appliance> := [
    Appliance("Washing machine", 400, 800, 30, 60),
    Appliance("Dryer", 2000, 3000, 45, 90),
    Appliance("Dishwasher", 1200, 1800, 60, 120),
    Appliance("Vacuum cleaner", 800, 1500, 10, 30),
    Appliance("Iron", 1000, 2000, 10, 20),
    Appliance("Kettle", 2000, 3000, 2, 5),
    Appliance("Microwave", 800, 1200, 2, 10)]

  /** Every appliance draws 400..3000 W for 2..120 minutes. */
  lemma AppliancesValid()
    ensures forall a :: a in Appliances ==>
      a.Valid() && 400 <= a.minPower && a.maxPower <= 3000 && 2 <= a.minMinutes && a.maxMinutes <= 120
  {
  }

  /** The fluctuation target chosen when the previous one is reached: a
      spike of 50..200 W either way (10% of the time), kept within
      -100..300, or a drift of at most 20 W, kept within -50..150. */
  function NextFluctuationTarget(base: int, d: HouseholdDraws): (r: int)
    requires d.Valid()
    ensures -100 <= r <= 300
    ensures d.spikeRoll < 0.1 && -50 <= base <= 100 ==> 50 <= Dist(r, base) <= 200
    ensures d.spikeRoll >= 0.1 ==> -50 <= r <= 150
    ensures d.spikeRoll >= 0.1 && -30 <= base <= 130 ==> Dist(r, base) <= 20
  {
    if d.spikeRoll < 0.1 then
      var spike := Choice([-1, 1], d.spikeSign) * RandInt(50, 200, d.spikeSize);
      Clamp(base + spike, -100, 300)
    else
      Clamp(base + RandInt(-20, 20, d.drift), -50, 150)
  }

  /** A point reached by progress p in [0, 1] from base toward target lies between them. */
  lemma LerpBetween(base: int, target: int, p: real)
    requires 0.0 <= p <= 1.0
    ensures Min(base, target) as real <= base as real + (target - base) as real * p <= Max(base, target) as real
  {
    var diff := (target - base) as real;
    if diff >= 0.0 {
      MulNonNegative(diff, p);
      MulNonNegative(diff, 1.0 - p);
      assert diff - diff * p == diff * (1.0 - p);
    } else {
      MulNonNegative(-diff, p);
      MulNonNegative(-diff, 1.0 - p);
      assert diff * p - diff == (-diff) * (1.0 - p);
    }
  }

  /** The fluctuation `elapsed` seconds after a new target was set: linear
      from the base to the target over one second, truncated toward zero. */
  function Interpolate(base: int, target: int, elapsed: real): (r: int)
    ensures 0.0 <= elapsed ==> Min(base, target) <= r <= Max(base, target)
    ensures elapsed == 0.0 ==> r == base
    ensures 1.0 <= elapsed ==> r == target
  {
    var progress := MinReal(1.0, elapsed / 1.0);
    var current := base as real + (target - base) as real * progress;
    if 0.0 <= elapsed then
      LerpBetween(base, target, progress);
      TruncBetween(current, Min(base, target), Max(base, target));
      Trunc(current)
    else
      Trunc(current)
  }

  /** The reported consumption: the sum of the parts, never below 50 W. */
  function Total(baseLoad: int, timeLoad: int, cooking: int, appliance: int, fluctuation: int): (r: int)
    ensures r >= MinConsumption
    ensures baseLoad + timeLoad + cooking + appliance + fluctuation >= MinConsumption ==>
      r == baseLoad + timeLoad + cooking + appliance + fluctuation
  {
    Max(MinConsumption, baseLoad + timeLoad + cooking + appliance + fluctuation)
  }

  class HouseholdSimulator {
    var baseLoad: int
    var currentConsumption: int
    var cookingUntil: real
    var cookingPower: int
    var applianceUntil: real
    var appliancePower: int
    var lastEventCheck: real
    var fluctuationBase: int
    var fluctuationTarget: int
    var lastFluctuationUpdate: real

    /** The fluctuation base and target stay within -100..300 W; an
        appliance, once one has run, drew 400..3000 W. */
    ghost predicate Valid()
      reads this
    {
      -100 <= fluctuationBase <= 300 && -100 <= fluctuationTarget <= 300
      && (appliancePower == 0 || 400 <= appliancePower <= 3000)
    }

    constructor(baseLoad: int)
      ensures Valid()
      ensures this.baseLoad == baseLoad && currentConsumption == baseLoad
      ensures cookingUntil == 0.0 && cookingPower == 0 && applianceUntil == 0.0 && appliancePower == 0
      ensures lastEventCheck == 0.0
      ensures fluctuationBase == 0 && fluctuationTarget == 0 && lastFluctuationUpdate == 0.0
    {
      this.baseLoad := baseLoad;
      currentConsumption := baseLoad;
      cookingUntil := 0.0;
      cookingPower := 0;
      applianceUntil := 0.0;
      appliancePower := 0;
      lastEventCheck := 0.0;
      fluctuationBase := 0;
      fluctuationTarget := 0;
      lastFluctuationUpdate := 0.0;
    }

    /** The load the active events add at clock reading `now`. */
    function EventLoad(now: real): (r: int)
      reads this
      ensures now >= cookingUntil && now >= applianceUntil ==> r == 0
      ensures 0 <= cookingPower && 0 <= appliancePower ==> 0 <= r <= cookingPower + appliancePower
    {
      CookingLoad(now) + ApplianceLoad(now)
    }

    /** The cooking event's power while it runs, else 0. */
    function CookingLoad(now: real): int
      reads this
    {
      if now < cookingUntil then cookingPower else 0
    }

    /** The appliance event's power while it runs, else 0. */
    function ApplianceLoad(now: real): int
      reads this
    {
      if now < applianceUntil then appliancePower else 0
    }

    /** get_consumption at clock reading `now` (whose hour is `hour`). */
    method GetConsumption(now: real, hour: int, d: HouseholdDraws) returns (consumption: int)
      requires Valid() && d.Valid()
      modifies this
      ensures Valid()
      ensures baseLoad == old(baseLoad)
      // events: reconsidered only more than 30 s after the last check
      ensures now - old(lastEventCheck) > EventCheckInterval ==> lastEventCheck == now
      ensures (now - old(lastEventCheck) > EventCheckInterval
               && now >= old(cookingUntil) && d.cookingRoll < CookingChance(hour)) ==>
        cookingPower == RandInt(1500, 3000, d.cookingPower)
        && cookingUntil == now + (RandInt(5, 30, d.cookingMinutes) * 60) as real
      ensures !(now - old(lastEventCheck) > EventCheckInterval
                && now >= old(cookingUntil) && d.cookingRoll < CookingChance(hour)) ==>
        cookingPower == old(cookingPower) && cookingUntil == old(cookingUntil)
      ensures (now - old(lastEventCheck) > EventCheckInterval
               && now >= old(applianceUntil) && d.applianceRoll < 0.03) ==>
        var a := Choice(Appliances, d.applianceChoice);
        appliancePower == RandInt(a.minPower, a.maxPower, d.appliancePower)
        && applianceUntil == now + (RandInt(a.minMinutes, a.maxMinutes, d.applianceMinutes) * 60) as real
      ensures !(now - old(lastEventCheck) > EventCheckInterval
                && now >= old(applianceUntil) && d.applianceRoll < 0.03) ==>
        appliancePower == old(appliancePower) && applianceUntil == old(applianceUntil)
      ensures now - old(lastEventCheck) <= EventCheckInterval ==> lastEventCheck == old(lastEventCheck)
      // fluctuation: a new target once the drawn 0.5..2 s have passed
      ensures now - old(lastFluctuationUpdate) > Uniform(0.5, 2.0, d.fluctuationGate) ==>
        lastFluctuationUpdate == now && fluctuationBase == old(fluctuationTarget)
        && fluctuationTarget == NextFluctuationTarget(old(fluctuationTarget), d)
      ensures now - old(lastFluctuationUpdate) <= Uniform(0.5, 2.0, d.fluctuationGate) ==>
        lastFluctuationUpdate == old(lastFluctuationUpdate)
        && fluctuationBase == old(fluctuationBase) && fluctuationTarget == old(fluctuationTarget)
      // the reading: base, time of day, each active event and the fluctuation
      ensures consumption == Total(baseLoad, TimeBasedLoad(hour, d.timeLoad), CookingLoad(now), ApplianceLoad(now),
                                   Interpolate(fluctuationBase, fluctuationTarget, now - lastFluctuationUpdate))
      ensures consumption >= MinConsumption && currentConsumption == consumption
    {
      if now - lastEventCheck > EventCheckInterval {
        lastEventCheck := now;
        MaybeTriggerEvent(now, hour, d);
      }
      var total := baseLoad;
      total := total + TimeBasedLoad(hour, d.timeLoad);
      if now < cookingUntil {
        total := total + cookingPower;
      }
      if now < applianceUntil {
        total := total + appliancePower;
      }
      var fluctuation := GetMicroFluctuation(now, d);
      total := total + fluctuation;
      currentConsumption := Max(MinConsumption, total);
      consumption := currentConsumption;
    }

    /** _get_micro_fluctuation: a new target after 0.5..2 s, then a linear
        approach to it; within -100..300 W whenever the clock has not gone back. */
    method GetMicroFluctuation(now: real, d: HouseholdDraws) returns (fluctuation: int)
      requires Valid() && d.Valid()
      modifies this`fluctuationBase, this`fluctuationTarget, this`lastFluctuationUpdate
      ensures Valid()
      ensures now - old(lastFluctuationUpdate) > Uniform(0.5, 2.0, d.fluctuationGate) ==>
        lastFluctuationUpdate == now && fluctuationBase == old(fluctuationTarget)
        && fluctuationTarget == NextFluctuationTarget(old(fluctuationTarget), d)
      ensures now - old(lastFluctuationUpdate) <= Uniform(0.5, 2.0, d.fluctuationGate) ==>
        lastFluctuationUpdate == old(lastFluctuationUpdate)
        && fluctuationBase == old(fluctuationBase) && fluctuationTarget == old(fluctuationTarget)
      ensures fluctuation == Interpolate(fluctuationBase, fluctuationTarget, now - lastFluctuationUpdate)
      ensures now >= old(lastFluctuationUpdate) ==> -100 <= fluctuation <= 300
    {
      if now - lastFluctuationUpdate > Uniform(0.5, 2.0, d.fluctuationGate) {
        lastFluctuationUpdate := now;
        fluctuationBase := fluctuationTarget;
        fluctuationTarget := NextFluctuationTarget(fluctuationBase, d);
      }
      fluctuation := Interpolate(fluctuationBase, fluctuationTarget, now - lastFluctuationUpdate);
    }

    /** _maybe_trigger_event: a cooking event and an appliance event may each
        start, but only once the previous one of its kind is over. */
    method MaybeTriggerEvent(now: real, hour: int, d: HouseholdDraws)
      requires Valid() && d.Valid()
      modifies this`cookingUntil, this`cookingPower, this`applianceUntil, this`appliancePower
      ensures Valid()
      ensures now >= old(cookingUntil) && d.cookingRoll < CookingChance(hour) ==>
        cookingPower == RandInt(1500, 3000, d.cookingPower)
        && cookingUntil == now + (RandInt(5, 30, d.cookingMinutes) * 60) as real
      ensures !(now >= old(cookingUntil) && d.cookingRoll < CookingChance(hour)) ==>
        cookingPower == old(cookingPower) && cookingUntil == old(cookingUntil)
      ensures now >= old(applianceUntil) && d.applianceRoll < 0.03 ==>
        var a := Choice(Appliances, d.applianceChoice);
        appliancePower == RandInt(a.minPower, a.maxPower, d.appliancePower)
        && applianceUntil == now + (RandInt(a.minMinutes, a.maxMinutes, d.applianceMinutes) * 60) as real
      ensures !(now >= old(applianceUntil) && d.applianceRoll < 0.03) ==>
        appliancePower == old(appliancePower) && applianceUntil == old(applianceUntil)
    {
      if now >= cookingUntil {
        var chance := CookingChance(hour);
        if d.cookingRoll < chance {
          cookingPower := RandInt(1500, 3000, d.cookingPower);
          cookingUntil := now + (RandInt(5, 30, d.cookingMinutes) * 60) as real;
        }
      }
      if now >= applianceUntil {
        if d.applianceRoll < 0.03 {
          AppliancesValid();
          var a := Choice(Appliances, d.applianceChoice);
          appliancePower := RandInt(a.minPower, a.maxPower, d.appliancePower);
          applianceUntil := now + (RandInt(a.minMinutes, a.maxMinutes, d.applianceMinutes) * 60) as real;
        }
      }
    }

    /** force_cooking_event at clock reading `now`. */
    method ForceCookingEvent(power: int, durationMinutes: int, now: real)
      modifies this`cookingPower, this`cookingUntil
      ensures cookingPower == power && cookingUntil == now + (durationMinutes * 60) as real
      ensures durationMinutes > 0 ==> EventLoad(now) == power + (if now < applianceUntil then appliancePower else 0)
    {
      cookingPower := power;
      cookingUntil := now + (durationMinutes * 60) as real;
    }
  }

  /** A cooking event lasts 5..30 minutes and an appliance event 2..120
      minutes, so an event is active right after it starts. */
  lemma EventDurations(d: HouseholdDraws)
    requires d.Valid()
    ensures 300 <= RandInt(5, 30, d.cookingMinutes) * 60 <= 1800
    ensures var a := Choice(Appliances, d.applianceChoice);
      a.Valid() && 120 <= RandInt(a.minMinutes, a.maxMinutes, d.applianceMinutes) * 60 <= 7200
  {
    AppliancesValid();
  }
}
