/** The battery simulator of the mock device: a state machine over SOC, mode,
    target and actual power, the grid (P1 meter) reading and its phases,
    manual schedules, the passive-mode deadline and the energy counters.
    Every locked method is one sequential step; the clock and the random
    draws of a step are parameters. */
module Battery {
  import opened Common
  import opened BatteryModel
  import Household
  import WiFi

  /** The random draws one power update consumes. */
  datatype TickDraws = TickDraws(
    household: Household.HouseholdDraws,  // get_consumption
    fluctuation: real,                    // uniform(-1, 1) of the power fluctuation
    phaseA: real,                         // uniform(-0.05, 0.05) of phase A's share
    phaseB: real,                         // uniform(-0.05, 0.05) of phase B's share
    heat: real,                           // uniform(0.8, 1.2) of the heating step
    cool: real)                           // uniform(0.5, 1.5) of the cooling step
  {
    predicate Valid()
    {
      household.Valid() && Unit(fluctuation) && Unit(phaseA) && Unit(phaseB) && Unit(heat) && Unit(cool)
    }
  }

  /** Whether set_mode's config dict is truthy: present and non-empty. */
  predicate ConfigGiven(config: Option<ModeConfig>)
  {
    config.Some? && config.value.Truthy()
  }

  class BatterySimulator {
    var soc: real
    const capacityWh: int
    const maxChargePower: int
    const maxDischargePower: int

    var mode: string
    var targetPower: int
    var actualPower: int                  // + discharges, - charges
    var grossHouseholdConsumption: int
    var gridPower: int                    // + imports, - exports
    var emAPower: int
    var emBPower: int
    var emCPower: int

    var passiveEndTime: Option<real>
    var manualSchedules: seq<Schedule>

    var batteryTemp: real
    var ctConnected: bool

    var totalPvEnergy: real
    var totalGridOutputEnergy: real
    var totalGridInputEnergy: real
    var totalLoadEnergy: real

    var pvPower: int
    var pvVoltage: int
    var pvCurrent: int

    const household: Household.HouseholdSimulator
    const wifi: WiFi.WiFiSimulator

    const hasPersistCallback: bool
    const persistInterval: real
    var lastPersist: real
    /** The snapshots handed to the persist callback, oldest first. */
    var persisted: seq<PersistentState>

    /** The meter reads the household's consumption net of the battery, the
        three phases sum to that reading, the temperature stays within
        15..50 degrees, and no two manual schedules share a slot. */
    ghost predicate Valid()
      reads this`gridPower, this`grossHouseholdConsumption, this`actualPower
      reads this`emAPower, this`emBPower, this`emCPower, this`batteryTemp, this`manualSchedules
      reads household, wifi
    {
      gridPower == grossHouseholdConsumption - actualPower
      && emAPower + emBPower + emCPower == gridPower
      && MinTemp <= batteryTemp <= MaxTemp
      && SlotsUnique(manualSchedules)
      && household.Valid() && wifi.Valid()
    }

    /** The five persisted values as they stand. */
    function Persistent(): PersistentState
      reads this
    {
      PersistentState(soc, totalPvEnergy, totalGridOutputEnergy, totalGridInputEnergy, totalLoadEnergy)
    }

    constructor(initialSoc: int, capacityWh: int, maxChargePower: int, maxDischargePower: int,
                hasPersistCallback: bool, persistInterval: real, now: real)
      ensures Valid() && fresh(household) && fresh(wifi)
      ensures soc == initialSoc as real && this.capacityWh == capacityWh
      ensures this.maxChargePower == maxChargePower && this.maxDischargePower == maxDischargePower
      ensures mode == ModeAuto && targetPower == 0 && actualPower == 0
      ensures grossHouseholdConsumption == 0 && gridPower == 0
      ensures emAPower == 0 && emBPower == 0 && emCPower == 0
      ensures passiveEndTime == None && manualSchedules == []
      ensures batteryTemp == BaseTemp && ctConnected
      ensures Persistent() == PersistentState(initialSoc as real, 0.0, 0.0, 0.0, 0.0)
      ensures pvPower == 0 && pvVoltage == 0 && pvCurrent == 0
      ensures household.baseLoad == 200 && wifi.baseRssi == -55
      ensures this.hasPersistCallback == hasPersistCallback && this.persistInterval == persistInterval
      ensures lastPersist == now && persisted == []
    {
      soc := initialSoc as real;
      this.capacityWh := capacityWh;
      this.maxChargePower := maxChargePower;
      this.maxDischargePower := maxDischargePower;
      mode := ModeAuto;
      targetPower := 0;
      actualPower := 0;
      grossHouseholdConsumption := 0;
      gridPower := 0;
      emAPower := 0;
      emBPower := 0;
      emCPower := 0;
      passiveEndTime := None;
      manualSchedules := [];
      batteryTemp := BaseTemp;
      ctConnected := true;
      totalPvEnergy := 0.0;
      totalGridOutputEnergy := 0.0;
      totalGridInputEnergy := 0.0;
      totalLoadEnergy := 0.0;
      pvPower := 0;
      pvVoltage := 0;
      pvCurrent := 0;
      household := new Household.HouseholdSimulator(200);
      wifi := new WiFi.WiFiSimulator(-55);
      this.hasPersistCallback := hasPersistCallback;
      this.persistInterval := persistInterval;
      lastPersist := now;
      persisted := [];
    }

    /** _get_active_schedule: the first schedule, in list order, that is
        enabled, has today's bit set and whose window holds the current
        "HH:MM" time. */
    method GetActiveSchedule(clock: Clock) returns (r: Option<Schedule>)
      requires clock.Valid()
      ensures r == FirstActive(manualSchedules, clock)
    {
      var current := FormatHHMM(clock.hour, clock.minute);
      var i := 0;
      while i < |manualSchedules|
        invariant 0 <= i <= |manualSchedules|
        invariant FirstActiveFrom(manualSchedules, clock, i) == FirstActiveFrom(manualSchedules, clock, 0)
      {
        var s := manualSchedules[i];
        if s.enable && WeekBit(s.weekSet, clock.weekday) && LexLe(s.startTime, current) && LexLe(current, s.endTime) {
          return Some(s);
        }
        i := i + 1;
      }
      return None;
    }

    /** _calculate_target_power for the current fields at clock reading `clock`. */
    method CalculateTargetPower(clock: Clock) returns (target: int)
      requires clock.Valid()
      ensures target == TargetPower(mode, targetPower, FirstActive(manualSchedules, clock), soc,
                                    grossHouseholdConsumption, maxChargePower, maxDischargePower, clock.hour)
    {
      var active := None;
      if mode == ModeManual {
        active := GetActiveSchedule(clock);
      }
      target := TargetPower(mode, targetPower, active, soc, grossHouseholdConsumption,
                            maxChargePower, maxDischargePower, clock.hour);
    }

    /** _update_phase_powers: splits the grid reading over the three phases. */
    method UpdatePhasePowers(ua: real, ub: real)
      requires Unit(ua) && Unit(ub)
      modifies this`emAPower, this`emBPower, this`emCPower
      ensures Phases(emAPower, emBPower, emCPower) == PhaseSplit(gridPower, ua, ub)
      ensures emAPower + emBPower + emCPower == gridPower
    {
      var p := PhaseSplit(gridPower, ua, ub);
      emAPower := p.a;
      emBPower := p.b;
      emCPower := p.c;
    }

    /** _apply_immediate_power_update: refresh the household's consumption,
        then drive the battery toward the mode's target and update the
        meter reading and its phases. */
    method ApplyImmediatePowerUpdate(clock: Clock, d: TickDraws)
      requires Valid() && clock.Valid() && d.Valid()
      modifies household, this`grossHouseholdConsumption, this`actualPower, this`gridPower
      modifies this`emAPower, this`emBPower, this`emCPower
      ensures Valid()
      ensures grossHouseholdConsumption == household.currentConsumption
      ensures grossHouseholdConsumption >= Household.MinConsumption
      ensures actualPower == ActualPower(
        TargetPower(mode, targetPower, FirstActive(manualSchedules, clock), soc,
                    grossHouseholdConsumption, maxChargePower, maxDischargePower, clock.hour),
        soc, maxChargePower, maxDischargePower, d.fluctuation)
      ensures soc <= SocMinDischarge as real && 0 <= maxChargePower ==> actualPower <= 0
      ensures soc >= 100.0 && 0 <= maxDischargePower ==> actualPower >= 0
      ensures gridPower == grossHouseholdConsumption - actualPower
      ensures Phases(emAPower, emBPower, emCPower) == PhaseSplit(gridPower, d.phaseA, d.phaseB)
    {
      grossHouseholdConsumption := household.GetConsumption(clock.now, clock.hour, d.household);
      var target := CalculateTargetPower(clock);
      DrivePower(target, d);
    }

    /** The part of the power update after the mode's target is known: SOC
        limits, power limits, fluctuation, then the meter and its phases. */
    method DrivePower(rawTarget: int, d: TickDraws)
      requires d.Valid()
      modifies this`actualPower, this`gridPower, this`emAPower, this`emBPower, this`emCPower
      ensures actualPower == ActualPower(rawTarget, soc, maxChargePower, maxDischargePower, d.fluctuation)
      ensures soc <= SocMinDischarge as real && 0 <= maxChargePower ==> actualPower <= 0
      ensures soc >= 100.0 && 0 <= maxDischargePower ==> actualPower >= 0
      ensures gridPower == grossHouseholdConsumption - actualPower
      ensures Phases(emAPower, emBPower, emCPower) == PhaseSplit(gridPower, d.phaseA, d.phaseB)
      ensures emAPower + emBPower + emCPower == gridPower
    {
      if soc <= SocMinDischarge as real && 0 <= maxChargePower {
        NoDischargeWhenEmpty(rawTarget, soc, maxChargePower, maxDischargePower, d.fluctuation);
      }
      if soc >= 100.0 && 0 <= maxDischargePower {
        NoChargeWhenFull(rawTarget, soc, maxChargePower, maxDischargePower, d.fluctuation);
      }
      var target := ApplySocLimits(rawTarget, soc);
      target := ClampPower(target, maxChargePower, maxDischargePower);
      actualPower := Fluctuate(target, d.fluctuation);
      gridPower := grossHouseholdConsumption - actualPower;
      UpdatePhasePowers(d.phaseA, d.phaseB);
    }

    /** _update_energy_stats: adds the step's grid and load energy. */
    method UpdateEnergyStats(elapsed: real)
      modifies this`totalGridInputEnergy, this`totalGridOutputEnergy, this`totalLoadEnergy
      ensures var e := EnergyDelta(gridPower, grossHouseholdConsumption, elapsed);
        totalGridInputEnergy == old(totalGridInputEnergy) + e.gridInput
        && totalGridOutputEnergy == old(totalGridOutputEnergy) + e.gridOutput
        && totalLoadEnergy == old(totalLoadEnergy) + e.load
      ensures 0.0 <= elapsed ==>
        totalGridInputEnergy >= old(totalGridInputEnergy) && totalGridOutputEnergy >= old(totalGridOutputEnergy)
      ensures 0.0 <= elapsed && 0 <= grossHouseholdConsumption ==> totalLoadEnergy >= old(totalLoadEnergy)
    {
      var hours := elapsed / 3600.0;
      if gridPower > 0 {
        totalGridInputEnergy := totalGridInputEnergy + gridPower as real * hours;
      } else {
        totalGridOutputEnergy := totalGridOutputEnergy + Abs(gridPower) as real * hours;
      }
      totalLoadEnergy := totalLoadEnergy + grossHouseholdConsumption as real * hours;
    }

    /** _update_temperature. */
    method UpdateTemperature(uHeat: real, uCool: real)
      requires Unit(uHeat) && Unit(uCool)
      requires HeatDefined(actualPower, maxDischargePower)
      modifies this`batteryTemp
      ensures batteryTemp == NextTemperature(old(batteryTemp), actualPower, maxDischargePower, uHeat, uCool)
      ensures MinTemp <= batteryTemp <= MaxTemp
    {
      batteryTemp := NextTemperature(batteryTemp, actualPower, maxDischargePower, uHeat, uCool);
    }

    /** _maybe_persist_locked: hands a snapshot to the persist callback at
        most once per persist interval. */
    method MaybePersistLocked(now: real)
      modifies this`lastPersist, this`persisted
      ensures hasPersistCallback && now - old(lastPersist) >= persistInterval ==>
        persisted == old(persisted) + [Persistent()] && lastPersist == now
      ensures !(hasPersistCallback && now - old(lastPersist) >= persistInterval) ==>
        persisted == old(persisted) && lastPersist == old(lastPersist)
    {
      if !hasPersistCallback {
        return;
      }
      if now - lastPersist < persistInterval {
        return;
      }
      persisted := persisted + [GetPersistentStateLocked()];
      lastPersist := now;
    }

    /** _get_persistent_state_locked. */
    function GetPersistentStateLocked(): (stored: PersistentState)
      reads this
      ensures stored.soc == soc && stored.totalPvEnergy == totalPvEnergy
      ensures stored.totalGridOutputEnergy == totalGridOutputEnergy
      ensures stored.totalGridInputEnergy == totalGridInputEnergy
      ensures stored.totalLoadEnergy == totalLoadEnergy
    {
      Persistent()
    }

    /** apply_persistent_state: each stored key overwrites its field; missing
        keys keep the current value; nothing else changes. */
    method ApplyPersistentState(stored: StoredState)
      modifies this`soc, this`totalPvEnergy, this`totalGridOutputEnergy
      modifies this`totalGridInputEnergy, this`totalLoadEnergy
      ensures Persistent() == Restore(old(Persistent()), stored)
    {
      soc := stored.soc.GetOr(soc);
      totalPvEnergy := stored.totalPvEnergy.GetOr(totalPvEnergy);
      totalGridOutputEnergy := stored.totalGridOutputEnergy.GetOr(totalGridOutputEnergy);
      totalGridInputEnergy := stored.totalGridInputEnergy.GetOr(totalGridInputEnergy);
      totalLoadEnergy := stored.totalLoadEnergy.GetOr(totalLoadEnergy);
    }

    /** The passive-expiry check at the start of _update_state. */
    method ExpirePassiveMode(now: real)
      modifies this`mode, this`targetPower, this`passiveEndTime
      ensures PassiveExpired(old(mode), old(passiveEndTime), now) ==>
        mode == ModeAuto && targetPower == 0 && passiveEndTime == None
      ensures !PassiveExpired(old(mode), old(passiveEndTime), now) ==>
        mode == old(mode) && targetPower == old(targetPower) && passiveEndTime == old(passiveEndTime)
    {
      if mode == ModePassive && passiveEndTime.Some? && passiveEndTime.value != 0.0 {
        if now >= passiveEndTime.value {
          mode := ModeAuto;
          targetPower := 0;
          passiveEndTime := None;
        }
      }
    }

    /** _update_state: one simulation step of `elapsed` seconds at clock
        reading `clock`. */
    method UpdateState(elapsed: real, clock: Clock, d: TickDraws)
      requires Valid() && clock.Valid() && d.Valid()
      requires capacityWh != 0 && maxDischargePower != 0
      modifies household, this`mode, this`targetPower, this`passiveEndTime
      modifies this`grossHouseholdConsumption, this`actualPower, this`gridPower
      modifies this`emAPower, this`emBPower, this`emCPower, this`soc, this`batteryTemp
      modifies this`totalGridInputEnergy, this`totalGridOutputEnergy, this`totalLoadEnergy
      modifies this`lastPersist, this`persisted
      ensures Valid()
      // passive expiry
      ensures PassiveExpired(old(mode), old(passiveEndTime), clock.now) ==>
        mode == ModeAuto && targetPower == 0 && passiveEndTime == None
      ensures !PassiveExpired(old(mode), old(passiveEndTime), clock.now) ==>
        mode == old(mode) && targetPower == old(targetPower) && passiveEndTime == old(passiveEndTime)
      // power, from the SOC at the start of the step
      ensures grossHouseholdConsumption >= Household.MinConsumption
      ensures actualPower == ActualPower(
        TargetPower(mode, targetPower, FirstActive(manualSchedules, clock), old(soc),
                    grossHouseholdConsumption, maxChargePower, maxDischargePower, clock.hour),
        old(soc), maxChargePower, maxDischargePower, d.fluctuation)
      ensures old(soc) <= SocMinDischarge as real && 0 <= maxChargePower ==> actualPower <= 0
      ensures old(soc) >= 100.0 && 0 <= maxDischargePower ==> actualPower >= 0
      ensures Phases(emAPower, emBPower, emCPower) == PhaseSplit(gridPower, d.phaseA, d.phaseB)
      // SOC and energy
      ensures soc == NextSoc(old(soc), actualPower, elapsed, capacityWh)
      ensures 0.0 <= soc <= 100.0
      ensures var e := EnergyDelta(gridPower, grossHouseholdConsumption, elapsed);
        totalGridInputEnergy == old(totalGridInputEnergy) + e.gridInput
        && totalGridOutputEnergy == old(totalGridOutputEnergy) + e.gridOutput
        && totalLoadEnergy == old(totalLoadEnergy) + e.load
      ensures batteryTemp == NextTemperature(old(batteryTemp), actualPower, maxDischargePower, d.heat, d.cool)
      // persistence
      ensures hasPersistCallback && clock.now - old(lastPersist) >= persistInterval ==>
        persisted == old(persisted) + [Persistent()] && lastPersist == clock.now
      ensures !(hasPersistCallback && clock.now - old(lastPersist) >= persistInterval) ==>
        persisted == old(persisted) && lastPersist == old(lastPersist)
    {
      ExpirePassiveMode(clock.now);
      ApplyImmediatePowerUpdate(clock, d);
      Integrate(elapsed, clock.now, d);
    }

    /** The second half of _update_state: SOC, energy counters and
        temperature follow the power just set, then the state may be persisted. */
    method Integrate(elapsed: real, now: real, d: TickDraws)
      requires Valid() && d.Valid()
      requires capacityWh != 0 && HeatDefined(actualPower, maxDischargePower)
      modifies this`soc, this`batteryTemp
      modifies this`totalGridInputEnergy, this`totalGridOutputEnergy, this`totalLoadEnergy
      modifies this`lastPersist, this`persisted
      ensures Valid()
      ensures soc == NextSoc(old(soc), actualPower, elapsed, capacityWh)
      ensures 0.0 <= soc <= 100.0
      ensures var e := EnergyDelta(gridPower, grossHouseholdConsumption, elapsed);
        totalGridInputEnergy == old(totalGridInputEnergy) + e.gridInput
        && totalGridOutputEnergy == old(totalGridOutputEnergy) + e.gridOutput
        && totalLoadEnergy == old(totalLoadEnergy) + e.load
      ensures 0.0 <= elapsed ==>
        totalGridInputEnergy >= old(totalGridInputEnergy) && totalGridOutputEnergy >= old(totalGridOutputEnergy)
      ensures 0.0 <= elapsed && 0 <= grossHouseholdConsumption ==> totalLoadEnergy >= old(totalLoadEnergy)
      ensures batteryTemp == NextTemperature(old(batteryTemp), actualPower, maxDischargePower, d.heat, d.cool)
      ensures hasPersistCallback && now - old(lastPersist) >= persistInterval ==>
        persisted == old(persisted) + [Persistent()] && lastPersist == now
      ensures !(hasPersistCallback && now - old(lastPersist) >= persistInterval) ==>
        persisted == old(persisted) && lastPersist == old(lastPersist)
    {
      soc := NextSoc(soc, actualPower, elapsed, capacityWh);
      UpdateEnergyStats(elapsed);
      UpdateTemperature(d.heat, d.cool);
      MaybePersistLocked(now);
    }

    /** The upsert loop of set_mode: replace the first schedule with the same
        slot in place, or append when there is none. */
    method StoreSchedule(s: Schedule)
      requires SlotsUnique(manualSchedules)
      modifies this`manualSchedules
      ensures manualSchedules == Upsert(old(manualSchedules), s)
      ensures SlotsUnique(manualSchedules)
    {
      UpsertKeepsSlotsUnique(manualSchedules, s);
      var i := 0;
      while i < |manualSchedules|
        invariant 0 <= i <= |manualSchedules| && manualSchedules == old(manualSchedules)
        invariant SlotIndex(manualSchedules, s.timeNum, i) == SlotIndex(manualSchedules, s.timeNum, 0)
      {
        if manualSchedules[i].timeNum == s.timeNum {
          manualSchedules := manualSchedules[i := s];
          return;
        }
        i := i + 1;
      }
      manualSchedules := manualSchedules + [s];
    }

    /** set_mode: switch mode; with a truthy config, Passive stores the
        power and the deadline and Manual stores a schedule; then the power
        is updated at once. */
    method SetMode(newMode: string, config: Option<ModeConfig>, clock: Clock, d: TickDraws)
      requires Valid() && clock.Valid() && d.Valid()
      modifies household, this`mode, this`targetPower, this`passiveEndTime, this`manualSchedules
      modifies this`grossHouseholdConsumption, this`actualPower, this`gridPower
      modifies this`emAPower, this`emBPower, this`emCPower
      ensures Valid()
      ensures mode == newMode
      ensures newMode == ModePassive && ConfigGiven(config) ==>
        targetPower == config.value.power.GetOr(0)
        && passiveEndTime == Some(clock.now + config.value.cdTime.GetOr(3600.0))
      ensures !(newMode == ModePassive && ConfigGiven(config)) ==>
        targetPower == old(targetPower) && passiveEndTime == old(passiveEndTime)
      ensures newMode == ModeManual && ConfigGiven(config) ==>
        manualSchedules == Upsert(old(manualSchedules), ScheduleFromConfig(config.value))
      ensures !(newMode == ModeManual && ConfigGiven(config)) ==> manualSchedules == old(manualSchedules)
      ensures grossHouseholdConsumption >= Household.MinConsumption
      ensures actualPower == ActualPower(
        TargetPower(mode, targetPower, FirstActive(manualSchedules, clock), soc,
                    grossHouseholdConsumption, maxChargePower, maxDischargePower, clock.hour),
        soc, maxChargePower, maxDischargePower, d.fluctuation)
      ensures gridPower == grossHouseholdConsumption - actualPower
      ensures Phases(emAPower, emBPower, emCPower) == PhaseSplit(gridPower, d.phaseA, d.phaseB)
    {
      mode := newMode;
      if newMode == ModePassive && ConfigGiven(config) {
        targetPower := config.value.power.GetOr(0);
        var duration := config.value.cdTime.GetOr(3600.0);
        passiveEndTime := Some(clock.now + duration);
      } else if newMode == ModeManual && ConfigGiven(config) {
        StoreSchedule(ScheduleFromConfig(config.value));
      }
      ApplyImmediatePowerUpdate(clock, d);
    }

    /** get_state at clock reading `now`; reading the Wi-Fi signal advances
        the Wi-Fi simulator. */
    method GetState(now: real, d: WiFi.WifiDraws) returns (st: DeviceState)
      requires Valid() && d.Valid()
      modifies wifi
      ensures Valid()
      ensures st.soc == Trunc(soc) && st.power == actualPower && st.mode == mode
      ensures st.status == StatusOf(actualPower)
      ensures st.gridPower == gridPower && st.householdConsumption == grossHouseholdConsumption
      ensures st.emAPower == emAPower && st.emBPower == emBPower && st.emCPower == emCPower
      ensures st.emAPower + st.emBPower + st.emCPower == st.gridPower
      ensures st.passiveRemaining == PassiveRemaining(mode, passiveEndTime, now)
      ensures st.passiveCfg == if mode == ModePassive then Some(PassiveCfg(targetPower, st.passiveRemaining)) else None
      ensures WiFi.MinReported <= st.wifiRssi <= WiFi.MaxReported
      ensures st.batteryTemp == batteryTemp && st.ctConnected == ctConnected
      ensures st.chargFlag == ChargeFlag(soc) && st.dischrgFlag == DischargeFlag(soc)
      ensures st.totalPvEnergy == Trunc(totalPvEnergy) && st.totalGridOutputEnergy == Trunc(totalGridOutputEnergy)
      ensures st.totalGridInputEnergy == Trunc(totalGridInputEnergy) && st.totalLoadEnergy == Trunc(totalLoadEnergy)
      ensures st.pvPower == pvPower && st.pvVoltage == pvVoltage && st.pvCurrent == pvCurrent
    {
      var status := StatusOf(actualPower);
      var passiveRemaining := PassiveRemaining(mode, passiveEndTime, now);
      var passiveCfg := if mode == ModePassive then Some(PassiveCfg(targetPower, passiveRemaining)) else None;
      var rssi := wifi.GetRssi(now, d);
      st := DeviceState(
        Trunc(soc), actualPower, mode, status,
        gridPower, emAPower, emBPower, emCPower, grossHouseholdConsumption,
        passiveRemaining, passiveCfg,
        rssi, batteryTemp, ctConnected,
        ChargeFlag(soc), DischargeFlag(soc),
        Trunc(totalPvEnergy), Trunc(totalGridOutputEnergy), Trunc(totalGridInputEnergy), Trunc(totalLoadEnergy),
        pvPower, pvVoltage, pvCurrent);
    }
  }
}
