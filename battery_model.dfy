/** The pure rules of the battery simulator: constants, manual schedules and
    their matching, the target-power chain (mode, SOC protection, power
    limits, fluctuation), the phase split, SOC and energy integration, the
    temperature step, the status label and the persistence snapshot.
    The simulator class in module Battery applies these to its fields. */
module BatteryModel {
  import opened Common

  const SocMinDischarge := 5
  const SocTaperDischarge := 10
  const SocTaperCharge := 90
  const SocReserve := 10
  const BatteryCapacityWh := 5120
  const DefaultMaxChargePower := 3000
  const DefaultMaxDischargePower := 3000
  const PowerFluctuationPct := 5
  const BaseTemp := 25.0
  const MinTemp := 15.0
  const MaxTemp := 50.0

  const ModeAuto := "Auto"
  const ModeAI := "AI"
  const ModeManual := "Manual"
  const ModePassive := "Passive"

  const StatusCharging := "Buying"
  const StatusDischarging := "Selling"
  const StatusIdle := "Idle"

  /** One reading of the clock: time.time() and the local hour, minute and
      weekday (Monday is 0) that datetime.now() gives at that moment. */
  datatype Clock = Clock(now: real, hour: int, minute: int, weekday: int)
  {
    predicate Valid()
    {
      0 <= hour < 24 && 0 <= minute < 60 && 0 <= weekday < 7
    }
  }

  // ---------------------------------------------------------------------
  // Manual schedules

  /** A manual schedule entry as set_mode stores it. */
  datatype Schedule = Schedule(timeNum: int, startTime: string, endTime: string, weekSet: int, power: int, enable: bool)

  function Pow2(n: nat): (r: nat)
    ensures r >= 1
  {
    if n == 0 then 1 else 2 * Pow2(n - 1)
  }

  /** week_set & (1 << day) is non-zero; floor division gives Python's
      two's-complement bits for negative week sets too. */
  predicate WeekBit(weekSet: int, day: nat)
  {
    (weekSet / Pow2(day)) % 2 == 1
  }

  /** The default week set 127 selects every day of the week. */
  lemma EveryDayInDefaultWeek(day: nat)
    requires day < 7
    ensures WeekBit(127, day)
    ensures !WeekBit(0, day)
  {
    assert Pow2(0) == 1 && Pow2(1) == 2 && Pow2(2) == 4 && Pow2(3) == 8;
    assert Pow2(4) == 16 && Pow2(5) == 32 && Pow2(6) == 64;
  }

  function TwoDigits(n: int): (s: string)
    requires 0 <= n < 100
    ensures |s| == 2 && '0' <= s[0] <= '9' && '0' <= s[1] <= '9'
  {
    [('0' as int + n / 10) as char, ('0' as int + n % 10) as char]
  }

  /** strftime("%H:%M"). */
  function FormatHHMM(hour: int, minute: int): (s: string)
    requires 0 <= hour < 24 && 0 <= minute < 60
    ensures |s| == 5 && s[2] == ':'
  {
    TwoDigits(hour) + ":" + TwoDigits(minute)
  }

  /** Python's a <= b on strings: code point by code point, a prefix first. */
  predicate LexLe(a: string, b: string)
  {
    a == [] || (b != [] && (a[0] < b[0] || (a[0] == b[0] && LexLe(a[1..], b[1..]))))
  }

  /** Zero-padded "HH:MM" strings compare as the times of day they denote,
      which is what makes the string comparison of schedule windows work. */
  lemma HHMMOrder(h1: int, m1: int, h2: int, m2: int)
    requires 0 <= h1 < 24 && 0 <= m1 < 60 && 0 <= h2 < 24 && 0 <= m2 < 60
    ensures LexLe(FormatHHMM(h1, m1), FormatHHMM(h2, m2)) <==> h1 * 60 + m1 <= h2 * 60 + m2
  {
    var a := FormatHHMM(h1, m1);
    var b := FormatHHMM(h2, m2);
    LexLeFive(a, b);
    var d1, e1, f1, g1 := h1 / 10, h1 % 10, m1 / 10, m1 % 10;
    var d2, e2, f2, g2 := h2 / 10, h2 % 10, m2 / 10, m2 % 10;
    assert a[0] as int == 48 + d1 && a[1] as int == 48 + e1 && a[3] as int == 48 + f1 && a[4] as int == 48 + g1;
    assert b[0] as int == 48 + d2 && b[1] as int == 48 + e2 && b[3] as int == 48 + f2 && b[4] as int == 48 + g2;
    assert 0 <= e1 < 10 && 0 <= f1 < 6 && 0 <= g1 < 10 && 0 <= e2 < 10 && 0 <= f2 < 6 && 0 <= g2 < 10;
    assert h1 * 60 + m1 == 600 * d1 + 60 * e1 + 10 * f1 + g1;
    assert h2 * 60 + m2 == 600 * d2 + 60 * e2 + 10 * f2 + g2;
  }

  /** LexLe on two five-character strings with the same middle character. */
  lemma LexLeFive(a: string, b: string)
    requires |a| == 5 && |b| == 5 && a[2] == b[2]
    ensures LexLe(a, b) <==>
      a[0] < b[0] || (a[0] == b[0] && (a[1] < b[1] || (a[1] == b[1]
        && (a[3] < b[3] || (a[3] == b[3] && a[4] <= b[4])))))
  {
    var a1, b1 := a[1..], b[1..];
    var a2, b2 := a1[1..], b1[1..];
    var a3, b3 := a2[1..], b2[1..];
    var a4, b4 := a3[1..], b3[1..];
    assert a4[1..] == [];
    assert LexLe(a4, b4) <==> a4[0] <= b4[0];
    assert LexLe(a3, b3) <==> a3[0] < b3[0] || (a3[0] == b3[0] && LexLe(a4, b4));
    assert LexLe(a2, b2) <==> LexLe(a3, b3);
    assert LexLe(a1, b1) <==> a1[0] < b1[0] || (a1[0] == b1[0] && LexLe(a2, b2));
    assert a1[0] == a[1] && a3[0] == a[3] && a4[0] == a[4];
    assert b1[0] == b[1] && b3[0] == b[3] && b4[0] == b[4];
  }

  /** A schedule applies now: enabled, today's bit set, and start <= "HH:MM" <= end
      as strings. */
  predicate ScheduleActive(s: Schedule, clock: Clock)
    requires clock.Valid()
  {
    var current := FormatHHMM(clock.hour, clock.minute);
    s.enable && WeekBit(s.weekSet, clock.weekday) && LexLe(s.startTime, current) && LexLe(current, s.endTime)
  }

  /** The first index at or after i whose schedule applies now. */
  function FirstActiveFrom(schedules: seq<Schedule>, clock: Clock, i: nat): (r: Option<nat>)
    requires clock.Valid() && i <= |schedules|
    ensures r.Some? ==> i <= r.value < |schedules| && ScheduleActive(schedules[r.value], clock)
    ensures r.Some? ==> forall j :: i <= j < r.value ==> !ScheduleActive(schedules[j], clock)
    ensures r.None? ==> forall j :: i <= j < |schedules| ==> !ScheduleActive(schedules[j], clock)
    decreases |schedules| - i
  {
    if i == |schedules| then None
    else if ScheduleActive(schedules[i], clock) then Some(i)
    else FirstActiveFrom(schedules, clock, i + 1)
  }

  /** The schedule _get_active_schedule returns: the first that applies now. */
  function FirstActive(schedules: seq<Schedule>, clock: Clock): (r: Option<Schedule>)
    requires clock.Valid()
    ensures r.Some? ==>
      exists k :: 0 <= k < |schedules| && r.value == schedules[k] && ScheduleActive(schedules[k], clock)
                  && (forall j :: 0 <= j < k ==> !ScheduleActive(schedules[j], clock))
    ensures r.None? <==> forall j :: 0 <= j < |schedules| ==> !ScheduleActive(schedules[j], clock)
  {
    match FirstActiveFrom(schedules, clock, 0)
    case Some(k) => Some(schedules[k])
    case None => None
  }

  /** For well-formed "HH:MM" bounds, a schedule's window is inclusive at both ends. */
  lemma WindowIsInclusive(s: Schedule, clock: Clock, sh: int, sm: int, eh: int, em: int)
    requires clock.Valid() && 0 <= sh < 24 && 0 <= sm < 60 && 0 <= eh < 24 && 0 <= em < 60
    requires s.startTime == FormatHHMM(sh, sm) && s.endTime == FormatHHMM(eh, em)
    ensures ScheduleActive(s, clock) <==>
      (s.enable && WeekBit(s.weekSet, clock.weekday)
       && sh * 60 + sm <= clock.hour * 60 + clock.minute <= eh * 60 + em)
  {
    HHMMOrder(sh, sm, clock.hour, clock.minute);
    HHMMOrder(clock.hour, clock.minute, eh, em);
  }

  /** No two schedules share a slot number. */
  predicate SlotsUnique(schedules: seq<Schedule>)
  {
    forall i, j :: 0 <= i < j < |schedules| ==> schedules[i].timeNum != schedules[j].timeNum
  }

  /** The first index at or after i that holds slot `slot`. */
  function SlotIndex(schedules: seq<Schedule>, slot: int, i: nat): (r: Option<nat>)
    requires i <= |schedules|
    ensures r.Some? ==> i <= r.value < |schedules| && schedules[r.value].timeNum == slot
    ensures r.Some? ==> forall j :: i <= j < r.value ==> schedules[j].timeNum != slot
    ensures r.None? ==> forall j :: i <= j < |schedules| ==> schedules[j].timeNum != slot
    decreases |schedules| - i
  {
    if i == |schedules| then None
    else if schedules[i].timeNum == slot then Some(i)
    else SlotIndex(schedules, slot, i + 1)
  }

  /** The schedule list after storing s: the first entry with s's slot is
      replaced in place, or s is appended when no entry has that slot. */
  function Upsert(schedules: seq<Schedule>, s: Schedule): (r: seq<Schedule>)
    ensures SlotIndex(schedules, s.timeNum, 0).Some? ==>
      var k := SlotIndex(schedules, s.timeNum, 0).value;
      |r| == |schedules| && r[k] == s && forall j :: 0 <= j < |r| && j != k ==> r[j] == schedules[j]
    ensures SlotIndex(schedules, s.timeNum, 0).None? ==>
      |r| == |schedules| + 1 && r[|schedules|] == s && r[..|schedules|] == schedules
  {
    match SlotIndex(schedules, s.timeNum, 0)
    case Some(k) => schedules[k := s]
    case None => schedules + [s]
  }

  /** Upserting keeps slot numbers unique, and the stored schedule is then
      the one found under its slot. */
  lemma {:induction false} UpsertKeepsSlotsUnique(schedules: seq<Schedule>, s: Schedule)
    requires SlotsUnique(schedules)
    ensures SlotsUnique(Upsert(schedules, s))
    ensures SlotIndex(Upsert(schedules, s), s.timeNum, 0).Some?
    ensures Upsert(schedules, s)[SlotIndex(Upsert(schedules, s), s.timeNum, 0).value] == s
    ensures |Upsert(schedules, s)| == |schedules| + (if SlotIndex(schedules, s.timeNum, 0).Some? then 0 else 1)
  {
    var r := Upsert(schedules, s);
    match SlotIndex(schedules, s.timeNum, 0)
    case Some(k) =>
      forall i, j | 0 <= i < j < |r| ensures r[i].timeNum != r[j].timeNum {
        if i == k {
          assert schedules[j].timeNum != s.timeNum;
        } else if j == k {
          assert schedules[i].timeNum != s.timeNum;
        }
      }
      SlotIndexFinds(r, s.timeNum, 0, k);
    case None =>
      forall i, j | 0 <= i < j < |r| ensures r[i].timeNum != r[j].timeNum {
        if j == |schedules| {
          assert r[i] == schedules[i];
        } else {
          assert r[i] == schedules[i] && r[j] == schedules[j];
        }
      }
      SlotIndexFinds(r, s.timeNum, 0, |schedules|);
  }

  lemma SlotIndexFinds(schedules: seq<Schedule>, slot: int, i: nat, k: nat)
    requires i <= k < |schedules| && schedules[k].timeNum == slot
    requires forall j :: i <= j < k ==> schedules[j].timeNum != slot
    ensures SlotIndex(schedules, slot, i) == Some(k)
    decreases k - i
  {
    if i < k {
      SlotIndexFinds(schedules, slot, i + 1, k);
    }
  }

  /** The configuration dict of ES.SetMode; None stands for a missing key. */
  datatype ModeConfig = ModeConfig(
    power: Option<int>,
    cdTime: Option<real>,
    timeNum: Option<int>,
    startTime: Option<string>,
    endTime: Option<string>,
    weekSet: Option<int>,
    enable: Option<int>,
    otherKeys: nat)          // how many keys the dict holds besides these
  {
    /** A dict is truthy when it holds at least one key. */
    predicate Truthy()
    {
      power.Some? || cdTime.Some? || timeNum.Some? || startTime.Some? || endTime.Some?
      || weekSet.Some? || enable.Some? || otherKeys > 0
    }
  }

  /** The schedule set_mode builds from a Manual configuration, with the
      source's defaults: slot 0, all day, every day, 0 W, enabled. */
  function ScheduleFromConfig(config: ModeConfig): (s: Schedule)
    ensures s.timeNum == (if config.timeNum.Some? then config.timeNum.value else 0)
    ensures s.startTime == (if config.startTime.Some? then config.startTime.value else FormatHHMM(0, 0))
    ensures s.endTime == (if config.endTime.Some? then config.endTime.value else FormatHHMM(23, 59))
    ensures s.weekSet == (if config.weekSet.Some? then config.weekSet.value else 127)
    ensures s.power == (if config.power.Some? then config.power.value else 0)
    ensures s.enable <==> config.enable.None? || config.enable.value == 1
  {
    Schedule(
      config.timeNum.GetOr(0),
      config.startTime.GetOr("00:00"),
      config.endTime.GetOr("23:59"),
      config.weekSet.GetOr(127),
      config.power.GetOr(0),
      config.enable.GetOr(1) == 1)
  }

  /** A Manual configuration holding only a slot number applies at every
      minute of every day. */
  lemma DefaultScheduleAlwaysActive(slot: int, clock: Clock)
    requires clock.Valid()
    ensures ScheduleActive(ScheduleFromConfig(ModeConfig(None, None, Some(slot), None, None, None, None, 0)), clock)
  {
    var s := ScheduleFromConfig(ModeConfig(None, None, Some(slot), None, None, None, None, 0));
    assert s.startTime == FormatHHMM(0, 0);
    assert s.endTime == FormatHHMM(23, 59);
    EveryDayInDefaultWeek(clock.weekday);
    WindowIsInclusive(s, clock, 0, 0, 23, 59);
  }

  // ---------------------------------------------------------------------
  // Target power

  /** The AI mode's target: nothing at low SOC, charging at night below 50%,
      a conservative share of the household by day, half in the evening at
      low SOC, never above the discharge limit. */
  function AiTarget(soc: real, gross: int, maxCharge: int, maxDischarge: int, hour: int): (r: int)
    ensures soc <= 15.0 ==> r == 0
    ensures soc > 15.0 && 0 <= hour < 6 ==> r == (if soc < 50.0 then -Trunc(maxCharge as real * 0.5) else 0)
    ensures soc > 15.0 && !(0 <= hour < 6) ==> r <= maxDischarge
    ensures soc > 15.0 && !(0 <= hour < 6) && 0 <= gross ==> r <= gross && (0 <= maxDischarge ==> 0 <= r)
    ensures soc > 15.0 && 9 <= hour < 17 && 0 <= gross ==> r <= Trunc(gross as real * 0.5)
    ensures soc > 15.0 && 9 <= hour < 17 ==>
      r == Min(if soc > 60.0 then Trunc(gross as real * 0.5) else Trunc(gross as real * 0.3), maxDischarge)
    ensures soc > 15.0 && 17 <= hour < 22 ==>
      r == Min(if soc < 30.0 then Trunc(gross as real * 0.5) else gross, maxDischarge)
    ensures soc > 15.0 && !(0 <= hour < 6) && !(9 <= hour < 17) && !(17 <= hour < 22) ==> r == Min(gross, maxDischarge)
  {
    if soc <= 15.0 then 0
    else if 0 <= hour < 6 then
      (if soc < 50.0 then -Trunc(maxCharge as real * 0.5) else 0)
    else
      var t0 := gross;
      var t1 := if 9 <= hour < 17 then (if soc > 60.0 then Trunc(t0 as real * 0.5) else Trunc(t0 as real * 0.3)) else t0;
      var t2 := if 17 <= hour < 22 && soc < 30.0 then Trunc(t1 as real * 0.5) else t1;
      Min(t2, maxDischarge)
  }

  /** _calculate_target_power, on the simulator's fields and the schedule
      that applies now. Positive discharges, negative charges. */
  function TargetPower(mode: string, targetPower: int, active: Option<Schedule>, soc: real, gross: int,
                       maxCharge: int, maxDischarge: int, hour: int): (r: int)
    ensures mode == ModePassive ==> r == targetPower
    ensures mode == ModeManual ==> r == (if active.Some? then active.value.power else 0)
    ensures mode == ModeAuto && soc <= SocReserve as real ==> r == 0
    ensures mode == ModeAuto && soc > SocReserve as real ==> r <= gross && r <= maxDischarge && (r == gross || r == maxDischarge)
    ensures mode == ModeAI ==> r == AiTarget(soc, gross, maxCharge, maxDischarge, hour)
    ensures mode != ModePassive && mode != ModeManual && mode != ModeAuto && mode != ModeAI ==> r == 0
  {
    if mode == ModePassive then targetPower
    else if mode == ModeManual then (if active.Some? then active.value.power else 0)
    else if mode == ModeAuto then (if soc <= SocReserve as real then 0 else Min(gross, maxDischarge))
    else if mode == ModeAI then AiTarget(soc, gross, maxCharge, maxDischarge, hour)
    else 0
  }

  /** AI mode never discharges more than Auto mode would in the same situation. */
  lemma AiAtMostAuto(soc: real, gross: int, maxCharge: int, maxDischarge: int, hour: int, active: Option<Schedule>, tp: int)
    requires 0 <= gross && 0 <= maxCharge && 0 <= maxDischarge
    ensures TargetPower(ModeAI, tp, active, soc, gross, maxCharge, maxDischarge, hour)
      <= TargetPower(ModeAuto, tp, active, soc, gross, maxCharge, maxDischarge, hour)
  {
  }

  lemma MulUnitBounds(t: real, f: real)
    requires 0.0 <= f <= 1.0
    ensures t >= 0.0 ==> 0.0 <= t * f <= t
    ensures t <= 0.0 ==> t <= t * f <= 0.0
  {
    if t >= 0.0 {
      MulMonotone(f, 1.0, t);
      MulNonNegative(t, f);
    } else {
      MulMonotone(f, 1.0, -t);
      MulNonNegative(-t, f);
    }
  }

  /** The charge taper above 90% SOC: the charge shrinks linearly to 0 at 100%. */
  function ChargeTaper(target: int, soc: real): (r: int)
    requires target < 0 && SocTaperCharge as real < soc < 100.0
    ensures target <= r <= 0
  {
    var taper := (100.0 - soc) / (100 - SocTaperCharge) as real;
    MulUnitBounds(target as real, taper);
    TruncBetween(target as real * taper, target, 0);
    Trunc(target as real * taper)
  }

  /** The discharge taper below 10% SOC: the discharge shrinks linearly to 0 at 5%. */
  function DischargeTaper(target: int, soc: real): (r: int)
    requires 0 < target && soc < SocTaperDischarge as real
    ensures 0 <= r <= target
    ensures soc <= SocMinDischarge as real ==> r == 0
  {
    var taper := MaxReal(0.0, (soc - SocMinDischarge as real) / (SocTaperDischarge - SocMinDischarge) as real);
    assert 0.0 <= taper <= 1.0;
    MulUnitBounds(target as real, taper);
    assert 0.0 <= target as real * taper;
    assert target as real * taper <= target as real;
    TruncBetween(target as real * taper, 0, target);
    Trunc(target as real * taper)
  }

  /** _apply_soc_limits: no discharge at or below 5%, no charge when full,
      tapered charge above 90% and tapered discharge below 10%. */
  function ApplySocLimits(target: int, soc: real): (r: int)
    ensures 0 <= target ==> 0 <= r <= target
    ensures target <= 0 ==> target <= r <= 0
    ensures 0 < target && soc <= SocMinDischarge as real ==> r == 0
    ensures target < 0 && soc >= 100.0 ==> r == 0
    ensures target < 0 && soc <= SocTaperCharge as real ==> r == target
    ensures 0 < target && soc >= SocTaperDischarge as real ==> r == target
    ensures target < 0 && SocTaperCharge as real < soc < 100.0 ==>
      r == Trunc(target as real * ((100.0 - soc) / (100 - SocTaperCharge) as real))
    ensures 0 < target && SocMinDischarge as real < soc < SocTaperDischarge as real ==>
      r == Trunc(target as real * ((soc - SocMinDischarge as real) / (SocTaperDischarge - SocMinDischarge) as real))
  {
    if target > 0 && soc <= SocMinDischarge as real then 0
    else if target < 0 && soc >= 100.0 then 0
    else
      var t1 := if target < 0 && soc > SocTaperCharge as real then ChargeTaper(target, soc) else target;
      if t1 > 0 && soc < SocTaperDischarge as real then DischargeTaper(t1, soc) else t1
  }

  /** The code, not the older test expectation of 650..750: at 7% SOC a
      1000 W discharge tapers to int(1000 * 0.4) = 400 W. */
  lemma DischargeTaperAtSevenPercent()
    ensures ApplySocLimits(1000, 7.0) == 400
  {
  }

  /** max(-max_charge, min(max_discharge, target)). */
  function ClampPower(target: int, maxCharge: int, maxDischarge: int): (r: int)
    ensures -maxCharge <= maxDischarge ==> -maxCharge <= r <= maxDischarge
    ensures -maxCharge <= target <= maxDischarge ==> r == target
    ensures 0 <= maxCharge && target <= 0 ==> r <= 0
    ensures 0 <= maxDischarge && 0 <= target ==> 0 <= r
  {
    Max(-maxCharge, Min(maxDischarge, target))
  }

  /** y is at most 5% of t away from zero, on t's side. */
  predicate WithinFivePercent(t: real, y: real)
  {
    (0.0 <= t ==> -0.05 * t <= y && y <= 0.05 * t)
    && (t <= 0.0 ==> 0.05 * t <= y && y <= -0.05 * t)
  }

  /** uniform(-1, 1) * pct / 100. */
  function FluctuationShare(u: real): (share: real)
    requires Unit(u)
    ensures -0.05 <= share <= 0.05
  {
    Uniform(-1.0, 1.0, u) * PowerFluctuationPct as real / 100.0
  }

  /** target * (uniform(-1, 1) * pct / 100): the random fluctuation added
      to a target, at most 5% of it either way. */
  function Fluctuation(target: int, u: real): (f: real)
    requires Unit(u)
    ensures WithinFivePercent(target as real, f)
  {
    ShareBound(target as real, FluctuationShare(u));
    target as real * FluctuationShare(u)
  }

  lemma ShareBound(t: real, share: real)
    requires -0.05 <= share <= 0.05
    ensures WithinFivePercent(t, t * share)
  {
    if 0.0 <= t {
      MulMonotone(share, 0.05, t);
      MulMonotone(-0.05, share, t);
      assert share * t == t * share;
    } else {
      MulMonotone(share, 0.05, -t);
      MulMonotone(-0.05, share, -t);
      assert share * -t == -(t * share);
    }
  }

  /** int(target + fluctuation) for a fluctuation of at most 5%. */
  function Fluctuated(target: int, f: real): (r: int)
    requires WithinFivePercent(target as real, f)
    ensures 0 < target ==> 0 <= r && r as real <= 1.05 * target as real && 0.95 * target as real < r as real + 1.0
    ensures target < 0 ==> r <= 0 && 1.05 * target as real <= r as real && r as real - 1.0 < 0.95 * target as real
  {
    Trunc(target as real + f)
  }

  /** The realised power: zero for a zero target, otherwise the target
      moved by at most 5% and truncated toward zero, so it keeps the
      target's sign. */
  function Fluctuate(target: int, u: real): (r: int)
    requires Unit(u)
    ensures target == 0 ==> r == 0
    ensures 0 < target ==> 0 <= r && r as real <= 1.05 * target as real && 0.95 * target as real < r as real + 1.0
    ensures target < 0 ==> r <= 0 && 1.05 * target as real <= r as real && r as real - 1.0 < 0.95 * target as real
    ensures 1 < target ==> 0 < r
    ensures target < -1 ==> r < 0
  {
    if target != 0 then Fluctuated(target, Fluctuation(target, u)) else 0
  }

  /** The whole chain from a mode's target to the battery's power. */
  function ActualPower(rawTarget: int, soc: real, maxCharge: int, maxDischarge: int, u: real): int
    requires Unit(u)
  {
    Fluctuate(ClampPower(ApplySocLimits(rawTarget, soc), maxCharge, maxDischarge), u)
  }

  /** The target after the SOC limits and the power clamp decides the
      actual power's sign; a zero target gives no power at all. */
  lemma ActualPowerFollowsClamp(rawTarget: int, soc: real, maxCharge: int, maxDischarge: int, u: real)
    requires Unit(u)
    ensures var c := ClampPower(ApplySocLimits(rawTarget, soc), maxCharge, maxDischarge);
      var r := ActualPower(rawTarget, soc, maxCharge, maxDischarge, u);
      (c == 0 ==> r == 0) && (0 < c ==> 0 <= r) && (c < 0 ==> r <= 0)
  {
  }

  /** Whatever the mode asks for, an empty battery (SOC at most 5%) never discharges. */
  lemma NoDischargeWhenEmpty(rawTarget: int, soc: real, maxCharge: int, maxDischarge: int, u: real)
    requires Unit(u) && soc <= SocMinDischarge as real && 0 <= maxCharge
    ensures ActualPower(rawTarget, soc, maxCharge, maxDischarge, u) <= 0
  {
  }

  /** Whatever the mode asks for, a full battery never charges. */
  lemma NoChargeWhenFull(rawTarget: int, soc: real, maxCharge: int, maxDischarge: int, u: real)
    requires Unit(u) && soc >= 100.0 && 0 <= maxDischarge
    ensures ActualPower(rawTarget, soc, maxCharge, maxDischarge, u) >= 0
  {
  }

  /** The battery's power stays within the limits, plus the 5% fluctuation. */
  lemma PowerWithinLimits(rawTarget: int, soc: real, maxCharge: int, maxDischarge: int, u: real)
    requires Unit(u) && 0 <= maxCharge && 0 <= maxDischarge
    ensures -1.05 * maxCharge as real <= ActualPower(rawTarget, soc, maxCharge, maxDischarge, u) as real
    ensures ActualPower(rawTarget, soc, maxCharge, maxDischarge, u) as real <= 1.05 * maxDischarge as real
  {
    var c := ClampPower(ApplySocLimits(rawTarget, soc), maxCharge, maxDischarge);
    assert -maxCharge <= c <= maxDischarge;
    assert 1.05 * c as real <= 1.05 * maxDischarge as real;
    assert -1.05 * maxCharge as real <= 1.05 * c as real;
  }

  // ---------------------------------------------------------------------
  // Grid and phases

  datatype Phases = Phases(a: int, b: int, c: int)

  /** int(total * ratio) for a ratio within lo..hi. */
  function Share(total: int, ratio: real, lo: real, hi: real): (r: int)
    requires 0.0 <= lo <= ratio <= hi
    ensures 0 <= total ==> 0 <= r && r as real <= hi * total as real
    ensures total <= 0 ==> r <= 0 && hi * total as real <= r as real
  {
    RatioShare(total as real, ratio, lo, hi);
    Trunc(total as real * ratio)
  }

  /** _update_phase_powers: phase A takes 35..45% and phase B 30..40% of the
      grid power, truncated; phase C takes the rest, so the three always sum
      to the total and each carries the total's sign. */
  function PhaseSplit(total: int, ua: real, ub: real): (p: Phases)
    requires Unit(ua) && Unit(ub)
    ensures p.a + p.b + p.c == total
    ensures 0 <= total ==> 0 <= p.a && 0 <= p.b && 0 <= p.c
    ensures total <= 0 ==> p.a <= 0 && p.b <= 0 && p.c <= 0
    ensures 0 <= total ==> p.c as real >= 0.15 * total as real
    ensures total <= 0 ==> p.c as real <= 0.15 * total as real
  {
    var a := Share(total, 0.40 + Uniform(-0.05, 0.05, ua), 0.35, 0.45);
    var b := Share(total, 0.35 + Uniform(-0.05, 0.05, ub), 0.30, 0.40);
    Phases(a, b, total - a - b)
  }

  lemma RatioShare(t: real, ratio: real, lo: real, hi: real)
    requires 0.0 <= lo <= ratio <= hi
    ensures t >= 0.0 ==> lo * t <= t * ratio <= hi * t
    ensures t <= 0.0 ==> hi * t <= t * ratio <= lo * t
  {
    if t >= 0.0 {
      MulMonotone(lo, ratio, t);
      MulMonotone(ratio, hi, t);
      assert ratio * t == t * ratio;
    } else {
      MulMonotone(lo, ratio, -t);
      MulMonotone(ratio, hi, -t);
      assert ratio * -t == -(t * ratio);
    }
  }

  // ---------------------------------------------------------------------
  // SOC, energy and temperature

  /** The SOC after `elapsed` seconds at `actual` watts (positive discharges),
      clamped to 0..100. */
  function NextSoc(soc: real, actual: int, elapsed: real, capacity: int): (r: real)
    requires capacity != 0
    ensures 0.0 <= r <= 100.0
    ensures 0 < capacity && 0.0 <= elapsed && actual <= 0 ==> r >= MinReal(soc, 100.0)
    ensures 0 < capacity && 0.0 <= elapsed && 0 <= actual ==> r <= MaxReal(soc, 0.0)
  {
    var change := SocChange(actual, elapsed, capacity);
    MaxReal(0.0, MinReal(100.0, soc + change))
  }

  /** Away from the clamps, the SOC points a step moves are exactly the
      energy the battery moved, in percent of its capacity. */
  lemma NextSocMovesEnergy(soc: real, actual: int, elapsed: real, capacity: int)
    requires capacity != 0
    requires 0.0 <= soc - actual as real * elapsed / (36.0 * capacity as real) <= 100.0
    ensures (soc - NextSoc(soc, actual, elapsed, capacity)) * capacity as real * 36.0 == actual as real * elapsed
  {
    var c := SocChange(actual, elapsed, capacity);
    SocChangeMovesEnergy(actual, elapsed, capacity);
    assert NextSoc(soc, actual, elapsed, capacity) == soc + c;
  }

  /** -(actual * elapsed / 3600 / capacity) * 100: the SOC points one step
      moves, which gives back exactly the energy it moved. */
  function SocChange(actual: int, elapsed: real, capacity: int): (c: real)
    requires capacity != 0
    ensures 0 < capacity && 0.0 <= elapsed && actual <= 0 ==> c >= 0.0
    ensures 0 < capacity && 0.0 <= elapsed && 0 <= actual ==> c <= 0.0
  {
    var hours := elapsed / 3600.0;
    var energyWh := actual as real * hours;
    SocChangeIs(actual as real, elapsed, capacity as real);
    -(energyWh / capacity as real) * 100.0
  }

  lemma SocChangeMovesEnergy(actual: int, elapsed: real, capacity: int)
    requires capacity != 0
    ensures SocChange(actual, elapsed, capacity) == -(actual as real * elapsed / (36.0 * capacity as real))
    ensures -SocChange(actual, elapsed, capacity) * capacity as real * 36.0 == actual as real * elapsed
  {
    SocChangeIs(actual as real, elapsed, capacity as real);
  }

  lemma SocChangeIs(p: real, e: real, cap: real)
    requires cap != 0.0
    ensures -((p * (e / 3600.0)) / cap) * 100.0 == -(p * e / (36.0 * cap))
    ensures 0.0 < cap && 0.0 <= e && p <= 0.0 ==> -((p * (e / 3600.0)) / cap) * 100.0 >= 0.0
    ensures 0.0 < cap && 0.0 <= e && 0.0 <= p ==> -((p * (e / 3600.0)) / cap) * 100.0 <= 0.0
    ensures (p * e / (36.0 * cap)) * cap * 36.0 == p * e
  {
    if 0.0 < cap && 0.0 <= e && p <= 0.0 {
      MulNonNegative(-p, e / 3600.0);
    }
    if 0.0 < cap && 0.0 <= e && 0.0 <= p {
      MulNonNegative(p, e / 3600.0);
    }
  }

  datatype EnergyStep = EnergyStep(gridInput: real, gridOutput: real, load: real)

  /** _update_energy_stats: what one step adds to the grid input, grid
      output and load counters. */
  function EnergyDelta(grid: int, gross: int, elapsed: real): (d: EnergyStep)
    ensures d.gridInput == 0.0 || d.gridOutput == 0.0
    ensures 0.0 <= elapsed ==> 0.0 <= d.gridInput && 0.0 <= d.gridOutput
    ensures 0.0 <= elapsed && 0 <= gross ==> 0.0 <= d.load
    ensures 0.0 < elapsed && grid != 0 ==> (d.gridInput > 0.0 <==> grid > 0) && (d.gridOutput > 0.0 <==> grid < 0)
  {
    var hours := elapsed / 3600.0;
    assert 0.0 <= elapsed ==> 0.0 <= Abs(grid) as real * hours by {
      if 0.0 <= elapsed {
        MulNonNegative(Abs(grid) as real, hours);
      }
    }
    assert 0.0 <= elapsed && 0 <= gross ==> 0.0 <= gross as real * hours by {
      if 0.0 <= elapsed && 0 <= gross {
        MulNonNegative(gross as real, hours);
      }
    }
    if grid > 0 then EnergyStep(grid as real * hours, 0.0, gross as real * hours)
    else EnergyStep(0.0, Abs(grid) as real * hours, gross as real * hours)
  }

  /** The grid counters move by the grid reading times the step's hours, and
      the load counter by the consumption times the hours. */
  lemma EnergyDeltaMeasures(grid: int, gross: int, elapsed: real)
    ensures var d := EnergyDelta(grid, gross, elapsed);
      d.gridInput - d.gridOutput == grid as real * (elapsed / 3600.0)
      && d.load == gross as real * (elapsed / 3600.0)
  {
  }

  /** _update_temperature divides by the maximum discharge power only above 100 W. */
  predicate HeatDefined(actual: int, maxDischarge: int)
  {
    Abs(actual) > 100 ==> maxDischarge != 0
  }

  /** Energy balance: the net grid energy plus the battery's own output is
      the household's load. */
  lemma EnergyBalance(gross: int, actual: int, elapsed: real)
    ensures var d := EnergyDelta(gross - actual, gross, elapsed);
      d.gridInput - d.gridOutput + actual as real * (elapsed / 3600.0) == d.load
  {
    EnergyDeltaMeasures(gross - actual, gross, elapsed);
  }

  /** _update_temperature: heating under load above 100 W, a small step
      toward 25 degrees otherwise, always kept within 15..50. */
  function NextTemperature(temp: real, actual: int, maxDischarge: int, uHeat: real, uCool: real): (r: real)
    requires Unit(uHeat) && Unit(uCool)
    requires HeatDefined(actual, maxDischarge)
    ensures MinTemp <= r <= MaxTemp
    ensures Abs(actual) > 100 && 0 < maxDischarge && MinTemp <= temp <= MaxTemp ==> temp <= r <= temp + 0.36
    ensures Abs(actual) <= 100 && MinTemp <= temp <= MaxTemp ==>
      (temp > BaseTemp ==> temp - 0.15 <= r <= temp)
      && (temp < BaseTemp ==> temp <= r <= temp + 0.15)
      && (temp == BaseTemp ==> r == temp)
  {
    var next :=
      if Abs(actual) > 100 then
        var heatFactor := MinReal(Abs(actual) as real / maxDischarge as real, 1.0);
        var heat := heatFactor * 0.3 * Uniform(0.8, 1.2, uHeat);
        HeatBound(heatFactor, Uniform(0.8, 1.2, uHeat), maxDischarge > 0);
        temp + heat
      else if temp > BaseTemp then temp - 0.1 * Uniform(0.5, 1.5, uCool)
      else if temp < BaseTemp then temp + 0.1 * Uniform(0.5, 1.5, uCool)
      else temp;
    MaxReal(MinTemp, MinReal(MaxTemp, next))
  }

  lemma HeatBound(heatFactor: real, w: real, positive: bool)
    requires heatFactor <= 1.0 && 0.8 <= w <= 1.2
    requires positive ==> 0.0 <= heatFactor
    ensures positive ==> 0.0 <= heatFactor * 0.3 * w <= 0.36
  {
    if positive {
      var h := heatFactor * 0.3;
      assert 0.0 <= h <= 0.3;
      MulNonNegative(h, w);
      MulMonotone(h, 0.3, w);
      assert 0.3 * w <= 0.36;
      assert h * w <= 0.3 * w;
    }
  }

  /** get_state's status label. */
  function StatusOf(power: int): (s: string)
    ensures s == StatusCharging <==> power < -50
    ensures s == StatusDischarging <==> power > 50
    ensures s == StatusIdle <==> -50 <= power <= 50
  {
    if power < -50 then StatusCharging else if power > 50 then StatusDischarging else StatusIdle
  }

  /** Passive mode has run out: Passive, a set (truthy) end time, and the
      clock at or past it. */
  predicate PassiveExpired(mode: string, endTime: Option<real>, now: real)
  {
    mode == ModePassive && endTime.Some? && endTime.value != 0.0 && now >= endTime.value
  }

  /** Once Passive mode has expired, no passive time remains. */
  lemma ExpiredLeavesNoTime(mode: string, endTime: Option<real>, now: real)
    requires PassiveExpired(mode, endTime, now)
    ensures PassiveRemaining(mode, endTime, now) == 0
  {
  }

  /** get_state's passive_remaining: whole seconds left in Passive mode,
      never negative, 0 outside Passive mode or without an end time. */
  function PassiveRemaining(mode: string, endTime: Option<real>, now: real): (r: int)
    ensures r >= 0
    ensures r > 0 ==> mode == ModePassive && endTime.Some? && now + 1.0 <= endTime.value
    ensures mode == ModePassive && endTime.Some? && endTime.value != 0.0 && now <= endTime.value ==>
      r as real <= endTime.value - now < r as real + 1.0
  {
    if endTime.Some? && endTime.value != 0.0 && mode == ModePassive then Max(0, Trunc(endTime.value - now)) else 0
  }

  /** get_state's charg_flag: the battery can still take charge. */
  function ChargeFlag(soc: real): (f: int)
    ensures f == 0 || f == 1
    ensures f == 1 <==> soc < 100.0
  {
    if soc < 100.0 then 1 else 0
  }

  /** get_state's dischrg_flag: the battery may still discharge. */
  function DischargeFlag(soc: real): (f: int)
    ensures f == 0 || f == 1
    ensures f == 1 <==> soc > SocMinDischarge as real
  {
    if soc > SocMinDischarge as real then 1 else 0
  }

  /** The flags agree with SOC protection: whenever a discharge request
      would pass the SOC limits unchanged or tapered, dischrg_flag is set,
      and whenever a charge request would, charg_flag is set. */
  lemma FlagsMatchSocLimits(target: int, soc: real)
    ensures 0 < target && ApplySocLimits(target, soc) > 0 ==> DischargeFlag(soc) == 1
    ensures target < 0 && ApplySocLimits(target, soc) < 0 ==> ChargeFlag(soc) == 1
  {
  }

  // ---------------------------------------------------------------------
  // Persistence

  /** The five values the simulator persists. */
  datatype PersistentState = PersistentState(
    soc: real,
    totalPvEnergy: real,
    totalGridOutputEnergy: real,
    totalGridInputEnergy: real,
    totalLoadEnergy: real)

  /** A stored state dict; None stands for a missing key. */
  datatype StoredState = StoredState(
    soc: Option<real>,
    totalPvEnergy: Option<real>,
    totalGridOutputEnergy: Option<real>,
    totalGridInputEnergy: Option<real>,
    totalLoadEnergy: Option<real>)

  /** apply_persistent_state on values: each stored key replaces its field,
      a missing key keeps the current value. */
  function Restore(current: PersistentState, stored: StoredState): (r: PersistentState)
    ensures stored.soc.Some? ==> r.soc == stored.soc.value
    ensures stored.soc.None? ==> r.soc == current.soc
    ensures stored.totalPvEnergy.Some? ==> r.totalPvEnergy == stored.totalPvEnergy.value
    ensures stored.totalPvEnergy.None? ==> r.totalPvEnergy == current.totalPvEnergy
    ensures stored.totalGridOutputEnergy.Some? ==> r.totalGridOutputEnergy == stored.totalGridOutputEnergy.value
    ensures stored.totalGridOutputEnergy.None? ==> r.totalGridOutputEnergy == current.totalGridOutputEnergy
    ensures stored.totalGridInputEnergy.Some? ==> r.totalGridInputEnergy == stored.totalGridInputEnergy.value
    ensures stored.totalGridInputEnergy.None? ==> r.totalGridInputEnergy == current.totalGridInputEnergy
    ensures stored.totalLoadEnergy.Some? ==> r.totalLoadEnergy == stored.totalLoadEnergy.value
    ensures stored.totalLoadEnergy.None? ==> r.totalLoadEnergy == current.totalLoadEnergy
  {
    PersistentState(
      stored.soc.GetOr(current.soc),
      stored.totalPvEnergy.GetOr(current.totalPvEnergy),
      stored.totalGridOutputEnergy.GetOr(current.totalGridOutputEnergy),
      stored.totalGridInputEnergy.GetOr(current.totalGridInputEnergy),
      stored.totalLoadEnergy.GetOr(current.totalLoadEnergy))
  }

  /** The dict _get_persistent_state_locked produces: every key present. */
  function Store(p: PersistentState): (s: StoredState)
    ensures s.soc.Some? && s.totalPvEnergy.Some? && s.totalGridOutputEnergy.Some?
      && s.totalGridInputEnergy.Some? && s.totalLoadEnergy.Some?
  {
    StoredState(Some(p.soc), Some(p.totalPvEnergy), Some(p.totalGridOutputEnergy),
      Some(p.totalGridInputEnergy), Some(p.totalLoadEnergy))
  }

  /** Restoring a saved snapshot gives back exactly the saved state, whatever
      the simulator held before; restoring an empty dict changes nothing. */
  lemma SnapshotRoundTrip(saved: PersistentState, current: PersistentState)
    ensures Restore(current, Store(saved)) == saved
    ensures Restore(current, StoredState(None, None, None, None, None)) == current
  {
  }

  // ---------------------------------------------------------------------
  // The state dict

  datatype PassiveCfg = PassiveCfg(power: int, cdTime: int)

  /** The dict get_state returns (and get_static_state imitates). */
  datatype DeviceState = DeviceState(
    soc: int,
    power: int,
    mode: string,
    status: string,
    gridPower: int,
    emAPower: int,
    emBPower: int,
    emCPower: int,
    householdConsumption: int,
    passiveRemaining: int,
    passiveCfg: Option<PassiveCfg>,
    wifiRssi: int,
    batteryTemp: real,
    ctConnected: bool,
    chargFlag: int,
    dischrgFlag: int,
    totalPvEnergy: int,
    totalGridOutputEnergy: int,
    totalGridInputEnergy: int,
    totalLoadEnergy: int,
    pvPower: int,
    pvVoltage: int,
    pvCurrent: int)
}
