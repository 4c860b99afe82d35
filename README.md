# Marstek local API: compatibility matrix and mock device, in Dafny

This project models two parts of the Marstek Home Assistant integration and proves properties about them.

- **The compatibility matrix** (module `Compatibility`) derives a device's identity from its model string and firmware value:
  - the firmware number;
  - the hardware version (the first `digits.digits` token, `"2.0"` by default);
  - the base model (the model with its version suffix removed);
  - the model family key (`venusa` … `venuse`, or the wildcard `*`).

  From that identity it gives the device's PV capabilities. It also gives the firmware-dependent divisor that turns a raw protocol field into physical units.
- **The mock device**:
  - the battery simulator: the pure rules are in module `BatteryModel`; the class `Battery.BatterySimulator` is the state machine over SOC, mode, target and actual power, the P1 meter reading and its three phases, manual schedules, the passive-mode deadline, the energy counters and persistence;
  - its household-consumption simulator (`Household`) and Wi-Fi signal simulator (`WiFi`), both classes whose methods update their fields;
  - the response builders of the local JSON-RPC API (`Handlers`).

The pieces are modelled as follows.

- **Inputs.** The clock (`time.time()` and the hour, minute and weekday of `datetime.now()`) is a parameter. Every call into Python's `random` module is a *unit draw*, a real `0 <= u < 1` passed in by the caller (module `Common`). So every contract holds for every value the random generator could return.
- **Numbers.** Python's `int()` of a float truncates toward zero (`Common.Trunc`). SOC, energy, temperature and scaled values are reals.
- **Dicts.** A dict with optional keys is a datatype of `Option` fields. A response result is a `map<string, Value>`.
- **Loops.** Each loop of the source is a method with a `while` loop, proved against a recursive specification function. These are `get_model_key`'s token search, `_get_active_schedule`, the schedule upsert of `set_mode` and the PV channel loop.

## Model

| member | source | states |
|---|---|---|
| Common.Trunc | tools/mock_device/simulators/battery.py:175 | Python's `int()` of a float rounds toward zero: the result has the argument's sign and lies within 1 of it, on the zero side |
| Common.RandInt | tools/mock_device/simulators/household.py:91 | a `randint(a, b)` draw lies in `a..b` |
| Common.Uniform | tools/mock_device/simulators/wifi.py:35 | a `uniform(a, b)` draw lies in `a..b` |
| Common.Choice | tools/mock_device/simulators/household.py:129 | a `choice(xs)` draw is an element of `xs` |
| Compatibility.ParseInt | custom_components/marstek/pymarstek/compatibility.py:53-56 | `int(text)` succeeds only on text holding a digit; with `ParseIntIff` and `ParseIntAccepts` it gives exactly the signed value of whitespace, an optional sign, digits and whitespace, and nothing for other text |
| Compatibility.ParseIntAccepts | custom_components/marstek/pymarstek/compatibility.py:54 | `int()` of whitespace, an optional `+` or `-`, one or more digits and whitespace is the signed decimal value of the digits |
| Compatibility.ParseIntIff | custom_components/marstek/pymarstek/compatibility.py:53-56 | `int(text)` succeeds if and only if the text is whitespace, an optional sign, one or more digits and whitespace |
| Compatibility.ParseIntRejects | custom_components/marstek/pymarstek/compatibility.py:53-56 | text whose stripped core holds a non-digit other than a leading sign raises ValueError |
| Compatibility.FirmwareRejectsMixedText | custom_components/marstek/pymarstek/compatibility.py:53-56 | firmware text `"1.5"` or `"v139"` reads as 0 |
| Compatibility.ParseFirmwareVersion | custom_components/marstek/pymarstek/compatibility.py:48-56 | None gives 0, an int passes through, unparsable text gives 0, and a non-zero result from text means the text held a digit |
| Compatibility.FirmwareTextRoundTrip | custom_components/marstek/pymarstek/compatibility.py:53-54 | firmware given as the decimal text of any int (negative included) parses back to that int |
| Compatibility.DigitsValueOfNatToText | custom_components/marstek/pymarstek/compatibility.py:54 | reading the decimal digits of `str(n)` gives back `n` |
| Compatibility.ParseDigits | custom_components/marstek/pymarstek/compatibility.py:54 | `int()` of a non-empty digit string is its decimal value |
| Compatibility.ParseNegativeDigits | custom_components/marstek/pymarstek/compatibility.py:54 | `int()` of `-` followed by digits is minus their value |
| Compatibility.FirmwareWithoutDigitsIsZero | custom_components/marstek/pymarstek/compatibility.py:53-56 | firmware text with no digit at all reads as 0 |
| Compatibility.TrimLeft | custom_components/marstek/pymarstek/compatibility.py:54 | the result is a suffix of the input that does not start with whitespace, and everything removed before it is whitespace |
| Compatibility.TrimRight | custom_components/marstek/pymarstek/compatibility.py:54 | the result is a prefix of the input that does not end with whitespace, and everything removed after it is whitespace |
| Compatibility.DigitRunEnd | custom_components/marstek/pymarstek/compatibility.py:63 | the greedy `\d+` from i stops at the first non-digit |
| Compatibility.VersionMatchAt | custom_components/marstek/pymarstek/compatibility.py:63 | a match of `\d+\.\d+` anchored at i covers a version token (digits, dot, digits) and ends where its last digit run ends |
| Compatibility.VersionMatchComplete | custom_components/marstek/pymarstek/compatibility.py:63 | wherever a version token starts, the pattern matches there and runs to the end of the token's last digit run |
| Compatibility.FindVersion | custom_components/marstek/pymarstek/compatibility.py:63 | `re.search` finds the leftmost matching position: it matches there, no earlier position matches, and None means no position matches |
| Compatibility.ParseHardwareVersion | custom_components/marstek/pymarstek/compatibility.py:59-66 | the result is always a version token: the leftmost match in the model, or `"2.0"` when there is none |
| Compatibility.HardwareVersionIsFirstToken | custom_components/marstek/pymarstek/compatibility.py:59-66 | if position b is the first where `\d+\.\d+` matches, the hardware version is exactly that match |
| Compatibility.HardwareVersionDefault | custom_components/marstek/pymarstek/compatibility.py:61-66 | a model without any version token gives `"2.0"` |
| Compatibility.HardwareVersionFound | custom_components/marstek/pymarstek/compatibility.py:59-66 | a model holding a version token anywhere takes its hardware version from a match starting no later than that token |
| Compatibility.SpaceRunEnd | custom_components/marstek/pymarstek/compatibility.py:73 | the greedy `\s+` from i stops at the first non-space |
| Compatibility.LineEnd | custom_components/marstek/pymarstek/compatibility.py:73 | `.*` stops at the first newline or at the end of the string |
| Compatibility.SuffixMatchAt | custom_components/marstek/pymarstek/compatibility.py:73 | a match of `\s+\d+\.\d+.*$` at i starts with whitespace, holds a version token after it and ends at the end of the string or before a final newline |
| Compatibility.SuffixMatchComplete | custom_components/marstek/pymarstek/compatibility.py:73 | whitespace followed by a version token with no newline after it except a final one is a match, running to the end or to just before that final newline |
| Compatibility.FindSuffix | custom_components/marstek/pymarstek/compatibility.py:73 | the substitution's search finds a position at or after i where the suffix pattern matches |
| Compatibility.FindSuffixNone | custom_components/marstek/pymarstek/compatibility.py:73 | when the pattern matches at no position from i on, the search finds nothing |
| Compatibility.FirstSuffixIs | custom_components/marstek/pymarstek/compatibility.py:73 | the search finds the leftmost position where the suffix pattern matches |
| Compatibility.FindSuffixFrom | custom_components/marstek/pymarstek/compatibility.py:73 | searching from i finds b when b is the first match at or after i |
| Compatibility.GetBaseModel | custom_components/marstek/pymarstek/compatibility.py:69-73 | with no suffix match the model is unchanged; otherwise the model is cut at the whitespace that starts the first match, and a final newline survives exactly when the model ends in one |
| Compatibility.ModelStringRoundTrip | custom_components/marstek/pymarstek/compatibility.py:59-73 | for `"<name> <major>.<minor>"` with a name holding no digit and no space, the hardware version is `"<major>.<minor>"` and the base model is the name (`"VenusE 3.0"` gives `"3.0"` and `"VenusE"`) |
| Compatibility.ModelStringSplits | custom_components/marstek/pymarstek/compatibility.py:59-73 | the same split for any two non-empty digit strings as major and minor |
| Compatibility.HardwareAfterPrefix | custom_components/marstek/pymarstek/compatibility.py:59-66 | a model whose first digit starts a version token running to the end has that token as its hardware version |
| Compatibility.BaseBeforeSuffix | custom_components/marstek/pymarstek/compatibility.py:69-73 | a model whose first whitespace is followed by a version token running to the end has the text before that whitespace as its base model |
| Compatibility.VersionTokenAfterName | custom_components/marstek/pymarstek/compatibility.py:63 | in `"<name> <a>.<b>"` the version match starts after the space and runs to the end |
| Compatibility.DigitRunFrom | custom_components/marstek/pymarstek/compatibility.py:63 | a digit run that stops at j ends at j |
| Compatibility.ToLower | custom_components/marstek/pymarstek/compatibility.py:79 | `lower()` maps an upper-case letter to its own lower-case letter (code + 32), keeps alphanumerics alphanumeric and changes nothing else |
| Compatibility.NormalizeModel | custom_components/marstek/pymarstek/compatibility.py:76-79 | the result is no longer than the model and holds only lower-case alphanumerics; `NormalizeConcat` and `NormalizeChar` fix it character by character |
| Compatibility.NormalizeConcat | custom_components/marstek/pymarstek/compatibility.py:79 | normalisation distributes over concatenation, so it works character by character in order |
| Compatibility.NormalizeChar | custom_components/marstek/pymarstek/compatibility.py:79 | an alphanumeric character is kept, lower-cased; any other character is dropped |
| Compatibility.NormalizeIdempotent | custom_components/marstek/pymarstek/compatibility.py:76-79 | normalising twice is normalising once |
| Compatibility.NormalFixed | custom_components/marstek/pymarstek/compatibility.py:76-79 | a string of lower-case alphanumerics is its own normal form |
| Compatibility.FirstContained | custom_components/marstek/pymarstek/compatibility.py:85-88 | the first token, in order, contained in the normalised model; None when no token is contained |
| Compatibility.ModelKeyOf | custom_components/marstek/pymarstek/compatibility.py:82-88 | the model key is one of the five family tokens or the wildcard |
| Compatibility.ModelKeyOfVenusE | tests/test_compatibility.py:13-17 | the model `"VenusE 3.0"` has the model key `"venuse"` |
| Compatibility.GetModelKey | custom_components/marstek/pymarstek/compatibility.py:82-88 | the key is the wildcard iff no token occurs in the normalised base model; otherwise it is the first token, in tuple order, that occurs |
| Compatibility.FirstContainedSkips | custom_components/marstek/pymarstek/compatibility.py:85-87 | the search returns the first index whose token is contained, skipping all earlier ones |
| Compatibility.FirstContainedNone | custom_components/marstek/pymarstek/compatibility.py:85-88 | when no token is contained the search gives none |
| Compatibility.NewMatrix | custom_components/marstek/pymarstek/compatibility.py:157-162 | the five context fields are derived once from the model (missing gives `""`) and the firmware; the hardware version is a version token and the key a family token or the wildcard |
| Compatibility.Capabilities | custom_components/marstek/pymarstek/compatibility.py:35-45 | PV is supported, with 4 channels, exactly for `venusa` and `venusd`; every other key, `venusb` and `*` included, has no PV and 0 channels |
| Compatibility.FieldTables | custom_components/marstek/pymarstek/compatibility.py:94-155 | every divisor listed in the scaling matrix is positive |
| Compatibility.FieldScalingWellFormed | custom_components/marstek/pymarstek/compatibility.py:94-155 | every table the matrix holds for a field has only positive divisors, so scaling never divides by zero |
| Compatibility.StandardWellFormed | custom_components/marstek/pymarstek/compatibility.py:94-155 | a field's tables are keyed by the wildcard model and hardware 2.0 and 3.0 only, with positive divisors |
| Compatibility.SelectTable | custom_components/marstek/pymarstek/compatibility.py:182-192 | the lookup takes the model's own map when it is present and non-empty, else the any-model (`*`) map, else none; within that map it takes the hardware version's own non-empty table, else the any-version (`*`) table, else none; each of these cases is stated with its exact result, and a field with no table at all misses |
| Compatibility.HardwareTable | custom_components/marstek/pymarstek/compatibility.py:182-192 | a table found for a device is non-empty with positive divisors |
| Compatibility.HardwareTableOfField | custom_components/marstek/pymarstek/compatibility.py:182-192 | for every model key, a field of the matrix takes its hardware 2.0 table on hardware 2.0 and its hardware 3.0 table on hardware 3.0, and a field the matrix does not list has no table |
| Compatibility.SelectThreshold | custom_components/marstek/pymarstek/compatibility.py:194-202 | the chosen pair is in the table, has a threshold the firmware has reached and no reached threshold is larger; there is none iff every threshold is above the firmware |
| Compatibility.Divisor | custom_components/marstek/pymarstek/compatibility.py:182-202 | a divisor, when one applies, is positive |
| Compatibility.DivisorIsLargestReached | custom_components/marstek/pymarstek/compatibility.py:194-202 | a divisor applies iff the device has a table with a reached threshold, and it is the divisor of the largest reached threshold |
| Compatibility.DivisorFromTable | custom_components/marstek/pymarstek/compatibility.py:194-202 | read off a known table, the divisor is that of the selected threshold and missing when none is selected |
| Compatibility.ScaleValue | custom_components/marstek/pymarstek/compatibility.py:177-212 | non-numbers and numbers with no applicable divisor come back unchanged; otherwise the value is divided by the divisor |
| Compatibility.BatPowerScalingHw2 | custom_components/marstek/pymarstek/compatibility.py:119-124 | `bat_power` on hardware 2.0 is divided by 10 for firmware 0..153, left as is from 154 on, and left raw for negative firmware |
| Compatibility.PowerTableHw2 | custom_components/marstek/pymarstek/compatibility.py:119-124 | the hardware 2.0 `bat_power` table is `{0: 10, 154: 1}` for every model |
| Compatibility.Hw2PowerThreshold | custom_components/marstek/pymarstek/compatibility.py:119-124 | in that table firmware below 0 selects nothing, 0..153 selects threshold 0 and 154 on selects threshold 154 |
| Compatibility.UnknownHardwareIsRaw | custom_components/marstek/pymarstek/compatibility.py:190-192 | a hardware version other than 2.0 and 3.0 leaves every value of every field unscaled |
| Compatibility.FieldScalingStandardHw | custom_components/marstek/pymarstek/compatibility.py:94-155 | the matrix lists no hardware version other than 2.0 and 3.0, and no hardware wildcard |
| Compatibility.NoTableForOtherHw | custom_components/marstek/pymarstek/compatibility.py:190-192 | with only 2.0 and 3.0 listed, any other hardware version finds no table |
| Compatibility.GetInfo | custom_components/marstek/pymarstek/compatibility.py:214-222 | the diagnostics hold exactly the five context keys, each mapped to its value: the device model, base model, model key and hardware version as text and the firmware version as an integer |
| Compatibility.GetInfoDeterminesMatrix | custom_components/marstek/pymarstek/compatibility.py:214-222 | the diagnostics carry the whole matrix: equal diagnostics mean equal matrices |
| WiFi.DriftTarget | tools/mock_device/simulators/wifi.py:37-38 | a refreshed drift target lies in -90..-30, and within 5 dBm of the base RSSI when the base is at least 5 away from both bounds |
| WiFi.StepToward | tools/mock_device/simulators/wifi.py:46-49 | the RSSI moves exactly one dBm toward the drift target, or stays when it is there, so its distance to the target drops by one |
| WiFi.ReachesTarget | tools/mock_device/simulators/wifi.py:46-49 | against a fixed drift target the RSSI reaches it after as many calls as it is dBm away, and stays there |
| WiFi.StepsStayBetween | tools/mock_device/simulators/wifi.py:46-49 | over n calls the RSSI never gets further from the target and moves at most n dBm, so it never overshoots |
| WiFi.Reported | tools/mock_device/simulators/wifi.py:52-59 | the reported RSSI lies in -95..-25 and equals signal plus jitter minus dip whenever that is in range |
| WiFi.WiFiSimulator.constructor | tools/mock_device/simulators/wifi.py:10-21 | the signal, the drift target and the base start equal, with no interference |
| WiFi.WiFiSimulator.GetRssi | tools/mock_device/simulators/wifi.py:23-59 | drift target and interference are refreshed only after the drawn 30..60 s, otherwise unchanged; a new dip is 10..20 dBm and is subtracted only until its deadline; the signal steps toward the target; the result lies in -95..-25 |
| Household.TimeBasedLoad | tools/mock_device/simulators/household.py:88-97 | the time-of-day load is 200..500 W for hours 6-8, 50..150 for 9-16, 300..800 for 17-21 and 0..50 otherwise |
| Household.CookingChance | tools/mock_device/simulators/household.py:105-107 | the chance is 20% exactly at the meal hours 7, 8, 12, 13, 18, 19, 20 and 5% otherwise |
| Household.AppliancesValid | tools/mock_device/simulators/household.py:120-128 | every appliance draws 400..3000 W for 2..120 minutes, with its minimum at most its maximum |
| Household.NextFluctuationTarget | tools/mock_device/simulators/household.py:73-79 | a new fluctuation target lies in -100..300; a spike moves it 50..200 W from a base in -50..100; a drift keeps it in -50..150 and within 20 W of a base in -30..130 |
| Household.LerpBetween | tools/mock_device/simulators/household.py:84 | a point part of the way from base to target lies between them |
| Household.Interpolate | tools/mock_device/simulators/household.py:82-86 | the fluctuation lies between base and target, is the base when no time has passed and the target after one second |
| Household.Total | tools/mock_device/simulators/household.py:63 | the consumption is never below 50 W and is the plain sum whenever that is at least 50 |
| Household.HouseholdSimulator.constructor | tools/mock_device/simulators/household.py:12-35 | consumption starts at the base load, with no event and no fluctuation |
| Household.HouseholdSimulator.GetConsumption | tools/mock_device/simulators/household.py:37-64 | events are reconsidered only when more than 30 s have passed since the last check: then a cooking event starts (1500..3000 W for 5..30 min) when none is running and the roll is under the hour's chance, and an appliance event starts from the drawn appliance when none is running and the roll is under 3 %; otherwise each event is untouched. The fluctuation takes a new target, starting from the old target, once the drawn 0.5..2 s have passed, and is untouched otherwise. The result is at least 50 W, is the sum of base, time-of-day load, the running cooking event, the running appliance event and the interpolated fluctuation, and is stored as the current consumption |
| Household.HouseholdSimulator.GetMicroFluctuation | tools/mock_device/simulators/household.py:66-86 | a new target is drawn only after the drawn 0.5..2 s, starting from the old target; otherwise the state is unchanged; the result interpolates base to target and lies in -100..300 when the clock has not gone back |
| Household.HouseholdSimulator.MaybeTriggerEvent | tools/mock_device/simulators/household.py:99-135 | a cooking or appliance event starts only when the previous one of its kind has expired and its roll succeeds, with power and minutes from the drawn ranges; otherwise that event is unchanged |
| Household.HouseholdSimulator.ForceCookingEvent | tools/mock_device/simulators/household.py:137-141 | cooking power is set and lasts 60 s per minute from now, so the load includes it right away |
| Household.EventDurations | tools/mock_device/simulators/household.py:110-131 | a cooking event lasts 300..1800 s and an appliance event 120..7200 s |
| Household.HouseholdSimulator.EventLoad | tools/mock_device/simulators/household.py:55-58 | the active events add nothing once both have expired, and never more than the two event powers together |
| BatteryModel.EveryDayInDefaultWeek | tools/mock_device/simulators/battery.py:390-391 | the default week set 127 selects every weekday, and 0 selects none |
| BatteryModel.TwoDigits | tools/mock_device/simulators/battery.py:384 | a zero-padded field is two digits |
| BatteryModel.FormatHHMM | tools/mock_device/simulators/battery.py:384 | `strftime("%H:%M")` gives five characters with the colon in the middle |
| BatteryModel.HHMMOrder | tools/mock_device/simulators/battery.py:384-395 | comparing zero-padded `"HH:MM"` strings is comparing the times of day they denote |
| BatteryModel.LexLeFive | tools/mock_device/simulators/battery.py:395 | Python's string order on two five-character strings with the same middle character, character by character |
| BatteryModel.FirstActiveFrom | tools/mock_device/simulators/battery.py:387-397 | the first schedule at or after i that applies now, with none before it; None when none applies |
| BatteryModel.FirstActive | tools/mock_device/simulators/battery.py:381-397 | the active schedule is an applying schedule with no applying one before it, and there is none iff no schedule applies |
| BatteryModel.WindowIsInclusive | tools/mock_device/simulators/battery.py:388-395 | a schedule with `"HH:MM"` bounds applies iff it is enabled, today's bit is set and start <= now <= end in minutes, both ends included |
| BatteryModel.SlotIndex | tools/mock_device/simulators/battery.py:422-424 | the first schedule at or after i with the given slot, and none before it; None when no schedule has it |
| BatteryModel.Upsert | tools/mock_device/simulators/battery.py:422-427 | an existing slot is replaced in place, keeping the length and every other entry; a new slot is appended at the end |
| BatteryModel.UpsertKeepsSlotsUnique | tools/mock_device/simulators/battery.py:422-427 | storing a schedule keeps slot numbers unique, the stored schedule is then found under its slot, and the list grows only for a new slot |
| BatteryModel.SlotIndexFinds | tools/mock_device/simulators/battery.py:422-424 | the slot search returns the first index holding the slot |
| BatteryModel.DefaultScheduleAlwaysActive | tools/mock_device/simulators/battery.py:413-421 | a Manual config giving only a slot number yields a schedule active at every minute of every day |
| BatteryModel.ScheduleFromConfig | tools/mock_device/simulators/battery.py:412-421 | each schedule field is the config's value when present, and otherwise slot 0, `"00:00"`, `"23:59"`, every day (127) and 0 W; enabled iff `enable` is missing or 1 |
| BatteryModel.AiTarget | tools/mock_device/simulators/battery.py:225-251 | AI mode: nothing at SOC <= 15; at night it charges at half power below 50% SOC and idles above; in hours 9-16 it gives `min(int(c * 0.5), max discharge)` above 60% SOC and `min(int(c * 0.3), max discharge)` otherwise; in hours 17-21 `min(int(c * 0.5), max discharge)` below 30% SOC and `min(c, max discharge)` otherwise; at the other hours `min(c, max discharge)`, where c is the household consumption |
| BatteryModel.TargetPower | tools/mock_device/simulators/battery.py:201-253 | Passive gives the stored power; Manual gives the active schedule's power or 0; Auto gives 0 at or below 10% SOC and otherwise the smaller of consumption and discharge limit; AI follows its rule; any other mode gives 0 |
| BatteryModel.AiAtMostAuto | tools/mock_device/simulators/battery.py:217-251 | in the same situation AI mode never asks for more discharge than Auto mode |
| BatteryModel.MulUnitBounds | tools/mock_device/simulators/battery.py:266-274 | scaling by a taper factor in 0..1 keeps the value's sign and does not grow it |
| BatteryModel.ChargeTaper | tools/mock_device/simulators/battery.py:266-268 | a tapered charge stays between the requested charge and 0 |
| BatteryModel.DischargeTaper | tools/mock_device/simulators/battery.py:271-274 | a tapered discharge stays between 0 and the requested discharge, and is 0 at or below 5% SOC |
| BatteryModel.ApplySocLimits | tools/mock_device/simulators/battery.py:255-276 | SOC protection never flips the target's sign or grows it; discharge is 0 at or below 5%, charge 0 when full, charge tapered by (100-soc)/10 above 90%, discharge by (soc-5)/5 below 10%, untouched otherwise |
| BatteryModel.DischargeTaperAtSevenPercent | tools/mock_device/simulators/battery.py:271-274 | at 7% SOC a 1000 W discharge becomes 400 W |
| BatteryModel.ClampPower | tools/mock_device/simulators/battery.py:170 | the target is kept within -max charge..max discharge, unchanged inside it, and keeps its sign |
| BatteryModel.FluctuationShare | tools/mock_device/simulators/battery.py:174 | the fluctuation share lies within -5%..5% |
| BatteryModel.Fluctuation | tools/mock_device/simulators/battery.py:174 | the fluctuation added to a target is at most 5% of the target either way |
| BatteryModel.ShareBound | tools/mock_device/simulators/battery.py:174 | a target times a share within ±5% is within 5% of zero on the target's side |
| BatteryModel.Fluctuated | tools/mock_device/simulators/battery.py:175 | the truncated fluctuated power keeps the target's sign and lies within 95%..105% of it, up to truncation |
| BatteryModel.Fluctuate | tools/mock_device/simulators/battery.py:173-177 | the actual power is 0 for a zero target; otherwise it keeps the target's sign (strictly for targets beyond ±1 W) and stays within 5% of it, up to truncation |
| BatteryModel.ActualPowerFollowsClamp | tools/mock_device/simulators/battery.py:166-177 | the target after SOC limits and the power clamp decides the actual power's sign, and a zero clamped target gives 0 |
| BatteryModel.NoDischargeWhenEmpty | tools/mock_device/simulators/battery.py:258-259 | whatever the mode asks, a battery at or below 5% SOC never discharges |
| BatteryModel.NoChargeWhenFull | tools/mock_device/simulators/battery.py:262-263 | whatever the mode asks, a full battery never charges |
| BatteryModel.PowerWithinLimits | tools/mock_device/simulators/battery.py:166-177 | the actual power stays within the charge and discharge limits plus the 5% fluctuation |
| BatteryModel.Share | tools/mock_device/simulators/battery.py:291-292 | a phase's truncated share of the total has the total's sign and is at most the ratio's upper bound of it |
| BatteryModel.PhaseSplit | tools/mock_device/simulators/battery.py:278-294 | the three phases sum exactly to the grid power for any ratio draws, each carries the total's sign, and phase C takes at least 15% of it |
| BatteryModel.RatioShare | tools/mock_device/simulators/battery.py:288-292 | a total times a ratio in lo..hi lies between lo and hi times the total |
| BatteryModel.NextSoc | tools/mock_device/simulators/battery.py:187-190 | the next SOC lies in 0..100; charging never lowers it and discharging never raises it |
| BatteryModel.NextSocMovesEnergy | tools/mock_device/simulators/battery.py:187-190 | away from the clamps, the SOC points lost times capacity times 36 is exactly the power times the elapsed seconds (the energy the battery delivered) |
| BatteryModel.SocChange | tools/mock_device/simulators/battery.py:187-189 | discharging lowers the SOC and charging raises it |
| BatteryModel.SocChangeMovesEnergy | tools/mock_device/simulators/battery.py:187-189 | the SOC change is the delivered energy in percent of capacity, with the opposite sign |
| BatteryModel.SocChangeIs | tools/mock_device/simulators/battery.py:187-189 | the source's formula equals power times seconds over 36 times capacity, with the stated signs |
| BatteryModel.EnergyDelta | tools/mock_device/simulators/battery.py:296-307 | in one step at most one of grid input and grid output grows; no counter shrinks over a non-negative step; for a non-zero grid reading, input grows iff the grid imports and output grows iff it exports |
| BatteryModel.EnergyDeltaMeasures | tools/mock_device/simulators/battery.py:298-307 | the net grid counters move by the grid power times the step's hours, and the load counter by the consumption times the hours |
| BatteryModel.EnergyBalance | tools/mock_device/simulators/battery.py:296-307 | net grid energy plus the battery's output equals the household's load energy |
| BatteryModel.NextTemperature | tools/mock_device/simulators/battery.py:309-320 | the temperature stays in 15..50; above 100 W it rises by at most 0.36 degrees; otherwise a temperature above 25 falls by at most 0.15, one below 25 rises by at most 0.15, and 25 stays (a step may cross 25) |
| BatteryModel.HeatBound | tools/mock_device/simulators/battery.py:313-314 | one heating step adds 0..0.36 degrees |
| BatteryModel.StatusOf | tools/mock_device/simulators/battery.py:438-443 | the status is charging iff power < -50, discharging iff power > 50, and idle otherwise |
| BatteryModel.PassiveRemaining | tools/mock_device/simulators/battery.py:446-448 | the remaining passive time is never negative, is positive only in Passive mode with at least a second left, and is the whole seconds left |
| BatteryModel.ExpiredLeavesNoTime | tools/mock_device/simulators/battery.py:155-156 | Passive mode expires when a set end time is reached (`PassiveExpired`), and then no passive time remains |
| BatteryModel.ChargeFlag | tools/mock_device/simulators/battery.py:478 | `charg_flag` is 1 iff SOC < 100, and 0 otherwise |
| BatteryModel.DischargeFlag | tools/mock_device/simulators/battery.py:479 | `dischrg_flag` is 1 iff SOC > 5, and 0 otherwise |
| BatteryModel.FlagsMatchSocLimits | tools/mock_device/simulators/battery.py:478-479 | when SOC protection lets a discharge through the discharge flag is set, and when it lets a charge through the charge flag is set |
| BatteryModel.Restore | tools/mock_device/simulators/battery.py:322-337 | each stored key replaces its value and a missing key keeps the current one |
| BatteryModel.Store | tools/mock_device/simulators/battery.py:339-346 | a snapshot carries all five persisted keys |
| BatteryModel.SnapshotRoundTrip | tools/mock_device/simulators/battery.py:322-346 | restoring a snapshot gives back exactly the saved state, whatever was there before; restoring an empty dict changes nothing |
| Battery.BatterySimulator.constructor | tools/mock_device/simulators/battery.py:61-121 | a new simulator is in Auto mode at the given SOC with zero power, an empty schedule list, 25 degrees and zeroed counters, and its invariant holds |
| Battery.BatterySimulator.GetActiveSchedule | tools/mock_device/simulators/battery.py:381-397 | the loop returns the first schedule in list order that applies now, or none |
| Battery.BatterySimulator.CalculateTargetPower | tools/mock_device/simulators/battery.py:201-253 | the target follows the mode's rule, using the active schedule in Manual mode |
| Battery.BatterySimulator.UpdatePhasePowers | tools/mock_device/simulators/battery.py:278-294 | the phases are set to the split of the grid power and sum to it |
| Battery.BatterySimulator.ApplyImmediatePowerUpdate | tools/mock_device/simulators/battery.py:362-379 | consumption is refreshed (at least 50 W); the actual power follows the mode's target through SOC limits, clamps and fluctuation; the battery never discharges when empty nor charges when full; the meter reads consumption minus battery power and its phases sum to it |
| Battery.BatterySimulator.DrivePower | tools/mock_device/simulators/battery.py:167-184 | the actual power is the chain applied to the target, the SOC protection holds, and the meter and phases are consistent |
| Battery.BatterySimulator.UpdateEnergyStats | tools/mock_device/simulators/battery.py:296-307 | each counter grows by the step's energy, and none decreases over a non-negative step |
| Battery.BatterySimulator.UpdateTemperature | tools/mock_device/simulators/battery.py:309-320 | the temperature takes the next step and stays in 15..50 |
| Battery.BatterySimulator.MaybePersistLocked | tools/mock_device/simulators/battery.py:353-360 | a snapshot of the current state goes to the callback only when there is one and the interval has passed, and then the persist time is now; otherwise nothing changes |
| Battery.BatterySimulator.GetPersistentStateLocked | tools/mock_device/simulators/battery.py:339-346 | the snapshot holds the current SOC and the four energy counters |
| Battery.BatterySimulator.ApplyPersistentState | tools/mock_device/simulators/battery.py:322-337 | the persisted fields become the restore of the stored dict over the current values; nothing else changes |
| Battery.BatterySimulator.ExpirePassiveMode | tools/mock_device/simulators/battery.py:155-160 | an expired passive mode becomes Auto with target 0 and no deadline; otherwise mode, target and deadline are unchanged |
| Battery.BatterySimulator.UpdateState | tools/mock_device/simulators/battery.py:152-199 | one step keeps the invariant (meter = consumption - battery, phases sum to it, temperature in 15..50, unique slots), expires passive mode, sets power from the SOC at the start of the step with its protection, moves SOC within 0..100, adds the step's energy, heats or cools, and may persist |
| Battery.BatterySimulator.Integrate | tools/mock_device/simulators/battery.py:186-199 | SOC stays in 0..100, the counters grow by the step's energy and never shrink over a non-negative step, the temperature steps, and persistence follows its interval |
| Battery.BatterySimulator.StoreSchedule | tools/mock_device/simulators/battery.py:422-427 | the loop stores the schedule as the upsert does, keeping slot numbers unique |
| Battery.BatterySimulator.SetMode | tools/mock_device/simulators/battery.py:399-432 | the mode is set; with a config, Passive stores the power (default 0) and a deadline now + cd_time (default 3600), and Manual upserts the schedule; nothing else of them changes; then the power is updated at once and the invariant holds |
| Battery.BatterySimulator.GetState | tools/mock_device/simulators/battery.py:434-491 | the state reports SOC and counters truncated, the status label, phases that sum to the grid reading, a non-negative passive remainder, a passive config only in Passive mode, RSSI in -95..-25 and the two flags |
| Handlers.HandleGetDevice | tools/mock_device/handlers.py:9-24 | the response echoes id and source and carries the configuration's identity fields and the IP |
| Handlers.HandleBleGetStatus | tools/mock_device/handlers.py:27-39 | the state is "connect" exactly when connected, with the BLE MAC |
| Handlers.HandleEsGetStatus | tools/mock_device/handlers.py:42-94 | `bat_power` is present iff requested and is minus the simulator's power; SOC, grid and counters are echoed from the state and `bat_cap` is 5120 |
| Handlers.HandleEsGetMode | tools/mock_device/handlers.py:97-111 | mode, grid power and SOC are echoed from the state, off-grid power is 0 |
| Handlers.EsStatusAgreesWithMode | tools/mock_device/handlers.py:75-109 | ES.GetStatus and ES.GetMode report the same SOC and grid power for the same state |
| Handlers.BatPowerFollowsStatus | tools/mock_device/handlers.py:69-92 | the API's `bat_power` is above 50 while the status is charging, below -50 while discharging, and within ±50 when idle |
| Handlers.HandleEmGetStatus | tools/mock_device/handlers.py:197-219 | `ct_state` is 1 iff the CT is connected, the phases are echoed and the total is the grid power |
| Handlers.EmPhasesSumToTotal | tools/mock_device/handlers.py:212-217 | for a state from the simulator the meter's phases sum to its total |
| Handlers.HandleBatGetStatus | tools/mock_device/handlers.py:222-241 | the flags become booleans (`== 1`) and the stored energy is the truncated SOC share of the rated capacity, between 0 and the capacity |
| Handlers.CapacityShare | tools/mock_device/handlers.py:238 | 0..100 percent of a non-negative capacity, truncated, lies between 0 and the capacity |
| Handlers.BatFlagsFollowSoc | tools/mock_device/handlers.py:235-236 | for the simulator's flags, Bat.GetStatus says it can charge iff SOC < 100 and discharge iff SOC > 5 |
| Handlers.HandleEsSetMode | tools/mock_device/handlers.py:244-256 | the result always reports success |
| Handlers.SplitDots | tools/mock_device/handlers.py:190 | `split(".")` gives at least one piece and no piece holds a dot |
| Handlers.JoinSplit | tools/mock_device/handlers.py:190 | joining the pieces of a split with dots gives back the string |
| Handlers.SplitJoin | tools/mock_device/handlers.py:190 | splitting a dot-join of dot-free pieces gives back the pieces |
| Handlers.SplitDotFree | tools/mock_device/handlers.py:190 | a string without a dot splits into itself |
| Handlers.Gateway | tools/mock_device/handlers.py:190 | the gateway is the address's first three dotted parts followed by `.1`, so it always ends in `.1` (see `GatewayOfDottedQuad`) |
| Handlers.GatewayOfDottedQuad | tools/mock_device/handlers.py:190-192 | for an IP `a.b.c.d` the gateway and DNS are `a.b.c.1` |
| Handlers.HandleWifiGetStatus | tools/mock_device/handlers.py:177-194 | MAC and SSID default to `""` and `"AirPort-38"`, the RSSI and IP are echoed, gateway and DNS are the same /24 address and the mask is 255.255.255.0 |
| Handlers.ToDeciwatts | tools/mock_device/handlers.py:127-139 | None stays None; channels other than 1 pass through; for channel 1 or the single-channel format a number is multiplied by 10 and anything else passes through |
| Handlers.PvKeyInjective | tools/mock_device/handlers.py:150-157 | distinct channels and fields give distinct `pv{n}_` keys, none of them `"id"` |
| Handlers.LastWithChannel | tools/mock_device/handlers.py:146-157 | the last entry naming channel n, with none after it; None when no entry names it |
| Handlers.FoldChannels | tools/mock_device/handlers.py:145-157 | the multi-channel result after the entries in order always holds `"id": 0`; `FoldChannelsAt` gives each channel key |
| Handlers.FoldChannelsAt | tools/mock_device/handlers.py:143-157 | the multi-channel result holds `"id"` 0, and under each `pv{n}_` key the value from the last entry for channel n; no such key when no entry names n |
| Handlers.FoldChannelsKeys | tools/mock_device/handlers.py:143-157 | the multi-channel result holds no key other than `"id"` and `pv{1..4}_{power,voltage,current,state}`; entries outside 1..4 add nothing |
| Handlers.ChannelPowerAndState | tools/mock_device/handlers.py:151-157 | only channel 1's power is multiplied by 10, and a channel's state is 1 iff its power is positive |
| Handlers.SingleChannelPv | tools/mock_device/handlers.py:165-174 | the single-channel result multiplies the power by 10 and passes voltage and current through, with 0 for missing keys |
| Handlers.PvResult | tools/mock_device/handlers.py:143-174 | the result always holds `"id": 0`, and holds `pv_power` exactly when the state has no non-empty channel list (single-channel format) |
| Handlers.HandlePvGetStatus | tools/mock_device/handlers.py:114-174 | the loop over at most the first four entries builds exactly the multi-channel result when `pv_channels` is a non-empty list, and the single-channel result otherwise |
| Handlers.GetStaticState | tools/mock_device/handlers.py:259-285 | the static state echoes SOC, power and mode, is idle, has zero meter and counters, RSSI -55, 25 degrees, the CT connected and both flags set |
| Handlers.StaticStateAgainstLiveRules | tools/mock_device/handlers.py:259-285 | the static state's phases sum to its grid reading, and its flags agree with the live flag rule for SOC strictly between 5 and 100; its "Idle" label agrees with the live status rule only for power within ±50 |

## Left out

- Threads and locks: `start`, `stop`, `_simulation_loop` and every `threading.Lock` are left out. Each locked method is one sequential step.
- Clock and randomness: `time.time()`, `datetime.now()` and `random.*` are parameters (a clock reading and unit draws). Where the source reads the clock several times in one call, the model uses one reading; examples are `get_consumption` and `_maybe_trigger_event`, and `get_state` and `get_rssi`.
- IEEE floating point is not modelled: values are exact reals. The `round(battery_temp, 1)` of `get_state` is not modelled; the state reports the temperature unrounded.
- `print` and `_LOGGER` calls are left out.
- The persist callback is modelled as the log `persisted` of the snapshots handed to it. `get_persistent_state` is only the locked `_get_persistent_state_locked` under a lock. File and network I/O (`utils.py`), the CLI, the re-exporting modules and the Home Assistant adapters are not part of this model.
- The UDP dispatcher of the mock device, the validators, the command builder, the UDP client and the data parser are not part of this model.
- `_fluctuation_step`, `update_interval` and other fields that the modelled code never reads are left out.
- Text is ASCII: Unicode digits, whitespace, letters and case mapping in `\d`, `\s`, `isalnum`, `lower` and `int()` are not modelled. `int()`'s underscores between digits (`"1_0"`) are not modelled either.
- Compatibility.ScaleValue: a Python `bool` is an `int` and would be divided too; raw values here are None, numbers or text only.
- Compatibility.ParseFirmwareVersion: `str()` of an arbitrary non-int, non-str object is not modelled; firmware is None, an int or text.
- Handlers.ToDeciwatts: `float()` of a numeric string (`"12"` becoming 120.0) is not modelled; such a string is passed through unchanged, as for any non-numeric text.
- Handlers.HandlePvGetStatus: requires `PvReadable`, i.e. every read channel 1..4 entry has a power comparable with 0. The `TypeError` the source raises otherwise is not modelled. `int(channel.get("channel", 0))` of a non-integer channel value is not modelled either: the channel is an int or missing.
- Battery.BatterySimulator.UpdateState: requires a non-zero capacity and a non-zero maximum discharge power, which is more than the source needs. The source divides by the capacity on every step, but by the maximum discharge power only when the step's actual power exceeds 100 W in magnitude (tools/mock_device/simulators/battery.py:311-313). The actual power is only known during the step, so a device with a zero maximum discharge power whose power stays within 100 W is outside this contract. The `ZeroDivisionError` the source raises in the other cases is not modelled.
- Battery.BatterySimulator.Integrate: requires a non-zero capacity, and a non-zero maximum discharge power only when the actual power exceeds 100 W in magnitude. These are exactly the cases in which the source divides. Battery.BatterySimulator.UpdateTemperature requires the second condition. The `ZeroDivisionError` the source raises otherwise is not modelled.
- Battery.BatterySimulator.UpdateState: `_update_state` repeats the body of `_apply_immediate_power_update` (without its log line) rather than calling it; the model calls the shared method.
- Handlers.HandleEsGetStatus: the state dict get_state produces never holds `capacity_wh`, so `bat_cap` is always the 5120 default; a state dict carrying that key is not modelled. The other `.get` defaults of the handlers apply to keys get_state always provides.
- Handlers.HandleGetDevice and Handlers.HandleBleGetStatus: require the configuration keys the source indexes directly; the `KeyError` for a missing key is not modelled.
- Schedule fields are taken as set_mode stores them (all keys present, `enable` a bool, `week_set` an int); the `.get` defaults of `_get_active_schedule` for schedules stored any other way are not modelled.
- BatteryModel.DischargeTaperAtSevenPercent follows the code (400 W at 7% SOC), not an older test expectation of 650..750 W.
- The schedule window is inclusive at both ends (`start <= now <= end`), as the code has it.
