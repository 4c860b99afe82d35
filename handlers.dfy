/** The mock device's response builders: each turns a request id, a source
    tag and the simulator's state (or the device configuration) into the
    result shape the local API defines. A Python dict becomes a map from key
    to Value; the state dict is the DeviceState that get_state or
    get_static_state produces. */
module Handlers {
  import opened Common
  import opened BatteryModel

  /** A JSON-like value as the handlers put it in a result dict. VOther is
      any other Python object, passed through untouched. */
  datatype Value = VNull | VInt(i: int) | VReal(x: real) | VBool(b: bool) | VStr(s: string) | VOther

  /** A response envelope: the echoed request id and source, and the result dict. */
  datatype Response = Response(id: int, src: string, result: map<string, Value>)

  /** The device configuration dict; None stands for a missing key. */
  datatype DeviceConfig = DeviceConfig(
    device: Option<Value>,
    ver: Option<Value>,
    bleMac: Option<Value>,
    wifiMac: Option<Value>,
    wifiName: Option<Value>)

  const DefaultBatCap := 5120

  // ---------------------------------------------------------------------
  // Device, BLE, ES, EM, battery

  /** handle_get_device: the configuration's identity fields and the IP;
      every configuration key is required. */
  function HandleGetDevice(requestId: int, src: string, config: DeviceConfig, ip: string): (r: Response)
    requires config.device.Some? && config.ver.Some? && config.bleMac.Some?
    requires config.wifiMac.Some? && config.wifiName.Some?
    ensures r.id == requestId && r.src == src
    ensures r.result.Keys == {"device", "ver", "ble_mac", "wifi_mac", "wifi_name", "ip"}
    ensures r.result["device"] == config.device.value && r.result["ver"] == config.ver.value
    ensures r.result["ble_mac"] == config.bleMac.value && r.result["wifi_mac"] == config.wifiMac.value
    ensures r.result["wifi_name"] == config.wifiName.value && r.result["ip"] == VStr(ip)
  {
    Response(requestId, src, map[
      "device" := config.device.value,
      "ver" := config.ver.value,
      "ble_mac" := config.bleMac.value,
      "wifi_mac" := config.wifiMac.value,
      "wifi_name" := config.wifiName.value,
      "ip" := VStr(ip)])
  }

  /** handle_ble_get_status. */
  function HandleBleGetStatus(requestId: int, src: string, config: DeviceConfig, isConnected: bool): (r: Response)
    requires config.bleMac.Some?
    ensures r.id == requestId && r.src == src
    ensures r.result.Keys == {"id", "state", "ble_mac"}
    ensures r.result["state"] == VStr(if isConnected then "connect" else "disconnect")
    ensures r.result["ble_mac"] == config.bleMac.value
  {
    Response(requestId, src, map[
      "id" := VInt(0),
      "state" := VStr(if isConnected then "connect" else "disconnect"),
      "ble_mac" := config.bleMac.value])
  }

  /** handle_es_get_status: battery power is reported with the API's sign
      (positive charges), and only when asked for. The state dict never
      carries capacity_wh, so bat_cap is always the 5120 Wh default. */
  function HandleEsGetStatus(requestId: int, src: string, state: DeviceState, deviceType: string,
                             includeBatPower: bool): (r: Response)
    ensures r.id == requestId && r.src == src
    ensures "bat_power" in r.result <==> includeBatPower
    ensures includeBatPower ==> r.result["bat_power"] == VInt(-state.power)
    ensures r.result.Keys - {"bat_power"} == {"id", "bat_soc", "bat_cap", "pv_power", "ongrid_power", "offgrid_power",
      "total_pv_energy", "total_grid_output_energy", "total_grid_input_energy", "total_load_energy"}
    ensures r.result["bat_soc"] == VInt(state.soc) && r.result["ongrid_power"] == VInt(state.gridPower)
    ensures r.result["bat_cap"] == VInt(DefaultBatCap) && r.result["offgrid_power"] == VInt(0)
    ensures r.result["pv_power"] == VInt(state.pvPower)
    ensures r.result["total_pv_energy"] == VInt(state.totalPvEnergy)
    ensures r.result["total_grid_output_energy"] == VInt(state.totalGridOutputEnergy)
    ensures r.result["total_grid_input_energy"] == VInt(state.totalGridInputEnergy)
    ensures r.result["total_load_energy"] == VInt(state.totalLoadEnergy)
  {
    var batPower := -state.power;
    var result := map[
      "id" := VInt(0),
      "bat_soc" := VInt(state.soc),
      "bat_cap" := VInt(DefaultBatCap),
      "pv_power" := VInt(state.pvPower),
      "ongrid_power" := VInt(state.gridPower),
      "offgrid_power" := VInt(0),
      "total_pv_energy" := VInt(state.totalPvEnergy),
      "total_grid_output_energy" := VInt(state.totalGridOutputEnergy),
      "total_grid_input_energy" := VInt(state.totalGridInputEnergy),
      "total_load_energy" := VInt(state.totalLoadEnergy)];
    Response(requestId, src, if includeBatPower then result["bat_power" := VInt(batPower)] else result)
  }

  /** handle_es_get_mode. */
  function HandleEsGetMode(requestId: int, src: string, state: DeviceState): (r: Response)
    ensures r.id == requestId && r.src == src
    ensures r.result.Keys == {"id", "mode", "ongrid_power", "offgrid_power", "bat_soc"}
    ensures r.result["mode"] == VStr(state.mode) && r.result["offgrid_power"] == VInt(0)
    ensures r.result["bat_soc"] == VInt(state.soc) && r.result["ongrid_power"] == VInt(state.gridPower)
  {
    Response(requestId, src, map[
      "id" := VInt(0),
      "mode" := VStr(state.mode),
      "ongrid_power" := VInt(state.gridPower),
      "offgrid_power" := VInt(0),
      "bat_soc" := VInt(state.soc)])
  }

  /** ES.GetStatus and ES.GetMode report the same SOC and grid power for
      the same state. */
  lemma EsStatusAgreesWithMode(id1: int, id2: int, src: string, state: DeviceState, deviceType: string, withBatPower: bool)
    ensures HandleEsGetStatus(id1, src, state, deviceType, withBatPower).result["bat_soc"]
         == HandleEsGetMode(id2, src, state).result["bat_soc"]
    ensures HandleEsGetStatus(id1, src, state, deviceType, withBatPower).result["ongrid_power"]
         == HandleEsGetMode(id2, src, state).result["ongrid_power"]
  {
  }

  /** The reported bat_power has the API's sign: positive while the state
      says the battery is buying (charging), negative while it is selling. */
  lemma BatPowerFollowsStatus(requestId: int, src: string, state: DeviceState, deviceType: string)
    requires state.status == StatusOf(state.power)
    ensures var p := HandleEsGetStatus(requestId, src, state, deviceType, true).result["bat_power"];
      (state.status == StatusCharging ==> p.i > 50)
      && (state.status == StatusDischarging ==> p.i < -50)
      && (state.status == StatusIdle ==> -50 <= p.i <= 50)
  {
  }

  /** handle_em_get_status: the meter's connection flag, phases and total. */
  function HandleEmGetStatus(requestId: int, src: string, state: DeviceState): (r: Response)
    ensures r.id == requestId && r.src == src
    ensures r.result.Keys == {"id", "ct_state", "a_power", "b_power", "c_power", "total_power"}
    ensures r.result["ct_state"] == VInt(if state.ctConnected then 1 else 0)
    ensures r.result["a_power"] == VInt(state.emAPower) && r.result["b_power"] == VInt(state.emBPower)
    ensures r.result["c_power"] == VInt(state.emCPower) && r.result["total_power"] == VInt(state.gridPower)
  {
    Response(requestId, src, map[
      "id" := VInt(0),
      "ct_state" := VInt(if state.ctConnected then 1 else 0),
      "a_power" := VInt(state.emAPower),
      "b_power" := VInt(state.emBPower),
      "c_power" := VInt(state.emCPower),
      "total_power" := VInt(state.gridPower)])
  }

  /** For a state whose phases sum to the grid reading (as get_state's do),
      the meter response's phases sum to its total. */
  lemma EmPhasesSumToTotal(requestId: int, src: string, state: DeviceState)
    requires state.emAPower + state.emBPower + state.emCPower == state.gridPower
    ensures var r := HandleEmGetStatus(requestId, src, state).result;
      r["a_power"].i + r["b_power"].i + r["c_power"].i == r["total_power"].i
  {
  }

  /** handle_bat_get_status: flags become booleans and the stored energy is
      int(capacity * soc / 100). */
  function HandleBatGetStatus(requestId: int, src: string, state: DeviceState, capacityWh: int): (r: Response)
    ensures r.id == requestId && r.src == src
    ensures r.result.Keys == {"id", "soc", "charg_flag", "dischrg_flag", "bat_temp", "bat_capacity", "rated_capacity"}
    ensures r.result["charg_flag"] == VBool(state.chargFlag == 1)
    ensures r.result["dischrg_flag"] == VBool(state.dischrgFlag == 1)
    ensures r.result["soc"] == VInt(state.soc) && r.result["bat_temp"] == VReal(state.batteryTemp)
    ensures r.result["rated_capacity"] == VInt(capacityWh)
    ensures r.result["bat_capacity"] == VInt(Trunc(capacityWh as real * state.soc as real / 100.0))
    ensures 0 <= capacityWh && 0 <= state.soc <= 100 ==> 0 <= r.result["bat_capacity"].i <= capacityWh
  {
    CapacityShare(capacityWh, state.soc);
    Response(requestId, src, map[
      "id" := VInt(0),
      "soc" := VInt(state.soc),
      "charg_flag" := VBool(state.chargFlag == 1),
      "dischrg_flag" := VBool(state.dischrgFlag == 1),
      "bat_temp" := VReal(state.batteryTemp),
      "bat_capacity" := VInt(Trunc(capacityWh as real * state.soc as real / 100.0)),
      "rated_capacity" := VInt(capacityWh)])
  }

  /** A share of 0..100 percent of a non-negative capacity, truncated, lies
      between 0 and the capacity. */
  lemma CapacityShare(capacity: int, soc: int)
    ensures 0 <= capacity && 0 <= soc <= 100 ==> 0 <= Trunc(capacity as real * soc as real / 100.0) <= capacity
  {
    if 0 <= capacity && 0 <= soc <= 100 {
      var c := capacity as real;
      var x := c * soc as real;
      assert 0.0 <= x by { MulNonNegative(c, soc as real); }
      assert x <= 100.0 * c by {
        MulMonotone(soc as real, 100.0, c);
        assert soc as real * c == x;
      }
      TruncBetween(x / 100.0, 0, capacity);
    }
  }

  /** For the flags get_state computes, Bat.GetStatus reports that the
      battery can charge iff SOC is below 100% and can discharge iff it is
      above 5%. */
  lemma BatFlagsFollowSoc(requestId: int, src: string, state: DeviceState, capacityWh: int, soc: real)
    requires state.chargFlag == ChargeFlag(soc) && state.dischrgFlag == DischargeFlag(soc)
    ensures HandleBatGetStatus(requestId, src, state, capacityWh).result["charg_flag"] == VBool(soc < 100.0)
    ensures HandleBatGetStatus(requestId, src, state, capacityWh).result["dischrg_flag"]
         == VBool(soc > SocMinDischarge as real)
  {
  }

  /** handle_es_set_mode: always reports success. */
  function HandleEsSetMode(requestId: int, src: string): (r: Response)
    ensures r.id == requestId && r.src == src
    ensures r.result.Keys == {"id", "set_result"} && r.result["set_result"] == VBool(true)
  {
    Response(requestId, src, map["id" := VInt(0), "set_result" := VBool(true)])
  }

  // ---------------------------------------------------------------------
  // Wi-Fi

  /** Python's s.split("."). */
  function SplitDots(s: string): (parts: seq<string>)
    ensures |parts| >= 1
    ensures forall k :: 0 <= k < |parts| ==> '.' !in parts[k]
    decreases |s|
  {
    if |s| == 0 then [""]
    else
      var rest := SplitDots(s[1..]);
      if s[0] == '.' then [""] + rest
      else [[s[0]] + rest[0]] + rest[1..]
  }

  /** Python's ".".join(parts). */
  function JoinDots(parts: seq<string>): string
  {
    if |parts| == 0 then ""
    else if |parts| == 1 then parts[0]
    else parts[0] + "." + JoinDots(parts[1..])
  }

  /** Joining the pieces of a split gives back the string. */
  lemma {:induction false} JoinSplit(s: string)
    ensures JoinDots(SplitDots(s)) == s
    decreases |s|
  {
    if |s| > 0 {
      var rest := SplitDots(s[1..]);
      JoinSplit(s[1..]);
      if s[0] == '.' {
        assert s == "." + s[1..];
      } else if |rest| == 1 {
        assert s == [s[0]] + s[1..];
      } else {
        assert JoinDots(rest) == rest[0] + "." + JoinDots(rest[1..]);
        assert s == [s[0]] + s[1..];
        assert [[s[0]] + rest[0]] + rest[1..] == [[s[0]] + rest[0]] + rest[1..];
      }
    }
  }

  /** Splitting a join of dot-free pieces gives back the pieces. */
  lemma {:induction false} SplitJoin(parts: seq<string>)
    requires |parts| >= 1 && forall k :: 0 <= k < |parts| ==> '.' !in parts[k]
    ensures SplitDots(JoinDots(parts)) == parts
    decreases |parts|, |parts[0]|
  {
    if |parts| == 1 {
      SplitDotFree(parts[0]);
    } else if |parts[0]| == 0 {
      SplitJoin(parts[1..]);
      assert JoinDots(parts) == "." + JoinDots(parts[1..]);
      SplitAfterDot(JoinDots(parts[1..]));
      assert parts == [""] + parts[1..];
    } else {
      var c := parts[0][0];
      var tail := [parts[0][1..]] + parts[1..];
      DotFreeTail(parts);
      SplitJoin(tail);
      assert JoinDots(parts) == [c] + JoinDots(tail) by {
        assert JoinDots(tail) == parts[0][1..] + "." + JoinDots(parts[1..]);
        assert parts[0] == [c] + parts[0][1..];
      }
      assert c != '.' by { assert c in parts[0]; }
      SplitAfterChar(c, JoinDots(tail));
      assert parts == [[c] + tail[0]] + tail[1..] by {
        assert parts[0] == [c] + parts[0][1..];
        assert tail[1..] == parts[1..];
      }
    }
  }

  /** Dropping the first character of the first piece keeps every piece dot-free. */
  lemma DotFreeTail(parts: seq<string>)
    requires |parts| >= 1 && |parts[0]| > 0 && forall k :: 0 <= k < |parts| ==> '.' !in parts[k]
    ensures var tail := [parts[0][1..]] + parts[1..];
      forall k :: 0 <= k < |tail| ==> '.' !in tail[k]
  {
    var tail := [parts[0][1..]] + parts[1..];
    forall k | 0 <= k < |tail| ensures '.' !in tail[k] {
      if k > 0 {
        assert tail[k] == parts[k];
      } else {
        forall x | x in parts[0][1..] ensures x != '.' {
          assert x in parts[0];
        }
      }
    }
  }

  lemma SplitAfterDot(s: string)
    ensures SplitDots("." + s) == [""] + SplitDots(s)
  {
    assert ("." + s)[1..] == s;
  }

  lemma SplitAfterChar(c: char, s: string)
    requires c != '.'
    ensures SplitDots([c] + s) == [[c] + SplitDots(s)[0]] + SplitDots(s)[1..]
  {
    assert ([c] + s)[1..] == s;
  }

  lemma {:induction false} SplitDotFree(s: string)
    requires '.' !in s
    ensures SplitDots(s) == [s]
    decreases |s|
  {
    if |s| > 0 {
      assert '.' !in s[1..] by {
        forall x | x in s[1..] ensures x != '.' {
          assert x in s;
        }
      }
      SplitDotFree(s[1..]);
      assert s == [s[0]] + s[1..];
    }
  }

  /** ".".join(ip.split(".")[:3]) + ".1": the /24 gateway of an IPv4 address. */
  function Gateway(ip: string): (g: string)
    ensures |g| >= 2 && g[|g| - 2..] == ".1"
  {
    var parts := SplitDots(ip);
    JoinDots(parts[..Min(3, |parts|)]) + ".1"
  }

  /** For a dotted quad a.b.c.d the gateway and DNS are a.b.c.1. */
  lemma GatewayOfDottedQuad(a: string, b: string, c: string, d: string)
    requires '.' !in a && '.' !in b && '.' !in c && '.' !in d
    ensures Gateway(a + "." + b + "." + c + "." + d) == a + "." + b + "." + c + ".1"
  {
    var parts := [a, b, c, d];
    assert JoinDots(parts) == a + "." + b + "." + c + "." + d by {
      assert JoinDots(parts[3..]) == d;
      assert parts[2..][1..] == parts[3..];
      assert JoinDots(parts[2..]) == c + "." + d;
      assert parts[1..][1..] == parts[2..];
      assert JoinDots(parts[1..]) == b + "." + c + "." + d;
    }
    SplitJoin(parts);
    var first := parts[..3];
    assert first == [a, b, c];
    assert first[1..][1..] == [c];
    assert first[1..] == [b, c];
    assert JoinDots([b, c]) == b + "." + c;
    assert JoinDots(first) == a + "." + (b + "." + c);
    assert a + "." + (b + "." + c) == a + "." + b + "." + c;
  }

  /** handle_wifi_get_status. */
  function HandleWifiGetStatus(requestId: int, src: string, config: DeviceConfig, ip: string, state: DeviceState): (r: Response)
    ensures r.id == requestId && r.src == src
    ensures r.result.Keys == {"id", "wifi_mac", "ssid", "rssi", "sta_ip", "sta_gate", "sta_mask", "sta_dns"}
    ensures r.result["wifi_mac"] == config.wifiMac.GetOr(VStr(""))
    ensures r.result["ssid"] == config.wifiName.GetOr(VStr("AirPort-38"))
    ensures r.result["rssi"] == VInt(state.wifiRssi) && r.result["sta_ip"] == VStr(ip)
    ensures r.result["sta_gate"] == r.result["sta_dns"] == VStr(Gateway(ip))
    ensures r.result["sta_mask"] == VStr("255.255.255.0")
  {
    Response(requestId, src, map[
      "id" := VInt(0),
      "wifi_mac" := config.wifiMac.GetOr(VStr("")),
      "ssid" := config.wifiName.GetOr(VStr("AirPort-38")),
      "rssi" := VInt(state.wifiRssi),
      "sta_ip" := VStr(ip),
      "sta_gate" := VStr(Gateway(ip)),
      "sta_mask" := VStr("255.255.255.0"),
      "sta_dns" := VStr(Gateway(ip))])
  }

  // ---------------------------------------------------------------------
  // PV

  /** The inner _to_deciwatts: channel 1 (or the single-channel format)
      reports float(value) * 10; other channels and None pass through. */
  function ToDeciwatts(value: Value, channel: Option<int>): (r: Value)
    ensures value.VNull? ==> r == VNull
    ensures channel.Some? && channel.value != 1 ==> r == value
    ensures (channel.None? || channel.value == 1) ==>
      (value.VInt? ==> r == VReal(value.i as real * 10.0))
      && (value.VReal? ==> r == VReal(value.x * 10.0))
      && (value.VBool? ==> r == VReal(if value.b then 10.0 else 0.0))
      && (value.VStr? || value.VOther? ==> r == value)
  {
    if value.VNull? then VNull
    else if channel.Some? && channel.value != 1 then value
    else
      match value
      case VInt(i) => VReal(i as real * 10.0)
      case VReal(x) => VReal(x * 10.0)
      case VBool(b) => VReal(if b then 10.0 else 0.0)
      case _ => value
  }

  /** Values Python can compare with 0. */
  predicate Numeric(v: Value)
  {
    v.VInt? || v.VReal? || v.VBool?
  }

  /** v > 0 for a numeric v. */
  predicate Positive(v: Value)
    requires Numeric(v)
  {
    match v
    case VInt(i) => i > 0
    case VReal(x) => x > 0.0
    case VBool(b) => b
  }

  /** One entry of pv_channels; None stands for a missing key. */
  datatype PvChannel = PvChannel(channel: Option<int>, pvPower: Option<Value>, pvVoltage: Option<Value>, pvCurrent: Option<Value>)
  {
    function Index(): int { channel.GetOr(0) }
    function Power(): Value { pvPower.GetOr(VInt(0)) }
    function Voltage(): Value { pvVoltage.GetOr(VInt(0)) }
    function Current(): Value { pvCurrent.GetOr(VInt(0)) }
    /** The entry is skipped, or its power can be compared with 0 (Python
        raises TypeError otherwise). */
    predicate Readable() { !(1 <= Index() <= 4) || Numeric(Power()) }
  }

  /** The pv_state dict. `channels` holds pv_channels when it is a list. */
  datatype PvState = PvState(channels: Option<seq<PvChannel>>, pvPower: Option<Value>, pvVoltage: Option<Value>, pvCurrent: Option<Value>)

  const PvFields: set<string> := {"power", "voltage", "current", "state"}

  function DigitOf(n: int): char
    requires 0 <= n <= 9
  {
    ('0' as int + n) as char
  }

  /** The result key "pv{n}_{field}". */
  function PvKey(n: int, field: string): string
    requires 1 <= n <= 4
  {
    "pv" + [DigitOf(n)] + "_" + field
  }

  lemma PvKeyInjective(n: int, f: string, m: int, g: string)
    requires 1 <= n <= 4 && 1 <= m <= 4
    ensures PvKey(n, f) == PvKey(m, g) <==> n == m && f == g
    ensures PvKey(n, f) != "id"
  {
    if PvKey(n, f) == PvKey(m, g) {
      assert PvKey(n, f)[2] == DigitOf(n) && PvKey(m, g)[2] == DigitOf(m);
      assert f == PvKey(n, f)[4..] && g == PvKey(m, g)[4..];
    }
    assert |PvKey(n, f)| >= 4;
  }

  /** The value a channel entry contributes under "pv{n}_{field}". */
  function ChannelValue(ch: PvChannel, field: string): Value
    requires ch.Readable() && 1 <= ch.Index() <= 4
  {
    if field == "power" then ToDeciwatts(ch.Power(), Some(ch.Index()))
    else if field == "voltage" then ch.Voltage()
    else if field == "current" then ch.Current()
    else VInt(if Positive(ch.Power()) then 1 else 0)
  }

  predicate AllReadable(chs: seq<PvChannel>)
  {
    forall k :: 0 <= k < |chs| ==> chs[k].Readable()
  }

  /** One pass of the loop body: an entry outside channels 1..4 is skipped,
      otherwise its four keys are (over)written. */
  function ApplyChannel(result: map<string, Value>, ch: PvChannel): map<string, Value>
    requires ch.Readable()
  {
    var idx := ch.Index();
    if idx < 1 || idx > 4 then result
    else
      result[PvKey(idx, "power") := ChannelValue(ch, "power")]
            [PvKey(idx, "voltage") := ChannelValue(ch, "voltage")]
            [PvKey(idx, "current") := ChannelValue(ch, "current")]
            [PvKey(idx, "state") := ChannelValue(ch, "state")]
  }

  /** The multi-channel result after the given entries, in order. */
  function FoldChannels(chs: seq<PvChannel>): (result: map<string, Value>)
    requires AllReadable(chs)
    ensures "id" in result && result["id"] == VInt(0)
  {
    if |chs| == 0 then map["id" := VInt(0)]
    else
      var init := chs[..|chs| - 1];
      assert AllReadable(init) by {
        forall k | 0 <= k < |init| ensures init[k].Readable() {
          assert init[k] == chs[k];
        }
      }
      var idx := chs[|chs| - 1].Index();
      assert 1 <= idx <= 4 ==> forall f :: PvKey(idx, f) != "id" by {
        if 1 <= idx <= 4 {
          forall f ensures PvKey(idx, f) != "id" {
            PvKeyInjective(idx, f, idx, f);
          }
        }
      }
      ApplyChannel(FoldChannels(init), chs[|chs| - 1])
  }

  /** The index of the last entry for channel n. */
  function LastWithChannel(chs: seq<PvChannel>, n: int): (r: Option<nat>)
    ensures r.Some? ==> r.value < |chs| && chs[r.value].Index() == n
    ensures r.Some? ==> forall k :: r.value < k < |chs| ==> chs[k].Index() != n
    ensures r.None? ==> forall k :: 0 <= k < |chs| ==> chs[k].Index() != n
  {
    if |chs| == 0 then None
    else if chs[|chs| - 1].Index() == n then Some(|chs| - 1)
    else LastWithChannel(chs[..|chs| - 1], n)
  }

  /** What the multi-channel result holds under "pv{n}_{field}": the value
      from the last entry for channel n, or nothing when no entry names n;
      "id" is always 0. */
  lemma {:induction false} FoldChannelsAt(chs: seq<PvChannel>, n: int, field: string)
    requires AllReadable(chs) && 1 <= n <= 4 && field in PvFields
    ensures "id" in FoldChannels(chs) && FoldChannels(chs)["id"] == VInt(0)
    ensures LastWithChannel(chs, n).None? ==> PvKey(n, field) !in FoldChannels(chs)
    ensures LastWithChannel(chs, n).Some? ==>
      PvKey(n, field) in FoldChannels(chs)
      && FoldChannels(chs)[PvKey(n, field)] == ChannelValue(chs[LastWithChannel(chs, n).value], field)
    decreases |chs|
  {
    if |chs| > 0 {
      var init := chs[..|chs| - 1];
      var last := chs[|chs| - 1];
      assert AllReadable(init) by {
        forall k | 0 <= k < |init| ensures init[k].Readable() {
          assert init[k] == chs[k];
        }
      }
      FoldChannelsAt(init, n, field);
      var idx := last.Index();
      if 1 <= idx <= 4 {
        forall f | f in PvFields ensures PvKey(idx, f) != "id" && (PvKey(idx, f) == PvKey(n, field) <==> idx == n && f == field) {
          PvKeyInjective(idx, f, n, field);
        }
      }
    }
  }

  /** The keys of a multi-channel result: "id" and keys of named channels. */
  lemma {:induction false} FoldChannelsKeys(chs: seq<PvChannel>)
    requires AllReadable(chs)
    ensures forall key :: key in FoldChannels(chs) ==>
      key == "id" || exists n, f :: 1 <= n <= 4 && f in PvFields && key == PvKey(n, f)
    decreases |chs|
  {
    if |chs| > 0 {
      var init := chs[..|chs| - 1];
      assert AllReadable(init) by {
        forall k | 0 <= k < |init| ensures init[k].Readable() {
          assert init[k] == chs[k];
        }
      }
      FoldChannelsKeys(init);
      var idx := chs[|chs| - 1].Index();
      if 1 <= idx <= 4 {
        assert "power" in PvFields && "voltage" in PvFields && "current" in PvFields && "state" in PvFields;
      }
    }
  }

  /** Only channel 1's power is scaled to deciwatts, and a channel's state
      is 1 exactly when its power is positive. */
  lemma ChannelPowerAndState(ch: PvChannel)
    requires ch.Readable() && 1 <= ch.Index() <= 4
    ensures ch.Index() != 1 ==> ChannelValue(ch, "power") == ch.Power()
    ensures ch.Index() == 1 && ch.Power().VInt? ==> ChannelValue(ch, "power") == VReal(ch.Power().i as real * 10.0)
    ensures ch.Index() == 1 && ch.Power().VReal? ==> ChannelValue(ch, "power") == VReal(ch.Power().x * 10.0)
    ensures ChannelValue(ch, "state") == VInt(1) <==> Positive(ch.Power())
    ensures ChannelValue(ch, "state") == VInt(0) <==> !Positive(ch.Power())
  {
  }

  /** The channel entries read: at most the first four. */
  function ReadChannels(chs: seq<PvChannel>): seq<PvChannel>
  {
    chs[..Min(4, |chs|)]
  }

  /** handle_pv_get_status can run without a TypeError: every channel
      entry it reads that names a channel 1..4 has a numeric power. */
  predicate PvReadable(pvState: Option<PvState>)
  {
    pvState.None? || pvState.value.channels.None? || AllReadable(ReadChannels(pvState.value.channels.value))
  }

  /** The result dict of handle_pv_get_status: the multi-channel format when
      pv_channels is a non-empty list, the single-channel one otherwise. */
  function PvResult(pvState: Option<PvState>): (result: map<string, Value>)
    requires PvReadable(pvState)
    ensures "id" in result && result["id"] == VInt(0)
    ensures "pv_power" in result <==>
      !(pvState.Some? && pvState.value.channels.Some? && |pvState.value.channels.value| > 0)
  {
    var s := pvState.GetOr(PvState(None, None, None, None));
    if s.channels.Some? && |s.channels.value| > 0 then
      var chs := ReadChannels(s.channels.value);
      FoldChannelsKeys(chs);
      assert "pv_power" !in FoldChannels(chs) by {
        forall n, f | 1 <= n <= 4 && f in PvFields ensures "pv_power" != PvKey(n, f) {
          assert PvKey(n, f)[2] == DigitOf(n);
        }
      }
      FoldChannels(chs)
    else
      map[
        "id" := VInt(0),
        "pv_power" := ToDeciwatts(s.pvPower.GetOr(VInt(0)), None),
        "pv_voltage" := s.pvVoltage.GetOr(VInt(0)),
        "pv_current" := s.pvCurrent.GetOr(VInt(0))]
  }

  /** Single-channel PV: power scaled to deciwatts, voltage and current
      passed through. */
  lemma SingleChannelPv(pvState: Option<PvState>)
    requires pvState.None? || pvState.value.channels.None? || pvState.value.channels.value == []
    ensures var s := pvState.GetOr(PvState(None, None, None, None));
      PvResult(pvState).Keys == {"id", "pv_power", "pv_voltage", "pv_current"}
      && PvResult(pvState)["pv_power"] == ToDeciwatts(s.pvPower.GetOr(VInt(0)), None)
      && PvResult(pvState)["pv_voltage"] == s.pvVoltage.GetOr(VInt(0))
      && PvResult(pvState)["pv_current"] == s.pvCurrent.GetOr(VInt(0))
  {
  }

  /** handle_pv_get_status. */
  method HandlePvGetStatus(requestId: int, src: string, pvState: Option<PvState>) returns (r: Response)
    requires PvReadable(pvState)
    ensures r == Response(requestId, src, PvResult(pvState))
  {
    var s := pvState.GetOr(PvState(None, None, None, None));
    if s.channels.Some? && |s.channels.value| > 0 {
      var chs := ReadChannels(s.channels.value);
      var result: map<string, Value> := map["id" := VInt(0)];
      var i := 0;
      while i < |chs|
        invariant 0 <= i <= |chs|
        invariant AllReadable(chs[..i])
        invariant result == FoldChannels(chs[..i])
      {
        var ch := chs[i];
        assert chs[..i + 1][..i] == chs[..i];
        assert AllReadable(chs[..i + 1]);
        var idx := ch.Index();
        if 1 <= idx <= 4 {
          result := result[PvKey(idx, "power") := ToDeciwatts(ch.Power(), Some(idx))];
          result := result[PvKey(idx, "voltage") := ch.Voltage()];
          result := result[PvKey(idx, "current") := ch.Current()];
          result := result[PvKey(idx, "state") := VInt(if Positive(ch.Power()) then 1 else 0)];
        }
        i := i + 1;
      }
      assert chs[..i] == chs;
      r := Response(requestId, src, result);
    } else {
      r := Response(requestId, src, map[
        "id" := VInt(0),
        "pv_power" := ToDeciwatts(s.pvPower.GetOr(VInt(0)), None),
        "pv_voltage" := s.pvVoltage.GetOr(VInt(0)),
        "pv_current" := s.pvCurrent.GetOr(VInt(0))]);
    }
  }

  // ---------------------------------------------------------------------
  // Static state

  /** get_static_state: the state reported when the simulation is off. */
  function GetStaticState(soc: int, power: int, mode: string): (st: DeviceState)
    ensures st.soc == soc && st.power == power && st.mode == mode
    ensures st.status == StatusIdle && st.passiveCfg == None && st.passiveRemaining == 0
    ensures st.gridPower == 0 && st.emAPower == 0 && st.emBPower == 0 && st.emCPower == 0
    ensures st.householdConsumption == 0 && st.wifiRssi == -55 && st.batteryTemp == BaseTemp
    ensures st.ctConnected && st.chargFlag == 1 && st.dischrgFlag == 1
    ensures st.totalPvEnergy == 0 && st.totalGridOutputEnergy == 0
    ensures st.totalGridInputEnergy == 0 && st.totalLoadEnergy == 0
    ensures st.pvPower == 0 && st.pvVoltage == 0 && st.pvCurrent == 0
  {
    DeviceState(soc, power, mode, StatusIdle, 0, 0, 0, 0, 0, 0, None, -55, 25.0, true, 1, 1, 0, 0, 0, 0, 0, 0, 0)
  }

  /** The static state keeps get_state's meter and flag rules (phases sum to
      the grid, both flags set as for a SOC strictly between 5 and 100), but
      its "Idle" status matches the status rule only for |power| <= 50. */
  lemma StaticStateAgainstLiveRules(soc: int, power: int, mode: string)
    ensures var st := GetStaticState(soc, power, mode);
      st.emAPower + st.emBPower + st.emCPower == st.gridPower
      && (SocMinDischarge < soc < 100 ==> st.chargFlag == ChargeFlag(soc as real) && st.dischrgFlag == DischargeFlag(soc as real))
      && (st.status == StatusOf(power) <==> -50 <= power <= 50)
  {
  }
}
