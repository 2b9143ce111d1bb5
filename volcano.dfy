/** The `Volcano` device entity: a small mutable record of the appliance's
    state, updated in place by two notification handlers, an initial read of
    both temperatures and two local toggles. Setting the target temperature
    only writes to the device; the local copy changes when the device echoes
    the new target back in a notification.

    The BLE transport is not modelled: a read or a notification is the payload
    it delivers, passed as a parameter, and a write is appended to the ghost
    log `writes`. */
module VolcanoDevice {
  import opened TemperatureCodec

  const TEMP_TARGET_UUID: string := "10110003-5354-4f52-5a26-4249434b454c"

  datatype Option<+T> = None | Some(value: T)

  /** One characteristic write sent to the device. */
  datatype GattWrite = GattWrite(uuid: string, data: seq<Byte>)

  /** A snapshot of every field of a `Volcano` except its address. The info
      fields are declared by the source but never assigned by it. */
  datatype DeviceState = DeviceState(
    temperature: nat,
    targetTemperature: nat,
    heaterOn: bool,
    pumpOn: bool,
    autoOffTime: Option<nat>,
    operationHours: Option<nat>,
    serialNumber: Option<string>,
    firmwareVersion: Option<string>,
    bleFirmwareVersion: Option<string>)

  /** The state of a freshly constructed `Volcano`. */
  const FreshState: DeviceState :=
    DeviceState(0, 0, false, false, None, None, None, None, None)

  /** Everything that can happen to a `Volcano`, in the order the source offers it. */
  datatype Event =
    | TemperatureNotified(data: seq<Byte>)
    | TargetTemperatureNotified(data: seq<Byte>)
    | ValuesInitialized(current: seq<Byte>, target: seq<Byte>)
    | TargetTemperatureSet(t: int)
    | HeaterToggled
    | PumpToggled

  /** The effect of one event on the local state. A payload that fails to
      decode raises before any assignment, so it leaves the state as it was;
      in `initialize_values` a failing second read keeps the first. */
  function Step(s: DeviceState, e: Event): DeviceState
  {
    match e
    case TemperatureNotified(data) =>
      (match DecodeNotified(data) case Ok(v) => s.(temperature := v) case Err(_) => s)
    case TargetTemperatureNotified(data) =>
      (match DecodeNotified(data) case Ok(v) => s.(targetTemperature := v) case Err(_) => s)
    case ValuesInitialized(current, target) =>
      (match DecodeRead(current)
       case Err(_) => s
       case Ok(c) =>
         match DecodeRead(target)
         case Err(_) => s.(temperature := c)
         case Ok(t) => s.(temperature := c, targetTemperature := t))
    case TargetTemperatureSet(_) => s
    case HeaterToggled => s.(heaterOn := !s.heaterOn)
    case PumpToggled => s.(pumpOn := !s.pumpOn)
  }

  /** The state after a sequence of events, the first one applied first. */
  function Run(s: DeviceState, es: seq<Event>): DeviceState
    decreases |es|
  {
    if es == [] then s else Run(Step(s, es[0]), es[1..])
  }

  /** Only the device can change the local target: an event that is not a
      target notification or an initial read leaves it as it was. */
  predicate FromDevice(e: Event)
  {
    e.TargetTemperatureNotified? || e.ValuesInitialized?
  }

  /** Setting the target temperature changes no local state at all. */
  lemma SetTargetKeepsState(s: DeviceState, t: int)
    ensures Step(s, TargetTemperatureSet(t)) == s
  {
  }

  /** Toggling the heater twice, or the pump twice, restores the state. */
  lemma ToggleTwiceRestores(s: DeviceState)
    ensures Step(Step(s, HeaterToggled), HeaterToggled) == s
    ensures Step(Step(s, PumpToggled), PumpToggled) == s
  {
  }

  /** Over any run of events that are not from the device, the local target
      temperature stays what it was, however many targets were set. */
  lemma {:induction false} TargetChangesOnlyFromDevice(s: DeviceState, es: seq<Event>)
    requires forall i :: 0 <= i < |es| ==> !FromDevice(es[i])
    ensures Run(s, es).targetTemperature == s.targetTemperature
    decreases |es|
  {
    if es != [] {
      assert !FromDevice(es[0]);
      TargetChangesOnlyFromDevice(Step(s, es[0]), es[1..]);
    }
  }

  /** No event sets an info field: from a fresh `Volcano` they stay unset forever. */
  lemma {:induction false} InfoFieldsNeverSet(s: DeviceState, es: seq<Event>)
    ensures var r := Run(s, es);
      r.autoOffTime == s.autoOffTime && r.operationHours == s.operationHours &&
      r.serialNumber == s.serialNumber && r.firmwareVersion == s.firmwareVersion &&
      r.bleFirmwareVersion == s.bleFirmwareVersion
    decreases |es|
  {
    if es != [] {
      InfoFieldsNeverSet(Step(s, es[0]), es[1..]);
    }
  }

  /** The number of heater toggles in a run. */
  function HeaterToggles(es: seq<Event>): nat
  {
    if es == [] then 0 else (if es[0] == HeaterToggled then 1 else 0) + HeaterToggles(es[1..])
  }

  /** The heater flag after a run is its start value flipped once per toggle. */
  lemma {:induction false} HeaterFollowsToggleParity(s: DeviceState, es: seq<Event>)
    ensures Run(s, es).heaterOn == (s.heaterOn != (HeaterToggles(es) % 2 == 1))
    decreases |es|
  {
    if es != [] {
      HeaterFollowsToggleParity(Step(s, es[0]), es[1..]);
    }
  }

  /** The number of pump toggles in a run. */
  function PumpToggles(es: seq<Event>): nat
  {
    if es == [] then 0 else (if es[0] == PumpToggled then 1 else 0) + PumpToggles(es[1..])
  }

  /** The pump flag after a run is its start value flipped once per toggle. */
  lemma {:induction false} PumpFollowsToggleParity(s: DeviceState, es: seq<Event>)
    ensures Run(s, es).pumpOn == (s.pumpOn != (PumpToggles(es) % 2 == 1))
    decreases |es|
  {
    if es != [] {
      PumpFollowsToggleParity(Step(s, es[0]), es[1..]);
    }
  }

  class Volcano {
    const mac: string

    var temperature: nat
    var targetTemperature: nat
    var heaterOn: bool
    var pumpOn: bool
    var autoOffTime: Option<nat>
    var operationHours: Option<nat>
    var serialNumber: Option<string>
    var firmwareVersion: Option<string>
    var bleFirmwareVersion: Option<string>

    /** Every characteristic write sent to the device, oldest first. */
    ghost var writes: seq<GattWrite>

    ghost function State(): DeviceState
      reads this
    {
      DeviceState(temperature, targetTemperature, heaterOn, pumpOn,
                  autoOffTime, operationHours, serialNumber, firmwareVersion, bleFirmwareVersion)
    }

    /** `Volcano(mac)`: both temperatures 0, heater and pump off, every info field unset. */
    constructor (mac: string)
      ensures this.mac == mac
      ensures temperature == 0 && targetTemperature == 0 && !heaterOn && !pumpOn
      ensures autoOffTime == None && operationHours == None && serialNumber == None
      ensures firmwareVersion == None && bleFirmwareVersion == None
      ensures State() == FreshState && writes == []
    {
      this.mac := mac;
      temperature, targetTemperature := 0, 0;
      heaterOn, pumpOn := false, false;
      autoOffTime, operationHours := None, None;
      serialNumber, firmwareVersion, bleFirmwareVersion := None, None, None;
      writes := [];
    }

    /** `read_temperature`: the current-temperature payload, truncated to whole degrees. */
    method ReadTemperature(payload: seq<Byte>) returns (r: Result<nat>)
      ensures r.Ok? <==> |payload| == 4
      ensures r.Ok? ==> 10 * r.value <= LeValue(payload) < 10 * r.value + 10
      ensures r.Err? ==> r.error == WrongLength(|payload|)
    {
      r := DecodeRead(payload);
    }

    /** `read_target_temperature`: the target-temperature payload, truncated to whole degrees. */
    method ReadTargetTemperature(payload: seq<Byte>) returns (r: Result<nat>)
      ensures r.Ok? <==> |payload| == 4
      ensures r.Ok? ==> 10 * r.value <= LeValue(payload) < 10 * r.value + 10
      ensures r.Err? ==> r.error == WrongLength(|payload|)
    {
      r := DecodeRead(payload);
    }

    /** `initialize_values`: reads the current, then the target temperature.
        A failing read raises, and nothing after it is assigned. */
    method InitializeValues(current: seq<Byte>, target: seq<Byte>) returns (r: Result<()>)
      modifies this`temperature, this`targetTemperature
      ensures r.Ok? <==> |current| == 4 && |target| == 4
      ensures |current| != 4 ==> r == Err(WrongLength(|current|)) && State() == old(State())
      ensures |current| == 4 ==> temperature == LeValue(current) / 10
      ensures |current| == 4 && |target| != 4 ==>
        r == Err(WrongLength(|target|)) && targetTemperature == old(targetTemperature)
      ensures r.Ok? ==> targetTemperature == LeValue(target) / 10
      ensures State() == Step(old(State()), ValuesInitialized(current, target))
    {
      var c := ReadTemperature(current);
      if c.Err? {
        return Err(c.error);
      }
      temperature := c.value;
      var t := ReadTargetTemperature(target);
      if t.Err? {
        return Err(t.error);
      }
      targetTemperature := t.value;
      r := Ok(());
    }

    /** `temperature_changed`: the notified current temperature, rounded half to even. */
    method TemperatureChanged(data: seq<Byte>) returns (r: Result<()>)
      modifies this`temperature
      ensures r.Ok? <==> |data| == 4
      ensures r.Ok? ==> temperature == RoundHalfEvenTenths(LeValue(data))
      ensures r.Err? ==> r.error == WrongLength(|data|) && temperature == old(temperature)
      ensures State() == Step(old(State()), TemperatureNotified(data))
    {
      var d := DecodeNotified(data);
      if d.Err? {
        return Err(d.error);
      }
      temperature := d.value;
      r := Ok(());
    }

    /** `target_temperature_changed`: the notified target temperature, rounded half to even. */
    method TargetTemperatureChanged(data: seq<Byte>) returns (r: Result<()>)
      modifies this`targetTemperature
      ensures r.Ok? <==> |data| == 4
      ensures r.Ok? ==> targetTemperature == RoundHalfEvenTenths(LeValue(data))
      ensures r.Err? ==> r.error == WrongLength(|data|) && targetTemperature == old(targetTemperature)
      ensures State() == Step(old(State()), TargetTemperatureNotified(data))
    {
      var d := DecodeNotified(data);
      if d.Err? {
        return Err(d.error);
      }
      targetTemperature := d.value;
      r := Ok(());
    }

    /** `set_target_temperature(t)`: writes `t * 10` as `<I` to the target
        characteristic, and nothing else; `struct.pack` raises before the
        write when `t * 10` is outside 0 .. 2^32 - 1. The written payload
        decodes back to `t` on both the read and the notification path. */
    method SetTargetTemperature(t: int) returns (r: Result<()>)
      modifies this`writes
      ensures r.Ok? <==> 0 <= 10 * t < U32_LIMIT
      ensures r.Err? ==> r.error == OutOfRange(10 * t) && writes == old(writes)
      ensures r.Ok? ==> |writes| == |old(writes)| + 1 && writes[..|old(writes)|] == old(writes)
      ensures r.Ok? ==> var w := writes[|writes| - 1];
        w.uuid == TEMP_TARGET_UUID && |w.data| == 4 && LeValue(w.data) == 10 * t &&
        DecodeRead(w.data) == Ok(t) && DecodeNotified(w.data) == Ok(t)
      ensures State() == old(State()) && State() == Step(old(State()), TargetTemperatureSet(t))
    {
      var data := EncodeTargetTemperature(t);
      if data.Err? {
        return Err(data.error);
      }
      ReadRoundTrip(t);
      NotifyRoundTrip(t);
      writes := writes + [GattWrite(TEMP_TARGET_UUID, data.value)];
      r := Ok(());
    }

    /** `toggle_heater`: flips the local heater flag and nothing else. */
    method ToggleHeater()
      modifies this`heaterOn
      ensures heaterOn == !old(heaterOn)
      ensures State() == Step(old(State()), HeaterToggled)
    {
      heaterOn := !heaterOn;
    }

    /** `toggle_pump`: flips the local pump flag and nothing else. */
    method TogglePump()
      modifies this`pumpOn
      ensures pumpOn == !old(pumpOn)
      ensures State() == Step(old(State()), PumpToggled)
    {
      pumpOn := !pumpOn;
    }
  }
}
