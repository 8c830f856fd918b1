/**
  One ThermoBeacon oria sensor as a Homebridge accessory: the one-time service
  setup its constructor performs, and the per-cycle `_update` step that turns
  one BLE read outcome into characteristic writes and history entries.

  The BLE read and the clock are inputs: the step receives the outcome of
  `read(macAddress)` and the current time in milliseconds.
 */
module OriaAccessory {
  import opened Wrappers
  import opened Homebridge

  /** Battery percentage at or below which low battery is reported. */
  const LOW_BATTERY: real := 10.0

  const MANUFACTURER: string := "Sensor Blue"
  const MODEL: string := "ThermoBeacon oria"

  /** One entry of the plugin's `sensors` configuration. */
  datatype SensorConfig = SensorConfig(name: string, macAddress: string)

  type SensorAccessory = Accessory<SensorConfig>

  /** What the BLE layer decoded; any field may be missing. */
  datatype Reading = Reading(temperature: Option<real>, humidity: Option<real>, battery: Option<real>)

  /** The settled `await read(...)`: it either threw or produced a reading. */
  datatype ReadOutcome = ReadFailed | ReadOk(reading: Reading)

  /** One record handed to the FakeGato history service's `addEntry`. */
  datatype HistoryEntry = HistoryEntry(time: int, temp: real, humidity: real)

  /** Which of the three paths of `_update` a read outcome takes. */
  datatype Classification =
    | ReadError
    | SensorFault
    | Valid(temperature: real, humidity: real, battery: real)

  /** The accessory after one `_update` and the history entries it appended. */
  datatype CycleResult = CycleResult(accessory: SensorAccessory, history: seq<HistoryEntry>)

  /** JavaScript truthiness of an optional number: `undefined` and `0` are falsy. */
  predicate Truthy(x: Option<real>) {
    x.Some? && x.value != 0.0
  }

  /** The three services the constructor guarantees and `_update` writes to. */
  predicate HasChannels(a: SensorAccessory) {
    TemperatureSensor in a.services && HumiditySensor in a.services && Battery in a.services
  }

  predicate IsChannel(t: ServiceType) {
    t == TemperatureSensor || t == HumiditySensor || t == Battery
  }

  /**
    The gate of `_update`: a thrown read ends the cycle, a reading with ANY falsy
    field takes the fault path, and only a reading whose three fields are all
    truthy is published.
   */
  function Classify(o: ReadOutcome): (c: Classification)
    ensures c.ReadError? <==> o.ReadFailed?
    ensures c.SensorFault? <==>
      o.ReadOk? && (!Truthy(o.reading.temperature) || !Truthy(o.reading.humidity) || !Truthy(o.reading.battery))
    ensures c.Valid? <==>
      o.ReadOk? && Truthy(o.reading.temperature) && Truthy(o.reading.humidity) && Truthy(o.reading.battery)
    ensures c.Valid? ==>
      && o.reading == Reading(Some(c.temperature), Some(c.humidity), Some(c.battery))
      && c.temperature != 0.0 && c.humidity != 0.0 && c.battery != 0.0
  {
    match o
    case ReadFailed => ReadError
    case ReadOk(Reading(t, h, b)) =>
      if !Truthy(t) || !Truthy(h) || !Truthy(b) then SensorFault
      else Valid(t.value, h.value, b.value)
  }

  /** `Math.round(ms / 1000)`: the whole number of seconds nearest `ms`, halves rounding up. */
  function EpochSeconds(ms: int): (s: int)
    ensures 1000 * s - 500 <= ms < 1000 * s + 500
  {
    (ms + 500) / 1000
  }

  /** The `StatusLowBattery` value published for a battery percentage. */
  function LowBatteryStatus(battery: real): (code: LowBatteryCode)
    ensures code == BatteryLevelLow <==> battery <= LOW_BATTERY
  {
    if battery <= LOW_BATTERY then BatteryLevelLow else BatteryLevelNormal
  }

  /** The `updateCharacteristic` calls of one `_update`, in the order the source makes them. */
  function CycleWrites(c: Classification): seq<Write> {
    match c
    case ReadError => []
    case SensorFault =>
      [ Write(TemperatureSensor, StatusFault, Fault(GeneralFault)),
        Write(HumiditySensor, StatusFault, Fault(GeneralFault)) ]
    case Valid(t, h, b) =>
      var low := LowBattery(LowBatteryStatus(b));
      [ Write(TemperatureSensor, CurrentTemperature, Number(t)),
        Write(HumiditySensor, CurrentRelativeHumidity, Number(h)),
        Write(Battery, BatteryLevel, Number(b)),
        Write(TemperatureSensor, StatusFault, Fault(NoFault)),
        Write(HumiditySensor, StatusFault, Fault(NoFault)),
        Write(TemperatureSensor, StatusLowBattery, low),
        Write(HumiditySensor, StatusLowBattery, low),
        Write(Battery, StatusLowBattery, low) ]
  }

  /** The `addEntry` calls of one `_update`. */
  function CycleHistory(c: Classification, nowMs: int): seq<HistoryEntry> {
    match c
    case Valid(t, h, _) => [HistoryEntry(EpochSeconds(nowMs), t, h)]
    case _ => []
  }

  /** One polling cycle of `_update`, given the read outcome and the clock. */
  function Update(a: SensorAccessory, o: ReadOutcome, nowMs: int): (r: CycleResult)
    requires HasChannels(a)
    ensures SameIdentity(r.accessory, a)
    ensures r.accessory.services.Keys == a.services.Keys
    ensures |r.history| <= 1
    ensures r.history != [] <==> Classify(o).Valid?
  {
    var c := Classify(o);
    CycleResult(ApplyWrites(a, CycleWrites(c)), CycleHistory(c, nowMs))
  }

  /**
    What the fault path leaves in characteristic `c` of service `t`, where it
    writes one: `GENERAL_FAULT` in `StatusFault` of the thermometer and the
    hygrometer, nothing else.
   */
  function FaultPublished(t: ServiceType, c: Characteristic): Option<Value> {
    if (t == TemperatureSensor || t == HumiditySensor) && c == StatusFault then Some(Fault(GeneralFault))
    else None
  }

  /**
    What the success path leaves in characteristic `c` of service `t`, where it
    writes one: each service's own measurement, `NO_FAULT` on the thermometer
    and hygrometer, and the low-battery status on all three services.
   */
  function ValidPublished(t: ServiceType, c: Characteristic, temperature: real, humidity: real, battery: real): Option<Value> {
    if t == TemperatureSensor && c == CurrentTemperature then Some(Number(temperature))
    else if t == HumiditySensor && c == CurrentRelativeHumidity then Some(Number(humidity))
    else if t == Battery && c == BatteryLevel then Some(Number(battery))
    else if (t == TemperatureSensor || t == HumiditySensor) && c == StatusFault then Some(Fault(NoFault))
    else if IsChannel(t) && c == StatusLowBattery then Some(LowBattery(LowBatteryStatus(battery)))
    else None
  }

  /** The fault path's writes, read back characteristic by characteristic, are `FaultPublished`. */
  lemma FaultWritesTable(t: ServiceType, c: Characteristic)
    ensures LastWrite(CycleWrites(SensorFault), t, c) == FaultPublished(t, c)
  {
    var ws := CycleWrites(SensorFault);
    if t == TemperatureSensor && c == StatusFault {
      LastWriteAt(ws, t, c, 0);
    } else if t == HumiditySensor && c == StatusFault {
      LastWriteAt(ws, t, c, 1);
    } else {
      LastWriteAbsent(ws, t, c);
    }
  }

  /** The success path's writes, read back characteristic by characteristic, are `ValidPublished`. */
  lemma ValidWritesTable(temperature: real, humidity: real, battery: real, t: ServiceType, c: Characteristic)
    ensures LastWrite(CycleWrites(Valid(temperature, humidity, battery)), t, c)
         == ValidPublished(t, c, temperature, humidity, battery)
  {
    var ws := CycleWrites(Valid(temperature, humidity, battery));
    if t == TemperatureSensor && c == CurrentTemperature {
      LastWriteAt(ws, t, c, 0);
    } else if t == HumiditySensor && c == CurrentRelativeHumidity {
      LastWriteAt(ws, t, c, 1);
    } else if t == Battery && c == BatteryLevel {
      LastWriteAt(ws, t, c, 2);
    } else if t == TemperatureSensor && c == StatusFault {
      LastWriteAt(ws, t, c, 3);
    } else if t == HumiditySensor && c == StatusFault {
      LastWriteAt(ws, t, c, 4);
    } else if t == TemperatureSensor && c == StatusLowBattery {
      LastWriteAt(ws, t, c, 5);
    } else if t == HumiditySensor && c == StatusLowBattery {
      LastWriteAt(ws, t, c, 6);
    } else if t == Battery && c == StatusLowBattery {
      LastWriteAt(ws, t, c, 7);
    } else {
      LastWriteAbsent(ws, t, c);
    }
  }

  /** A thrown read changes no characteristic and appends no history entry. */
  lemma UpdateReadFailure(a: SensorAccessory, nowMs: int)
    requires HasChannels(a)
    ensures Update(a, ReadFailed, nowMs) == CycleResult(a, [])
  {
  }

  /**
    A reading with any falsy field sets `GENERAL_FAULT` on the thermometer and
    the hygrometer and leaves every other characteristic, including all values
    and every low-battery status, as it was; no history entry is appended.
   */
  lemma UpdateSensorFault(a: SensorAccessory, reading: Reading, nowMs: int)
    requires HasChannels(a)
    requires !Truthy(reading.temperature) || !Truthy(reading.humidity) || !Truthy(reading.battery)
    ensures Update(a, ReadOk(reading), nowMs).history == []
    ensures forall t, c :: Lookup(Update(a, ReadOk(reading), nowMs).accessory, t, c)
                        == if FaultPublished(t, c).Some? then FaultPublished(t, c) else Lookup(a, t, c)
  {
    var ws := CycleWrites(SensorFault);
    forall t, c ensures Lookup(ApplyWrites(a, ws), t, c)
                     == if FaultPublished(t, c).Some? then FaultPublished(t, c) else Lookup(a, t, c)
    {
      ApplyWritesLastWins(a, ws, t, c);
      FaultWritesTable(t, c);
    }
  }

  /**
    A reading with three truthy fields publishes them, clears the fault on the
    thermometer and hygrometer, publishes the low-battery status on all three
    services, leaves every other characteristic as it was, and appends exactly
    one history entry stamped with the current time in seconds.
   */
  lemma UpdateValid(a: SensorAccessory, temperature: real, humidity: real, battery: real, nowMs: int)
    requires HasChannels(a)
    requires temperature != 0.0 && humidity != 0.0 && battery != 0.0
    ensures var r := Update(a, ReadOk(Reading(Some(temperature), Some(humidity), Some(battery))), nowMs);
      && r.history == [HistoryEntry(EpochSeconds(nowMs), temperature, humidity)]
      && forall t, c :: Lookup(r.accessory, t, c)
                     == var p := ValidPublished(t, c, temperature, humidity, battery);
                        if p.Some? then p else Lookup(a, t, c)
  {
    var ws := CycleWrites(Valid(temperature, humidity, battery));
    forall t, c ensures Lookup(ApplyWrites(a, ws), t, c)
                     == var p := ValidPublished(t, c, temperature, humidity, battery);
                        if p.Some? then p else Lookup(a, t, c)
    {
      ApplyWritesLastWins(a, ws, t, c);
      ValidWritesTable(temperature, humidity, battery, t, c);
    }
  }

  /** No path of `_update` writes the battery service's `StatusFault`. */
  lemma UpdateNeverFaultsBattery(a: SensorAccessory, o: ReadOutcome, nowMs: int)
    requires HasChannels(a)
    ensures forall k :: 0 <= k < |CycleWrites(Classify(o))| ==> !Names(CycleWrites(Classify(o))[k], Battery, StatusFault)
    ensures Lookup(Update(a, o, nowMs).accessory, Battery, StatusFault) == Lookup(a, Battery, StatusFault)
  {
    var ws := CycleWrites(Classify(o));
    assert forall k :: 0 <= k < |ws| ==> !Names(ws[k], Battery, StatusFault);
    LastWriteAbsent(ws, Battery, StatusFault);
    ApplyWritesLastWins(a, ws, Battery, StatusFault);
  }

  /**
    The low-battery threshold at its boundaries: 10% is low, 11% is normal,
    and 0% is falsy, so it takes the fault path instead of reporting low.
   */
  lemma LowBatteryBoundaries(a: SensorAccessory, temperature: real, humidity: real, nowMs: int)
    requires HasChannels(a)
    requires temperature != 0.0 && humidity != 0.0
    ensures Lookup(Update(a, ReadOk(Reading(Some(temperature), Some(humidity), Some(10.0))), nowMs).accessory,
                   Battery, StatusLowBattery) == Some(LowBattery(BatteryLevelLow))
    ensures Lookup(Update(a, ReadOk(Reading(Some(temperature), Some(humidity), Some(11.0))), nowMs).accessory,
                   Battery, StatusLowBattery) == Some(LowBattery(BatteryLevelNormal))
    ensures Classify(ReadOk(Reading(Some(temperature), Some(humidity), Some(0.0)))) == SensorFault
  {
    UpdateValid(a, temperature, humidity, 10.0, nowMs);
    UpdateValid(a, temperature, humidity, 11.0, nowMs);
  }

  /**
    Re-publishing the same read outcome is idempotent: a second cycle that
    sees the same outcome leaves the accessory exactly as the first left it,
    whatever the clock says.
   */
  lemma UpdateIdempotent(a: SensorAccessory, o: ReadOutcome, nowMs: int, laterMs: int)
    requires HasChannels(a)
    ensures HasChannels(Update(a, o, nowMs).accessory)
    ensures Update(Update(a, o, nowMs).accessory, o, laterMs).accessory == Update(a, o, nowMs).accessory
  {
    var once := Update(a, o, nowMs).accessory;
    var twice := Update(once, o, laterMs).accessory;
    var ws := CycleWrites(Classify(o));
    forall t, c ensures Lookup(twice, t, c) == Lookup(once, t, c) {
      ApplyWritesLastWins(a, ws, t, c);
      ApplyWritesLastWins(once, ws, t, c);
    }
    AccessoryExtensionality(twice, once);
  }

  /** `getService(t) || addService(t)`: a service added now starts with no characteristics. */
  function GetOrAddService(services: map<ServiceType, Service>, t: ServiceType): Service {
    if t in services then services[t] else map[]
  }

  /** Whether the constructor writes characteristic `c` of service `t`. */
  predicate SetupWrites(t: ServiceType, c: Characteristic) {
    || (t == AccessoryInformation && (c == Manufacturer || c == Model || c == SerialNumber))
    || (IsChannel(t) && c == Name)
  }

  /**
    The synchronous part of the accessory constructor.  Afterwards the
    information service (only if the accessory has one: the `?.`) names the
    manufacturer, the model and the sensor's MAC address as serial number; the
    three channel services exist, fetched or added, and each is named after the
    accessory.  `SetupFrame` says that nothing else changes.
   */
  function Setup(a: SensorAccessory): (r: SensorAccessory)
    ensures SameIdentity(r, a)
    ensures HasChannels(r)
    ensures r.services.Keys == a.services.Keys + {TemperatureSensor, HumiditySensor, Battery}
    ensures AccessoryInformation in a.services ==>
      && Lookup(r, AccessoryInformation, Manufacturer) == Some(Text(MANUFACTURER))
      && Lookup(r, AccessoryInformation, Model) == Some(Text(MODEL))
      && Lookup(r, AccessoryInformation, SerialNumber) == Some(Text(a.context.macAddress))
    ensures forall t :: IsChannel(t) ==> Lookup(r, t, Name) == Some(Text(a.displayName))
  {
    var informed :=
      if AccessoryInformation in a.services then
        var info := a.services[AccessoryInformation];
        a.services[AccessoryInformation :=
          info[Manufacturer := Text(MANUFACTURER)][Model := Text(MODEL)][SerialNumber := Text(a.context.macAddress)]]
      else a.services;
    var name := Text(a.displayName);
    a.(services := informed
      [TemperatureSensor := GetOrAddService(informed, TemperatureSensor)[Name := name]]
      [HumiditySensor := GetOrAddService(informed, HumiditySensor)[Name := name]]
      [Battery := GetOrAddService(informed, Battery)[Name := name]])
  }

  /**
    The constructor writes nothing but the characteristics `SetupWrites`
    names: every other characteristic holds what it held before (nothing, for
    a service that was just added).
   */
  lemma SetupFrame(a: SensorAccessory)
    ensures forall t, c :: !SetupWrites(t, c) ==> Lookup(Setup(a), t, c) == Lookup(a, t, c)
  {
  }

  /** Running the constructor's setup on an accessory it already set up changes nothing. */
  lemma SetupIdempotent(a: SensorAccessory)
    ensures Setup(Setup(a)) == Setup(a)
  {
    var once := Setup(a);
    var twice := Setup(once);
    SetupFrame(once);
    forall t, c ensures Lookup(twice, t, c) == Lookup(once, t, c) {
      if SetupWrites(t, c) && t == AccessoryInformation {
        assert AccessoryInformation in a.services <==> AccessoryInformation in once.services;
      }
    }
    AccessoryExtensionality(twice, once);
  }
}
