/**
  End-to-end walks through start-up and the first polling cycle for a single
  configured sensor and an empty cache.
 */
module Scenarios {
  import opened Wrappers
  import opened Homebridge
  import opened OriaAccessory
  import opened OriaPlatform

  const KITCHEN: SensorConfig := SensorConfig("Kitchen", "AA:BB:CC:DD:EE:FF")

  /**
    First start with one sensor and no cache: one accessory is created,
    registered once and polled; a first cycle reading 21.5 °C, 45 % and 80 %
    publishes those values with no fault and a normal battery and appends one
    history entry.
   */
  lemma KitchenFirstCycle(generate: string -> Uuid, nowMs: int)
    ensures var d := DiscoverDevices([], [KITCHEN], generate);
      && d.cache == []
      && |d.pollers| == 1 && d.registered == d.pollers
      && d.pollers[0].displayName == "Kitchen"
      && d.pollers[0].uuid == generate("AA:BB:CC:DD:EE:FF")
      && var r := Update(d.pollers[0], ReadOk(Reading(Some(21.5), Some(45.0), Some(80.0))), nowMs);
         && Lookup(r.accessory, TemperatureSensor, CurrentTemperature) == Some(Number(21.5))
         && Lookup(r.accessory, HumiditySensor, CurrentRelativeHumidity) == Some(Number(45.0))
         && Lookup(r.accessory, Battery, BatteryLevel) == Some(Number(80.0))
         && Lookup(r.accessory, TemperatureSensor, StatusFault) == Some(Fault(NoFault))
         && Lookup(r.accessory, HumiditySensor, StatusFault) == Some(Fault(NoFault))
         && Lookup(r.accessory, Battery, StatusLowBattery) == Some(LowBattery(BatteryLevelNormal))
         && r.history == [HistoryEntry(EpochSeconds(nowMs), 21.5, 45.0)]
  {
    var a := Setup(NewAccessory(KITCHEN, generate(KITCHEN.macAddress)));
    assert DiscoverDevices([], [KITCHEN], generate) == Discovery([], [a], [a]);
    var r := Update(a, ReadOk(Reading(Some(21.5), Some(45.0), Some(80.0))), nowMs);
    ValidScenario(a, 21.5, 45.0, 80.0, nowMs);
    assert LowBatteryStatus(80.0) == BatteryLevelNormal;
  }

  /** The success-path facts the scenario reads off, one lookup each. */
  lemma ValidScenario(a: SensorAccessory, temperature: real, humidity: real, battery: real, nowMs: int)
    requires HasChannels(a)
    requires temperature != 0.0 && humidity != 0.0 && battery != 0.0
    ensures var r := Update(a, ReadOk(Reading(Some(temperature), Some(humidity), Some(battery))), nowMs);
      && Lookup(r.accessory, TemperatureSensor, CurrentTemperature) == Some(Number(temperature))
      && Lookup(r.accessory, HumiditySensor, CurrentRelativeHumidity) == Some(Number(humidity))
      && Lookup(r.accessory, Battery, BatteryLevel) == Some(Number(battery))
      && Lookup(r.accessory, TemperatureSensor, StatusFault) == Some(Fault(NoFault))
      && Lookup(r.accessory, HumiditySensor, StatusFault) == Some(Fault(NoFault))
      && Lookup(r.accessory, Battery, StatusLowBattery) == Some(LowBattery(LowBatteryStatus(battery)))
      && r.history == [HistoryEntry(EpochSeconds(nowMs), temperature, humidity)]
  {
    UpdateValid(a, temperature, humidity, battery, nowMs);
  }

  /**
    The same start-up followed by a failed read: the accessory stays exactly as
    the constructor left it, so its measured values and fault states are still
    unset, and no history entry is appended.
   */
  lemma KitchenReadFails(generate: string -> Uuid, nowMs: int)
    ensures var d := DiscoverDevices([], [KITCHEN], generate);
      && |d.pollers| == 1
      && var r := Update(d.pollers[0], ReadFailed, nowMs);
         && r.history == []
         && r.accessory == d.pollers[0]
         && Lookup(r.accessory, TemperatureSensor, CurrentTemperature) == None
         && Lookup(r.accessory, HumiditySensor, CurrentRelativeHumidity) == None
         && Lookup(r.accessory, Battery, BatteryLevel) == None
         && Lookup(r.accessory, TemperatureSensor, StatusFault) == None
         && Lookup(r.accessory, HumiditySensor, StatusFault) == None
  {
    var a := Setup(NewAccessory(KITCHEN, generate(KITCHEN.macAddress)));
    assert DiscoverDevices([], [KITCHEN], generate) == Discovery([], [a], [a]);
    UpdateReadFailure(a, nowMs);
  }
}
