# ThermoBeacon oria Homebridge plugin — Dafny model

This project models the decision logic of `homebridge-thermobeacon-oria`, a
Homebridge dynamic-platform plugin. The plugin polls ThermoBeacon oria
Bluetooth sensors and exposes each one as a HomeKit accessory with three
services: a thermometer, a hygrometer and a battery. The model covers two
pieces of logic, each written as pure functions over immutable data:

- **The polling cycle** (`ThermobeaconOriaAccessory._update`), in module
  `OriaAccessory`. It takes the accessory, the outcome of one BLE read and the
  clock in milliseconds. It returns the accessory after the cycle's
  characteristic writes and the FakeGato history entries the cycle appended.
  The read outcome either failed (the `await read(...)` threw) or is a reading
  whose temperature, humidity and battery fields are each optional.
  `Classify` is the source's truthiness gate. `CycleWrites` lists the
  `updateCharacteristic` calls in source order. `Homebridge.ApplyWrites`
  replays them on the accessory.
- **The constructor's one-time setup** (`OriaAccessory.Setup`). It writes
  manufacturer, model and serial number, but only if the information service
  exists (the `?.`). It then gets or adds the three services and names them.
- **Accessory reconciliation** (`ThermobeaconOriaPlatform.discoverDevices`
  and `configureAccessory`), in module `OriaPlatform`. Each configured sensor's
  identity is `generate(macAddress)`. `generate` is a function parameter that
  stands for `uuid.generate`. The sensor either restores the first cached
  accessory with that identity or gets a new accessory, which is then
  registered. Either way, one poller is started for it. `DiscoverDevices`
  returns three things:
  - the cache list afterwards;
  - the accessory each poller owns once its constructor's synchronous setup
    has run;
  - the accessory passed to each `registerPlatformAccessories` call.

  A restored accessory is the cached object itself. So the constructor's
  setup shows up in the cache list, and the model tracks that aliasing.

`Homebridge` models the host's characteristic store as maps: service type to
service, and characteristic to value. `Lookup` reads one characteristic.
`ApplyWritesLastWins` states what a batch of writes does: each characteristic
holds the last value written to it, and any characteristic nobody wrote keeps
its old value. `Scenarios` walks through one start-up and its first cycle for
a single sensor.

Note what `_update` does, since it is easy to misread:

- A failed read publishes nothing. `_update` returns before any write, so no
  fault is signalled (`src/platformAccessory.ts:80-85`).
- The fault path runs when any one of the three fields is falsy, not only when
  all of them are (`src/platformAccessory.ts:89`).
- The fault path writes `GENERAL_FAULT` only on the thermometer and the
  hygrometer, never on the battery service (`src/platformAccessory.ts:95-100`).
- Values are published only when all three fields are truthy. There is no
  partial publish.

## Model

| member | source | states |
|---|---|---|
| OriaAccessory.Classify | src/platformAccessory.ts:80-103 | A thrown read is a read error. A reading takes the fault path exactly when at least one of temperature, humidity and battery is undefined or 0. Otherwise it is valid and carries the three values, all of them nonzero. |
| OriaAccessory.EpochSeconds | src/platformAccessory.ts:129 | The history timestamp is `Math.round(ms / 1000)`: the whole second within half a second of the clock, with halves rounded up. |
| OriaAccessory.Update | src/platformAccessory.ts:77-149 | A cycle never changes the accessory's identity or its set of services. It appends at most one history entry, and appends one exactly when the reading is valid. |
| OriaAccessory.UpdateReadFailure | src/platformAccessory.ts:80-85 | If the read throws, the accessory is unchanged and no history entry is appended. |
| OriaAccessory.UpdateSensorFault | src/platformAccessory.ts:87-103 | If any field is falsy, `StatusFault` becomes `GENERAL_FAULT` on the thermometer and the hygrometer. Every other characteristic stays as it was: all values, every `StatusLowBattery`, the whole battery service. No history entry is appended. |
| OriaAccessory.UpdateValid | src/platformAccessory.ts:113-148 | If all fields are truthy, the three services publish their values. `StatusFault` becomes `NO_FAULT` on the thermometer and hygrometer. `StatusLowBattery` is set on all three services. Nothing else changes. Exactly one history entry is appended: the rounded time in seconds, the temperature and the humidity. |
| OriaAccessory.UpdateNeverFaultsBattery | src/platformAccessory.ts:95-139 | On no path does a write target the battery service's `StatusFault`, and its value is always left as it was. |
| OriaAccessory.LowBatteryStatus | src/platformAccessory.ts:7 | `BATTERY_LEVEL_LOW` is published exactly when the battery is at or below `LOW_BATTERY` = 10. |
| OriaAccessory.LowBatteryBoundaries | src/platformAccessory.ts:141-148 | Battery 10 gives low and 11 gives normal. Battery 0 is falsy, so it takes the fault path and is never reported as low. |
| OriaAccessory.UpdateIdempotent | src/platformAccessory.ts:113-148 | Running a second cycle with the same read outcome leaves the accessory exactly as the first cycle left it, whatever the clock says. |
| OriaAccessory.Setup | src/platformAccessory.ts:29-70 | Identity is kept. Afterwards the accessory has its old services plus the three channel services, and no other service of those the model represents (the FakeGato history service is not one of them). If the information service exists, it holds "Sensor Blue", "ThermoBeacon oria" and `context.macAddress` as serial number. Each channel service is named `displayName`. |
| OriaAccessory.SetupFrame | src/platformAccessory.ts:29-70 | The constructor writes only the three information characteristics and the channel names. Every other characteristic keeps its old value, and a service that had to be added starts empty. |
| OriaAccessory.SetupIdempotent | src/platformAccessory.ts:44-70 | Setting up an accessory a second time changes nothing. The second `getService` finds the services the first one added, and the names are rewritten with the same values. |
| OriaPlatform.ConfigureAccessory | src/platform.ts:40-44 | The given accessory becomes the last cache entry. All earlier entries stay in place. |
| OriaPlatform.RestoreCacheKeepsOrder | src/platform.ts:24-44 | Starting from the empty list and calling `configureAccessory` once per persisted accessory reproduces the persisted list exactly, in order. |
| OriaPlatform.FindFirst | src/platform.ts:52-54 | `find` returns the lowest index whose UUID matches. It returns nothing exactly when no cached accessory carries that UUID. |
| OriaPlatform.DiscoverDevices | src/platform.ts:46-80 | One poller is started per configured sensor. The cache list keeps its length, and every entry keeps its display name, UUID and context. |
| OriaPlatform.DiscoverPollers | src/platform.ts:49-73 | Poller k belongs to sensor k, and its UUID is `generate(macAddress)`. If that UUID is cached, the poller gets the first cached accessory with it, display name and context kept. Otherwise it gets a new accessory named after the sensor, with the sensor as context. Either way, the three services are set up. |
| OriaPlatform.DiscoverRegistrations | src/platform.ts:63-77 | Exactly one registration is made per sensor whose UUID is absent from the cache, in configuration order. Each registers a new accessory with the sensor's name, its UUID and the sensor as context. So two uncached sensors with the same MAC are both registered. |
| OriaPlatform.NoRestoredRegistration | src/platform.ts:56-78 | No registration carries a UUID that is already in the cache, so restored accessories are never registered twice. |
| OriaPlatform.DiscoverCache | src/platform.ts:46-80 | Discovery adds nothing to the cache list and removes nothing from it. An entry that no sensor finds first is left exactly as it was. The entry a sensor finds first is the very object its poller owns, with the constructor's setup applied. |
| OriaPlatform.RestartStable | src/platform.ts:40-80 | Suppose the cache list and the new registrations are persisted and restored at the next start. Then a second discovery with the same sensors registers nothing. If no two sensors share a UUID, it also starts every poller for the same accessory as before. |
| Scenarios.KitchenFirstCycle | src/platform.ts:63-77 | With one sensor "Kitchen" and an empty cache, one accessory is created, registered once and polled. A first reading of 21.5 / 45 / 80 publishes those values with no fault and normal battery, and appends one history entry. |
| Scenarios.KitchenReadFails | src/platformAccessory.ts:80-85 | With the same start-up and a failed first read, the accessory is left exactly as the constructor set it up. Temperature, humidity, battery level and both fault states stay unset, and no history entry is appended. |

## Left out

- The 60-second `setInterval` and the immediate first `_update` call from the constructor (`src/platformAccessory.ts:72-74`). This is timer behaviour. The model is one cycle step. Because `setInterval` does not wait for a pending read, two cycles of one sensor can overlap in the source. That re-entrancy is not modelled.
- The BLE `read` from `./thermobeacon-oria`, which is not part of this model. Its settled result is an input (`ReadOutcome`), so the address it is called with plays no part.
- The clock. `new Date()` is the integer parameter `nowMs`.
- FakeGato. The model does not construct the history service or persist its entries. Only the appended entry records are modelled.
- The FakeGato history service that `new FakeGatoHistoryService("weather", this.accessory, …)` attaches to the accessory (`src/platformAccessory.ts:56-63`). The service map has no entry for it, so `Setup`'s exact set of services leaves it out.
- Malformed configuration. `DiscoverDevices` takes the configured sensors as a list of entries, each with a non-empty name and a MAC string. In the source, a missing `sensors` key makes the `for … of` loop throw (`src/platform.ts:47-49`). An uncached entry with an empty name makes `new platformAccessory(device.name, uuid)` throw (`src/platform.ts:66-69`). Either way discovery stops part-way. The model does not represent these exceptions, and `DiscoverPollers` and `DiscoverRegistrations` speak only of well-formed configurations.
- Logging (`log.debug`, `log.info`, `log.warn`).
- `src/index.ts` (platform registration glue). Also the plugin and platform name constants passed to `registerPlatformAccessories`: `./settings` is not part of this model.
- Default values that HAP gives a service added by `addService`. A newly added service starts with no characteristics in the model. A new `PlatformAccessory` is assumed to come with an empty information service.
- IEEE-754 details. Readings are `real`, so NaN (also falsy in JavaScript) and -0 are not represented.
- How Homebridge persists and orders its cache between runs. `RestartStable` assumes the cache list is persisted, followed by the new registrations.
- Failures of `registerPlatformAccessories`. The source does not handle them.
