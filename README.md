# deep_breath_ios in Dafny

A verified model of the core of `deep_breath_ios`, the client library for the
Deep Breath breathing-training sensor. The sensor is a Bluetooth LE
peripheral with two GATT services:

- a telemetry service whose readable characteristic delivers 8-byte frames
  (pressure and three gyroscope axes, each a signed 16-bit little-endian
  integer);
- a battery service whose readable characteristic delivers a signed 16-bit
  millivolt reading.

The model has three modules:

- `TrainingData` (`training_data.dfy`): the `TrainingDataItem` frame decoder
  (`DecodeFrame`), the `Int16` little-endian load and store, an encoder
  `EncodeFrame` used as the decoder's partner, and the round-trip lemmas.
- `DeepBreathSession` (`deep_breath.dfy`): the `DeepBreath` object as a
  Dafny class whose fields are the Swift fields (`deviceList`,
  `connectedDevice`, `characteristicData`, `characteristicBattery`,
  `batteryPercent`, `dataStartTime`, `dataTimer`). Each public operation and
  each CoreBluetooth callback is a method whose field-level `modifies`
  clause says what may change and whose `ensures` say the new values. The
  battery millivolt-to-percent rule, the polling-interval clamp and the
  `first(where:)` selection are functions with lemmas. Requests to the
  Bluetooth stack (`scanForPeripherals`, `stopScan`, `connect`,
  `cancelPeripheralConnection`, `discoverServices`,
  `discoverCharacteristics`, `readValue`) and the delegate notifications are
  appended to a ghost event log `events`. Notifications go in only when a
  delegate is attached, as with Swift's `delegate?.` calls. `Valid()` is the
  object invariant every method keeps: the battery percentage lies in
  [0, 100]; a timer runs exactly when a start time is kept; a timer's interval
  is at least 0.06 s.
- `Scenarios` (`scenarios.dfy`): compositions of the operations. They cover a
  double disconnect, a battery reading after discovery, resolving the data
  characteristic, and one polling round trip.

`Wrappers` (`wrappers.dfy`) holds the `Option` type that stands for Swift
optionals.

Modelling choices:

- Bytes are integers in [0, 256) and `Int16` values are integers in
  [-32768, 32768). Loading an `Int16` is little-endian, the byte order of every
  Apple platform.
- `Double` is modelled as `real`. No IEEE rounding is claimed.
- Peripherals, services and characteristics are values with identifiers.
  Equality of two characteristics stands for object identity.
- `centralManager` is created by the initialiser and is never nil afterwards,
  so its requests are always issued.
- The timer is the pair (interval, captured characteristic). `TimerFire` is
  one firing of its handler. It reads the characteristic captured when
  polling started, through whatever device is connected at that moment.
- `DispatchTime.now()` is the parameter `now`: uptime in nanoseconds. The
  source subtracts the start time from it as an unsigned integer, which traps
  if the clock ran backwards. `DidUpdateValueFor` and `ReadDataValue`
  therefore require `now` not to precede a kept start time.
- The battery conversion loads an `Int16` from the value without checking its
  length. `DidUpdateValueFor` and `ReadBatteryValue` therefore require a
  battery value of at least two bytes.

Behaviour of the code worth knowing:

- `scanForDevices` only clears the list and discards the availability check.
  It neither requests a scan nor reports an empty list. Scanning is requested
  only when the adapter reports `poweredOn`.
- `connect` does not check for an existing connection. It replaces
  `connectedDevice`.
- 3700 mV gives 53 1/3 %, and 3675 mV gives 50 % (`BatteryPercentSamples`).
- The bytes `0xFB, 0xFF` load as the `Int16` -5 (`DecodeSampleFrame`).
- There is no connection-state enumeration. The state is the set of optional
  fields, and `didConnect` does not touch them.
- A running timer keeps reading the characteristic it captured, even if
  characteristic discovery later replaces `characteristicData`.
  `disconnect` and `stopReadData` remove the timer, so no read follows them
  (`TimerFire`).
- `readData(intervalSeconds:)` defaults its interval to 0.2 s; so does
  `ReadData`.

## Model

| member | source | states |
|---|---|---|
| `TrainingData.Int16FromLE` | Sources/deep_breath_ios/deep_breath_ios.swift:263-265 | the loaded value is the `Int16` whose 16-bit two's-complement pattern is `lo + 256*hi`; it is negative exactly when the high byte's top bit is set |
| `TrainingData.Int16ToLE` | Sources/deep_breath_ios/deep_breath_ios.swift:263-274 | the inverse of the load: storing an `Int16` gives two bytes, low byte first, that spell its two's-complement pattern |
| `TrainingData.Int16RoundTrip` | Sources/deep_breath_ios/deep_breath_ios.swift:263-265 | storing then loading an `Int16` gives it back |
| `TrainingData.BytesRoundTrip` | Sources/deep_breath_ios/deep_breath_ios.swift:263-265 | loading then storing two bytes gives them back, so the load is a bijection |
| `TrainingData.LoadInt16` | Sources/deep_breath_ios/deep_breath_ios.swift:263-274 | the `Int16` loaded from `data[offset..offset+2]` is the one whose little-endian encoding is exactly those two bytes |
| `TrainingData.DecodeFrame` | Sources/deep_breath_ios/deep_breath_ios.swift:260-276 | no item exactly when the buffer has fewer than 8 bytes; otherwise re-encoding the item's four readings gives the first 8 bytes, and `elapsedSeconds` is passed through |
| `TrainingData.DecodeFieldLayout` | Sources/deep_breath_ios/deep_breath_ios.swift:263-274 | pressure, gyroX, gyroY and gyroZ are the little-endian `Int16`s of bytes [0,2), [2,4), [4,6), [6,8) |
| `TrainingData.DecodeIgnoresTail` | Sources/deep_breath_ios/deep_breath_ios.swift:261-275 | two buffers of at least 8 bytes that agree on their first 8 bytes decode to the same item: bytes from index 8 on never matter |
| `TrainingData.EncodeDecodeRoundTrip` | Sources/deep_breath_ios/deep_breath_ios.swift:260-276 | encoding any four readings, appending any bytes, and decoding gives the item back |
| `TrainingData.DecodeSampleFrame` | Sources/deep_breath_ios/deep_breath_ios.swift:260-276 | the frame 10,0, 0xFB,0xFF, 0,0, 3,0 decodes to pressure 10, gyro (-5, 0, 3) |
| `DeepBreathSession.FirstIndex` | Sources/deep_breath_ios/deep_breath_ios.swift:172-174 | `first(where:)`: the index found satisfies the predicate and no earlier element does; none is found exactly when no element satisfies it |
| `DeepBreathSession.FirstWhere` | Sources/deep_breath_ios/deep_breath_ios.swift:172-174 | `s?.first(where: p)`: nothing exactly when the sequence is absent or no element satisfies `p`; otherwise an element that satisfies `p` and is preceded by none that does |
| `DeepBreathSession.FindService` | Sources/deep_breath_ios/deep_breath_ios.swift:153-161 | `services?.first(where:)` by UUID: nothing exactly when the list is absent or holds no service with that UUID; otherwise the first listed service with that UUID |
| `DeepBreathSession.FirstReadable` | Sources/deep_breath_ios/deep_breath_ios.swift:172-174 | a characteristic it selects is readable and belongs to the service's characteristics |
| `DeepBreathSession.FirstReadableIsFirst` | Sources/deep_breath_ios/deep_breath_ios.swift:172-174 | the selected characteristic is readable and preceded by no readable one; none is selected exactly when the list is absent or has no readable characteristic |
| `DeepBreathSession.BatteryPercent` | Sources/deep_breath_ios/deep_breath_ios.swift:214-226 | the percentage always lies in [0, 100] |
| `DeepBreathSession.BatteryPercentShape` | Sources/deep_breath_ios/deep_breath_ios.swift:216-226 | 0 % at or below 3300 mV, 100 % at or above 4050 mV, and exactly (mV - 3300) * 2/15 % in between |
| `DeepBreathSession.BatteryPercentMonotonic` | Sources/deep_breath_ios/deep_breath_ios.swift:214-226 | the percentage never decreases as the millivolt reading increases |
| `DeepBreathSession.BatteryPercentSamples` | Sources/deep_breath_ios/deep_breath_ios.swift:216-226 | 3675 mV is 50 %; 3700 mV is 53 1/3 % |
| `DeepBreathSession.BatteryMillivolts` | Sources/deep_breath_ios/deep_breath_ios.swift:211-213 | the millivolt reading is the `Int16` whose little-endian encoding is the value's first two bytes |
| `DeepBreathSession.ClampInterval` | Sources/deep_breath_ios/deep_breath_ios.swift:83 | the effective interval is at least 0.06 s and at least the request, and it is one of the two: `max(intervalSeconds, 0.06)` |
| `DeepBreathSession.ClampIntervalSamples` | Sources/deep_breath_ios/deep_breath_ios.swift:78-83 | 0.01 s becomes 0.06 s; 0.2 s and 0.5 s are kept |
| `DeepBreathSession.ElapsedSeconds` | Sources/deep_breath_ios/deep_breath_ios.swift:233-235 | the elapsed time in seconds times 10^9 is the nanosecond difference of the two clock readings; it is non-negative and zero exactly at the start instant |
| `DeepBreathSession.ElapsedSecondsMonotonic` | Sources/deep_breath_ios/deep_breath_ios.swift:233-235 | a later clock reading never gives a smaller elapsed time, so one polling session's timestamps never decrease |
| `DeepBreathSession.DeepBreath.constructor` | Sources/deep_breath_ios/deep_breath_ios.swift:18-40 | a new session has no delegate, an empty device list, no device, no handles, no battery percentage, no timer and no start time |
| `DeepBreathSession.DeepBreath.SetDelegate` | Sources/deep_breath_ios/deep_breath_ios.swift:26 | attaches or detaches the delegate that notifications go to |
| `DeepBreathSession.DeepBreath.ScanForDevices` | Sources/deep_breath_ios/deep_breath_ios.swift:42-45 | empties the device list; no request and no notification |
| `DeepBreathSession.DeepBreath.StopScan` | Sources/deep_breath_ios/deep_breath_ios.swift:47-49 | issues one stop-scan request; no field changes |
| `DeepBreathSession.DeepBreath.Connect` | Sources/deep_breath_ios/deep_breath_ios.swift:51-56 | stops scanning, then holds the device (replacing any previous one) and requests a connection to it |
| `DeepBreathSession.DeepBreath.Disconnect` | Sources/deep_breath_ios/deep_breath_ios.swift:58-70 | afterwards both handles, the battery percentage, the timer, the start time and the device are absent; a cancel request is issued only if a device was held; "no device connected" is always reported |
| `DeepBreathSession.DeepBreath.ReadBattery` | Sources/deep_breath_ios/deep_breath_ios.swift:72-76 | a read of the battery characteristic is requested only when that handle and a device are present; nothing else changes |
| `DeepBreathSession.DeepBreath.ReadData` | Sources/deep_breath_ios/deep_breath_ios.swift:80-95 | the interval defaults to 0.2 s; any previous timer is dropped; a timer with the clamped interval on the data characteristic and a start time are set only if the data handle is present, otherwise polling stays stopped |
| `DeepBreathSession.DeepBreath.StopReadData` | Sources/deep_breath_ios/deep_breath_ios.swift:97-101 | afterwards there is no timer and no start time, whatever the state before; nothing else changes |
| `DeepBreathSession.DeepBreath.TimerFire` | Sources/deep_breath_ios/deep_breath_ios.swift:90-92 | a firing requests a read of the captured characteristic through the connected device; with no timer or no device it requests nothing |
| `DeepBreathSession.DeepBreath.CentralManagerDidUpdateState` | Sources/deep_breath_ios/deep_breath_ios.swift:114-129 | powered on: one unfiltered scan request and the list is kept; any other state: the list is emptied and an empty list is reported |
| `DeepBreathSession.DeepBreath.DidDiscover` | Sources/deep_breath_ios/deep_breath_ios.swift:131-139 | the device is appended without deduplication (the old list is a prefix, the length grows by one) and the whole list is reported |
| `DeepBreathSession.DeepBreath.DidConnect` | Sources/deep_breath_ios/deep_breath_ios.swift:141-147 | requests discovery of all services, then reports the connected peripheral; no field changes |
| `DeepBreathSession.DeepBreath.DidDiscoverServices` | Sources/deep_breath_ios/deep_breath_ios.swift:149-164 | requests characteristic discovery for the first data-UUID service, then the first battery-UUID service, each only if present |
| `DeepBreathSession.DeepBreath.DidDiscoverCharacteristicsFor` | Sources/deep_breath_ios/deep_breath_ios.swift:166-184 | the first readable characteristic becomes the data handle for the data UUID, or the battery handle for the battery UUID with one battery read requested; with no readable characteristic or another UUID the handles stay and nothing is requested |
| `DeepBreathSession.DeepBreath.DidUpdateValueFor` | Sources/deep_breath_ios/deep_breath_ios.swift:186-208 | an error or a missing value changes nothing and reports nothing; a battery value sets only the battery percentage and reports it; a data value changes no field and reports an item only while polling and only if it decodes; any other characteristic is ignored |
| `DeepBreathSession.DeepBreath.ReadBatteryValue` | Sources/deep_breath_ios/deep_breath_ios.swift:210-228 | the stored percentage is the clamped conversion of the first two bytes, and the stored value is what is reported |
| `DeepBreathSession.DeepBreath.DataItemNotification` | Sources/deep_breath_ios/deep_breath_ios.swift:231-249 | at most one notification; there is one exactly when a delegate is attached, a start time is kept and the value has at least 8 bytes; it carries the item whose encoding is the first 8 bytes, timestamped with the seconds since the start |
| `DeepBreathSession.DeepBreath.ReadDataValue` | Sources/deep_breath_ios/deep_breath_ios.swift:230-250 | without a start time nothing is reported; otherwise the decoded item, timestamped with the seconds since the start, is reported if the frame decodes |
| `Scenarios.DisconnectTwice` | Sources/deep_breath_ios/deep_breath_ios.swift:58-70 | a second disconnect leaves the same fields as the first (the delegate and device list untouched) and adds only another "no device connected" report |
| `Scenarios.BatteryOnConnect` | Sources/deep_breath_ios/deep_breath_ios.swift:166-228 | after connecting and discovering the battery service, one battery read is requested; a 3675 mV answer stores and reports 50 % |
| `Scenarios.DataHandleOnConnect` | Sources/deep_breath_ios/deep_breath_ios.swift:166-177 | after connecting, discovery of the data service skips a non-readable characteristic and stores the first readable one as the data handle; only the stop-scan and connect requests are made |
| `Scenarios.PollOnce` | Sources/deep_breath_ios/deep_breath_ios.swift:80-95 | with a device and the data handle present, polling with the default interval runs a 0.2 s timer on the data characteristic; a firing requests exactly one data read, and the sample frame received at the start instant is reported as the item (10, -5, 0, 3) at 0 s |

## Left out

- The CoreBluetooth stack itself (radio, discovery, connection, attribute reads) is not modelled. Its requests appear in the event log, and its callbacks are the `Did…` methods, which may be invoked in any order.
- `isBluetoothAvailable` (authorization and OS-version query) is not modelled: it is a platform query, and `scanForDevices` discards its result.
- The `DispatchSourceTimer` on a global queue is not modelled as concurrent code. The timer is a field, and each firing is the separate `TimerFire` step. Races between the timer queue and the callback queue are not modelled.
- Wall-clock time is the parameter `now`. The immediate first firing scheduled by `readData` is not a separate event: it is one `TimerFire`.
- `Double` arithmetic is modelled over `real`. IEEE rounding and NaN are not captured.
- The `@MainActor` shared singleton and the `print` diagnostics are not modelled. Setting `device.delegate = self` in `connect` is not modelled: the callbacks are simply the `Did…` methods.
- The error argument of the service and characteristic discovery callbacks is accepted and ignored, as in the source.
- The demo application (`example/DeepBreath-Demo-UIKit/DeepBreath-Demo-UIKit/ContentView.swift`) is not part of this model. It is SwiftUI presentation plus a delegate adapter.
