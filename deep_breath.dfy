/**
 * The `DeepBreath` session object: scan accumulation, the connect/disconnect
 * lifecycle, service and characteristic selection, battery and telemetry
 * read completions, and the polling timer.
 *
 * Peripherals, services and characteristics are abstract identifiers. The
 * requests the object makes of the Bluetooth stack and the notifications it
 * sends to its delegate are appended to a ghost event log, so that contracts
 * can say exactly what was requested or reported.
 */
module DeepBreathSession {
  import opened Wrappers
  import opened TrainingData

  /** Service UUIDs, as `uuidString` renders them. */
  const ServiceIdData: string := "9FDD0001-FEC8-42A6-B569-EC3EC15505F4"
  const ServiceIdBattery: string := "D6240001-E814-4993-A135-7845BC91D225"

  /** Battery voltage at 0% and at 100%. */
  const MinBatteryVolt: real := 3.3
  const MaxBatteryVolt: real := 4.05

  /** Smallest polling interval, and the recommended default, in seconds. */
  const MinPollInterval: real := 0.06
  const DefaultPollInterval: real := 0.2

  /** Nanoseconds per second, for the uptime clock. */
  const NanosPerSecond: real := 1_000_000_000.0

  datatype Peripheral = Peripheral(id: nat, name: string)

  /** A characteristic; `readable` is whether its properties contain `.read`. */
  datatype Characteristic = Characteristic(id: nat, readable: bool)

  /** A service; `characteristics` is absent until they have been discovered. */
  datatype Service = Service(uuid: string, characteristics: Option<seq<Characteristic>>)

  datatype ManagerState = PoweredOn | PoweredOff | Resetting | Unauthorized | Unsupported | Unknown

  /** A running repeating timer: its interval and the characteristic its handler reads. */
  datatype Timer = Timer(interval: real, characteristic: Characteristic)

  datatype Event =
    // requests to the Bluetooth stack
    | ScanForPeripherals
    | StopScan
    | ConnectRequest(device: Peripheral)
    | CancelConnection(device: Peripheral)
    | DiscoverServices(device: Peripheral)
    | DiscoverCharacteristics(device: Peripheral, service: Service)
    | ReadValue(device: Peripheral, characteristic: Characteristic)
    // notifications to the delegate
    | DevicesUpdated(devices: seq<Peripheral>)
    | ConnectionChanged(connected: Option<Peripheral>)
    | BatteryUpdated(percent: Option<real>)
    | DataRead(item: TrainingDataItem)

  /** Index of the first element of `s` satisfying `p`, as `first(where:)` finds it. */
  function FirstIndex<T>(s: seq<T>, p: T -> bool): (r: Option<nat>)
    ensures r.None? <==> forall i :: 0 <= i < |s| ==> !p(s[i])
    ensures r.Some? ==> r.value < |s| && p(s[r.value])
    ensures r.Some? ==> forall j :: 0 <= j < r.value ==> !p(s[j])
  {
    if |s| == 0 then None
    else if p(s[0]) then Some(0)
    else match FirstIndex(s[1..], p)
      case None => None
      case Some(k) => Some(k + 1)
  }

  /** `s?.first(where: p)`: nothing when the sequence itself is absent. */
  function FirstWhere<T>(s: Option<seq<T>>, p: T -> bool): (r: Option<T>)
    ensures r.None? <==> (s.None? || forall i :: 0 <= i < |s.value| ==> !p(s.value[i]))
    ensures r.Some? ==> s.Some? && exists k :: (0 <= k < |s.value| && s.value[k] == r.value
      && p(r.value) && forall j :: 0 <= j < k ==> !p(s.value[j]))
  {
    if s.None? then None
    else match FirstIndex(s.value, p)
      case None => None
      case Some(k) => Some(s.value[k])
  }

  /** The first service with the given UUID. */
  function FindService(services: Option<seq<Service>>, uuid: string): (r: Option<Service>)
    ensures r.None? <==> (services.None? || forall i :: 0 <= i < |services.value| ==> services.value[i].uuid != uuid)
    ensures r.Some? ==> r.value.uuid == uuid && r.value in services.value
    ensures r.Some? ==> exists k :: (0 <= k < |services.value| && services.value[k] == r.value
      && forall j :: 0 <= j < k ==> services.value[j].uuid != uuid)
  {
    FirstWhere(services, (s: Service) => s.uuid == uuid)
  }

  /** The first characteristic that advertises the read property. */
  function FirstReadable(characteristics: Option<seq<Characteristic>>): (r: Option<Characteristic>)
    ensures r.Some? ==> characteristics.Some? && r.value.readable && r.value in characteristics.value
  {
    FirstWhere(characteristics, (c: Characteristic) => c.readable)
  }

  /** The characteristic chosen from a service is one of its readable characteristics, preceded by no readable one. */
  lemma FirstReadableIsFirst(characteristics: Option<seq<Characteristic>>)
    ensures var r := FirstReadable(characteristics);
      r.None? <==> (characteristics.None? || forall c :: c in characteristics.value ==> !c.readable)
    ensures var r := FirstReadable(characteristics);
      r.Some? ==> exists k :: (0 <= k < |characteristics.value| && characteristics.value[k] == r.value
        && r.value.readable && forall j :: 0 <= j < k ==> !characteristics.value[j].readable)
  {
    if characteristics.Some? {
      var cs := characteristics.value;
      var p := (c: Characteristic) => c.readable;
      var k := FirstIndex(cs, p);
      if k.Some? {
        assert cs[k.value] == FirstReadable(characteristics).value;
      } else {
        forall c | c in cs ensures !c.readable {
          var i :| 0 <= i < |cs| && cs[i] == c;
          assert !p(cs[i]);
        }
      }
    }
  }

  /**
   * The battery reading in percent: the millivolt reading in volts, mapped
   * linearly from [3.3 V, 4.05 V] onto [0, 100] and clamped to that range.
   */
  function BatteryPercent(millivolts: Int16): (p: real)
    ensures 0.0 <= p <= 100.0
  {
    var volts := millivolts as real / 1000.0;
    var linear := (100.0 / (MaxBatteryVolt - MinBatteryVolt)) * (volts - MinBatteryVolt);
    var atLeastZero := if linear < 0.0 then 0.0 else linear;
    if atLeastZero > 100.0 then 100.0 else atLeastZero
  }

  /** Empty at or below 3.3 V, full at or above 4.05 V, and 2/15 % per millivolt in between. */
  lemma BatteryPercentShape(millivolts: Int16)
    ensures millivolts <= 3300 ==> BatteryPercent(millivolts) == 0.0
    ensures millivolts >= 4050 ==> BatteryPercent(millivolts) == 100.0
    ensures 3300 <= millivolts <= 4050 ==>
      BatteryPercent(millivolts) == (millivolts - 3300) as real * 2.0 / 15.0
  {
    var volts := millivolts as real / 1000.0;
    assert 100.0 / (MaxBatteryVolt - MinBatteryVolt) == 400.0 / 3.0;
    assert (400.0 / 3.0) * (volts - MinBatteryVolt) == (millivolts - 3300) as real * 2.0 / 15.0;
  }

  /** A higher millivolt reading never gives a lower percentage. */
  lemma BatteryPercentMonotonic(a: Int16, b: Int16)
    requires a <= b
    ensures BatteryPercent(a) <= BatteryPercent(b)
  {
    BatteryPercentShape(a);
    BatteryPercentShape(b);
  }

  /** 3.675 V is half charged; 3.7 V is 53 1/3 %. */
  lemma BatteryPercentSamples()
    ensures BatteryPercent(3675) == 50.0
    ensures BatteryPercent(3700) == 160.0 / 3.0
  {
    BatteryPercentShape(3675);
    BatteryPercentShape(3700);
  }

  /** The millivolt reading of a battery value: the `Int16` in its first two bytes. */
  function BatteryMillivolts(data: seq<Byte>): (millivolts: Int16)
    requires |data| >= 2
    ensures Int16ToLE(millivolts) == data[..2]
  {
    LoadInt16(data, 0)
  }

  /** `max(intervalSeconds, 0.06)`: the requested interval, raised to the minimum. */
  function ClampInterval(intervalSeconds: real): (r: real)
    ensures r >= MinPollInterval && r >= intervalSeconds
    ensures r == intervalSeconds || r == MinPollInterval
  {
    if intervalSeconds < MinPollInterval then MinPollInterval else intervalSeconds
  }

  /** An interval below the minimum is raised to 0.06 s; 0.2 s and 0.5 s are kept. */
  lemma ClampIntervalSamples()
    ensures ClampInterval(0.01) == MinPollInterval
    ensures ClampInterval(DefaultPollInterval) == DefaultPollInterval
    ensures ClampInterval(0.5) == 0.5
  {
  }

  /** Seconds between two readings of the uptime clock, in nanoseconds. */
  function ElapsedSeconds(start: nat, now: nat): (s: real)
    requires start <= now
    ensures s * NanosPerSecond == (now - start) as real
    ensures s >= 0.0
    ensures s == 0.0 <==> now == start
  {
    (now - start) as real / NanosPerSecond
  }

  /** A later clock reading never gives a smaller elapsed time, so one polling session's items carry non-decreasing timestamps. */
  lemma ElapsedSecondsMonotonic(start: nat, a: nat, b: nat)
    requires start <= a <= b
    ensures ElapsedSeconds(start, a) <= ElapsedSeconds(start, b)
  {
  }

  class DeepBreath {
    /** Whether a delegate is set; notifications are delivered only then. */
    var delegateAttached: bool
    var deviceList: seq<Peripheral>
    var connectedDevice: Option<Peripheral>
    var characteristicData: Option<Characteristic>
    var characteristicBattery: Option<Characteristic>
    var batteryPercent: Option<real>
    /** Uptime, in nanoseconds, at which polling started. */
    var dataStartTime: Option<nat>
    var dataTimer: Option<Timer>
    /** Requests made and notifications sent, oldest first. */
    ghost var events: seq<Event>

    /** The battery percentage is in range; a timer runs exactly when a start time is kept, and never faster than the minimum interval. */
    ghost predicate Valid()
      reads this
    {
      && (batteryPercent.Some? ==> 0.0 <= batteryPercent.value <= 100.0)
      && (dataTimer.Some? <==> dataStartTime.Some?)
      && (dataTimer.Some? ==> dataTimer.value.interval >= MinPollInterval)
    }

    /** What `delegate?.…(e)` delivers. */
    ghost function Notify(e: Event): seq<Event>
      reads this
    {
      if delegateAttached then [e] else []
    }

    /** The read request `connectedDevice?.readValue(for: c)` issues. */
    ghost function ReadRequest(c: Characteristic): seq<Event>
      reads this
    {
      if connectedDevice.Some? then [ReadValue(connectedDevice.value, c)] else []
    }

    constructor ()
      ensures Valid()
      ensures !delegateAttached && deviceList == [] && connectedDevice == None
      ensures characteristicData == None && characteristicBattery == None && batteryPercent == None
      ensures dataStartTime == None && dataTimer == None && events == []
    {
      delegateAttached := false;
      deviceList := [];
      connectedDevice := None;
      characteristicData := None;
      characteristicBattery := None;
      batteryPercent := None;
      dataStartTime := None;
      dataTimer := None;
      events := [];
    }

    method SetDelegate(attached: bool)
      requires Valid()
      modifies this`delegateAttached
      ensures Valid() && delegateAttached == attached
    {
      delegateAttached := attached;
    }

    /** Empties the device list. The availability query's answer is discarded: no scan is requested here. */
    method ScanForDevices()
      requires Valid()
      modifies this`deviceList
      ensures Valid() && deviceList == []
    {
      deviceList := [];
    }

    method StopScan()
      requires Valid()
      modifies this`events
      ensures Valid()
      ensures events == old(events) + [Event.StopScan]
    {
      events := events + [Event.StopScan];
    }

    /** Stops scanning and takes `device` as the connected device, replacing any previous one. */
    method Connect(device: Peripheral)
      requires Valid()
      modifies this`connectedDevice, this`events
      ensures Valid() && connectedDevice == Some(device)
      ensures events == old(events) + [Event.StopScan, ConnectRequest(device)]
    {
      StopScan();
      connectedDevice := Some(device);
      events := events + [ConnectRequest(device)];
    }

    /**
     * Tears the session down: no handles, no battery percentage, no timer,
     * no start time, no device. The connection is cancelled only if a device
     * was held; the delegate always hears that no device is connected.
     */
    method Disconnect()
      requires Valid()
      modifies this`characteristicBattery, this`characteristicData, this`batteryPercent
      modifies this`dataTimer, this`dataStartTime, this`connectedDevice, this`events
      ensures Valid()
      ensures characteristicBattery == None && characteristicData == None && batteryPercent == None
      ensures dataTimer == None && dataStartTime == None && connectedDevice == None
      ensures events == old(events)
        + (if old(connectedDevice).Some? then [CancelConnection(old(connectedDevice).value)] else [])
        + Notify(ConnectionChanged(None))
    {
      characteristicBattery := None;
      characteristicData := None;
      batteryPercent := None;
      dataTimer := None;
      dataStartTime := None;
      if connectedDevice.Some? {
        events := events + [CancelConnection(connectedDevice.value)];
        connectedDevice := None;
      }
      events := events + Notify(ConnectionChanged(None));
    }

    /** Requests a battery read only when the battery characteristic (and a device) is present. */
    method ReadBattery()
      requires Valid()
      modifies this`events
      ensures Valid()
      ensures events == old(events)
        + (if characteristicBattery.Some? then ReadRequest(characteristicBattery.value) else [])
    {
      if characteristicBattery.Some? {
        events := events + ReadRequest(characteristicBattery.value);
      }
    }

    /**
     * Starts polling: any previous timer is stopped first; a new timer with
     * the clamped interval and a start time are set only when the data
     * characteristic is present.
     */
    method ReadData(now: nat, intervalSeconds: real := DefaultPollInterval)
      requires Valid()
      modifies this`dataTimer, this`dataStartTime
      ensures Valid()
      ensures characteristicData.Some? ==>
        && dataTimer == Some(Timer(ClampInterval(intervalSeconds), characteristicData.value))
        && dataStartTime == Some(now)
      ensures characteristicData.None? ==> dataTimer == None && dataStartTime == None
    {
      StopReadData();
      var clampedInterval := ClampInterval(intervalSeconds);
      if characteristicData.Some? {
        dataStartTime := Some(now);
        dataTimer := Some(Timer(clampedInterval, characteristicData.value));
      }
    }

    method StopReadData()
      requires Valid()
      modifies this`dataTimer, this`dataStartTime
      ensures Valid() && dataTimer == None && dataStartTime == None
    {
      dataTimer := None;
      dataStartTime := None;
    }

    /** One firing of the polling timer: a read of the characteristic it captured, through the current device. */
    method TimerFire()
      requires Valid()
      modifies this`events
      ensures Valid()
      ensures events == old(events)
        + (if dataTimer.Some? then ReadRequest(dataTimer.value.characteristic) else [])
    {
      if dataTimer.Some? {
        events := events + ReadRequest(dataTimer.value.characteristic);
      }
    }

    /** Powered on: request an unfiltered scan. Any other state: empty the list and report it empty. */
    method CentralManagerDidUpdateState(state: ManagerState)
      requires Valid()
      modifies this`deviceList, this`events
      ensures Valid()
      ensures state == PoweredOn ==>
        deviceList == old(deviceList) && events == old(events) + [ScanForPeripherals]
      ensures state != PoweredOn ==>
        deviceList == [] && events == old(events) + Notify(DevicesUpdated([]))
    {
      if state == PoweredOn {
        events := events + [ScanForPeripherals];
      } else {
        deviceList := [];
        events := events + Notify(DevicesUpdated(deviceList));
      }
    }

    /** Appends the discovered peripheral, duplicates included, and reports the whole list. */
    method DidDiscover(peripheral: Peripheral)
      requires Valid()
      modifies this`deviceList, this`events
      ensures Valid()
      ensures deviceList == old(deviceList) + [peripheral]
      ensures events == old(events) + Notify(DevicesUpdated(deviceList))
    {
      deviceList := deviceList + [peripheral];
      events := events + Notify(DevicesUpdated(deviceList));
    }

    /** Requests discovery of all services and reports the connected peripheral; the fields stay as they are. */
    method DidConnect(peripheral: Peripheral)
      requires Valid()
      modifies this`events
      ensures Valid()
      ensures events == old(events) + [DiscoverServices(peripheral)] + Notify(ConnectionChanged(Some(peripheral)))
    {
      events := events + [DiscoverServices(peripheral)];
      events := events + Notify(ConnectionChanged(Some(peripheral)));
    }

    /** Requests characteristic discovery for the first data service, then the first battery service, that exist. */
    method DidDiscoverServices(peripheral: Peripheral, services: Option<seq<Service>>, error: bool)
      requires Valid()
      modifies this`events
      ensures Valid()
      ensures var data, battery := FindService(services, ServiceIdData), FindService(services, ServiceIdBattery);
        events == old(events)
          + (if data.Some? then [DiscoverCharacteristics(peripheral, data.value)] else [])
          + (if battery.Some? then [DiscoverCharacteristics(peripheral, battery.value)] else [])
    {
      var servicePressure := FindService(services, ServiceIdData);
      if servicePressure.Some? {
        events := events + [DiscoverCharacteristics(peripheral, servicePressure.value)];
      }
      var serviceBattery := FindService(services, ServiceIdBattery);
      if serviceBattery.Some? {
        events := events + [DiscoverCharacteristics(peripheral, serviceBattery.value)];
      }
    }

    /**
     * Stores the service's first readable characteristic as the data handle
     * or as the battery handle (then requesting one battery read), by the
     * service's UUID; otherwise the handles are unchanged.
     */
    method DidDiscoverCharacteristicsFor(peripheral: Peripheral, service: Service, error: bool)
      requires Valid()
      modifies this`characteristicData, this`characteristicBattery, this`events
      ensures Valid()
      ensures var c := FirstReadable(service.characteristics);
        characteristicData == if c.Some? && service.uuid == ServiceIdData then c else old(characteristicData)
      ensures var c := FirstReadable(service.characteristics);
        characteristicBattery == if c.Some? && service.uuid == ServiceIdBattery then c else old(characteristicBattery)
      ensures var c := FirstReadable(service.characteristics);
        events == old(events) + if c.Some? && service.uuid == ServiceIdBattery then ReadRequest(c.value) else []
    {
      var characteristic := FirstReadable(service.characteristics);
      if characteristic.Some? {
        if service.uuid == ServiceIdData {
          characteristicData := characteristic;
        }
        if service.uuid == ServiceIdBattery {
          characteristicBattery := characteristic;
          ReadBattery();
        }
      }
    }

    /**
     * A read completion. An error or a missing value is dropped; a value of
     * the battery characteristic goes to the battery conversion, one of the
     * data characteristic to the frame decoder; any other is ignored.
     * `now` is the uptime clock, which never runs behind a start time taken from it.
     */
    method DidUpdateValueFor(peripheral: Peripheral, characteristic: Characteristic,
                             value: Option<seq<Byte>>, error: bool, now: nat)
      requires Valid()
      requires !error && value.Some? && Some(characteristic) == characteristicBattery ==> |value.value| >= 2
      requires dataStartTime.Some? ==> dataStartTime.value <= now
      modifies this`batteryPercent, this`events
      ensures Valid()
      ensures error || value.None? ==> batteryPercent == old(batteryPercent) && events == old(events)
      ensures !error && value.Some? && Some(characteristic) == characteristicBattery ==>
        && batteryPercent == Some(BatteryPercent(BatteryMillivolts(value.value)))
        && events == old(events) + Notify(BatteryUpdated(batteryPercent))
      ensures !error && value.Some? && Some(characteristic) != characteristicBattery ==>
        batteryPercent == old(batteryPercent)
      ensures (!error && value.Some? && Some(characteristic) != characteristicBattery
               && Some(characteristic) == characteristicData) ==>
        events == old(events) + DataItemNotification(value.value, now)
      ensures (!error && value.Some? && Some(characteristic) != characteristicBattery
               && Some(characteristic) != characteristicData) ==>
        events == old(events)
    {
      if error {
        return;
      }
      if value.None? {
        return;
      }
      var data := value.value;
      if Some(characteristic) == characteristicBattery {
        ReadBatteryValue(data);
      } else if Some(characteristic) == characteristicData {
        ReadDataValue(data, now);
      }
    }

    /** Stores the battery percentage of a battery value and reports it. */
    method ReadBatteryValue(data: seq<Byte>)
      requires Valid()
      requires |data| >= 2
      modifies this`batteryPercent, this`events
      ensures Valid()
      ensures batteryPercent == Some(BatteryPercent(BatteryMillivolts(data)))
      ensures events == old(events) + Notify(BatteryUpdated(batteryPercent))
    {
      var batteryMillivolt := BatteryMillivolts(data);
      batteryPercent := Some(BatteryPercent(batteryMillivolt));
      events := events + Notify(BatteryUpdated(batteryPercent));
    }

    /** The notification a data value produces: an item only while polling and only if the frame decodes. */
    ghost function DataItemNotification(data: seq<Byte>, now: nat): (notified: seq<Event>)
      reads this
      requires dataStartTime.Some? ==> dataStartTime.value <= now
      ensures |notified| <= 1
      ensures notified != [] <==> delegateAttached && dataStartTime.Some? && |data| >= FrameLength
      ensures notified != [] ==> (notified[0].DataRead?
        && EncodeFrame(notified[0].item) == data[..FrameLength]
        && notified[0].item.elapsedSeconds == ElapsedSeconds(dataStartTime.value, now))
    {
      if dataStartTime.None? then []
      else match DecodeFrame(data, ElapsedSeconds(dataStartTime.value, now))
        case None => []
        case Some(item) => Notify(DataRead(item))
    }

    /** Decodes a data value timestamped from the polling start and reports the item; nothing else changes. */
    method ReadDataValue(data: seq<Byte>, now: nat)
      requires Valid()
      requires dataStartTime.Some? ==> dataStartTime.value <= now
      modifies this`events
      ensures Valid()
      ensures events == old(events) + DataItemNotification(data, now)
    {
      if dataStartTime.None? {
        return;
      }
      var elapsedSeconds := ElapsedSeconds(dataStartTime.value, now);
      var item := DecodeFrame(data, elapsedSeconds);
      if item.Some? {
        events := events + Notify(DataRead(item.value));
      }
    }
  }
}
