/**
 * Compositions of the session's operations: disconnecting twice, a battery
 * reading after discovery, resolving the data characteristic, and one polling
 * round trip on a session that holds a device and the data handle.
 */
module Scenarios {
  import opened Wrappers
  import opened TrainingData
  import opened DeepBreathSession

  /**
   * A second disconnect leaves the same state as the first and only repeats
   * the notification: there is no device left to cancel.
   */
  method DisconnectTwice(session: DeepBreath)
    requires session.Valid()
    modifies session
    ensures session.Valid()
    ensures session.characteristicBattery == None && session.characteristicData == None
    ensures session.batteryPercent == None && session.dataTimer == None
    ensures session.dataStartTime == None && session.connectedDevice == None
    ensures session.deviceList == old(session.deviceList)
    ensures session.delegateAttached == old(session.delegateAttached)
    ensures session.events == old(session.events)
      + (if old(session.connectedDevice).Some? then [CancelConnection(old(session.connectedDevice).value)] else [])
      + session.Notify(ConnectionChanged(None)) + session.Notify(ConnectionChanged(None))
  {
    session.Disconnect();
    session.Disconnect();
  }

  /**
   * Connect and resolve the battery characteristic: one battery read is
   * requested through the connected device; a 3675 mV answer gives 50%.
   */
  method BatteryOnConnect(device: Peripheral, now: nat)
    returns (percent: Option<real>, ghost log: seq<Event>)
    ensures percent == Some(50.0)
    ensures log == [Event.StopScan, ConnectRequest(device), ReadValue(device, Characteristic(2, true)),
                    BatteryUpdated(Some(50.0))]
  {
    var batteryCharacteristic := Characteristic(2, true);
    var batteryService := Service(ServiceIdBattery, Some([Characteristic(3, false), batteryCharacteristic]));
    assert ServiceIdData[0] != ServiceIdBattery[0];

    var session := new DeepBreath();
    session.SetDelegate(true);
    session.Connect(device);

    assert FirstIndex(batteryService.characteristics.value, (c: Characteristic) => c.readable) == Some(1);
    session.DidDiscoverCharacteristicsFor(device, batteryService, false);
    assert session.events[|session.events| - 1] == ReadValue(device, batteryCharacteristic);

    assert BatteryPercent(BatteryMillivolts([0x5B, 0x0E])) == 50.0 by {
      BatteryPercentSamples();
      assert BatteryMillivolts([0x5B, 0x0E]) == 3675;
    }
    session.DidUpdateValueFor(device, batteryCharacteristic, Some([0x5B, 0x0E]), false, now);
    percent := session.batteryPercent;
    log := session.events;
  }

  /**
   * Connect and resolve the data characteristic: the first readable
   * characteristic of the data service becomes the data handle, and no
   * request is made for it yet.
   */
  method DataHandleOnConnect(device: Peripheral)
    returns (handle: Option<Characteristic>, ghost log: seq<Event>)
    ensures handle == Some(Characteristic(1, true))
    ensures log == [Event.StopScan, ConnectRequest(device)]
  {
    var dataService := Service(ServiceIdData, Some([Characteristic(0, false), Characteristic(1, true)]));
    assert ServiceIdData[0] != ServiceIdBattery[0];
    var session := new DeepBreath();
    session.Connect(device);
    assert FirstIndex(dataService.characteristics.value, (c: Characteristic) => c.readable) == Some(1);
    session.DidDiscoverCharacteristicsFor(device, dataService, false);
    handle := session.characteristicData;
    log := session.events;
  }

  /**
   * With a device and the data handle resolved, start polling at the default
   * interval: the timer runs at 0.2 s; a firing requests a read of the data
   * characteristic; the frame 10,0, 0xFB,0xFF, 0,0, 3,0 received at the start
   * instant is reported as pressure 10, gyro (-5, 0, 3) at 0 seconds.
   */
  method PollOnce(session: DeepBreath, device: Peripheral, dataCharacteristic: Characteristic, now: nat)
    requires session.Valid() && session.delegateAttached
    requires session.connectedDevice == Some(device)
    requires session.characteristicData == Some(dataCharacteristic)
    requires session.characteristicBattery != Some(dataCharacteristic)
    modifies session
    ensures session.dataTimer == Some(Timer(DefaultPollInterval, dataCharacteristic))
    ensures session.events == old(session.events)
      + [ReadValue(device, dataCharacteristic), DataRead(TrainingDataItem(10, -5, 0, 3, 0.0))]
  {
    session.ReadData(now);
    session.TimerFire();

    var frame: seq<Byte> := [10, 0, 0xFB, 0xFF, 0, 0, 3, 0];
    assert session.DataItemNotification(frame, now) == [DataRead(TrainingDataItem(10, -5, 0, 3, 0.0))] by {
      DecodeSampleFrame();
      assert ElapsedSeconds(now, now) == 0.0;
    }
    session.DidUpdateValueFor(device, dataCharacteristic, Some(frame), false, now);
  }
}
