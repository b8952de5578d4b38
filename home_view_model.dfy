/**
 * `HomeViewModel`: the list of synchronised devices on the home screen. It asks the core service
 * for the bonded devices, forwards the user's connect, sync and remove requests, and turns the
 * core service's connection callbacks into list edits.
 */
module Home {
  import opened Common
  import opened Strings
  import opened Parcels
  import ServiceBinding
  import CoreService

  /** `SyncItemResult`: an edit of the device list. */
  datatype SyncItemResult =
    | LoadingDevices
    | RefreshSyncDevice(devices: seq<BondedBleDevice>)
    | AddSyncDevice(devices: seq<BondedBleDevice>)
    | DisconnectSyncDevice(device: BondedBleDevice)
    | RemoveSyncDevice(device: BondedBleDevice)

  /** The key of `sortedBy { it.device.name }`. */
  function DeviceName(b: BondedBleDevice): string {
    b.device.name
  }

  /** `sortedBy { it.device.name }` */
  function ByName(devices: seq<BondedBleDevice>): seq<BondedBleDevice> {
    SortBy(devices, DeviceName)
  }

  /** Newly connected devices, each marked synced and connected. */
  function MarkConnected(devices: seq<BleDevice>): seq<BondedBleDevice> {
    seq(|devices|, i requires 0 <= i < |devices| => BondedBleDevice(devices[i], true, true))
  }

  /** `BleCallback.onChanged`: the list edit a callback state leads to, if any. */
  function ResultFor(state: ServiceBinding.BleCallbackState): Option<SyncItemResult> {
    match state
    case DeviceConnected(devices) => Some(AddSyncDevice(ByName(MarkConnected(devices))))
    case DeviceDisconnected(device) => Some(DisconnectSyncDevice(BondedBleDevice(device, true, false)))
    case DeviceRemoved(device) => Some(RemoveSyncDevice(BondedBleDevice(device, false, false)))
    case _ => None
  }

  /**
   * A connection adds exactly the connected devices, each once, all marked synced and
   * connected, in name order.
   */
  lemma {:induction false} ConnectedDevicesAdded(devices: seq<BleDevice>)
    ensures ResultFor(ServiceBinding.DeviceConnected(devices)).Some?
    ensures var r := ResultFor(ServiceBinding.DeviceConnected(devices)).value;
      && r.AddSyncDevice?
      && SortedBy(r.devices, DeviceName)
      && multiset(r.devices) == multiset(MarkConnected(devices))
      && (forall b :: b in r.devices ==> b.synced && b.connected && b.device in devices)
      && (forall d :: d in devices ==> BondedBleDevice(d, true, true) in r.devices)
  {
    var marked := MarkConnected(devices);
    var r := ByName(marked);
    SortBySortedPermutation(marked, DeviceName);
    forall b | b in r
      ensures b.synced && b.connected && b.device in devices
    {
      assert b in multiset(marked);
      var i :| 0 <= i < |marked| && marked[i] == b;
    }
    forall d | d in devices
      ensures BondedBleDevice(d, true, true) in r
    {
      var i :| 0 <= i < |devices| && devices[i] == d;
      assert marked[i] == BondedBleDevice(d, true, true);
      assert BondedBleDevice(d, true, true) in multiset(marked);
    }
  }

  /** Only connection, disconnection and removal edit the list. */
  lemma ResultForEdits(state: ServiceBinding.BleCallbackState)
    ensures ResultFor(state).Some? <==> state.DeviceConnected? || state.DeviceDisconnected? || state.DeviceRemoved?
    ensures state.DeviceDisconnected? ==>
      ResultFor(state) == Some(DisconnectSyncDevice(BondedBleDevice(state.device, true, false)))
    ensures state.DeviceRemoved? ==>
      ResultFor(state) == Some(RemoveSyncDevice(BondedBleDevice(state.device, false, false)))
  {
  }

  class HomeViewModel {
    const base: ServiceBinding.BaseViewModel
    /** The value of `devicesResult`. */
    var devices: SyncItemResult
    /** Whether `BleCallback` still observes `bleCallback`. */
    var observing: bool

    /** `init`: an empty list; observing the initial callback state `None` changes nothing. */
    constructor()
      ensures fresh(base) && devices == AddSyncDevice([]) && observing
      ensures base.serviceState == ServiceBinding.Disconnected && base.pendingActions == []
      ensures base.observing && base.trace == [ServiceBinding.BindCoreService]
      ensures base.bleCallback == ServiceBinding.NoEvent
    {
      base := new ServiceBinding.BaseViewModel();
      devices := AddSyncDevice([]);
      observing := true;
    }

    /**
     * `refresh`: shows loading, then, once the service answers `bonded`, the bonded devices in
     * name order; while disconnected the request waits among the pending actions.
     */
    method Refresh(bonded: seq<BondedBleDevice>)
      modifies this, base
      ensures base.serviceState.Connected? ==>
        && devices == RefreshSyncDevice(ByName(bonded)) && base.pendingActions == old(base.pendingActions)
        && base.trace == old(base.trace) + [ServiceBinding.Call(base.serviceState.service, ServiceBinding.GetBondedDevices)]
      ensures base.serviceState.Disconnected? ==>
        && devices == LoadingDevices && base.pendingActions == old(base.pendingActions) + [ServiceBinding.GetBondedDevices]
        && base.trace == old(base.trace)
      ensures base.serviceState == old(base.serviceState) && observing == old(observing)
      ensures base.bleCallback == old(base.bleCallback) && base.observing == old(base.observing)
    {
      devices := LoadingDevices;
      var ran := base.RunOnCoreBleService(true, ServiceBinding.GetBondedDevices);
      if ran != [] {
        devices := RefreshSyncDevice(ByName(bonded));
      }
    }

    /** `setDeviceSyncState`: forwarded unchanged. */
    method SetDeviceSyncState(device: BleDevice, on: bool)
      modifies base
      ensures base.serviceState.Connected? ==>
        && base.trace == old(base.trace) + [ServiceBinding.Call(base.serviceState.service, ServiceBinding.SetSyncState(device, on))]
        && base.pendingActions == old(base.pendingActions)
      ensures base.serviceState.Disconnected? ==>
        base.pendingActions == old(base.pendingActions) + [ServiceBinding.SetSyncState(device, on)] && base.trace == old(base.trace)
      ensures base.serviceState == old(base.serviceState)
      ensures base.bleCallback == old(base.bleCallback) && base.observing == old(base.observing)
    {
      var _ := base.RunOnCoreBleService(true, ServiceBinding.SetSyncState(device, on));
    }

    /** `removeDevice`: forwarded unchanged. */
    method RemoveDevice(device: BleDevice)
      modifies base
      ensures base.serviceState.Connected? ==>
        && base.trace == old(base.trace) + [ServiceBinding.Call(base.serviceState.service, ServiceBinding.RemoveSyncDevice(device))]
        && base.pendingActions == old(base.pendingActions)
      ensures base.serviceState.Disconnected? ==>
        base.pendingActions == old(base.pendingActions) + [ServiceBinding.RemoveSyncDevice(device)] && base.trace == old(base.trace)
      ensures base.serviceState == old(base.serviceState)
      ensures base.bleCallback == old(base.bleCallback) && base.observing == old(base.observing)
    {
      var _ := base.RunOnCoreBleService(true, ServiceBinding.RemoveSyncDevice(device));
    }

    /** `setDeviceConnectState`: connects when on, disconnects when off. */
    method SetDeviceConnectState(device: BleDevice, on: bool)
      modifies base
      ensures var call := if on then ServiceBinding.ConnectDevice(device) else ServiceBinding.DisconnectDevice(device);
        && (base.serviceState.Connected? ==>
              && base.trace == old(base.trace) + [ServiceBinding.Call(base.serviceState.service, call)]
              && base.pendingActions == old(base.pendingActions))
        && (base.serviceState.Disconnected? ==>
              base.pendingActions == old(base.pendingActions) + [call] && base.trace == old(base.trace))
      ensures base.serviceState == old(base.serviceState)
      ensures base.bleCallback == old(base.bleCallback) && base.observing == old(base.observing)
    {
      var call := if on then ServiceBinding.ConnectDevice(device) else ServiceBinding.DisconnectDevice(device);
      var _ := base.RunOnCoreBleService(true, call);
    }

    /** A listener call reaches `BaseViewModel`, whose posted state `BleCallback` turns into a list edit. */
    method OnListenerEvent(event: CoreService.ListenerEvent)
      modifies base, this
      ensures base.bleCallback == ServiceBinding.CallbackState(event)
      ensures observing && ResultFor(base.bleCallback).Some? ==> devices == ResultFor(base.bleCallback).value
      ensures !(observing && ResultFor(base.bleCallback).Some?) ==> devices == old(devices)
      ensures observing == old(observing)
      ensures base.serviceState == old(base.serviceState) && base.pendingActions == old(base.pendingActions)
      ensures base.trace == old(base.trace) && base.observing == old(base.observing)
    {
      base.OnListenerEvent(event);
      if observing {
        var result := ResultFor(base.bleCallback);
        if result.Some? {
          devices := result.value;
        }
      }
    }

    /**
     * A new service state reaches `BaseViewModel`; a parked `refresh` that now runs shows the
     * bonded devices `bonded` the service answers, in name order.
     */
    method OnServiceStateChanged(value: ServiceBinding.BleServiceState, bonded: seq<BondedBleDevice>)
      modifies base, this
      ensures base.serviceState == value
      ensures old(base.observing) && value.Connected? && ServiceBinding.GetBondedDevices in old(base.pendingActions) ==>
        devices == RefreshSyncDevice(ByName(bonded))
      ensures !(old(base.observing) && value.Connected? && ServiceBinding.GetBondedDevices in old(base.pendingActions)) ==>
        devices == old(devices)
      ensures observing == old(observing)
      ensures !old(base.observing) ==> base.pendingActions == old(base.pendingActions) && base.trace == old(base.trace)
      ensures old(base.observing) && value.Connected? ==>
        && base.pendingActions == []
        && base.trace == old(base.trace)
             + [ServiceBinding.Call(value.service, ServiceBinding.RegisterCoreListener), ServiceBinding.LinkToDeath(value.binder)]
             + ServiceBinding.Calls(value.service, old(base.pendingActions))
      ensures old(base.observing) && value.Disconnected? ==>
        base.pendingActions == old(base.pendingActions) && base.trace == old(base.trace) + [ServiceBinding.BindCoreService]
      ensures base.bleCallback == old(base.bleCallback) && base.observing == old(base.observing)
    {
      var ran := base.PostServiceState(value);
      if ServiceBinding.GetBondedDevices in ran {
        devices := RefreshSyncDevice(ByName(bonded));
      }
    }

    /** `onCleared`: the base view model is cleared, then the callback observer removed. */
    method OnCleared()
      modifies base, this
      ensures !observing && !base.observing
      ensures base.serviceState.Connected? ==>
        base.trace == old(base.trace) + [ServiceBinding.Call(base.serviceState.service, ServiceBinding.UnregisterCoreListener),
                                          ServiceBinding.UnlinkToDeath(base.serviceState.binder)]
      ensures base.serviceState.Disconnected? ==> base.trace == old(base.trace)
      ensures base.serviceState == old(base.serviceState) && base.pendingActions == old(base.pendingActions)
      ensures base.bleCallback == old(base.bleCallback)
      ensures devices == old(devices)
    {
      base.OnCleared();
      observing := false;
    }
  }
}
