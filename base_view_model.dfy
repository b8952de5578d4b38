/**
 * `BaseViewModel`: the app side of the binder link to the core service. It keeps the link's
 * state, parks work requested while disconnected and runs it on connection, rebinds when the
 * link drops, and turns the core service's listener calls into callback states.
 */
module ServiceBinding {
  import opened Common
  import CoreService

  /** Identity of an `ICoreBleService` proxy. */
  type ServiceId = int
  /** Identity of the `IBinder` behind it. */
  type BinderId = int

  /** `BleServiceState` */
  datatype BleServiceState = Disconnected | Connected(binder: BinderId, service: ServiceId)

  /** `BleCallbackState`; `NoEvent` is its `None` object. */
  datatype BleCallbackState =
    | NoEvent
    | StartScan(success: bool)
    | Scanning(device: BleDevice)
    | Scanned(devices: seq<BleDevice>)
    | DeviceConnected(devices: seq<BleDevice>)
    | DeviceDisconnected(device: BleDevice)
    | DeviceBonded(device: BleDevice)
    | DeviceBonding(device: BleDevice)
    | DeviceUnBond(device: BleDevice)
    | DeviceConnectFailure(device: BleDevice)
    | DeviceRemoved(device: BleDevice)

  /** The `ICoreBleService` calls view models make; a parked action is one of these. */
  datatype ServiceCall =
    | RegisterCoreListener
    | UnregisterCoreListener
    | GetBondedDevices
    | SetSyncState(device: BleDevice, on: bool)
    | RemoveSyncDevice(device: BleDevice)
    | ConnectDevice(device: BleDevice)
    | DisconnectDevice(device: BleDevice)

  /** What the view model does to the outside world. */
  datatype Effect =
    | Call(service: ServiceId, call: ServiceCall)
    | LinkToDeath(binder: BinderId)
    | UnlinkToDeath(binder: BinderId)
    | BindCoreService

  /** Each listener call becomes the callback state carrying the same payload. */
  function CallbackState(event: CoreService.ListenerEvent): BleCallbackState {
    match event
    case OnStartScan(success) => StartScan(success)
    case OnScanning(device) => Scanning(device)
    case OnScanned(devices) => Scanned(devices)
    case OnDeviceConnected(devices) => DeviceConnected(devices)
    case OnDeviceDisconnected(device) => DeviceDisconnected(device)
    case OnDeviceConnectFailure(device) => DeviceConnectFailure(device)
    case OnDeviceBonded(device) => DeviceBonded(device)
    case OnDeviceBonding(device) => DeviceBonding(device)
    case OnDeviceUnBond(device) => DeviceUnBond(device)
    case OnDeviceRemoved(device) => DeviceRemoved(device)
  }

  /** The listener call a callback state stands for; the initial `None` stands for none. */
  function ListenerEventOf(state: BleCallbackState): Option<CoreService.ListenerEvent> {
    match state
    case NoEvent => None
    case StartScan(success) => Some(CoreService.OnStartScan(success))
    case Scanning(device) => Some(CoreService.OnScanning(device))
    case Scanned(devices) => Some(CoreService.OnScanned(devices))
    case DeviceConnected(devices) => Some(CoreService.OnDeviceConnected(devices))
    case DeviceDisconnected(device) => Some(CoreService.OnDeviceDisconnected(device))
    case DeviceBonded(device) => Some(CoreService.OnDeviceBonded(device))
    case DeviceBonding(device) => Some(CoreService.OnDeviceBonding(device))
    case DeviceUnBond(device) => Some(CoreService.OnDeviceUnBond(device))
    case DeviceConnectFailure(device) => Some(CoreService.OnDeviceConnectFailure(device))
    case DeviceRemoved(device) => Some(CoreService.OnDeviceRemoved(device))
  }

  /**
   * The listener keeps every payload: the posted state gives back the exact call, so two
   * different calls never post the same state, and no call posts the initial `None`.
   */
  lemma CallbackStateFaithful(event: CoreService.ListenerEvent)
    ensures ListenerEventOf(CallbackState(event)) == Some(event)
    ensures CallbackState(event) != NoEvent
  {
  }

  lemma CallbackStateInjective(e1: CoreService.ListenerEvent, e2: CoreService.ListenerEvent)
    ensures CallbackState(e1) == CallbackState(e2) ==> e1 == e2
  {
    CallbackStateFaithful(e1);
    CallbackStateFaithful(e2);
  }

  /** The calls that running the parked actions against `service` makes, in order. */
  function Calls(service: ServiceId, calls: seq<ServiceCall>): seq<Effect> {
    seq(|calls|, i requires 0 <= i < |calls| => Call(service, calls[i]))
  }

  class BaseViewModel {
    /** The value of `coreBleServiceState`. */
    var serviceState: BleServiceState
    /** The value of `bleCallback`. */
    var bleCallback: BleCallbackState
    /** `pendingActions`, oldest first. */
    var pendingActions: seq<ServiceCall>
    /** Whether this view model still observes its own service state. */
    var observing: bool
    /** Everything done to the outside world so far, oldest first. */
    var trace: seq<Effect>

    /**
     * `init`: disconnected, with nothing parked; observing the state delivers the initial
     * `Disconnected` at once, which starts a bind.
     */
    constructor()
      ensures serviceState == Disconnected && bleCallback == NoEvent && pendingActions == []
      ensures observing && trace == [BindCoreService]
    {
      serviceState := Disconnected;
      bleCallback := NoEvent;
      pendingActions := [];
      observing := true;
      trace := [BindCoreService];
    }

    /** `coreBleService`: the proxy exactly while connected. */
    function CoreBleService(): (r: Option<ServiceId>)
      reads this
      ensures r.Some? <==> serviceState.Connected?
      ensures serviceState.Connected? ==> r == Some(serviceState.service)
    {
      match serviceState
      case Connected(_, service) => Some(service)
      case Disconnected => None
    }

    /**
     * `runOnCoreBleService`: while connected the call is made at once and nothing is parked;
     * while disconnected it is parked (or dropped when caching is off). Returns the calls made.
     */
    method RunOnCoreBleService(cachePendingAction: bool, call: ServiceCall) returns (ran: seq<ServiceCall>)
      modifies this
      ensures serviceState.Connected? ==>
        ran == [call] && trace == old(trace) + [Call(serviceState.service, call)]
        && pendingActions == old(pendingActions)
      ensures serviceState.Disconnected? ==>
        ran == [] && trace == old(trace)
        && pendingActions == old(pendingActions) + (if cachePendingAction then [call] else [])
      ensures serviceState == old(serviceState) && bleCallback == old(bleCallback) && observing == old(observing)
    {
      var service := CoreBleService();
      if service.None? {
        if cachePendingAction {
          pendingActions := pendingActions + [call];
        }
        return [];
      }
      trace := trace + [Call(service.value, call)];
      ran := [call];
    }

    /**
     * `onChanged`: on connection, registers the listener, links to the binder's death, runs
     * every parked action in order against the new service and clears them; on disconnection,
     * binds again. Returns the parked calls that were run.
     */
    method OnChanged(value: BleServiceState) returns (ran: seq<ServiceCall>)
      modifies this
      ensures value.Connected? ==>
        && ran == old(pendingActions) && pendingActions == []
        && trace == old(trace) + [Call(value.service, RegisterCoreListener), LinkToDeath(value.binder)]
                    + Calls(value.service, old(pendingActions))
      ensures value.Disconnected? ==>
        ran == [] && pendingActions == old(pendingActions) && trace == old(trace) + [BindCoreService]
      ensures serviceState == old(serviceState) && bleCallback == old(bleCallback) && observing == old(observing)
    {
      match value {
        case Connected(binder, service) =>
          trace := trace + [Call(service, RegisterCoreListener), LinkToDeath(binder)];
          var actions := pendingActions;
          var made: seq<Effect> := [];
          for i := 0 to |actions|
            invariant made == Calls(service, actions[..i])
          {
            made := made + [Call(service, actions[i])];
          }
          assert actions[..|actions|] == actions;
          trace := trace + made;
          ran := actions;
          pendingActions := [];
        case Disconnected =>
          trace := trace + [BindCoreService];
          ran := [];
      }
    }

    /** `_coreBleService.postValue`: the new state is delivered to this view model while it observes. */
    method PostServiceState(value: BleServiceState) returns (ran: seq<ServiceCall>)
      modifies this
      ensures serviceState == value
      ensures !old(observing) ==> ran == [] && pendingActions == old(pendingActions) && trace == old(trace)
      ensures old(observing) && value.Connected? ==>
        && ran == old(pendingActions) && pendingActions == []
        && trace == old(trace) + [Call(value.service, RegisterCoreListener), LinkToDeath(value.binder)]
                    + Calls(value.service, old(pendingActions))
      ensures old(observing) && value.Disconnected? ==>
        ran == [] && pendingActions == old(pendingActions) && trace == old(trace) + [BindCoreService]
      ensures bleCallback == old(bleCallback) && observing == old(observing)
    {
      serviceState := value;
      ran := [];
      if observing {
        ran := OnChanged(value);
      }
    }

    /** `onCleared`: unregisters and unlinks only while connected, then stops observing. */
    method OnCleared()
      modifies this
      ensures serviceState.Connected? ==>
        trace == old(trace) + [Call(serviceState.service, UnregisterCoreListener), UnlinkToDeath(serviceState.binder)]
      ensures serviceState.Disconnected? ==> trace == old(trace)
      ensures !observing
      ensures serviceState == old(serviceState) && bleCallback == old(bleCallback)
      ensures pendingActions == old(pendingActions)
    {
      match serviceState {
        case Connected(binder, service) =>
          trace := trace + [Call(service, UnregisterCoreListener), UnlinkToDeath(binder)];
        case Disconnected =>
      }
      observing := false;
    }

    /** `binderDied`: binds again. */
    method BinderDied()
      modifies this
      ensures trace == old(trace) + [BindCoreService]
      ensures serviceState == old(serviceState) && bleCallback == old(bleCallback)
      ensures pendingActions == old(pendingActions) && observing == old(observing)
    {
      trace := trace + [BindCoreService];
    }

    /**
     * `Connection.onServiceConnected`: a null binder posts nothing; otherwise the connected state
     * is posted with the proxy `asInterface` gives for it.
     */
    method OnServiceConnected(binder: Option<BinderId>, service: ServiceId) returns (ran: seq<ServiceCall>)
      modifies this
      ensures binder.None? ==>
        ran == [] && serviceState == old(serviceState) && pendingActions == old(pendingActions) && trace == old(trace)
      ensures binder.Some? ==> serviceState == Connected(binder.value, service)
      ensures binder.Some? && old(observing) ==>
        && ran == old(pendingActions) && pendingActions == []
        && trace == old(trace) + [Call(service, RegisterCoreListener), LinkToDeath(binder.value)]
                    + Calls(service, old(pendingActions))
      ensures binder.Some? && !old(observing) ==>
        ran == [] && pendingActions == old(pendingActions) && trace == old(trace)
      ensures bleCallback == old(bleCallback) && observing == old(observing)
    {
      ran := [];
      if binder.Some? {
        ran := PostServiceState(Connected(binder.value, service));
      }
    }

    /** `Connection.onServiceDisconnected`: posts `Disconnected`. */
    method OnServiceDisconnected() returns (ran: seq<ServiceCall>)
      modifies this
      ensures serviceState == Disconnected && ran == []
      ensures old(observing) ==> trace == old(trace) + [BindCoreService]
      ensures !old(observing) ==> trace == old(trace)
      ensures pendingActions == old(pendingActions) && bleCallback == old(bleCallback) && observing == old(observing)
    {
      ran := PostServiceState(Disconnected);
    }

    /** `CoreBleListener`: every listener call posts its callback state. */
    method OnListenerEvent(event: CoreService.ListenerEvent)
      modifies this
      ensures bleCallback == CallbackState(event)
      ensures ListenerEventOf(bleCallback) == Some(event)
      ensures serviceState == old(serviceState) && pendingActions == old(pendingActions)
      ensures trace == old(trace) && observing == old(observing)
    {
      CallbackStateFaithful(event);
      bleCallback := CallbackState(event);
    }
  }
}
