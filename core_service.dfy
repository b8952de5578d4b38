/**
 * `CoreBleManagerService`: the actor at the centre of the sending side. Every request from
 * clients, the radio and the notification listener arrives as a command on one worker queue;
 * `handleMessage` processes one command at a time against the scan state and the device
 * registry, notifies the registered listeners, asks the radio for work, and posts follow-up
 * commands to its own queue.
 */
module CoreService {
  import opened Common
  import opened Frames
  import opened Platform
  import opened Proto
  import opened Extensions
  import opened Registry
  import Database
  import opened Parcels
  import Broadcast

  /** `ScanState` */
  datatype ScanState = UnInitialized | Scanning | Scanned

  /** `BluetoothDevice.BOND_NONE`, `BOND_BONDING`, `BOND_BONDED` */
  const BOND_NONE: int := 10
  const BOND_BONDING: int := 11
  const BOND_BONDED: int := 12

  /** The calls of `ICoreBleListener`. */
  datatype ListenerEvent =
    | OnStartScan(success: bool)
    | OnScanning(device: BleDevice)
    | OnScanned(devices: seq<BleDevice>)
    | OnDeviceConnected(devices: seq<BleDevice>)
    | OnDeviceDisconnected(device: BleDevice)
    | OnDeviceConnectFailure(device: BleDevice)
    | OnDeviceBonded(device: BleDevice)
    | OnDeviceBonding(device: BleDevice)
    | OnDeviceUnBond(device: BleDevice)
    | OnDeviceRemoved(device: BleDevice)

  /**
   * One listener call made through `safeInvoke`: `delivered` is false when the remote side threw
   * a `RemoteException`, which is caught and logged.
   */
  datatype Notified = Notified(listener: ListenerId, event: ListenerEvent, delivered: bool)

  /** What the service asks of FastBle's `BleManager` and of the advertiser. */
  datatype RadioRequest =
    | InitScanRule
    | Scan
    | Connect(device: BleDevice)
    | Disconnect(device: BleDevice)
    | Write(device: BleDevice, bytes: seq<Byte>)
    | Gatt(request: Broadcast.GattRequest)

  /** The advertiser's requests, each passed on to the radio in order. */
  function Gatts(requests: seq<Broadcast.GattRequest>): (r: seq<RadioRequest>)
    ensures |r| == |requests| && forall i :: 0 <= i < |r| ==> r[i] == Gatt(requests[i])
  {
    seq(|requests|, i requires 0 <= i < |requests| => Gatt(requests[i]))
  }

  /** The messages of the worker queue (`MSG_*`), with what each carries. */
  datatype Command =
    | NotificationPosted(sbn: HostStatusBarNotification)
    | NotificationRemoved(sbn: HostStatusBarNotification)
    | ScanDevices
    | StartScanning(success: bool)
    | ScanFinished(result: seq<BleDevice>)
    | ScanningDevice(device: BleDevice)
    | RegisterCoreCallback(listener: ListenerId)
    | UnregisterCoreCallback(listener: ListenerId)
    | StartAdvertising
    | StopAdvertising
    | ConnectDevice(device: BleDevice)
    | DeviceConnected(device: BleDevice)
    | DeviceDisconnected(device: BleDevice)
    | DeviceConnectFailed(device: BleDevice)
    | BondStateChanged(device: BleDevice, bondState: int)
    | InitBondedDevices
    | SetDeviceSyncState(device: BleDevice, arg1: int)
    | DisconnectDevice(device: BleDevice)
    | RemoveSyncDevice(device: BleDevice)
    | Unknown(what: int)

  /** Which dispatcher a command goes to. */
  datatype Dispatch = ToScan | ToLink | ToRadio | ToListeners | ToRegistry | NotHandled

  function DispatchOf(command: Command): Dispatch {
    match command
    case StartScanning(_) => ToScan
    case ScanningDevice(_) => ToScan
    case ScanFinished(_) => ToScan
    case DeviceConnected(_) => ToLink
    case DeviceDisconnected(_) => ToLink
    case DeviceConnectFailed(_) => ToLink
    case BondStateChanged(_, _) => ToLink
    case NotificationPosted(_) => ToRadio
    case NotificationRemoved(_) => ToRadio
    case ScanDevices => ToRadio
    case ConnectDevice(_) => ToRadio
    case DisconnectDevice(_) => ToRadio
    case StartAdvertising => ToRadio
    case StopAdvertising => ToRadio
    case RegisterCoreCallback(_) => ToListeners
    case UnregisterCoreCallback(_) => ToListeners
    case InitBondedDevices => ToRegistry
    case SetDeviceSyncState(_, _) => ToRegistry
    case RemoveSyncDevice(_) => ToRegistry
    case Unknown(_) => NotHandled
  }

  /** The values of the `ble_work_mode` preference. */
  datatype WorkMode = SendingOnly | SendingAndReceiving | OtherMode

  /** A change of a shared preference, with the value read back (`None` when unset). */
  datatype PreferenceChange =
    | BleWorkMode(mode: Option<WorkMode>)
    | SyncOnRemoval(value: Option<bool>)
    | OtherKey

  /**
   * The world as one command sees it: the host, the radio's bond state per address, the
   * listeners whose binder calls fail, FastBle's `splitWriteNum`, the protobuf encoder, the
   * package labels, and the handles the GATT stack hands out.
   */
  datatype Env = Env(
    host: Host,
    bondStates: map<Mac, int>,
    failing: set<ListenerId>,
    splitWriteNum: int,
    serialize: Serializer,
    labels: map<string, string>,
    server: nat,
    service: nat)

  /** `device.bondState`; a device the radio does not know is not bonded. */
  function BondState(env: Env, device: BleDevice): int {
    if device.mac in env.bondStates then env.bondStates[device.mac] else BOND_NONE
  }

  /** `broadcastAllListeners`: one call per registered listener, in list order, failures included. */
  function ToAllListeners(listeners: seq<ListenerId>, failing: set<ListenerId>, event: ListenerEvent): seq<Notified> {
    seq(|listeners|, i requires 0 <= i < |listeners| => Notified(listeners[i], event, listeners[i] !in failing))
  }

  /** A run of calls to one listener. */
  function ToListener(listener: ListenerId, failing: set<ListenerId>, events: seq<ListenerEvent>): seq<Notified> {
    seq(|events|, i requires 0 <= i < |events| => Notified(listener, events[i], listener !in failing))
  }

  /** A listener that throws does not stop the fan-out: every working listener still receives the event. */
  lemma FanOutSurvivesFailures(listeners: seq<ListenerId>, failing: set<ListenerId>, event: ListenerEvent)
    ensures |ToAllListeners(listeners, failing, event)| == |listeners|
    ensures forall l :: l in listeners && l !in failing ==>
      Notified(l, event, true) in ToAllListeners(listeners, failing, event)
    ensures forall n :: n in ToAllListeners(listeners, failing, event) ==> n.listener in listeners && n.event == event
  {
    var out := ToAllListeners(listeners, failing, event);
    forall l | l in listeners && l !in failing
      ensures Notified(l, event, true) in out
    {
      var i :| 0 <= i < |listeners| && listeners[i] == l;
      assert out[i] == Notified(l, event, true);
    }
  }

  /** The listener call a bond-state change makes; other states make none. */
  function BondEvent(bondState: int, device: BleDevice): Option<ListenerEvent> {
    if bondState == BOND_BONDED then Some(OnDeviceBonded(device))
    else if bondState == BOND_BONDING then Some(OnDeviceBonding(device))
    else if bondState == BOND_NONE then Some(OnDeviceUnBond(device))
    else None
  }

  /** The sightings after `addScanningDevice` of each device in turn: bonded addresses are skipped. */
  function AddSightings(scanning: map<Mac, BleDevice>, bonded: set<Mac>, devices: seq<BleDevice>): map<Mac, BleDevice>
  {
    if devices == [] then scanning
    else
      var before := AddSightings(scanning, bonded, devices[..|devices| - 1]);
      var d := devices[|devices| - 1];
      if d.mac in bonded then before else before[d.mac := d]
  }

  /**
   * A finished scan adds to the earlier sightings (it does not replace them): every unbonded
   * device found is recorded under its address, and no bonded address is ever recorded.
   */
  lemma {:induction false} AddSightingsKeys(scanning: map<Mac, BleDevice>, bonded: set<Mac>, devices: seq<BleDevice>)
    ensures AddSightings(scanning, bonded, devices).Keys
      == scanning.Keys + (set i | 0 <= i < |devices| && devices[i].mac !in bonded :: devices[i].mac)
    ensures forall m :: m in AddSightings(scanning, bonded, devices) && m !in scanning ==> m !in bonded
    ensures forall m :: m in scanning ==> m in AddSightings(scanning, bonded, devices)
  {
    if devices != [] {
      var init := devices[..|devices| - 1];
      AddSightingsKeys(scanning, bonded, init);
      var d := devices[|devices| - 1];
      var found := set i | 0 <= i < |devices| && devices[i].mac !in bonded :: devices[i].mac;
      var foundInit := set i | 0 <= i < |init| && init[i].mac !in bonded :: init[i].mac;
      assert found == foundInit + (if d.mac in bonded then {} else {d.mac}) by {
        forall m | m in found
          ensures m in foundInit + (if d.mac in bonded then {} else {d.mac})
        {
          var i :| 0 <= i < |devices| && devices[i].mac !in bonded && devices[i].mac == m;
          if i < |init| {
            assert init[i] == devices[i];
          }
        }
        forall m | m in foundInit
          ensures m in found
        {
          var i :| 0 <= i < |init| && init[i].mac !in bonded && init[i].mac == m;
          assert devices[i] == init[i];
        }
      }
    }
  }

  /** The connect commands `MSG_INIT_BONDED_DEVICES` posts while visiting bonded addresses in `macs` order. */
  function SyncConnects(bonded: map<Mac, Bonded>, macs: seq<Mac>): seq<Command> {
    if macs == [] then []
    else
      var m := macs[|macs| - 1];
      SyncConnects(bonded, macs[..|macs| - 1])
        + (if m in bonded && bonded[m].item.syncOn then [ConnectDevice(bonded[m].device)] else [])
  }

  /**
   * Start-up connects exactly the bonded devices that have sync on: every command is a connect
   * to such a device, and each such device listed gets one.
   */
  lemma {:induction false} SyncConnectsExactly(bonded: map<Mac, Bonded>, macs: seq<Mac>)
    ensures forall c :: c in SyncConnects(bonded, macs) ==>
      c.ConnectDevice? && exists m :: m in macs && m in bonded && bonded[m].item.syncOn && c.device == bonded[m].device
    ensures forall m :: m in macs && m in bonded && bonded[m].item.syncOn ==>
      ConnectDevice(bonded[m].device) in SyncConnects(bonded, macs)
  {
    if macs != [] {
      var init := macs[..|macs| - 1];
      SyncConnectsExactly(bonded, init);
      forall m | m in macs
        ensures m == macs[|macs| - 1] || m in init
      {
        var i :| 0 <= i < |macs| && macs[i] == m;
        if i < |macs| - 1 {
          assert init[i] == m;
        }
      }
    }
  }

  /** The calls a newly registered listener receives: the replayed scan state, then the connected set. */
  function Replay(scanState: ScanState, sightings: seq<BleDevice>, connected: seq<BleDevice>): seq<ListenerEvent> {
    match scanState
    case UnInitialized => [OnDeviceConnected(connected)]
    case Scanning =>
      [OnStartScan(true)] + seq(|sightings|, i requires 0 <= i < |sightings| => OnScanning(sightings[i]))
        + [OnDeviceConnected(connected)]
    case Scanned => [OnScanned(sightings), OnDeviceConnected(connected)]
  }

  /**
   * What registration replays: nothing of the scan before any scan, the scan start and every
   * sighting during a scan, all sightings at once after one; the connected set always comes last.
   */
  lemma ReplayShape(scanState: ScanState, sightings: seq<BleDevice>, connected: seq<BleDevice>)
    ensures var r := Replay(scanState, sightings, connected);
      && |r| >= 1 && r[|r| - 1] == OnDeviceConnected(connected)
      && (scanState == UnInitialized ==> |r| == 1)
      && (scanState == Scanning ==> (|r| == |sightings| + 2 && r[0] == OnStartScan(true)
            && forall i :: 0 <= i < |sightings| ==> r[i + 1] == OnScanning(sightings[i])))
      && (scanState == Scanned ==> r == [OnScanned(sightings), OnDeviceConnected(connected)])
  {
    if scanState == Scanning {
      var r := Replay(scanState, sightings, connected);
      var mid := seq(|sightings|, i requires 0 <= i < |sightings| => OnScanning(sightings[i]));
      forall i | 0 <= i < |sightings|
        ensures r[i + 1] == OnScanning(sightings[i])
      {
        assert r[i + 1] == mid[i];
      }
    }
  }

  /**
   * The scan part of what `registerCallback` replays, built event by event: followed by the
   * connected set it is `Replay`.
   */
  method ReplayScan(scanState: ScanState, devices: seq<BleDevice>) returns (replay: seq<ListenerEvent>)
    ensures forall c :: Replay(scanState, devices, c) == replay + [OnDeviceConnected(c)]
  {
    replay := [];
    match scanState {
      case UnInitialized =>
      case Scanning =>
        replay := [OnStartScan(true)];
        for i := 0 to |devices|
          invariant replay == [OnStartScan(true)] + seq(i, k requires 0 <= k < i => OnScanning(devices[k]))
        {
          replay := replay + [OnScanning(devices[i])];
        }
      case Scanned =>
        replay := [OnScanned(devices)];
    }
  }

  /** `RemoteCallbackList.unregister` of a registered listener. */
  function Without(listeners: seq<ListenerId>, listener: ListenerId): (r: seq<ListenerId>)
    ensures forall l :: l in r <==> l in listeners && l != listener
    ensures |r| <= |listeners|
  {
    if listeners == [] then []
    else if listeners[0] == listener then Without(listeners[1..], listener)
    else [listeners[0]] + Without(listeners[1..], listener)
  }

  /** No listener is registered twice. */
  ghost predicate Distinct(listeners: seq<ListenerId>) {
    forall i, j :: 0 <= i < j < |listeners| ==> listeners[i] != listeners[j]
  }

  lemma {:induction false} WithoutDistinct(listeners: seq<ListenerId>, listener: ListenerId)
    requires Distinct(listeners)
    ensures Distinct(Without(listeners, listener))
  {
    if listeners != [] {
      WithoutDistinct(listeners[1..], listener);
      var rest := Without(listeners[1..], listener);
      assert listeners[0] !in listeners[1..];
      assert listeners[0] !in rest;
    }
  }

  /**
   * The tables after `MSG_DEVICE_CONNECTED` of `device` (`addConnectedDevice`): a bonded device
   * keeps its record and no row is written; any other gets a fresh row with sync on. Either way the
   * device ends connected, holding its bonded record.
   */
  ghost predicate DeviceConnectedTables(
    bonded0: map<Mac, Bonded>, rows0: map<int, Database.BondedDeviceItem>, connected0: map<Mac, Bonded>,
    device: BleDevice,
    bonded: map<Mac, Bonded>, rows: map<int, Database.BondedDeviceItem>, connected: map<Mac, Bonded>)
  {
    && device.mac in bonded
    && connected == connected0[device.mac := Bonded(device, bonded[device.mac].item)]
    && (device.mac in bonded0 ==> bonded == bonded0 && rows == rows0)
    && (device.mac !in bonded0 ==>
          var item := bonded[device.mac].item;
          && item == Database.BondedDeviceItem(item.uid, device.name, device.mac, true)
          && item.uid !in rows0
          && rows == rows0[item.uid := item]
          && bonded == bonded0[device.mac := Bonded(device, item)])
  }

  /**
   * The tables after `setSyncState(device, on)`: a bonded device's shared record gets the new flag
   * in both tables and that row is stored; an unknown device changes nothing.
   */
  ghost predicate SyncStateTables(
    bonded0: map<Mac, Bonded>, rows0: map<int, Database.BondedDeviceItem>, connected0: map<Mac, Bonded>,
    device: BleDevice, on: bool,
    bonded: map<Mac, Bonded>, rows: map<int, Database.BondedDeviceItem>, connected: map<Mac, Bonded>)
  {
    if device.mac in bonded0 then
      var item := bonded0[device.mac].item.(syncOn := on);
      && bonded == bonded0[device.mac := bonded0[device.mac].(item := item)]
      && rows == rows0[item.uid := item]
      && connected == (if device.mac in connected0
                       then connected0[device.mac := connected0[device.mac].(item := item)]
                       else connected0)
    else
      bonded == bonded0 && rows == rows0 && connected == connected0
  }

  /** The stored rows after `removeSyncDevice` of `mac`: its row deleted if it was bonded. */
  ghost function RemovedRows(bonded0: map<Mac, Bonded>, rows0: map<int, Database.BondedDeviceItem>, mac: Mac)
    : map<int, Database.BondedDeviceItem>
  {
    if mac in bonded0 then rows0 - {bonded0[mac].item.uid} else rows0
  }

  /** The state `handleMessage` works on, taken as one value. */
  datatype ActorState = ActorState(
    scanState: ScanState, syncRemoval: bool, scanRuleInitialized: bool,
    listeners: seq<ListenerId>, queue: seq<Command>, advertising: Broadcast.Advertising,
    bonded: map<Mac, Bonded>, rows: map<int, Database.BondedDeviceItem>, connected: map<Mac, Bonded>,
    scanning: map<Mac, BleDevice>, filteredApps: seq<Database.FilteredAppItem>)

  /**
   * What one command may change, from `s0` to `s`: a part of the state that the command's handler
   * does not touch stays as it was, and the bonded, stored and connected tables change as
   * `addConnectedDevice`, `setSyncState` and `removeSyncDevice` change them.
   */
  ghost predicate OnlyTouches(command: Command, s0: ActorState, s: ActorState) {
    && s.syncRemoval == s0.syncRemoval && s.filteredApps == s0.filteredApps
    && (!command.RegisterCoreCallback? && !command.UnregisterCoreCallback? ==> s.listeners == s0.listeners)
    && (!(command.InitBondedDevices? || command.SetDeviceSyncState? || command.RemoveSyncDevice?) ==> s.queue == s0.queue)
    && (!command.ScanDevices? ==> s.scanRuleInitialized == s0.scanRuleInitialized)
    && (!command.StartAdvertising? && !command.StopAdvertising? ==> s.advertising == s0.advertising)
    && (!command.StartScanning? && !command.ScanFinished? ==> s.scanState == s0.scanState)
    && (!(command.StartScanning? || command.ScanningDevice? || command.ScanFinished?) ==> s.scanning == s0.scanning)
    && (!(command.DeviceConnected? || command.SetDeviceSyncState? || command.RemoveSyncDevice?) ==>
          s.bonded == s0.bonded && s.rows == s0.rows)
    && (!(command.DeviceConnected? || command.DeviceDisconnected? || command.SetDeviceSyncState?) ==>
          s.connected == s0.connected)
    && (command.DeviceConnected? ==>
          DeviceConnectedTables(s0.bonded, s0.rows, s0.connected, command.device, s.bonded, s.rows, s.connected))
    && (command.DeviceDisconnected? ==> s.connected == s0.connected - {command.device.mac})
    && (command.SetDeviceSyncState? ==>
          SyncStateTables(s0.bonded, s0.rows, s0.connected, command.device, command.arg1 == 1, s.bonded, s.rows, s.connected))
    && (command.RemoveSyncDevice? ==>
          && s.bonded == s0.bonded - {command.device.mac}
          && s.rows == RemovedRows(s0.bonded, s0.rows, command.device.mac))
  }

  /** `devices` and `macs` list the entries of `table` once each, in some order, paired up. */
  ghost predicate Lists<D>(table: map<Mac, D>, devices: seq<D>, macs: seq<Mac>) {
    && |devices| == |macs| == |table| && multiset(macs) == multiset(table.Keys)
    && forall i :: 0 <= i < |macs| ==> macs[i] in table && devices[i] == table[macs[i]]
  }

  /** `devices` are the devices of `connected`, once each, in the order `macs` lists their addresses. */
  ghost predicate ListsConnected(connected: map<Mac, Bonded>, devices: seq<BleDevice>, macs: seq<Mac>) {
    && |devices| == |macs| == |connected| && multiset(macs) == multiset(connected.Keys)
    && forall i :: 0 <= i < |macs| ==> macs[i] in connected && devices[i] == connected[macs[i]].device
  }

  /** `radio` writes the frames of `content` once to every device of `connected`, in the order `macs` lists them. */
  ghost predicate WritesToAll(connected: map<Mac, Bonded>, content: seq<Byte>, splitWriteNum: int,
                              radio: seq<RadioRequest>, macs: seq<Mac>)
  {
    && splitWriteNum > 4
    && |radio| == |macs| == |connected| && multiset(macs) == multiset(connected.Keys)
    && forall i :: 0 <= i < |radio| ==> (macs[i] in connected
         && radio[i] == Write(connected[macs[i]].device, Flatten(EncodeFrames(content, splitWriteNum))))
  }

  /**
   * What `handleMessage` does for each command, from `s0` to `s`: the listener calls `events`,
   * the radio requests `radio`, and the parts of the state the command's handler sets. For
   * `MSG_SCAN_FINISHED` and `MSG_REGISTER_CORE_CALLBACK`, `sightings` are the scanning devices
   * announced and `macs` their addresses; for `MSG_REGISTER_CORE_CALLBACK`, `connected` are the
   * connected devices replayed and `connMacs` their addresses; for `MSG_INIT_BONDED_DEVICES`,
   * `macs` is the order in which the bonded devices were visited; for a notification written to
   * the connected devices, `macs` is the order in which they were written to.
   */
  ghost predicate Effect(command: Command, env: Env, s0: ActorState, s: ActorState,
                         events: seq<Notified>, radio: seq<RadioRequest>, sightings: seq<BleDevice>, macs: seq<Mac>,
                         connected: seq<BleDevice>, connMacs: seq<Mac>)
  {
    var connectAllowed := CheckBluetoothConnectPermission(env.host);
    var advertiseAllowed := connectAllowed && CheckBluetoothAdvertisePermission(env.host);
    match command
    case NotificationPosted(sbn) =>
      && events == []
      && (sbn.packageName in FilteredPackageSet(s.filteredApps) ==> radio == [])
      && (sbn.packageName !in FilteredPackageSet(s.filteredApps) ==>
            WritesToAll(s.connected, env.serialize(ToProtoMessage(env.host, env.labels, sbn)), env.splitWriteNum, radio, macs))
    case NotificationRemoved(sbn) =>
      && events == []
      && (!s.syncRemoval ==> radio == [])
      && (s.syncRemoval ==> WritesToAll(s.connected, env.serialize(ToRemovalProtoMessage(sbn)), env.splitWriteNum, radio, macs))
    case ScanDevices =>
      && events == []
      && radio == (if s0.scanState == Scanning then []
                   else (if s0.scanRuleInitialized then [] else [InitScanRule]) + [Scan])
    case StartScanning(success) =>
      && radio == [] && events == ToAllListeners(s.listeners, env.failing, OnStartScan(success))
      && s.scanState == (if success then Scanning else Scanned)
      && s.scanning == (if success then map[] else s0.scanning)
    case ScanFinished(result) =>
      && radio == [] && s.scanState == Scanned
      && s.scanning == AddSightings(s0.scanning, s.bonded.Keys, result)
      && Lists(s.scanning, sightings, macs)
      && events == ToAllListeners(s.listeners, env.failing, OnScanned(sightings))
    case ScanningDevice(device) =>
      && radio == []
      && (device.mac in s.bonded ==> events == [] && s.scanning == s0.scanning)
      && (device.mac !in s.bonded ==>
            && events == ToAllListeners(s.listeners, env.failing, OnScanning(device))
            && s.scanning == s0.scanning[device.mac := device])
    case RegisterCoreCallback(listener) =>
      && radio == []
      && s.listeners == (if listener in s0.listeners then s0.listeners else s0.listeners + [listener])
      && Lists(s.scanning, sightings, macs)
      && ListsConnected(s.connected, connected, connMacs)
      && events == ToListener(listener, env.failing, Replay(s.scanState, sightings, connected))
    case UnregisterCoreCallback(listener) =>
      radio == [] && events == [] && s.listeners == Without(s0.listeners, listener)
    case StartAdvertising =>
      && events == []
      && s.advertising == (if advertiseAllowed then Broadcast.Start(s0.advertising, env.server, env.service)
                           else s0.advertising)
      && radio == (if advertiseAllowed then Gatts(Broadcast.StartRequests(s0.advertising, env.server, env.service))
                   else [])
    case StopAdvertising =>
      && events == []
      && s.advertising == (if advertiseAllowed then Broadcast.Stop(s0.advertising) else s0.advertising)
      && radio == (if advertiseAllowed then Gatts(Broadcast.StopRequests(s0.advertising)) else [])
    case ConnectDevice(device) =>
      events == [] && radio == (if connectAllowed && BondState(env, device) == BOND_BONDED then [Connect(device)] else [])
    case DisconnectDevice(device) =>
      events == [] && radio == (if connectAllowed then [Disconnect(device)] else [])
    case DeviceConnected(device) =>
      radio == [] && events == ToAllListeners(s.listeners, env.failing, OnDeviceConnected([device]))
    case DeviceDisconnected(device) =>
      radio == [] && events == ToAllListeners(s.listeners, env.failing, OnDeviceDisconnected(device))
    case DeviceConnectFailed(device) =>
      radio == [] && events == ToAllListeners(s.listeners, env.failing, OnDeviceConnectFailure(device))
    case BondStateChanged(device, bondState) =>
      && radio == []
      && events == (if bondState == BOND_BONDED then ToAllListeners(s.listeners, env.failing, OnDeviceBonded(device))
                    else if bondState == BOND_BONDING then ToAllListeners(s.listeners, env.failing, OnDeviceBonding(device))
                    else if bondState == BOND_NONE then ToAllListeners(s.listeners, env.failing, OnDeviceUnBond(device))
                    else [])
    case InitBondedDevices =>
      && radio == [] && events == []
      && |macs| == |s.bonded| && multiset(macs) == multiset(s.bonded.Keys)
      && s.queue == s0.queue + SyncConnects(s.bonded, macs)
    case SetDeviceSyncState(device, arg1) =>
      && radio == [] && events == []
      && s.queue == s0.queue + [if arg1 == 1 then ConnectDevice(device) else DisconnectDevice(device)]
    case RemoveSyncDevice(device) =>
      && radio == [] && events == ToAllListeners(s.listeners, env.failing, OnDeviceRemoved(device))
      && s.queue == s0.queue + [DisconnectDevice(device)]
    case Unknown(_) =>
      events == [] && radio == []
  }

  /** `getFilteredApps` over a list of filter records. */
  function FilteredPackageSet(apps: seq<Database.FilteredAppItem>): set<string> {
    set i | 0 <= i < |apps| :: apps[i].packageName
  }

  class CoreBleManagerService {
    var scanState: ScanState
    const model: ServiceModel
    const advertiser: Broadcast.BleBroadcastManager
    /**
     * `coreCallbacks`: a `RemoteCallbackList` broadcasts in an unspecified but fixed order, taken
     * here to be the order of registration.
     */
    var listeners: seq<ListenerId>
    /** `syncRemoval`: whether removals are forwarded; follows `sync_on_notification_removal`. */
    var syncRemoval: bool
    /** Whether `scanRule` has been built and handed to the radio. */
    var scanRuleInitialized: bool
    /** The commands posted to the worker queue, oldest first. */
    var queue: seq<Command>

    ghost predicate Valid()
      reads this, model, model.dao, advertiser, advertiser.readChannel
    {
      model.Valid() && advertiser.Valid() && Distinct(listeners)
    }

    ghost function Snapshot(): ActorState
      reads this, model, model.dao, advertiser
    {
      ActorState(scanState, syncRemoval, scanRuleInitialized, listeners, queue, advertiser.State(),
                 model.bonded, model.dao.rows, model.connected, model.scanning, model.filteredApps)
    }

    /**
     * `onCreate`: nothing scanned and no listener yet; loading the bonded devices is queued, and
     * advertising too when receive mode is on.
     */
    constructor(model: ServiceModel, advertiser: Broadcast.BleBroadcastManager, receiveModeEnabled: bool)
      requires model.Valid() && advertiser.Valid()
      ensures Valid() && this.model == model && this.advertiser == advertiser
      ensures scanState == UnInitialized && listeners == [] && syncRemoval && !scanRuleInitialized
      ensures queue == [InitBondedDevices] + (if receiveModeEnabled then [StartAdvertising] else [])
    {
      this.model := model;
      this.advertiser := advertiser;
      scanState := UnInitialized;
      listeners := [];
      syncRemoval := true;
      scanRuleInitialized := false;
      queue := [InitBondedDevices];
      new;
      if receiveModeEnabled {
        queue := queue + [StartAdvertising];
      }
    }

    /** `broadcastAllListeners` */
    method BroadcastAllListeners(failing: set<ListenerId>, event: ListenerEvent) returns (events: seq<Notified>)
      ensures events == ToAllListeners(listeners, failing, event)
    {
      events := [];
      for i := 0 to |listeners|
        invariant events == ToAllListeners(listeners[..i], failing, event)
      {
        events := events + [Notified(listeners[i], event, listeners[i] !in failing)];
      }
      assert listeners[..|listeners|] == listeners;
    }

    /** `writeChannel.write` of `content` to every connected device, in the map's unspecified order. */
    method WriteToConnected(splitWriteNum: int, content: seq<Byte>) returns (radio: seq<RadioRequest>, ghost macs: seq<Mac>)
      requires splitWriteNum > 4
      ensures |radio| == |macs| == |model.connected|
      ensures multiset(macs) == multiset(model.connected.Keys)
      ensures forall i :: 0 <= i < |radio| ==> (macs[i] in model.connected
        && radio[i] == Write(model.connected[macs[i]].device, Flatten(EncodeFrames(content, splitWriteNum))))
    {
      var entries;
      entries, macs := model.GetConnectedDevices();
      radio := [];
      for i := 0 to |entries|
        invariant |radio| == i
        invariant forall j :: 0 <= j < i ==>
          radio[j] == Write(model.connected[macs[j]].device, Flatten(EncodeFrames(content, splitWriteNum)))
      {
        var bytes := Frames.Write(content, splitWriteNum);
        radio := radio + [Write(entries[i].device, bytes)];
      }
    }

    /**
     * `MSG_NOTIFICATION_POSTED`: a notification from a filtered app goes nowhere; any other is
     * encoded once and written to every connected device, whether or not sync is on for it.
     */
    method HandlePosted(env: Env, sbn: HostStatusBarNotification) returns (radio: seq<RadioRequest>, ghost macs: seq<Mac>)
      requires env.splitWriteNum > 4
      ensures sbn.packageName in model.FilteredPackages() ==> radio == []
      ensures sbn.packageName !in model.FilteredPackages() ==>
        && |radio| == |macs| == |model.connected|
        && multiset(macs) == multiset(model.connected.Keys)
        && forall i :: 0 <= i < |radio| ==> (macs[i] in model.connected
             && radio[i] == Write(model.connected[macs[i]].device,
                                  Flatten(EncodeFrames(env.serialize(ToProtoMessage(env.host, env.labels, sbn)), env.splitWriteNum))))
    {
      if sbn.packageName in model.FilteredPackages() {
        return [], [];
      }
      var bytes := env.serialize(ToProtoMessage(env.host, env.labels, sbn));
      radio, macs := WriteToConnected(env.splitWriteNum, bytes);
    }

    /**
     * `MSG_NOTIFICATION_REMOVED`: nothing when removals are not synchronised; otherwise the
     * removal message goes to every connected device. Filtered apps are not consulted.
     */
    method HandleRemoved(env: Env, sbn: HostStatusBarNotification) returns (radio: seq<RadioRequest>, ghost macs: seq<Mac>)
      requires env.splitWriteNum > 4
      ensures !syncRemoval ==> radio == []
      ensures syncRemoval ==>
        && |radio| == |macs| == |model.connected|
        && multiset(macs) == multiset(model.connected.Keys)
        && forall i :: 0 <= i < |radio| ==> (macs[i] in model.connected
             && radio[i] == Write(model.connected[macs[i]].device,
                                  Flatten(EncodeFrames(env.serialize(ToRemovalProtoMessage(sbn)), env.splitWriteNum))))
    {
      if !syncRemoval {
        return [], [];
      }
      var bytes := env.serialize(ToRemovalProtoMessage(sbn));
      radio, macs := WriteToConnected(env.splitWriteNum, bytes);
    }

    /**
     * `MSG_START_SCANNING`: every listener hears the outcome; a failed start ends in `Scanned`
     * with the earlier sightings kept, a successful one clears them and enters `Scanning`.
     */
    method HandleStartScanning(env: Env, success: bool) returns (events: seq<Notified>)
      requires Valid()
      modifies this, model
      ensures Valid()
      ensures events == ToAllListeners(listeners, env.failing, OnStartScan(success))
      ensures scanState == if success then Scanning else Scanned
      ensures model.scanning == if success then map[] else old(model.scanning)
      ensures model.connected == old(model.connected) && model.bonded == old(model.bonded)
      ensures model.filteredApps == old(model.filteredApps)
      ensures listeners == old(listeners) && queue == old(queue) && syncRemoval == old(syncRemoval)
      ensures scanRuleInitialized == old(scanRuleInitialized)
    {
      events := BroadcastAllListeners(env.failing, OnStartScan(success));
      if !success {
        scanState := Scanned;
        return;
      }
      model.ClearScanningDevices();
      scanState := Scanning;
    }

    /** `MSG_SCANNING`: a sighting of an unbonded device is recorded and announced; a bonded one is ignored. */
    method HandleScanning(env: Env, device: BleDevice) returns (events: seq<Notified>)
      requires Valid()
      modifies model
      ensures Valid()
      ensures device.mac in model.bonded ==> events == [] && model.scanning == old(model.scanning)
      ensures device.mac !in model.bonded ==>
        events == ToAllListeners(listeners, env.failing, OnScanning(device))
        && model.scanning == old(model.scanning)[device.mac := device]
      ensures model.connected == old(model.connected) && model.bonded == old(model.bonded)
      ensures model.filteredApps == old(model.filteredApps)
    {
      events := [];
      var added := model.AddScanningDevice(device);
      if added {
        events := BroadcastAllListeners(env.failing, OnScanning(device));
      }
    }

    /**
     * `MSG_SCAN_FINISHED`: every device found is offered to `addScanningDevice`, the state becomes
     * `Scanned`, and every listener receives all current sightings.
     */
    method HandleScanFinished(env: Env, result: seq<BleDevice>)
      returns (events: seq<Notified>, ghost sightings: seq<BleDevice>, ghost macs: seq<Mac>)
      requires Valid()
      modifies this, model
      ensures Valid()
      ensures scanState == Scanned
      ensures model.scanning == AddSightings(old(model.scanning), model.bonded.Keys, result)
      ensures |sightings| == |macs| == |model.scanning| && multiset(macs) == multiset(model.scanning.Keys)
      ensures forall i :: 0 <= i < |macs| ==> macs[i] in model.scanning && sightings[i] == model.scanning[macs[i]]
      ensures events == ToAllListeners(listeners, env.failing, OnScanned(sightings))
      ensures model.connected == old(model.connected) && model.bonded == old(model.bonded)
      ensures model.filteredApps == old(model.filteredApps)
      ensures listeners == old(listeners) && queue == old(queue) && syncRemoval == old(syncRemoval)
      ensures scanRuleInitialized == old(scanRuleInitialized)
    {
      for i := 0 to |result|
        invariant Valid()
        invariant model.scanning == AddSightings(old(model.scanning), model.bonded.Keys, result[..i])
        invariant model.connected == old(model.connected) && model.bonded == old(model.bonded)
        invariant model.filteredApps == old(model.filteredApps)
        invariant scanState == old(scanState) && listeners == old(listeners) && queue == old(queue)
        invariant syncRemoval == old(syncRemoval) && scanRuleInitialized == old(scanRuleInitialized)
      {
        assert result[..i + 1][..i] == result[..i];
        var _ := model.AddScanningDevice(result[i]);
      }
      assert result[..|result|] == result;
      scanState := Scanned;
      var devices;
      devices, macs := model.GetScanningDevices();
      sightings := devices;
      events := BroadcastAllListeners(env.failing, OnScanned(devices));
    }

    /**
     * `MSG_REGISTER_CORE_CALLBACK`: the listener is registered (once), then brought up to date:
     * the scan state is replayed and the connected devices are sent.
     */
    method HandleRegister(env: Env, listener: ListenerId)
      returns (events: seq<Notified>, ghost sightings: seq<BleDevice>, ghost scanMacs: seq<Mac>,
               ghost connected: seq<BleDevice>, ghost connMacs: seq<Mac>)
      requires Valid()
      modifies this
      ensures Valid()
      ensures listeners == if listener in old(listeners) then old(listeners) else old(listeners) + [listener]
      ensures events == ToListener(listener, env.failing, Replay(scanState, sightings, connected))
      ensures |sightings| == |scanMacs| == |model.scanning| && multiset(scanMacs) == multiset(model.scanning.Keys)
      ensures forall i :: 0 <= i < |scanMacs| ==> scanMacs[i] in model.scanning && sightings[i] == model.scanning[scanMacs[i]]
      ensures |connected| == |connMacs| == |model.connected| && multiset(connMacs) == multiset(model.connected.Keys)
      ensures forall i :: 0 <= i < |connMacs| ==> (connMacs[i] in model.connected
        && connected[i] == model.connected[connMacs[i]].device)
      ensures scanState == old(scanState) && queue == old(queue) && syncRemoval == old(syncRemoval)
      ensures scanRuleInitialized == old(scanRuleInitialized)
    {
      if listener !in listeners {
        listeners := listeners + [listener];
      }
      var devices;
      devices, scanMacs := model.GetScanningDevices();
      sightings := devices;
      var replay := ReplayScan(scanState, devices);
      var entries;
      entries, connMacs := model.GetConnectedDevices();
      var connectedDevices := seq(|entries|, i requires 0 <= i < |entries| => entries[i].device);
      connected := connectedDevices;
      replay := replay + [OnDeviceConnected(connectedDevices)];
      events := ToListener(listener, env.failing, replay);
    }

    /** `MSG_SCAN_DEVICES`: starts a scan unless one is running; the scan rule is handed over on the first scan only. */
    method HandleScanDevices() returns (radio: seq<RadioRequest>)
      modifies this
      ensures old(scanState) == Scanning ==> radio == [] && scanRuleInitialized == old(scanRuleInitialized)
      ensures old(scanState) != Scanning ==>
        radio == (if old(scanRuleInitialized) then [] else [InitScanRule]) + [Scan] && scanRuleInitialized
      ensures scanState == old(scanState) && listeners == old(listeners) && queue == old(queue)
      ensures syncRemoval == old(syncRemoval)
    {
      radio := [];
      if scanState != Scanning {
        if !scanRuleInitialized {
          radio := radio + [InitScanRule];
          scanRuleInitialized := true;
        }
        radio := radio + [Scan];
      }
    }

    /** `MSG_UNREGISTER_CORE_CALLBACK` */
    method HandleUnregister(listener: ListenerId)
      requires Valid()
      modifies this
      ensures Valid()
      ensures listeners == Without(old(listeners), listener)
      ensures scanState == old(scanState) && queue == old(queue) && syncRemoval == old(syncRemoval)
      ensures scanRuleInitialized == old(scanRuleInitialized)
    {
      WithoutDistinct(listeners, listener);
      listeners := Without(listeners, listener);
    }

    /** `MSG_CONNECT_DEVICE`: reaches the radio only with the connect permission and a bonded device. */
    method HandleConnect(env: Env, device: BleDevice) returns (radio: seq<RadioRequest>)
      ensures radio != [] <==> CheckBluetoothConnectPermission(env.host) && BondState(env, device) == BOND_BONDED
      ensures radio != [] ==> radio == [Connect(device)]
    {
      if !CheckBluetoothConnectPermission(env.host) {
        return [];
      }
      var bonded := BondState(env, device) == BOND_BONDED;
      if !bonded {
        return [];
      }
      radio := [Connect(device)];
    }

    /** `MSG_DISCONNECT_DEVICE`: reaches the radio only with the connect permission. */
    method HandleDisconnect(env: Env, device: BleDevice) returns (radio: seq<RadioRequest>)
      ensures radio != [] <==> CheckBluetoothConnectPermission(env.host)
      ensures radio != [] ==> radio == [Disconnect(device)]
    {
      if !CheckBluetoothConnectPermission(env.host) {
        return [];
      }
      radio := [Disconnect(device)];
    }

    /** `MSG_DEVICE_CONNECTED`: the device becomes connected (and bonded), and every listener hears of it. */
    method HandleDeviceConnected(env: Env, device: BleDevice) returns (events: seq<Notified>)
      requires Valid()
      modifies model, model.dao
      ensures Valid()
      ensures device.mac in model.connected && device.mac in model.bonded
      ensures model.connected == old(model.connected)[device.mac := Bonded(device, model.bonded[device.mac].item)]
      ensures DeviceConnectedTables(old(model.bonded), old(model.dao.rows), old(model.connected),
                                    device, model.bonded, model.dao.rows, model.connected)
      ensures model.scanning == old(model.scanning) && model.filteredApps == old(model.filteredApps)
      ensures events == ToAllListeners(listeners, env.failing, OnDeviceConnected([device]))
    {
      model.AddConnectedDevice(device);
      events := BroadcastAllListeners(env.failing, OnDeviceConnected([device]));
    }

    /** `MSG_DEVICE_DISCONNECTED`: the device leaves the connected set, and every listener hears of it. */
    method HandleDeviceDisconnected(env: Env, device: BleDevice) returns (events: seq<Notified>)
      requires Valid()
      modifies model
      ensures Valid()
      ensures model.connected == old(model.connected) - {device.mac}
      ensures model.bonded == old(model.bonded) && model.scanning == old(model.scanning)
      ensures model.filteredApps == old(model.filteredApps)
      ensures events == ToAllListeners(listeners, env.failing, OnDeviceDisconnected(device))
    {
      model.RemoveConnectedDevice(device);
      events := BroadcastAllListeners(env.failing, OnDeviceDisconnected(device));
    }

    /** `MSG_DEVICE_CONNECT_FAILED`: only announced. */
    method HandleConnectFailed(env: Env, device: BleDevice) returns (events: seq<Notified>)
      ensures events == ToAllListeners(listeners, env.failing, OnDeviceConnectFailure(device))
    {
      events := BroadcastAllListeners(env.failing, OnDeviceConnectFailure(device));
    }

    /** `MSG_START_ADVERTISING`: starts the advertiser only with both the connect and advertise permissions. */
    method HandleStartAdvertising(env: Env) returns (radio: seq<RadioRequest>)
      requires Valid()
      modifies advertiser
      ensures Valid()
      ensures advertiser.State() ==
        if CheckBluetoothConnectPermission(env.host) && CheckBluetoothAdvertisePermission(env.host)
        then Broadcast.Start(old(advertiser.State()), env.server, env.service)
        else old(advertiser.State())
      ensures radio ==
        if CheckBluetoothConnectPermission(env.host) && CheckBluetoothAdvertisePermission(env.host)
        then Gatts(Broadcast.StartRequests(old(advertiser.State()), env.server, env.service))
        else []
    {
      radio := [];
      if !CheckBluetoothConnectPermission(env.host) || !CheckBluetoothAdvertisePermission(env.host) {
        return;
      }
      var requests := advertiser.StartBroadcast(env.server, env.service);
      radio := Gatts(requests);
    }

    /** `MSG_STOP_ADVERTISING`: stops the advertiser only with both the connect and advertise permissions. */
    method HandleStopAdvertising(env: Env) returns (radio: seq<RadioRequest>)
      requires Valid()
      modifies advertiser
      ensures Valid()
      ensures advertiser.State() ==
        if CheckBluetoothConnectPermission(env.host) && CheckBluetoothAdvertisePermission(env.host)
        then Broadcast.Stop(old(advertiser.State()))
        else old(advertiser.State())
      ensures radio ==
        if CheckBluetoothConnectPermission(env.host) && CheckBluetoothAdvertisePermission(env.host)
        then Gatts(Broadcast.StopRequests(old(advertiser.State())))
        else []
    {
      radio := [];
      if !CheckBluetoothConnectPermission(env.host) || !CheckBluetoothAdvertisePermission(env.host) {
        return;
      }
      var requests := advertiser.StopBroadcast();
      radio := Gatts(requests);
    }

    /** `MSG_BOND_STATE_CHANGED`: bonded, bonding and unbonded are announced; any other state reaches no one. */
    method HandleBondStateChanged(env: Env, device: BleDevice, bondState: int) returns (events: seq<Notified>)
      ensures bondState !in {BOND_NONE, BOND_BONDING, BOND_BONDED} ==> events == []
      ensures bondState == BOND_BONDED ==> events == ToAllListeners(listeners, env.failing, OnDeviceBonded(device))
      ensures bondState == BOND_BONDING ==> events == ToAllListeners(listeners, env.failing, OnDeviceBonding(device))
      ensures bondState == BOND_NONE ==> events == ToAllListeners(listeners, env.failing, OnDeviceUnBond(device))
    {
      var event := BondEvent(bondState, device);
      if event.None? {
        return [];
      }
      events := BroadcastAllListeners(env.failing, event.value);
    }

    /** `MSG_INIT_BONDED_DEVICES`: queues a connect for each bonded device with sync on. */
    method HandleInitBondedDevices() returns (ghost macs: seq<Mac>)
      requires Valid()
      modifies this
      ensures Valid()
      ensures |macs| == |model.bonded| && multiset(macs) == multiset(model.bonded.Keys)
      ensures queue == old(queue) + SyncConnects(model.bonded, macs)
      ensures scanState == old(scanState) && listeners == old(listeners) && syncRemoval == old(syncRemoval)
      ensures scanRuleInitialized == old(scanRuleInitialized)
    {
      var entries;
      entries, macs := model.GetBondedDevices();
      var connects: seq<Command> := [];
      for i := 0 to |entries|
        invariant connects == SyncConnects(model.bonded, macs[..i])
      {
        assert macs[..i + 1][..i] == macs[..i];
        if entries[i].item.syncOn {
          connects := connects + [ConnectDevice(entries[i].device)];
        }
      }
      assert macs[..|entries|] == macs;
      queue := queue + connects;
    }

    /** `MSG_SET_DEVICE_SYNC_STATE`: records the sync state, then queues a connect when on and a disconnect when off. */
    method HandleSetSyncState(device: BleDevice, arg1: int)
      requires Valid()
      modifies this, model, model.dao
      ensures Valid()
      ensures var on := arg1 == 1;
        && (device.mac in old(model.bonded) ==>
              model.bonded == old(model.bonded)[device.mac := old(model.bonded)[device.mac].(
                item := old(model.bonded)[device.mac].item.(syncOn := on))])
        && (device.mac !in old(model.bonded) ==> model.bonded == old(model.bonded))
        && queue == old(queue) + [if on then ConnectDevice(device) else DisconnectDevice(device)]
      ensures SyncStateTables(old(model.bonded), old(model.dao.rows), old(model.connected),
                              device, arg1 == 1, model.bonded, model.dao.rows, model.connected)
      ensures model.scanning == old(model.scanning) && model.filteredApps == old(model.filteredApps)
      ensures scanState == old(scanState) && listeners == old(listeners) && syncRemoval == old(syncRemoval)
      ensures scanRuleInitialized == old(scanRuleInitialized)
    {
      var on := arg1 == 1;
      model.SetSyncState(device, on);
      if on {
        queue := queue + [ConnectDevice(device)];
      } else {
        queue := queue + [DisconnectDevice(device)];
      }
    }

    /** `MSG_REMOVE_SYNC_DEVICE`: forgets the device, queues a disconnect, and announces the removal. */
    method HandleRemoveSyncDevice(env: Env, device: BleDevice) returns (events: seq<Notified>)
      requires Valid()
      modifies this, model, model.dao
      ensures Valid()
      ensures model.bonded == old(model.bonded) - {device.mac}
      ensures model.dao.rows == RemovedRows(old(model.bonded), old(model.dao.rows), device.mac)
      ensures model.connected == old(model.connected)
      ensures model.scanning == old(model.scanning) && model.filteredApps == old(model.filteredApps)
      ensures queue == old(queue) + [DisconnectDevice(device)]
      ensures events == ToAllListeners(listeners, env.failing, OnDeviceRemoved(device))
      ensures scanState == old(scanState) && listeners == old(listeners) && syncRemoval == old(syncRemoval)
      ensures scanRuleInitialized == old(scanRuleInitialized)
    {
      model.RemoveSyncDevice(device);
      queue := queue + [DisconnectDevice(device)];
      events := BroadcastAllListeners(env.failing, OnDeviceRemoved(device));
    }

    /**
     * `handleMessage`: runs the handler of one command; an unknown command is not handled. The
     * listener calls and radio requests it produces are returned; follow-up commands go to `queue`.
     */
    method HandleMessage(env: Env, command: Command)
      returns (handled: bool, events: seq<Notified>, radio: seq<RadioRequest>, ghost sightings: seq<BleDevice>, ghost macs: seq<Mac>,
               ghost connected: seq<BleDevice>, ghost connMacs: seq<Mac>)
      requires Valid() && env.splitWriteNum > 4
      modifies this, model, model.dao, advertiser
      ensures Valid()
      ensures handled <==> !command.Unknown?
      ensures OnlyTouches(command, old(Snapshot()), Snapshot())
      ensures Effect(command, env, old(Snapshot()), Snapshot(), events, radio, sightings, macs, connected, connMacs)
    {
      handled, events, radio := true, [], [];
      sightings, macs, connected, connMacs := [], [], [], [];
      match DispatchOf(command) {
        case ToScan =>
          events, sightings, macs := HandleScanCommand(env, command);
        case ToLink =>
          events := HandleLinkCommand(env, command);
        case ToRadio =>
          radio, macs := HandleRadioCommand(env, command);
        case NotHandled =>
          handled := false;
        case ToListeners =>
          events, sightings, macs, connected, connMacs := HandleListenerCommand(env, command);
        case ToRegistry =>
          events, macs := HandleRegistryCommand(env, command);
      }
    }

    /** Registering and unregistering a listener, dispatched to their handlers. */
    method HandleListenerCommand(env: Env, command: Command)
      returns (events: seq<Notified>, ghost sightings: seq<BleDevice>, ghost macs: seq<Mac>,
               ghost connected: seq<BleDevice>, ghost connMacs: seq<Mac>)
      requires Valid() && DispatchOf(command) == ToListeners
      modifies this
      ensures Valid()
      ensures OnlyTouches(command, old(Snapshot()), Snapshot())
      ensures Effect(command, env, old(Snapshot()), Snapshot(), events, [], sightings, macs, connected, connMacs)
    {
      events, sightings, macs, connected, connMacs := [], [], [], [], [];
      match command {
        case RegisterCoreCallback(listener) =>
          events, sightings, macs, connected, connMacs := HandleRegister(env, listener);
        case UnregisterCoreCallback(listener) =>
          HandleUnregister(listener);
      }
    }

    /** The commands that change the bonded devices and queue follow-up commands, dispatched to their handlers. */
    method HandleRegistryCommand(env: Env, command: Command) returns (events: seq<Notified>, ghost macs: seq<Mac>)
      requires Valid() && DispatchOf(command) == ToRegistry
      modifies this, model, model.dao
      ensures Valid()
      ensures OnlyTouches(command, old(Snapshot()), Snapshot())
      ensures Effect(command, env, old(Snapshot()), Snapshot(), events, [], [], macs, [], [])
    {
      events, macs := [], [];
      match command {
        case InitBondedDevices =>
          macs := HandleInitBondedDevices();
        case SetDeviceSyncState(device, arg1) =>
          HandleSetSyncState(device, arg1);
        case RemoveSyncDevice(device) =>
          events := HandleRemoveSyncDevice(env, device);
      }
    }

    /** The scan commands, dispatched to their handlers. */
    method HandleScanCommand(env: Env, command: Command)
      returns (events: seq<Notified>, ghost sightings: seq<BleDevice>, ghost macs: seq<Mac>)
      requires Valid() && DispatchOf(command) == ToScan
      modifies this, model
      ensures Valid()
      ensures OnlyTouches(command, old(Snapshot()), Snapshot())
      ensures Effect(command, env, old(Snapshot()), Snapshot(), events, [], sightings, macs, [], [])
    {
      sightings, macs := [], [];
      match command {
        case StartScanning(success) =>
          events := HandleStartScanning(env, success);
        case ScanningDevice(device) =>
          events := HandleScanning(env, device);
        case ScanFinished(result) =>
          events, sightings, macs := HandleScanFinished(env, result);
      }
    }

    /** The commands that report the state of a link, dispatched to their handlers. */
    method HandleLinkCommand(env: Env, command: Command) returns (events: seq<Notified>)
      requires Valid() && DispatchOf(command) == ToLink
      modifies model, model.dao
      ensures Valid()
      ensures OnlyTouches(command, old(Snapshot()), Snapshot())
      ensures Effect(command, env, old(Snapshot()), Snapshot(), events, [], [], [], [], [])
    {
      match command {
        case DeviceConnected(device) =>
          events := HandleDeviceConnected(env, device);
        case DeviceDisconnected(device) =>
          events := HandleDeviceDisconnected(env, device);
        case DeviceConnectFailed(device) =>
          events := HandleConnectFailed(env, device);
        case BondStateChanged(device, bondState) =>
          events := HandleBondStateChanged(env, device, bondState);
      }
    }

    /** The commands that only issue radio requests, dispatched to their handlers. */
    method HandleRadioCommand(env: Env, command: Command) returns (radio: seq<RadioRequest>, ghost macs: seq<Mac>)
      requires Valid() && env.splitWriteNum > 4 && DispatchOf(command) == ToRadio
      modifies this, advertiser
      ensures Valid()
      ensures OnlyTouches(command, old(Snapshot()), Snapshot())
      ensures Effect(command, env, old(Snapshot()), Snapshot(), [], radio, [], macs, [], [])
    {
      macs := [];
      match command {
        case NotificationPosted(sbn) =>
          radio, macs := HandlePosted(env, sbn);
        case NotificationRemoved(sbn) =>
          radio, macs := HandleRemoved(env, sbn);
        case ScanDevices =>
          radio := HandleScanDevices();
        case ConnectDevice(device) =>
          radio := HandleConnect(env, device);
        case DisconnectDevice(device) =>
          radio := HandleDisconnect(env, device);
        case StartAdvertising =>
          radio := HandleStartAdvertising(env);
        case StopAdvertising =>
          radio := HandleStopAdvertising(env);
      }
    }

    /**
     * `onSharedPreferenceChanged`: the work mode queues a stop (sending only, also the default) or
     * a start (sending and receiving) of advertising; the removal switch sets `syncRemoval`,
     * defaulting to true.
     */
    method OnSharedPreferenceChanged(change: PreferenceChange)
      modifies this
      ensures change.SyncOnRemoval? ==> syncRemoval == (change.value.None? || change.value.value)
      ensures !change.SyncOnRemoval? ==> syncRemoval == old(syncRemoval)
      ensures change.BleWorkMode? && (change.mode.None? || change.mode.value == SendingOnly) ==>
        queue == old(queue) + [StopAdvertising]
      ensures change.BleWorkMode? && change.mode == Some(SendingAndReceiving) ==>
        queue == old(queue) + [StartAdvertising]
      ensures !(change.BleWorkMode? && (change.mode.None? || change.mode.value != OtherMode)) ==> queue == old(queue)
      ensures scanState == old(scanState) && listeners == old(listeners)
      ensures scanRuleInitialized == old(scanRuleInitialized)
    {
      match change {
        case BleWorkMode(mode) =>
          var value := if mode.Some? then mode.value else SendingOnly;
          if value == SendingOnly {
            queue := queue + [StopAdvertising];
          } else if value == SendingAndReceiving {
            queue := queue + [StartAdvertising];
          }
        case SyncOnRemoval(value) =>
          syncRemoval := if value.Some? then value.value else true;
        case OtherKey =>
      }
    }

    /**
     * `CoreBleServiceImpl.getBondedDevices`: one record per bonded device with its sync flag,
     * marked connected exactly when its address is in the connected set.
     */
    method GetBondedDevices() returns (devices: seq<BondedBleDevice>, ghost macs: seq<Mac>)
      requires Valid()
      ensures |devices| == |macs| == |model.bonded| && multiset(macs) == multiset(model.bonded.Keys)
      ensures forall i :: 0 <= i < |devices| ==> (macs[i] in model.bonded
        && devices[i] == BondedBleDevice(model.bonded[macs[i]].device, model.bonded[macs[i]].item.syncOn,
                                         macs[i] in model.connected))
    {
      var connectedEntries, connectedMacs := model.GetConnectedDevices();
      var connectedAddresses := seq(|connectedEntries|, i requires 0 <= i < |connectedEntries| => connectedEntries[i].device.mac);
      forall m
        ensures m in connectedAddresses <==> m in model.connected
      {
        if m in model.connected {
          assert m in multiset(connectedMacs);
          var j :| 0 <= j < |connectedMacs| && connectedMacs[j] == m;
          assert connectedAddresses[j] == m;
        }
      }
      var entries;
      entries, macs := model.GetBondedDevices();
      devices := [];
      for i := 0 to |entries|
        invariant |devices| == i
        invariant forall j :: 0 <= j < i ==>
          devices[j] == BondedBleDevice(model.bonded[macs[j]].device, model.bonded[macs[j]].item.syncOn,
                                        macs[j] in model.connected)
      {
        var e := entries[i];
        devices := devices + [BondedBleDevice(e.device, e.item.syncOn, e.device.mac in connectedAddresses)];
      }
    }

    /** `CoreBleServiceImpl.getConnectedDevices`: one record per connected device, all marked connected. */
    method GetConnectedDevices() returns (devices: seq<BondedBleDevice>, ghost macs: seq<Mac>)
      ensures |devices| == |macs| == |model.connected| && multiset(macs) == multiset(model.connected.Keys)
      ensures forall i :: 0 <= i < |devices| ==> (macs[i] in model.connected
        && devices[i] == BondedBleDevice(model.connected[macs[i]].device, model.connected[macs[i]].item.syncOn, true))
    {
      var entries;
      entries, macs := model.GetConnectedDevices();
      devices := seq(|entries|, i requires 0 <= i < |entries| =>
        BondedBleDevice(entries[i].device, entries[i].item.syncOn, true));
    }
  }
}
