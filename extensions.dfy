/**
 * The helpers in `coreservice/util/Extensions.kt`: permission checks and the permission list,
 * conversion of a host notification to a `BleMessage`, the ids a received message is shown and
 * cancelled under, and the process-wide database.
 */
module Extensions {
  import opened Common
  import opened Platform
  import opened Proto
  import Database

  // ---------------------------------------------------------------------------------------------
  // Permissions

  /** `checkBluetoothConnectPermission`: needed only from SDK `S` on. */
  predicate CheckBluetoothConnectPermission(host: Host) {
    if host.sdk >= S then BluetoothConnect in host.granted else true
  }

  /** `checkBluetoothAdvertisePermission`: needed only from SDK `S` on. */
  predicate CheckBluetoothAdvertisePermission(host: Host) {
    if host.sdk >= S then BluetoothAdvertise in host.granted else true
  }

  /** `checkPostNotificationPermission`: needed only from SDK `TIRAMISU` on. */
  predicate CheckPostNotificationPermission(host: Host) {
    if host.sdk >= TIRAMISU then PostNotifications in host.granted else true
  }

  /** `BLE_PERMISSIONS` */
  const BasePermissions: seq<Permission> := [Bluetooth, BluetoothAdmin, AccessFineLocation, AccessCoarseLocation]
  /** `BLE_PERMISSIONS_API_31` */
  const Api31Permissions: seq<Permission> := [BluetoothScan, BluetoothConnect, AccessFineLocation, BluetoothAdvertise]
  /** `NOTIFICATION_PERMISSIONS` */
  const NotificationPermissions: seq<Permission> := [PostNotifications]

  /** The list `collectBlePermissions` assembles on a device of the given SDK level. */
  function BlePermissions(sdk: int): seq<Permission> {
    BasePermissions
      + (if sdk >= S then Api31Permissions else [])
      + (if sdk >= TIRAMISU then NotificationPermissions else [])
  }

  /** `collectBlePermissions`: the base list, then the API-31 list, then the notification list. */
  method CollectBlePermissions(sdk: int) returns (permissions: seq<Permission>)
    ensures permissions == BlePermissions(sdk)
  {
    permissions := BasePermissions;
    if sdk >= S {
      permissions := permissions + Api31Permissions;
    }
    if sdk >= TIRAMISU {
      permissions := permissions + NotificationPermissions;
    }
  }

  /**
   * Which permissions the list holds: the base four always, the connect, scan and advertise
   * permissions exactly from SDK `S`, the notification permission exactly from `TIRAMISU`.
   */
  lemma BlePermissionsContents(sdk: int)
    ensures |BlePermissions(sdk)| == 4 + (if sdk >= S then 4 else 0) + (if sdk >= TIRAMISU then 1 else 0)
    ensures forall p :: p in BasePermissions ==> p in BlePermissions(sdk)
    ensures BluetoothConnect in BlePermissions(sdk) <==> sdk >= S
    ensures BluetoothScan in BlePermissions(sdk) <==> sdk >= S
    ensures BluetoothAdvertise in BlePermissions(sdk) <==> sdk >= S
    ensures PostNotifications in BlePermissions(sdk) <==> sdk >= TIRAMISU
  {
  }

  /** Every listed permission is granted. */
  ghost predicate AllGranted(host: Host, permissions: seq<Permission>) {
    forall i :: 0 <= i < |permissions| ==> permissions[i] in host.granted
  }

  /** `allPermissionsGranted`: stops at the first permission not granted. */
  method AllPermissionsGranted(host: Host, permissions: seq<Permission>) returns (granted: bool)
    ensures granted <==> AllGranted(host, permissions)
  {
    for i := 0 to |permissions|
      invariant AllGranted(host, permissions[..i])
    {
      if permissions[i] !in host.granted {
        return false;
      }
    }
    return true;
  }

  /** `allBlePermissionsGranted` */
  method AllBlePermissionsGranted(host: Host) returns (granted: bool)
    ensures granted <==> AllGranted(host, BlePermissions(host.sdk))
  {
    var permissions := CollectBlePermissions(host.sdk);
    granted := AllPermissionsGranted(host, permissions);
  }

  /**
   * `checkAndRequestPermissions`: when a listed permission is missing, the whole list is
   * requested and the answer is false; otherwise nothing is requested.
   */
  method CheckAndRequestPermissions(host: Host) returns (ok: bool, request: Option<seq<Permission>>)
    ensures ok <==> AllGranted(host, BlePermissions(host.sdk))
    ensures ok ==> request == None
    ensures !ok ==> request == Some(BlePermissions(host.sdk))
  {
    var permissions := CollectBlePermissions(host.sdk);
    var granted := AllPermissionsGranted(host, permissions);
    if !granted {
      return false, Some(permissions);
    }
    return true, None;
  }

  /** An app holding every listed permission passes each of the three individual checks. */
  lemma AllGrantedPassesChecks(host: Host)
    requires AllGranted(host, BlePermissions(host.sdk))
    ensures CheckBluetoothConnectPermission(host)
    ensures CheckBluetoothAdvertisePermission(host)
    ensures CheckPostNotificationPermission(host)
  {
    var ps := BlePermissions(host.sdk);
    if host.sdk >= S {
      assert ps[5] == BluetoothConnect && ps[7] == BluetoothAdvertise;
    }
    if host.sdk >= TIRAMISU {
      assert ps[8] == PostNotifications;
    }
  }

  // ---------------------------------------------------------------------------------------------
  // Messages

  /** `getAppName`: the package's label, or `""` when the lookup fails. */
  function GetAppName(labels: map<string, string>, pkg: string): (name: string)
    ensures pkg !in labels ==> name == ""
  {
    if pkg in labels then labels[pkg] else ""
  }

  /**
   * `toProtoMessage`. The channel is copied from the builder being filled (the local `notification`
   * shadows the host notification), so it is the builder's unset value `""` on every SDK level.
   */
  function ToProtoMessage(host: Host, labels: map<string, string>, sbn: HostStatusBarNotification): (m: BleMessage)
    ensures m.msgType == PostNotification
    ensures m.notification.pkg == sbn.packageName && m.notification.id == sbn.id
  {
    var n := sbn.notification;
    var builder := Notification(
      NullableToString(n.title),
      NullableToString(n.bigTitle),
      NullableToString(n.text),
      NullableToString(n.subText),
      n.priority,
      n.flags,
      n.visibility,
      GetAppName(labels, sbn.packageName),
      DefaultNotification.channelId);
    var built := if host.sdk >= O then builder.(channelId := builder.channelId) else builder;
    BleMessage(PostNotification, StatusBarNotification(sbn.packageName, sbn.id, built))
  }

  /** `toRemovalProtoMessage`: a removal carrying the package and id only. */
  function ToRemovalProtoMessage(sbn: HostStatusBarNotification): (m: BleMessage)
    ensures m.msgType == RemoveNotification
    ensures m.notification.pkg == sbn.packageName && m.notification.id == sbn.id
  {
    BleMessage(RemoveNotification, StatusBarNotification(sbn.packageName, sbn.id, DefaultNotification))
  }

  /**
   * What a posted message carries: every text extra (an absent one as `"null"`), the priority,
   * flags, visibility, app label, and an empty channel whatever the host notification's channel.
   */
  lemma ToProtoMessageContents(host: Host, labels: map<string, string>, sbn: HostStatusBarNotification)
    ensures var n := ToProtoMessage(host, labels, sbn).notification.notification;
      && (sbn.notification.title.Some? ==> n.title == sbn.notification.title.value)
      && (sbn.notification.title.None? ==> n.title == "null")
      && (sbn.notification.bigTitle.Some? ==> n.bigTitle == sbn.notification.bigTitle.value)
      && (sbn.notification.bigTitle.None? ==> n.bigTitle == "null")
      && (sbn.notification.text.Some? ==> n.contentText == sbn.notification.text.value)
      && (sbn.notification.text.None? ==> n.contentText == "null")
      && (sbn.notification.subText.Some? ==> n.subText == sbn.notification.subText.value)
      && (sbn.notification.subText.None? ==> n.subText == "null")
      && n.priority == sbn.notification.priority
      && n.flags == sbn.notification.flags
      && n.visibility == sbn.notification.visibility
      && n.appName == GetAppName(labels, sbn.packageName)
      && n.channelId == ""
  {
  }

  // ---------------------------------------------------------------------------------------------
  // Ids on the receiving side

  /** The 32-bit two's-complement value of `x` (Java `int` arithmetic wraps). */
  function Wrap32(x: int): (r: int)
    ensures -0x8000_0000 <= r < 0x8000_0000
    ensures (x - r) % 0x1_0000_0000 == 0
  {
    (x + 0x8000_0000) % 0x1_0000_0000 - 0x8000_0000
  }

  /** `String.hashCode`: `s[0]*31^(n-1) + ... + s[n-1]` in `int` arithmetic. */
  function StringHash(s: string): int
  {
    if s == [] then 0 else Wrap32(31 * StringHash(s[..|s| - 1]) + s[|s| - 1] as int)
  }

  /** `Objects.hash(id, channelId)`: `31 * (31 * 1 + id) + channelId.hashCode()` in `int` arithmetic. */
  function NotificationId(id: int, channelId: string): int {
    Wrap32(31 * Wrap32(31 + id) + StringHash(channelId))
  }

  /** The channel a received notification is shown in: sender address, package, inner channel. */
  function ChannelId(address: Mac, sbn: StatusBarNotification): (c: string)
    ensures |c| == |address| + |sbn.pkg| + |sbn.notification.channelId|
    ensures c[..|address|] == address
  {
    address + sbn.pkg + sbn.notification.channelId
  }

  /** What the receiving side asks of the notification manager. */
  datatype NotificationRequest =
    | CreateChannel(channelId: string, nameArg: string, descriptionArg: string)
    | Notify(notificationId: int, channelId: string, title: string, text: string, priority: int, visibility: int)
    | Cancel(notificationId: int)

  /**
   * `buildAndSendNotification`: the channel is created first when the SDK has channels and it
   * does not exist yet; the notification is shown only with the post permission.
   */
  function BuildAndSendNotification(host: Host, channels: set<string>, device: BleDevice, sbn: StatusBarNotification)
    : (requests: seq<NotificationRequest>)
    ensures |requests| <= 2
    ensures (exists i :: 0 <= i < |requests| && requests[i].Notify?) <==> CheckPostNotificationPermission(host)
    ensures (exists i :: 0 <= i < |requests| && requests[i].CreateChannel?)
      <==> host.sdk >= O && ChannelId(device.mac, sbn) !in channels
    ensures forall i :: 0 <= i < |requests| ==> !requests[i].Cancel?
    ensures forall i :: 0 <= i < |requests| && requests[i].Notify? ==>
      requests[i].notificationId == NotificationId(sbn.id, ChannelId(device.mac, sbn))
  {
    var channelId := ChannelId(device.mac, sbn);
    var n := sbn.notification;
    var create :=
      if host.sdk >= O && channelId !in channels
      then [CreateChannel(channelId, device.name + "-" + n.appName, device.name)]
      else [];
    var notify :=
      if CheckPostNotificationPermission(host)
      then [Notify(NotificationId(sbn.id, channelId), channelId, n.title + " (" + n.appName + ")",
                   n.contentText, n.priority, n.visibility)]
      else [];
    var requests := create + notify;
    assert notify != [] ==> requests[|create|] == notify[0];
    assert create != [] ==> requests[0] == create[0];
    requests
  }

  /** `buildAndRemoveNotification`: cancels the id derived from the same channel expression. */
  function BuildAndRemoveNotification(device: BleDevice, sbn: StatusBarNotification): (request: NotificationRequest)
    ensures request.Cancel?
  {
    Cancel(NotificationId(sbn.id, ChannelId(device.mac, sbn)))
  }

  /**
   * A removal cancels exactly what the matching post showed: both messages reach the receiver
   * with an empty inner channel, so both sides derive the channel address ++ package and the
   * same notification id.
   */
  lemma PostAndRemoveIdsAgree(host: Host, labels: map<string, string>, channels: set<string>,
                              device: BleDevice, sbn: HostStatusBarNotification)
    requires CheckPostNotificationPermission(host)
    ensures var post := ToProtoMessage(host, labels, sbn).notification;
      var remove := ToRemovalProtoMessage(sbn).notification;
      var shown := BuildAndSendNotification(host, channels, device, post);
      && ChannelId(device.mac, post) == ChannelId(device.mac, remove) == device.mac + sbn.packageName
      && exists i :: 0 <= i < |shown| && shown[i].Notify?
           && shown[i].notificationId == BuildAndRemoveNotification(device, remove).notificationId
  {
    var post := ToProtoMessage(host, labels, sbn).notification;
    ToProtoMessageContents(host, labels, sbn);
    var remove := ToRemovalProtoMessage(sbn).notification;
    assert post.pkg == remove.pkg == sbn.packageName;
    assert post.notification.channelId == remove.notification.channelId == "";
    assert device.mac + sbn.packageName + "" == device.mac + sbn.packageName;
    var shown := BuildAndSendNotification(host, channels, device, post);
    var i :| 0 <= i < |shown| && shown[i].Notify?;
  }

  // ---------------------------------------------------------------------------------------------
  // Database

  /** The process-wide `appServiceDb` behind `getServiceDatabase`. */
  class ServiceDatabaseHolder {
    var appServiceDb: Database.ServiceDatabase?

    constructor()
      ensures appServiceDb == null
    {
      appServiceDb := null;
    }

    /** `getServiceDatabase`: builds the database on the first call and returns that instance ever after. */
    method GetServiceDatabase() returns (db: Database.ServiceDatabase)
      modifies this
      ensures old(appServiceDb) != null ==> db == old(appServiceDb)
      ensures old(appServiceDb) == null ==> fresh(db)
      ensures appServiceDb == db
    {
      if appServiceDb == null {
        appServiceDb := new Database.ServiceDatabase();
      }
      db := appServiceDb;
    }
  }
}
