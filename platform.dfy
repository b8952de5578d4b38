/**
 * The parts of the Android host the core consults: the SDK level, the runtime permissions held,
 * and the fields of a posted notification that the core reads.
 */
module Platform {
  import opened Common

  /** `Build.VERSION_CODES.O`, `S` and `TIRAMISU`. */
  const O: int := 26
  const S: int := 31
  const TIRAMISU: int := 33

  /** The runtime permissions the core names. */
  datatype Permission =
    | Bluetooth
    | BluetoothAdmin
    | AccessFineLocation
    | AccessCoarseLocation
    | BluetoothScan
    | BluetoothConnect
    | BluetoothAdvertise
    | PostNotifications

  /** The running device: its SDK level and the permissions granted to the app. */
  datatype Host = Host(sdk: int, granted: set<Permission>)

  /** `Notification.FLAG_GROUP_SUMMARY` */
  const FLAG_GROUP_SUMMARY: int := 0x200

  /** `flags and FLAG_GROUP_SUMMARY != 0` on a 32-bit two's-complement `flags`: bit 9 is set. */
  predicate IsGroupSummary(flags: int) {
    (flags / FLAG_GROUP_SUMMARY) % 2 == 1
  }

  /**
   * `android.app.Notification` as the core reads it: the text extras (absent ones are `None`),
   * priority, flags, visibility and channel.
   */
  datatype HostNotification = HostNotification(
    title: Option<string>,
    bigTitle: Option<string>,
    text: Option<string>,
    subText: Option<string>,
    priority: int,
    flags: int,
    visibility: int,
    channelId: string)

  /** `android.service.notification.StatusBarNotification` */
  datatype HostStatusBarNotification = HostStatusBarNotification(
    packageName: string, id: int, notification: HostNotification)

  /** `TextUtils.isEmpty`: absent or of length zero. */
  predicate IsEmptyText(s: Option<string>) {
    s.None? || s.value == ""
  }

  /** Kotlin's `Any?.toString()`: the text itself, or `"null"` when absent. */
  function NullableToString(s: Option<string>): (r: string)
    ensures s.Some? ==> r == s.value
    ensures s.None? ==> r == "null"
  {
    if s.Some? then s.value else "null"
  }
}
