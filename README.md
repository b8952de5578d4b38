# NotiSync synchronisation core, in Dafny

NotiSync mirrors the notifications of one Android phone on other phones over Bluetooth Low
Energy. This project models the core of that system and proves properties of the model:

- the frame codec and reassembly channel (`BleMessageChannel`), which cuts a serialized
  message into numbered frames and reassembles them on the receiving side;
- the device registry (`ServiceModel`), which keeps the connected, sighted and bonded devices
  keyed by MAC address, reconciles the stored bonded devices with the radio at start-up, and
  holds the filtered apps;
- the command actor (`CoreBleManagerService.handleMessage`), which processes one command at a
  time: the scan lifecycle, the replay of state to a new listener, the connect guard, the
  sync and remove fan-out, and the filtering of posted notifications;
- the notification relay (`NotificationListener`), which filters host notifications, forwards
  them over a supervised binder link, and parks batches while the link is down;
- the message builders and id derivation (`util/Extensions.kt`), the receiving side
  (`BleBroadcastManager`), the `BondedBleDevice` parcel, and the three view models of the app
  (`BaseViewModel`, `HomeViewModel`, `FilteredAppsViewModel`).

Every actor is modelled as a sequential class whose methods are the handlers of its queue.
The radio, the GATT server, binder calls, the notification manager and Room are collaborators
whose requests are recorded as values (radio requests, listener calls, notification requests)
or whose storage is a key-addressed table. Kotlin's signed bytes, 32-bit `int` arithmetic
(`Objects.hash`), `HashMap` iteration order (every value once, in an unspecified order) and
`LinkedHashMap` keying are written out explicitly.

Where the code's behaviour differs from what its names suggest, the model follows the code:

- `MSG_SCAN_FINISHED` adds the scan results to the earlier sightings; it does not replace them.
- While the link is down, `pushToCoreService` keeps the first parked batch per action
  (`computeIfAbsent`); later batches for that action are discarded.
- `MSG_REMOVE_SYNC_DEVICE` forgets the bonded device but leaves its MAC in the connected map.
- `MSG_NOTIFICATION_POSTED` writes to every connected device whether or not sync is on for it.
- `toProtoMessage` reads the channel from the builder being filled (the local `notification`
  shadows the source), so the channel it sends is always empty. As a consequence a removal,
  which carries no channel, cancels exactly the id the post showed (`PostAndRemoveIdsAgree`).
- The comparator of `FilteredAppsViewModel.loadAllAppsInner` breaks the `Comparator` contract:
  for two unfiltered apps it answers 1 both ways. On fewer than 32 apps the platform sort is a
  binary insertion sort, which the model follows; it keeps the unfiltered apps in the package
  manager's order. On 32 or more apps with some of them filtered, TimSort's merge can detect the
  violation and throw `IllegalArgumentException` ("Comparison method violates its general
  contract!") inside the `viewModelScope` coroutine, which ends the app (see Findings).

## Model

| member | source | states |
|---|---|---|
| Frames.SignExtendedDecode | libcoreservice/src/main/java/io/github/gitofleonardo/coreservice/util/MessageChannel.kt:117-131 | the as-written decoder reads back the encoded 16-bit value, minus 256 whenever the low byte is 0x80 or more (the sign-extended low byte) |
| Frames.SignExtendedRoundTripIff | libcoreservice/src/main/java/io/github/gitofleonardo/coreservice/util/MessageChannel.kt:117-131 | for 0 <= n < 65536, `bytesToInt(intToBytes(n)) == n` holds exactly when n % 256 < 128 |
| Frames.SignExtensionBreaksIndex128 | libcoreservice/src/main/java/io/github/gitofleonardo/coreservice/util/MessageChannel.kt:117-131 | 128 is encoded as [0, -128] and decoded as 65408 |
| Frames.UnsignedRoundTrip | libcoreservice/src/main/java/io/github/gitofleonardo/coreservice/util/MessageChannel.kt:127-131 | with both bytes read unsigned, decoding the encoding gives n mod 65536 for every n |
| Frames.ChunksShape | libcoreservice/src/main/java/io/github/gitofleonardo/coreservice/util/MessageChannel.kt:77-78 | `chunked(size)` keeps the content in order, gives ceil(len/size) chunks, every chunk but the last of exactly `size` bytes, none empty |
| Frames.Write | libcoreservice/src/main/java/io/github/gitofleonardo/coreservice/util/MessageChannel.kt:77-89 | the bytes sent are the frames of the content concatenated in index order |
| Frames.FramesLayout | libcoreservice/src/main/java/io/github/gitofleonardo/coreservice/util/MessageChannel.kt:79-89 | frame i is header intToBytes(i) ++ intToBytes(count) followed by chunk i; every frame but the last is exactly `splitWriteNum` bytes; no content gives no frames |
| Frames.PacketsAreFrames | libcoreservice/src/main/java/io/github/gitofleonardo/coreservice/util/MessageChannel.kt:77-99 | cutting the concatenated buffer back into `splitWriteNum`-byte packets gives back exactly the frames |
| Channel.ShortPacketIgnored | libcoreservice/src/main/java/io/github/gitofleonardo/coreservice/util/MessageChannel.kt:36-37 | a packet shorter than the four header bytes throws before any state change and is dropped |
| Channel.FirstFrameRestarts | libcoreservice/src/main/java/io/github/gitofleonardo/coreservice/util/MessageChannel.kt:38-46 | a frame whose index reads 0 discards any partial message; the outcome does not depend on it |
| Channel.DeliveryClearsPartial | libcoreservice/src/main/java/io/github/gitofleonardo/coreservice/util/MessageChannel.kt:54-55 | a completed message leaves the channel idle |
| Channel.SignExtendingFaithfulIff | libcoreservice/src/main/java/io/github/gitofleonardo/coreservice/util/MessageChannel.kt:111-125 | the as-written header decoder reads back every value up to n exactly when n < 128 |
| Channel.ZeroExtendingFaithfulIff | libcoreservice/src/main/java/io/github/gitofleonardo/coreservice/util/MessageChannel.kt:111-125 | the corrected decoder reads back every value up to n exactly when n < 65536 |
| Channel.FrameFields | libcoreservice/src/main/java/io/github/gitofleonardo/coreservice/util/MessageChannel.kt:79-89 | what a receiver reads from the header of frame j of `write`, and that its payload is chunk j |
| Channel.FramesFields | libcoreservice/src/main/java/io/github/gitofleonardo/coreservice/util/MessageChannel.kt:79-89 | every frame of `write` carries chunk j after its header, index field j and count field the frame count, as decoded |
| Channel.FeedPrefix | libcoreservice/src/main/java/io/github/gitofleonardo/coreservice/util/MessageChannel.kt:38-53 | after frame 0 and further non-final frames of one count, the channel holds exactly the concatenated payloads and has delivered nothing |
| Channel.FeedComplete | libcoreservice/src/main/java/io/github/gitofleonardo/coreservice/util/MessageChannel.kt:34-60 | frames numbered 0..count-1 with that count deliver exactly one parse of the concatenated payloads and leave the channel idle |
| Channel.RoundTrip | libcoreservice/src/main/java/io/github/gitofleonardo/coreservice/util/MessageChannel.kt:34-60 | when the decoder is faithful up to the frame count, reading the frames of `write` in order delivers exactly the parse of the original content (nothing for empty content) |
| Channel.Message128FramesLost | libcoreservice/src/main/java/io/github/gitofleonardo/coreservice/util/MessageChannel.kt:117-125 | as written, a payload of 128 frames is never delivered: frame 128 reads as 65408, so no frame is the last |
| Channel.Message128FramesDeliveredWhenCorrected | libcoreservice/src/main/java/io/github/gitofleonardo/coreservice/util/MessageChannel.kt:117-125 | with the corrected decoder the same 128-frame payload is delivered |
| Channel.SignExtendedHeader | libcoreservice/src/main/java/io/github/gitofleonardo/coreservice/util/MessageChannel.kt:117-131 | over the sixteen-bit range the as-written decoder reads j back as j when its low byte is below 0x80, as j - 256 when it is not and j >= 256, and as j + 65280 for 128..255 |
| Channel.SignExtendedEndIff | libcoreservice/src/main/java/io/github/gitofleonardo/coreservice/util/MessageChannel.kt:34-60 | among the frames of an n-frame message (1 <= n < 65536), frame j reads as the count less one exactly when it is `SignExtendedEnd(n)` (none for n = 128 or a multiple of 256, frame n - 257 when n is 128 more than a non-zero multiple of 256, else n - 1), and only frame 0 reads as index 0 |
| Channel.FeedEndsAt | libcoreservice/src/main/java/io/github/gitofleonardo/coreservice/util/MessageChannel.kt:34-60 | packets starting at index 0, never at index 0 again, of which only packet e reads as the last, deliver the parse of the first e + 1 payloads and leave nothing pending |
| Channel.FeedDrops | libcoreservice/src/main/java/io/github/gitofleonardo/coreservice/util/MessageChannel.kt:47-49 | with no message under way, packets not read as index 0 are dropped and change nothing |
| Channel.SignExtendedNoEnd | libcoreservice/src/main/java/io/github/gitofleonardo/coreservice/util/MessageChannel.kt:34-60 | when no frame reads as the last, feeding the frames leaves the whole payload pending and delivers nothing |
| Channel.SignExtendedEndsAt | libcoreservice/src/main/java/io/github/gitofleonardo/coreservice/util/MessageChannel.kt:34-60 | when frame e reads as the last, feeding the frames delivers exactly the first e + 1 chunks as one message and drops the rest |
| Channel.SignExtendingOutcome | libcoreservice/src/main/java/io/github/gitofleonardo/coreservice/util/MessageChannel.kt:34-60 | as written, a non-empty payload of n < 65536 frames stays pending and is never delivered when n is 128 or a multiple of 256; is delivered truncated to its first n - 256 chunks, dropping the last 256 frames, when n is 128 more than a non-zero multiple of 256; and is delivered whole otherwise |
| Channel.BleMessageChannel.constructor | libcoreservice/src/main/java/io/github/gitofleonardo/coreservice/util/MessageChannel.kt:26-29 | a channel starts idle, with no callbacks |
| Channel.BleMessageChannel.AddMessageCallback | libcoreservice/src/main/java/io/github/gitofleonardo/coreservice/util/MessageChannel.kt:105-107 | callbacks are appended, so they are notified in registration order |
| Channel.BleMessageChannel.Read | libcoreservice/src/main/java/io/github/gitofleonardo/coreservice/util/MessageChannel.kt:29-64 | one step of `read`: the single buffer (whatever the sender) and the deliveries, one per callback in order, follow the step function |
| Registry.ReconcileWithPermission | libcoreservice/src/main/java/io/github/gitofleonardo/coreservice/ServiceModel.kt:159-208 | with connect permission, exactly the stored rows whose address the radio bonds survive, renamed to the radio name |
| Registry.ReconcileWithoutPermission | libcoreservice/src/main/java/io/github/gitofleonardo/coreservice/ServiceModel.kt:159-208 | without connect permission no stored row is changed or deleted |
| Registry.ReconcileStep | libcoreservice/src/main/java/io/github/gitofleonardo/coreservice/ServiceModel.kt:168-197 | one loop step renames, deletes or leaves one row and touches no other |
| Registry.ReconcileDone | libcoreservice/src/main/java/io/github/gitofleonardo/coreservice/ServiceModel.kt:159-208 | after every row is processed the stepwise state is the reconciled state |
| Registry.ReconcileRow | libcoreservice/src/main/java/io/github/gitofleonardo/coreservice/ServiceModel.kt:168-197 | one row of the loop: renamed when the radio knows it under another name, deleted when it does not and permission allows, else unchanged |
| Registry.LoadBonded | libcoreservice/src/main/java/io/github/gitofleonardo/coreservice/ServiceModel.kt:159-208 | the loop leaves exactly the reconciled rows stored and maps each surviving address to its record and radio name |
| Registry.ServiceModel.constructor | libcoreservice/src/main/java/io/github/gitofleonardo/coreservice/ServiceModel.kt:20-67 | empty connected, scanning and filtered lists; the bonded table is loaded by reconciliation |
| Registry.ServiceModel.InitBondedDevices | libcoreservice/src/main/java/io/github/gitofleonardo/coreservice/ServiceModel.kt:159-208 | the bonded table holds exactly the surviving addresses under the radio names; the store is reconciled; in-memory table empty without permission |
| Registry.ServiceModel.RemoveConnectedDevice | libcoreservice/src/main/java/io/github/gitofleonardo/coreservice/ServiceModel.kt:69-72 | only that MAC leaves the connected table |
| Registry.ServiceModel.InsertBondedDevice | libcoreservice/src/main/java/io/github/gitofleonardo/coreservice/ServiceModel.kt:148-157 | idempotent: a bonded MAC returns its record with no insert and no key used; otherwise one record (name, MAC, sync on) is stored and bonded under the next generated key, which becomes the table's last key |
| Registry.ServiceModel.AddConnectedDevice | libcoreservice/src/main/java/io/github/gitofleonardo/coreservice/ServiceModel.kt:74-78 | the device ends bonded and connected, mapped to (device, bonded record); a MAC not bonded before gets one record (name, MAC, sync on) under the next generated key, stored and bonded, and nothing else changes |
| Registry.ServiceModel.GetBondedDevices | libcoreservice/src/main/java/io/github/gitofleonardo/coreservice/ServiceModel.kt:81-84 | every bonded entry exactly once |
| Registry.ServiceModel.GetConnectedDevices | libcoreservice/src/main/java/io/github/gitofleonardo/coreservice/ServiceModel.kt:86-89 | every connected entry exactly once |
| Registry.ServiceModel.SetSyncState | libcoreservice/src/main/java/io/github/gitofleonardo/coreservice/ServiceModel.kt:91-99 | unknown MAC: nothing changes; known MAC: `syncOn` set in the shared record and only that row stored; no key generated |
| Registry.ServiceModel.RemoveSyncDevice | libcoreservice/src/main/java/io/github/gitofleonardo/coreservice/ServiceModel.kt:101-108 | the MAC leaves the bonded table; its row is deleted only if it was bonded; connected table untouched; no key generated |
| Registry.ServiceModel.AddScanningDevice | libcoreservice/src/main/java/io/github/gitofleonardo/coreservice/ServiceModel.kt:111-117 | returns true exactly when the MAC is not bonded, and then stores the sighting under its MAC; otherwise no change |
| Registry.ServiceModel.ClearScanningDevices | libcoreservice/src/main/java/io/github/gitofleonardo/coreservice/ServiceModel.kt:119-122 | the scanning table becomes empty, nothing else changes |
| Registry.ServiceModel.GetScanningDevices | libcoreservice/src/main/java/io/github/gitofleonardo/coreservice/ServiceModel.kt:124-127 | exactly the sightings, each once |
| Registry.ServiceModel.OnFilteredAppsChanged | libcoreservice/src/main/java/io/github/gitofleonardo/coreservice/ServiceModel.kt:210-219 | the list is replaced (not merged); the filtered packages are exactly the package names of the new list |
| Database.BondedDevicesTable.Insert | libcoreservice/src/main/java/io/github/gitofleonardo/coreservice/database/BondedDevicesDao.kt:15-16 | the row is stored under a generated key one above every key handed out before (`lastUid`), so absent from the table and never reused; the new key becomes `lastUid` |
| Database.BondedDevicesTable.Update | libcoreservice/src/main/java/io/github/gitofleonardo/coreservice/database/BondedDevicesDao.kt:24-25 | replaces the row with the same key, if any |
| Database.BondedDevicesTable.Delete | libcoreservice/src/main/java/io/github/gitofleonardo/coreservice/database/BondedDevicesDao.kt:18-19 | removes the row with the same key, if any |
| Database.BondedDevicesTable.GetBondedDevices | libcoreservice/src/main/java/io/github/gitofleonardo/coreservice/database/BondedDevicesDao.kt:12-13 | every row exactly once |
| Database.FilteredAppsTable.Insert | libcoreservice/src/main/java/io/github/gitofleonardo/coreservice/database/FilteredAppsDao.kt:18-19 | a clash on the key or the unique package index aborts with no change; otherwise the row is stored under the given key, or under a generated key one above every key stored before; `lastUid` rises to the stored key when that is larger, so generated keys are never reused |
| Database.FilteredAppsTable.Delete | libcoreservice/src/main/java/io/github/gitofleonardo/coreservice/database/FilteredAppsDao.kt:21-22 | removes the row with the same key, if any; `lastUid` kept, so a deleted key is not generated again |
| Database.FilteredAppsTable.GetFilteredApps | libcoreservice/src/main/java/io/github/gitofleonardo/coreservice/database/FilteredAppsDao.kt:12-13 | every row exactly once |
| Extensions.CollectBlePermissions | libcoreservice/src/main/java/io/github/gitofleonardo/coreservice/util/Extensions.kt:125-134 | the list is the one the SDK level selects |
| Extensions.BlePermissionsContents | libcoreservice/src/main/java/io/github/gitofleonardo/coreservice/util/Extensions.kt:125-134 | the base four always; connect, scan and advertise exactly from SDK S; post-notifications exactly from TIRAMISU |
| Extensions.AllPermissionsGranted | libcoreservice/src/main/java/io/github/gitofleonardo/coreservice/util/Extensions.kt:136-145 | true exactly when every listed permission is granted |
| Extensions.AllBlePermissionsGranted | libcoreservice/src/main/java/io/github/gitofleonardo/coreservice/util/Extensions.kt:118-123 | true exactly when every permission of the SDK's list is granted |
| Extensions.CheckAndRequestPermissions | libcoreservice/src/main/java/io/github/gitofleonardo/coreservice/util/Extensions.kt:106-116 | requests the whole list and answers false exactly when some permission is missing; otherwise requests nothing |
| Extensions.AllGrantedPassesChecks | libcoreservice/src/main/java/io/github/gitofleonardo/coreservice/util/Extensions.kt:71-101 | holding every listed permission passes the connect, advertise and post checks, each of which is true below its SDK level |
| Extensions.GetAppName | libcoreservice/src/main/java/io/github/gitofleonardo/coreservice/util/Extensions.kt:273-279 | "" when the package lookup fails |
| Extensions.ToProtoMessage | libcoreservice/src/main/java/io/github/gitofleonardo/coreservice/util/Extensions.kt:233-256 | a POST message carrying the notification's package and id |
| Extensions.ToProtoMessageContents | libcoreservice/src/main/java/io/github/gitofleonardo/coreservice/util/Extensions.kt:233-256 | every text extra (absent as "null"), priority, flags, visibility, app label, and an empty channel whatever the source channel |
| Extensions.ToRemovalProtoMessage | libcoreservice/src/main/java/io/github/gitofleonardo/coreservice/util/Extensions.kt:262-271 | a REMOVE message carrying the package and id only |
| Extensions.Wrap32 | libcoreservice/src/main/java/io/github/gitofleonardo/coreservice/util/Extensions.kt:185 | the 32-bit two's-complement value congruent to x |
| Extensions.ChannelId | libcoreservice/src/main/java/io/github/gitofleonardo/coreservice/util/Extensions.kt:157 | the channel id is address ++ package ++ inner channel |
| Extensions.BuildAndSendNotification | libcoreservice/src/main/java/io/github/gitofleonardo/coreservice/util/Extensions.kt:151-190 | a channel is created only from SDK O when missing; the notification is shown, under the derived id, exactly with the post permission; nothing is cancelled |
| Extensions.BuildAndRemoveNotification | libcoreservice/src/main/java/io/github/gitofleonardo/coreservice/util/Extensions.kt:195-204 | cancels the id derived from the same channel expression |
| Extensions.PostAndRemoveIdsAgree | libcoreservice/src/main/java/io/github/gitofleonardo/coreservice/util/Extensions.kt:157-204 | a removal cancels exactly the id the matching post showed |
| Extensions.ServiceDatabaseHolder.GetServiceDatabase | libcoreservice/src/main/java/io/github/gitofleonardo/coreservice/util/Extensions.kt:281-294 | built on the first call, the same instance afterwards |
| Broadcast.Start | libcoreservice/src/main/java/io/github/gitofleonardo/coreservice/BleBroadcastManager.kt:97-128 | started afterwards; a started manager is unchanged; otherwise the new server and service are recorded |
| Broadcast.Stop | libcoreservice/src/main/java/io/github/gitofleonardo/coreservice/BleBroadcastManager.kt:140-151 | stopped afterwards; a stopped manager is unchanged; otherwise the server is forgotten and the service kept |
| Broadcast.StartIdempotent | libcoreservice/src/main/java/io/github/gitofleonardo/coreservice/BleBroadcastManager.kt:98-101 | start;start is start |
| Broadcast.StopIdempotent | libcoreservice/src/main/java/io/github/gitofleonardo/coreservice/BleBroadcastManager.kt:141-144 | stop;stop is stop |
| Broadcast.RestartTakesNewHandles | libcoreservice/src/main/java/io/github/gitofleonardo/coreservice/BleBroadcastManager.kt:97-151 | stop then start holds the new handles |
| Broadcast.OnMessageAvailable | libcoreservice/src/main/java/io/github/gitofleonardo/coreservice/BleBroadcastManager.kt:153-172 | POST is exactly the posting of `BuildAndSendNotification` for the message's notification and cancels nothing, REMOVE cancels it under its derived id, an unrecognised type does nothing |
| Broadcast.BleBroadcastManager.constructor | libcoreservice/src/main/java/io/github/gitofleonardo/coreservice/BleBroadcastManager.kt:70-86 | not started, no handles, an idle channel with this manager as its only callback, reading headers with the decoder as written |
| Broadcast.StartRequests | libcoreservice/src/main/java/io/github/gitofleonardo/coreservice/BleBroadcastManager.kt:97-128 | none when already started; otherwise the server is opened first and advertising started last |
| Broadcast.StopRequests | libcoreservice/src/main/java/io/github/gitofleonardo/coreservice/BleBroadcastManager.kt:140-151 | none when not started; otherwise advertising is stopped first, at most three requests, and an open server is closed last |
| Broadcast.BleBroadcastManager.StartBroadcast | libcoreservice/src/main/java/io/github/gitofleonardo/coreservice/BleBroadcastManager.kt:97-128 | state follows `Start`; the requests are exactly `StartRequests` of the old state |
| Broadcast.BleBroadcastManager.StopBroadcast | libcoreservice/src/main/java/io/github/gitofleonardo/coreservice/BleBroadcastManager.kt:140-151 | state follows `Stop`; the requests are exactly `StopRequests` of the old state |
| Broadcast.BleBroadcastManager.OnCharacteristicWriteRequest | libcoreservice/src/main/java/io/github/gitofleonardo/coreservice/BleBroadcastManager.kt:204-233 | a non-null value is read whole by the one channel, with the as-written (sign-extending) header decoder, and a completed message dispatched; a response only when requested and permitted |
| Parcels.Decode | libcoreservice/src/main/java/io/github/gitofleonardo/coreservice/data/BondedBleDevice.kt:13-17 | a successful read consumes exactly three values |
| Parcels.DecodeEncode | libcoreservice/src/main/java/io/github/gitofleonardo/coreservice/data/BondedBleDevice.kt:13-25 | reading back what `writeToParcel` wrote, anywhere in a parcel, gives the same record |
| Parcels.EncodeDecodeCanonical | libcoreservice/src/main/java/io/github/gitofleonardo/coreservice/data/BondedBleDevice.kt:13-25 | writing back a record that was read reproduces its three values exactly when both boolean slots hold 0 or 1; any other int reads as false |
| Parcels.WriteToParcel | libcoreservice/src/main/java/io/github/gitofleonardo/coreservice/data/BondedBleDevice.kt:21-25 | appends device, synced, connected, booleans as 1/0 |
| Parcels.CreateFromParcel | libcoreservice/src/main/java/io/github/gitofleonardo/coreservice/data/BondedBleDevice.kt:13-33 | reads in the same order; a record written by `writeToParcel` is read back |
| Parcels.DecodeAllEncodeAll | libcoreservice/src/main/java/io/github/gitofleonardo/coreservice/data/BondedBleDevice.kt:13-33 | records written back to back, anywhere in a parcel, are read back in order by successive `createFromParcel` calls |
| Parcels.NewArray | libcoreservice/src/main/java/io/github/gitofleonardo/coreservice/data/BondedBleDevice.kt:35-37 | n entries, all null |
| CoreService.FanOutSurvivesFailures | libcoreservice/src/main/java/io/github/gitofleonardo/coreservice/CoreBleManagerService.kt:522-528 | every registered listener is called once, in order; a failing one does not stop the rest |
| CoreService.AddSightingsKeys | libcoreservice/src/main/java/io/github/gitofleonardo/coreservice/CoreBleManagerService.kt:310-327 | a finished scan adds every unbonded device found and never a bonded address; earlier sightings kept |
| CoreService.SyncConnectsExactly | libcoreservice/src/main/java/io/github/gitofleonardo/coreservice/CoreBleManagerService.kt:474-485 | start-up queues a connect for exactly the bonded devices with sync on |
| CoreService.ReplayShape | libcoreservice/src/main/java/io/github/gitofleonardo/coreservice/CoreBleManagerService.kt:332-361 | replay: nothing before any scan, scan start plus each sighting while scanning, all sightings after; the connected set always last |
| CoreService.Without | libcoreservice/src/main/java/io/github/gitofleonardo/coreservice/CoreBleManagerService.kt:371-375 | unregistering removes exactly that listener |
| CoreService.CoreBleManagerService.constructor | libcoreservice/src/main/java/io/github/gitofleonardo/coreservice/CoreBleManagerService.kt:164-218 | unscanned, no listener, removal sync on; bonded-device loading queued, and advertising when receive mode is on |
| CoreService.CoreBleManagerService.BroadcastAllListeners | libcoreservice/src/main/java/io/github/gitofleonardo/coreservice/CoreBleManagerService.kt:522-528 | one call per listener in order, failures included |
| CoreService.CoreBleManagerService.WriteToConnected | libcoreservice/src/main/java/io/github/gitofleonardo/coreservice/CoreBleManagerService.kt:236-277 | one write of the same frames per connected device |
| CoreService.CoreBleManagerService.HandlePosted | libcoreservice/src/main/java/io/github/gitofleonardo/coreservice/CoreBleManagerService.kt:236-258 | a filtered package writes nothing; otherwise one write per connected device, ignoring `syncOn` |
| CoreService.CoreBleManagerService.HandleRemoved | libcoreservice/src/main/java/io/github/gitofleonardo/coreservice/CoreBleManagerService.kt:260-277 | nothing when `syncRemoval` is off; otherwise one write per connected device; filtered apps not consulted |
| CoreService.CoreBleManagerService.HandleStartScanning | libcoreservice/src/main/java/io/github/gitofleonardo/coreservice/CoreBleManagerService.kt:279-295 | false: Scanned, sightings kept; true: sightings cleared, Scanning; every listener told |
| CoreService.CoreBleManagerService.HandleScanning | libcoreservice/src/main/java/io/github/gitofleonardo/coreservice/CoreBleManagerService.kt:297-308 | an unbonded sighting is recorded and announced; a bonded one ignored |
| CoreService.CoreBleManagerService.HandleScanFinished | libcoreservice/src/main/java/io/github/gitofleonardo/coreservice/CoreBleManagerService.kt:310-327 | sightings grow by the unbonded results, state becomes Scanned, every listener gets all sightings |
| CoreService.ReplayScan | libcoreservice/src/main/java/io/github/gitofleonardo/coreservice/CoreBleManagerService.kt:335-354 | the scan events replayed one by one are, followed by the connected set, the whole replay for every connected set |
| CoreService.CoreBleManagerService.HandleRegister | libcoreservice/src/main/java/io/github/gitofleonardo/coreservice/CoreBleManagerService.kt:332-361 | registered once, then sent the replay of the scan state and the connected set |
| CoreService.CoreBleManagerService.HandleScanDevices | libcoreservice/src/main/java/io/github/gitofleonardo/coreservice/CoreBleManagerService.kt:364-369 | scans only when not Scanning; the scan rule is handed over on the first scan only |
| CoreService.CoreBleManagerService.HandleUnregister | libcoreservice/src/main/java/io/github/gitofleonardo/coreservice/CoreBleManagerService.kt:371-375 | the listener is removed |
| CoreService.CoreBleManagerService.HandleConnect | libcoreservice/src/main/java/io/github/gitofleonardo/coreservice/CoreBleManagerService.kt:377-389 | reaches the radio only with connect permission and BOND_BONDED |
| CoreService.CoreBleManagerService.HandleDisconnect | libcoreservice/src/main/java/io/github/gitofleonardo/coreservice/CoreBleManagerService.kt:391-398 | reaches the radio only with connect permission |
| CoreService.CoreBleManagerService.HandleDeviceConnected | libcoreservice/src/main/java/io/github/gitofleonardo/coreservice/CoreBleManagerService.kt:400-409 | the MAC becomes connected to its bonded record; an unbonded MAC gets one fresh stored row (name, MAC, sync on), a bonded one leaves the table and store as they were; scanning and filtered tables unchanged; every listener told |
| CoreService.CoreBleManagerService.HandleDeviceDisconnected | libcoreservice/src/main/java/io/github/gitofleonardo/coreservice/CoreBleManagerService.kt:411-420 | the MAC leaves the connected set; every listener told |
| CoreService.CoreBleManagerService.HandleConnectFailed | libcoreservice/src/main/java/io/github/gitofleonardo/coreservice/CoreBleManagerService.kt:422-430 | only announced |
| CoreService.CoreBleManagerService.HandleStartAdvertising | libcoreservice/src/main/java/io/github/gitofleonardo/coreservice/CoreBleManagerService.kt:432-440 | with connect and advertise permissions the advertiser follows `Start` and the radio requests are exactly its `StartRequests`; without them nothing changes and no request is made |
| CoreService.CoreBleManagerService.HandleStopAdvertising | libcoreservice/src/main/java/io/github/gitofleonardo/coreservice/CoreBleManagerService.kt:442-450 | with connect and advertise permissions the advertiser follows `Stop` and the radio requests are exactly its `StopRequests`; without them nothing changes and no request is made |
| CoreService.CoreBleManagerService.HandleBondStateChanged | libcoreservice/src/main/java/io/github/gitofleonardo/coreservice/CoreBleManagerService.kt:452-472 | bonded, bonding and unbonded are announced; other states reach no one |
| CoreService.CoreBleManagerService.HandleInitBondedDevices | libcoreservice/src/main/java/io/github/gitofleonardo/coreservice/CoreBleManagerService.kt:474-485 | queues one connect per bonded device with sync on, nothing else |
| CoreService.CoreBleManagerService.HandleSetSyncState | libcoreservice/src/main/java/io/github/gitofleonardo/coreservice/CoreBleManagerService.kt:487-499 | a bonded MAC gets `syncOn` set in its record, its stored row and its connected entry, an unknown MAC changes nothing; then CONNECT queued when on, DISCONNECT when off; scanning, filtered tables and scan rule unchanged |
| CoreService.CoreBleManagerService.HandleRemoveSyncDevice | libcoreservice/src/main/java/io/github/gitofleonardo/coreservice/CoreBleManagerService.kt:501-512 | the MAC leaves the bonded table and its row (if bonded) the store; DISCONNECT queued, removal announced; MAC stays connected; scanning, filtered tables and scan rule unchanged |
| CoreService.CoreBleManagerService.HandleMessage | libcoreservice/src/main/java/io/github/gitofleonardo/coreservice/CoreBleManagerService.kt:234-516 | handled exactly when the command is known; an unknown command changes nothing and yields no events and no radio requests; per command (`Effect`): scan start events and scan state, a sighting of a bonded device ignored, an unbonded sighting announced as `OnScanning` and recorded, the end of a scan reporting every recorded sighting once as one `OnScanned`, the scan requests, connect only when permitted and bonded, disconnect only when permitted, connection, disconnection and failure events, the bond-state event for each of the three states and none otherwise, advertising started or stopped with exactly its requests only with both permissions, the listener list on register/unregister, one CONNECT queued per bonded device with sync on, the sync-state and removal effects on the tables and the queue; filtered postings and removals with syncing off send nothing, any other posting or removal writes its encoded frames once to every connected device; a registered listener receives the replay of the scan state and the connected devices; what each command leaves alone (`OnlyTouches`): `syncRemoval` and the filtered apps always, listeners, queue, scan rule, advertiser, scan state, scanning, bonded, stored rows and connected table except for the commands that change them |
| CoreService.CoreBleManagerService.HandleScanCommand | libcoreservice/src/main/java/io/github/gitofleonardo/coreservice/CoreBleManagerService.kt:279-331 | for scan start, sighting and scan end: that command's `Effect`, and nothing outside `OnlyTouches` changes |
| CoreService.CoreBleManagerService.HandleLinkCommand | libcoreservice/src/main/java/io/github/gitofleonardo/coreservice/CoreBleManagerService.kt:400-472 | for connection, disconnection, failure and bond-state events: that command's `Effect`, and nothing outside `OnlyTouches` changes |
| CoreService.CoreBleManagerService.HandleRadioCommand | libcoreservice/src/main/java/io/github/gitofleonardo/coreservice/CoreBleManagerService.kt:236-450 | for postings, removals, scan, connect, disconnect and advertising requests: that command's `Effect` (a sent posting or removal writes its encoded frames once to every connected device, a filtered posting or an unsynchronised removal writes nothing), and nothing outside `OnlyTouches` changes |
| CoreService.CoreBleManagerService.HandleListenerCommand | libcoreservice/src/main/java/io/github/gitofleonardo/coreservice/CoreBleManagerService.kt:332-376 | for register and unregister: that command's `Effect` (the listener list, and for register the replay of the scan state and the connected devices to the new listener), and nothing outside `OnlyTouches` changes |
| CoreService.CoreBleManagerService.HandleRegistryCommand | libcoreservice/src/main/java/io/github/gitofleonardo/coreservice/CoreBleManagerService.kt:474-512 | for loading bonded devices, setting sync state and removing a device: that command's `Effect` on the tables and queue, and nothing outside `OnlyTouches` changes |
| CoreService.CoreBleManagerService.OnSharedPreferenceChanged | libcoreservice/src/main/java/io/github/gitofleonardo/coreservice/CoreBleManagerService.kt:550-576 | sending-only (also the default) queues a stop, sending-and-receiving a start; the removal switch sets `syncRemoval`, default true; scan state, scan rule and listeners unchanged |
| CoreService.CoreBleManagerService.GetBondedDevices | libcoreservice/src/main/java/io/github/gitofleonardo/coreservice/CoreBleManagerService.kt:699-713 | one record per bonded device with its sync flag, connected exactly when its MAC is connected |
| CoreService.CoreBleManagerService.GetConnectedDevices | libcoreservice/src/main/java/io/github/gitofleonardo/coreservice/CoreBleManagerService.kt:715-719 | one record per connected device, all marked connected |
| Relay.AssociateDistinctIds | libcoreservice/src/main/java/io/github/gitofleonardo/coreservice/NotificationListener.kt:255-257 | keying a batch by id leaves each id once |
| Relay.AssociateKeepsIds | libcoreservice/src/main/java/io/github/gitofleonardo/coreservice/NotificationListener.kt:255-257 | every id of the batch is kept |
| Relay.AssociateLastWins | libcoreservice/src/main/java/io/github/gitofleonardo/coreservice/NotificationListener.kt:255-257 | the value kept for an id is its last occurrence |
| Relay.AssociateDistinct | libcoreservice/src/main/java/io/github/gitofleonardo/coreservice/NotificationListener.kt:255-257 | a batch with distinct ids is kept as it is |
| Relay.ParkKeepsWellFormed | libcoreservice/src/main/java/io/github/gitofleonardo/coreservice/NotificationListener.kt:253-257 | parking keeps at most one batch per action, each keyed by id |
| Relay.Repark | libcoreservice/src/main/java/io/github/gitofleonardo/coreservice/NotificationListener.kt:136-147 | re-parking a snapshot batch by batch rebuilds it |
| Relay.NotificationListener.constructor | libcoreservice/src/main/java/io/github/gitofleonardo/coreservice/NotificationListener.kt:94-98 | nothing bound or pending; one connect queued |
| Relay.NotificationListener.ScheduleLinkToBleCore | libcoreservice/src/main/java/io/github/gitofleonardo/coreservice/NotificationListener.kt:208-214 | a connect is queued only when none is; never two |
| Relay.NotificationListener.PushToCoreService | libcoreservice/src/main/java/io/github/gitofleonardo/coreservice/NotificationListener.kt:249-268 | bound: every notification forwarded in batch order; unbound: reconnect scheduled and the batch parked only if its action has nothing parked (first batch wins) |
| Relay.NotificationListener.FlushPending | libcoreservice/src/main/java/io/github/gitofleonardo/coreservice/NotificationListener.kt:136-147 | the snapshot is cleared then re-pushed: all forwarded when bound (queue unchanged), parked again unchanged when not, with a reconnect scheduled exactly when something was parked |
| Relay.NotificationListener.HandleWorkerMessage | libcoreservice/src/main/java/io/github/gitofleonardo/coreservice/NotificationListener.kt:99-150 | invalid notifications are dropped; a valid posted or removed one is forwarded when the service is bound, and otherwise parked as a one-element batch (unless its action already has one) with a reconnect scheduled; FULL_REFRESH does the same with the valid active ones, or an empty batch when not connected; a flush forwards the parked batches when bound, and when not keeps them, forwards nothing and schedules a reconnect if any were parked; a connect or unknown message forwards nothing and leaves queue and pending alone |
| Relay.NotificationListener.ValidForPost | libcoreservice/src/main/java/io/github/gitofleonardo/coreservice/NotificationListener.kt:232-243 | exactly the notifications not from this app, not group summaries and not missing both title and text, in order |
| Relay.NotificationListener.ProcessMessage | libcoreservice/src/main/java/io/github/gitofleonardo/coreservice/NotificationListener.kt:99-150 | the message at position k leaves the queue and is handled: handled exactly when known, a bind exactly for a connect message (after which no connect is queued), and per message kind the calls forwarded, the parked batches and the remaining queue with any reconnect appended, as for `handleWorkerMessage`; bound and listener-connected flags unchanged |
| Relay.NotificationListener.OnServiceConnected | libcoreservice/src/main/java/io/github/gitofleonardo/coreservice/NotificationListener.kt:153-162 | the service is recorded and a flush posted |
| Relay.NotificationListener.OnServiceDisconnected | libcoreservice/src/main/java/io/github/gitofleonardo/coreservice/NotificationListener.kt:164-170 | the service is forgotten and a reconnect after 5000 ms scheduled |
| Relay.NotificationListener.OnListenerConnected | libcoreservice/src/main/java/io/github/gitofleonardo/coreservice/NotificationListener.kt:172-176 | connected, and a full refresh posted |
| Relay.NotificationListener.OnListenerDisconnected | libcoreservice/src/main/java/io/github/gitofleonardo/coreservice/NotificationListener.kt:178-181 | not connected |
| Relay.NotificationListener.OnNotificationEvent | libcoreservice/src/main/java/io/github/gitofleonardo/coreservice/NotificationListener.kt:183-195 | a non-null notification is posted to the worker, a null one ignored |
| ServiceBinding.CallbackStateFaithful | app/src/main/java/io/github/gitofleonardo/notisync/ui/BaseViewModel.kt:134-174 | each listener call posts the state with the same payload, never `None` |
| ServiceBinding.CallbackStateInjective | app/src/main/java/io/github/gitofleonardo/notisync/ui/BaseViewModel.kt:134-174 | different listener calls post different states |
| ServiceBinding.BaseViewModel.constructor | app/src/main/java/io/github/gitofleonardo/notisync/ui/BaseViewModel.kt:24-53 | starts Disconnected with nothing parked; observing it starts a bind |
| ServiceBinding.BaseViewModel.CoreBleService | app/src/main/java/io/github/gitofleonardo/notisync/ui/BaseViewModel.kt:40-47 | non-null exactly while Connected |
| ServiceBinding.BaseViewModel.RunOnCoreBleService | app/src/main/java/io/github/gitofleonardo/notisync/ui/BaseViewModel.kt:55-68 | Connected: run at once, nothing parked; Disconnected: parked when caching, dropped otherwise |
| ServiceBinding.BaseViewModel.OnChanged | app/src/main/java/io/github/gitofleonardo/notisync/ui/BaseViewModel.kt:70-88 | Connected: register, link to death, run every parked action in order, clear; Disconnected: bind |
| ServiceBinding.BaseViewModel.PostServiceState | app/src/main/java/io/github/gitofleonardo/notisync/ui/BaseViewModel.kt:24-53 | the new state is stored and delivered to `onChanged` while observed |
| ServiceBinding.BaseViewModel.OnCleared | app/src/main/java/io/github/gitofleonardo/notisync/ui/BaseViewModel.kt:90-105 | unregister and unlink only when Connected; observation ends |
| ServiceBinding.BaseViewModel.BinderDied | app/src/main/java/io/github/gitofleonardo/notisync/ui/BaseViewModel.kt:107-112 | a bind is attempted |
| ServiceBinding.BaseViewModel.OnServiceConnected | app/src/main/java/io/github/gitofleonardo/notisync/ui/BaseViewModel.kt:115-127 | a null binder posts nothing and changes nothing; otherwise Connected is posted and, while observed, the listener is registered, the binder linked and the parked calls run in order and cleared; while not observed nothing else changes |
| ServiceBinding.BaseViewModel.OnServiceDisconnected | app/src/main/java/io/github/gitofleonardo/notisync/ui/BaseViewModel.kt:129-131 | Disconnected is posted; while observed a bind is attempted, otherwise nothing else happens; parked calls kept |
| ServiceBinding.BaseViewModel.OnListenerEvent | app/src/main/java/io/github/gitofleonardo/notisync/ui/BaseViewModel.kt:134-174 | the posted state gives back exactly the listener call |
| Strings.SortBySortedPermutation | app/src/main/java/io/github/gitofleonardo/notisync/ui/home/HomeViewModel.kt:37 | `sortedBy` yields a name-ordered permutation of its input |
| Home.ConnectedDevicesAdded | app/src/main/java/io/github/gitofleonardo/notisync/ui/home/HomeViewModel.kt:80-88 | DeviceConnected gives AddSyncDevice of exactly the devices, each synced and connected, in name order |
| Home.ResultForEdits | app/src/main/java/io/github/gitofleonardo/notisync/ui/home/HomeViewModel.kt:79-110 | only connected, disconnected and removed give a value; disconnected gives (synced, not connected), removed (not synced, not connected) |
| Home.HomeViewModel.constructor | app/src/main/java/io/github/gitofleonardo/notisync/ui/home/HomeViewModel.kt:18-29 | starts with an empty AddSyncDevice, a Disconnected base with nothing parked, no callback state, and one bind attempted |
| Home.HomeViewModel.Refresh | app/src/main/java/io/github/gitofleonardo/notisync/ui/home/HomeViewModel.kt:31-42 | Loading first; when connected, the bonded-devices call is made and the bonded devices shown in name order; when disconnected, the call is parked and nothing is called |
| Home.HomeViewModel.SetDeviceSyncState | app/src/main/java/io/github/gitofleonardo/notisync/ui/home/HomeViewModel.kt:44-50 | forwarded unchanged: called at once when connected (nothing parked), parked when disconnected (nothing called); link and callback state kept |
| Home.HomeViewModel.RemoveDevice | app/src/main/java/io/github/gitofleonardo/notisync/ui/home/HomeViewModel.kt:52-58 | forwarded unchanged: called at once when connected (nothing parked), parked when disconnected (nothing called); link and callback state kept |
| Home.HomeViewModel.SetDeviceConnectState | app/src/main/java/io/github/gitofleonardo/notisync/ui/home/HomeViewModel.kt:60-70 | connect when on, disconnect when off: called at once when connected (nothing parked), parked when disconnected (nothing called); link and callback state kept |
| Home.HomeViewModel.OnListenerEvent | app/src/main/java/io/github/gitofleonardo/notisync/ui/home/HomeViewModel.kt:77-111 | the callback state becomes the event's and the list changes exactly as `ResultFor` says; the base's link state, parked calls, trace and observation kept |
| Home.HomeViewModel.OnServiceStateChanged | app/src/main/java/io/github/gitofleonardo/notisync/ui/home/HomeViewModel.kt:31-42 | the new state is posted; while observed, a connection registers, links and runs every parked call (a parked refresh then shows the bonded devices in name order) and a disconnection binds again; unobserved, nothing else changes |
| Home.HomeViewModel.OnCleared | app/src/main/java/io/github/gitofleonardo/notisync/ui/home/HomeViewModel.kt:72-75 | base cleared (unregister and unlink only when connected, nothing called otherwise), observer removed; link state, parked calls, callback state and list unchanged |
| FilteredApps.ByPackage | app/src/main/java/io/github/gitofleonardo/notisync/ui/filterapps/FilteredAppsViewModel.kt:72-74 | exactly the stored packages, each to one of its records |
| FilteredApps.ByPackageLastWins | app/src/main/java/io/github/gitofleonardo/notisync/ui/filterapps/FilteredAppsViewModel.kt:72-74 | a package stored more than once maps to its last record |
| FilteredApps.ComparatorInconsistent | app/src/main/java/io/github/gitofleonardo/notisync/ui/filterapps/FilteredAppsViewModel.kt:87-95 | two unfiltered apps each compare greater than the other; negative exactly when filtered-before-unfiltered or both filtered in name order |
| FilteredApps.InsertUnfiltered | app/src/main/java/io/github/gitofleonardo/notisync/ui/filterapps/FilteredAppsViewModel.kt:87-95 | an unfiltered app is inserted last |
| FilteredApps.InsertFiltered | app/src/main/java/io/github/gitofleonardo/notisync/ui/filterapps/FilteredAppsViewModel.kt:87-95 | a filtered app is inserted among the filtered ones |
| FilteredApps.InsertFilteredSorted | app/src/main/java/io/github/gitofleonardo/notisync/ui/filterapps/FilteredAppsViewModel.kt:87-95 | inserting among name-ordered filtered apps keeps them ordered and keeps every one |
| FilteredApps.SortAppsShape | app/src/main/java/io/github/gitofleonardo/notisync/ui/filterapps/FilteredAppsViewModel.kt:87-95 | filtered apps first, in name order, each once; then the unfiltered ones in package-manager order |
| FilteredApps.IntendedComparatorConsistent | app/src/main/java/io/github/gitofleonardo/notisync/ui/filterapps/FilteredAppsViewModel.kt:87-95 | the corrected comparator (0 for two unfiltered apps) meets the `Comparator` contract: sign antisymmetry, transitivity, and equal elements compare alike with every third |
| FilteredApps.SortAppsOrderedByIntended | app/src/main/java/io/github/gitofleonardo/notisync/ui/filterapps/FilteredAppsViewModel.kt:87-95 | the sorted list is ordered by the corrected comparator; with `SortAppsShape` (a permutation, unfiltered apps in input order) and `SortAppsStable` it is what a stable sort under that comparator returns |
| FilteredApps.SortAppsStable | app/src/main/java/io/github/gitofleonardo/notisync/ui/filterapps/FilteredAppsViewModel.kt:87-95 | filtered apps with the same name, which the corrected comparator holds equal, keep the order the package manager listed them in |
| FilteredApps.UserAppsSound | app/src/main/java/io/github/gitofleonardo/notisync/ui/filterapps/FilteredAppsViewModel.kt:75-86 | each entry is a non-system app with the stored record of its package or none |
| FilteredApps.UserAppsComplete | app/src/main/java/io/github/gitofleonardo/notisync/ui/filterapps/FilteredAppsViewModel.kt:75-86 | every non-system installed app has an entry |
| FilteredApps.AppItem.constructor | app/src/main/java/io/github/gitofleonardo/notisync/ui/filterapps/AppItem.kt:6-11 | an item holds the entry it is built from |
| FilteredApps.FilteredAppsViewModel.SetAppFiltered | app/src/main/java/io/github/gitofleonardo/notisync/ui/filterapps/FilteredAppsViewModel.kt:40-68 | off with no record: nothing; on: the existing or a new record (key 0) is inserted and the app holds it under the key the table assigned: its own nonzero key, or one above every key generated before; the insert is reported as aborted exactly when the record clashes with a stored key or package (table and last key unchanged); off: record dropped and deleted, last key unchanged |
| FilteredApps.FilteredAppsViewModel.LoadAllAppsInner | app/src/main/java/io/github/gitofleonardo/notisync/ui/filterapps/FilteredAppsViewModel.kt:70-97 | the stored records are read whole and the pipeline run over them |
| FilteredApps.FilteredAppsViewModel.LoadAllApps | app/src/main/java/io/github/gitofleonardo/notisync/ui/filterapps/FilteredAppsViewModel.kt:31-38 | LoadingState, then AllAppsState of the list |
| Common.MapValues | libcoreservice/src/main/java/io/github/gitofleonardo/coreservice/ServiceModel.kt:81-89 | each value of the map exactly once, in an unspecified order |
| Platform.NullableToString | libcoreservice/src/main/java/io/github/gitofleonardo/coreservice/util/Extensions.kt:236-243 | "null" for an absent value, the text otherwise |

## Left out

- The radio stack (FastBle scan, connect and write, its own splitting of the written buffer, the GATT server and advertiser callbacks, bond-state intents): represented by the requests the core makes, recorded as `RadioRequest` and `GattRequest` values.
- Protobuf serialization: the encoder is a parameter and parsing is a function returning an `Option` (a parse failure is `None`).
- Room persistence on disk, the `Flow` of filtered apps and SharedPreferences storage: tables are in-memory maps, and a preference change arrives as a value.
- Concurrency and timing: `@Synchronized`, `AtomicBoolean`, the Handler/Looper threads, the scan timeout and the reconnect delay (kept as a tag on the queued message); coroutine launches run at once.
- `RemoteCallbackList` and binder death links: listeners are ids in a list, a failing binder call is a member of a `failing` set, death links are trace entries.
- Icons, notification builders' visual fields, channel names and descriptions, logging.
- `onDestroy` of the core service and `ServiceModel.destroy`: teardown of the radio and of the preference listener, which changes no modelled state.
- The BLE scan, connect and write callbacks of `CoreBleManagerService` (`ScanCallback`, `GattDeviceConnectCallback`, `NotificationWriteCallback`, `BondStateChangeReceiver`) and the `CoreBleServiceImpl` methods other than the two getters: each only posts the command the `Command` datatype models.
- FilteredApps.SortApps: models `sortedWith` as a binary insertion sort, which is what the platform sort does for fewer than 32 elements; for 32 or more elements TimSort's merge, fed the inconsistent comparator, may reorder the unfiltered apps or throw `IllegalArgumentException` and end the app; neither outcome is modelled (see Findings).
- Common.MapValues: the order in which a `HashMap` is enumerated is left unspecified rather than modelled.
- Relay.NotificationListener.HandleWorkerMessage: the answer of `getActiveNotifications(emptyArray())` (NotificationListener.kt:108) is a parameter (`None` when it throws), not a query of the host. The source passes an empty key list to the by-key lookup. The platform's lookup returns only the notifications whose keys are given, so on a device the full refresh may forward nothing. The model allows any answer, the empty one included, and does not decide which one the host gives.
- Database.FilteredAppsTable.Insert: a clash with a stored key or package name returns `None` with the table unchanged; in Room's `ABORT` strategy the insert throws `SQLiteConstraintException`, which the model does not raise.
- FilteredApps.FilteredAppsViewModel.SetAppFiltered: a refused insert is reported in `aborted`; in the source the exception escapes the `viewModelScope` coroutine uncaught and ends the app, which the model does not capture.
- CoreService.CoreBleManagerService.WriteToConnected: requires `splitWriteNum > 4`; the source reads FastBle's `BleManager.splitWriteNum` unchecked, where a value of 4 or less makes `chunked(splitWriteNum - 4)` throw; those values are not modelled.
- CoreService.CoreBleManagerService.HandlePosted: requires `splitWriteNum > 4`; the source reads FastBle's `BleManager.splitWriteNum` unchecked, where a value of 4 or less makes `chunked(splitWriteNum - 4)` throw; those values are not modelled.
- CoreService.CoreBleManagerService.HandleRemoved: requires `splitWriteNum > 4`; the source reads FastBle's `BleManager.splitWriteNum` unchecked, where a value of 4 or less makes `chunked(splitWriteNum - 4)` throw; those values are not modelled.
- CoreService.CoreBleManagerService.HandleMessage: requires `splitWriteNum > 4`; the source reads FastBle's `BleManager.splitWriteNum` unchecked, where a value of 4 or less makes `chunked(splitWriteNum - 4)` throw; those values are not modelled.
- CoreService.CoreBleManagerService.HandleRadioCommand: requires `splitWriteNum > 4`; the source reads FastBle's `BleManager.splitWriteNum` unchecked, where a value of 4 or less makes `chunked(splitWriteNum - 4)` throw; those values are not modelled.
- Frames.Write: requires `splitWriteNum > 4`; in the source a value of 4 or less makes `chunked(splitWriteNum - 4)` throw, and those values are not modelled.
- Registry.ServiceModel.constructor: reconciles the bonded table with the system's bond list when the model is built; the source's `allBondedDevices by lazy` is first forced by `MSG_INIT_BONDED_DEVICES`, so the permission and the bond list are read at a different moment.
- Channel.SignExtendingOutcome: classifies only messages of fewer than 65536 frames; larger counts wrap the sixteen-bit header and are not classified.
- Extensions.StringHash: hashes the characters of a Dafny string (code points); Kotlin's `String.hashCode` hashes UTF-16 code units, so the two differ for characters outside the Basic Multilingual Plane.
- Strings.Before: compares strings character by character as Dafny characters (code points); Kotlin's `compareTo` compares UTF-16 code units, so the order can differ when a character outside the Basic Multilingual Plane meets one from U+E000 to U+FFFF.
- Channel.BleMessageChannel.Read: hands a completed message to every callback; in the source a callback that throws stops the `forEach`, and the exception is caught and logged, so later callbacks are skipped.
- LiveData `postValue` coalescing: successive posted values before the main thread runs are collapsed to the last; the model records every value set.
- CoreService.ToAllListeners: notifies the listeners in the order they registered; `RemoteCallbackList` promises no order, so the model fixes one of the orders the source allows.
- Home.ByName: sorts on a plain string name; in the source `BluetoothDevice.name` is nullable and `sortedBy` places the devices without a name first, which the model does not distinguish from an empty name.

## Findings

| source | as written | input that shows it | evidently intended | confidence | as-written member | corrected member |
|---|---|---|---|---|---|---|
| libcoreservice/src/main/java/io/github/gitofleonardo/coreservice/util/MessageChannel.kt:117-125 | `bytesToInt` adds the sign-extended low byte, so a header byte of 0x80 or more decodes 256 too low | frame number 128, written as [0x00, 0x80], reads back as 65408; a message of exactly 128 frames, or of any multiple of 256 frames, never completes; one of 384, 640, … frames (128 more than a multiple of 256) is delivered truncated at frame n - 257; other counts, 129 included, are delivered whole | both bytes read unsigned (`l.toInt() and 0xff`), so every 16-bit index and count round-trips | high (not executed) | Channel.Message128FramesLost, Channel.SignExtendingOutcome | Channel.Message128FramesDeliveredWhenCorrected |
| app/src/main/java/io/github/gitofleonardo/notisync/ui/filterapps/FilteredAppsViewModel.kt:87-95 | the `sortedWith` comparator returns 1 for two unfiltered apps in both orders, which breaks the `Comparator` contract | two unfiltered apps a, b: compare(a, b) = compare(b, a) = 1; a list of 32 or more apps with some filtered, where TimSort's merge may detect the violation and throw `IllegalArgumentException` inside `viewModelScope.launch`, ending the app | return 0 for two unfiltered apps, so any stable sort puts the filtered apps first by name and keeps the rest in package-manager order | medium (not executed; whether TimSort throws depends on the list) | FilteredApps.ComparatorInconsistent | FilteredApps.IntendedComparatorConsistent, FilteredApps.SortAppsOrderedByIntended, FilteredApps.SortAppsStable |
