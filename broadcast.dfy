/**
 * `BleBroadcastManager`: the receiving peer. It advertises a GATT service, feeds every write to
 * its characteristic into one message channel, and shows or cancels the notifications the
 * completed messages describe.
 */
module Broadcast {
  import opened Common
  import opened Frames
  import opened Channel
  import opened Platform
  import opened Proto
  import opened Extensions

  /** What the manager asks of the GATT server and the advertiser. */
  datatype GattRequest =
    | OpenGattServer(server: nat)
    | AddService(server: nat, service: nat)
    | StartAdvertising
    | StopAdvertising
    | RemoveService(server: nat, service: nat)
    | CloseGattServer(server: nat)
    | SendResponse(server: nat, device: Mac, requestId: int, offset: int)

  /** The advertising state: whether started, and the handles of the open server and its service. */
  datatype Advertising = Advertising(started: bool, gattServer: Option<nat>, gattService: Option<nat>)

  /** `startBroadcast` on `s`, the platform handing out `server` and `service`. */
  function Start(s: Advertising, server: nat, service: nat): (r: Advertising)
    ensures r.started
    ensures s.started ==> r == s
    ensures !s.started ==> r.gattServer == Some(server) && r.gattService == Some(service)
  {
    if s.started then s else Advertising(true, Some(server), Some(service))
  }

  /** `stopBroadcast` on `s`: the server is closed and forgotten, the service handle is kept. */
  function Stop(s: Advertising): (r: Advertising)
    ensures !r.started
    ensures !s.started ==> r == s
    ensures s.started ==> r.gattServer == None && r.gattService == s.gattService
  {
    if !s.started then s else s.(started := false, gattServer := None)
  }

  /** The requests `startBroadcast` makes on `s`: open the server, add the service, advertise, unless started. */
  function StartRequests(s: Advertising, server: nat, service: nat): (r: seq<GattRequest>)
    ensures s.started <==> r == []
    ensures !s.started ==> r[0] == OpenGattServer(server) && r[|r| - 1] == StartAdvertising
  {
    if s.started then [] else [OpenGattServer(server), AddService(server, service), StartAdvertising]
  }

  /**
   * The requests `stopBroadcast` makes on `s`: unless stopped, stop advertising, remove the
   * service when both handles are known, and close a known server.
   */
  function StopRequests(s: Advertising): (r: seq<GattRequest>)
    ensures !s.started <==> r == []
    ensures s.started ==> r[0] == StopAdvertising && 1 <= |r| <= 3
    ensures s.started && s.gattServer.Some? ==> r[|r| - 1] == CloseGattServer(s.gattServer.value)
  {
    if !s.started then []
    else
      var remove := if s.gattServer.Some? && s.gattService.Some?
        then [RemoveService(s.gattServer.value, s.gattService.value)] else [];
      var close := if s.gattServer.Some? then [CloseGattServer(s.gattServer.value)] else [];
      [StopAdvertising] + remove + close
  }

  /** Starting twice is starting once; the second call's handles are never used. */
  lemma StartIdempotent(s: Advertising, server: nat, service: nat, server2: nat, service2: nat)
    ensures Start(Start(s, server, service), server2, service2) == Start(s, server, service)
  {
  }

  /** Stopping twice is stopping once. */
  lemma StopIdempotent(s: Advertising)
    ensures Stop(Stop(s)) == Stop(s)
  {
  }

  /** A stopped manager that is started again holds the new handles. */
  lemma RestartTakesNewHandles(s: Advertising, server: nat, service: nat)
    ensures Start(Stop(s), server, service) == Advertising(true, Some(server), Some(service))
  {
  }

  /**
   * `onMessageAvailable`: a post shows the notification, a removal cancels it, and a message of
   * unknown type has no effect.
   */
  function OnMessageAvailable(host: Host, channels: set<string>, device: BleDevice, msg: BleMessage)
    : (requests: seq<NotificationRequest>)
    ensures msg.msgType == Unrecognized ==> requests == []
    ensures msg.msgType == RemoveNotification ==>
      requests == [Cancel(NotificationId(msg.notification.id, ChannelId(device.mac, msg.notification)))]
    ensures msg.msgType == PostNotification ==>
      requests == BuildAndSendNotification(host, channels, device, msg.notification)
      && forall i :: 0 <= i < |requests| ==> !requests[i].Cancel?
  {
    match msg.msgType
    case PostNotification => BuildAndSendNotification(host, channels, device, msg.notification)
    case RemoveNotification => [BuildAndRemoveNotification(device, msg.notification)]
    case Unrecognized => []
  }

  /** The manager's identity as the channel's only `MessageCallback`. */
  const ManagerCallback: CallbackId := 0

  class BleBroadcastManager {
    var broadcastStarted: bool
    var gattServer: Option<nat>
    var gattService: Option<nat>
    /** `readChannel`, created with this manager as its only callback. */
    const readChannel: BleMessageChannel<BleMessage>

    ghost predicate Valid()
      reads this, readChannel
    {
      readChannel.messageCallbacks == [ManagerCallback] && readChannel.decoding == SignExtending
    }

    function State(): Advertising
      reads this
    {
      Advertising(broadcastStarted, gattServer, gattService)
    }

    /** A manager that is not advertising, whose channel reads headers with the decoder as written (sign-extending the low byte). */
    constructor()
      ensures Valid() && fresh(readChannel)
      ensures State() == Advertising(false, None, None)
      ensures readChannel.currentBytes == None
    {
      broadcastStarted := false;
      gattServer := None;
      gattService := None;
      readChannel := new BleMessageChannel(SignExtending);
      new;
      readChannel.AddMessageCallback(ManagerCallback);
    }

    /**
     * `startBroadcast`: when not yet started, opens a server, adds the service to it, records
     * both, and starts advertising; when started, does nothing.
     */
    method StartBroadcast(server: nat, service: nat) returns (requests: seq<GattRequest>)
      modifies this
      ensures State() == Start(old(State()), server, service)
      ensures requests == StartRequests(old(State()), server, service)
      ensures old(broadcastStarted) ==> requests == []
      ensures !old(broadcastStarted) ==>
        requests == [OpenGattServer(server), AddService(server, service), StartAdvertising]
    {
      if broadcastStarted {
        return [];
      }
      broadcastStarted := true;
      requests := [OpenGattServer(server), AddService(server, service)];
      gattServer := Some(server);
      gattService := Some(service);
      requests := requests + [StartAdvertising];
    }

    /**
     * `stopBroadcast`: when started, stops advertising, removes the service from the server if
     * both are known, closes the server and forgets it; when not started, does nothing.
     */
    method StopBroadcast() returns (requests: seq<GattRequest>)
      modifies this
      ensures State() == Stop(old(State()))
      ensures requests == StopRequests(old(State()))
      ensures !old(broadcastStarted) ==> requests == []
      ensures old(broadcastStarted) ==>
        requests == [StopAdvertising]
          + (if old(gattServer).Some? && old(gattService).Some?
             then [RemoveService(old(gattServer).value, old(gattService).value)] else [])
          + (if old(gattServer).Some? then [CloseGattServer(old(gattServer).value)] else [])
    {
      if !broadcastStarted {
        return [];
      }
      broadcastStarted := false;
      requests := [StopAdvertising];
      if gattService.Some? && gattServer.Some? {
        requests := requests + [RemoveService(gattServer.value, gattService.value)];
      }
      if gattServer.Some? {
        requests := requests + [CloseGattServer(gattServer.value)];
      }
      gattServer := None;
    }

    /**
     * `onCharacteristicWriteRequest`: a write with a value is passed whole to the channel; a
     * message it completes is dispatched by `onMessageAvailable`; a response is sent only when
     * the client asked for one and the connect permission is held.
     */
    method OnCharacteristicWriteRequest(host: Host, channels: set<string>, device: BleDevice, requestId: int,
                                        responseNeeded: bool, offset: int, value: Option<seq<Byte>>, parse: Parser)
      returns (notifications: seq<NotificationRequest>, responses: seq<GattRequest>)
      requires Valid()
      modifies readChannel
      ensures Valid()
      ensures value.None? ==> readChannel.currentBytes == old(readChannel.currentBytes) && notifications == []
      ensures value.Some? ==>
        var o := Receive(SignExtending, old(readChannel.currentBytes), value.value, parse);
        && readChannel.currentBytes == o.current
        && notifications == (if o.message.Some? then OnMessageAvailable(host, channels, device, o.message.value) else [])
      ensures responses ==
        if responseNeeded && CheckBluetoothConnectPermission(host) && gattServer.Some?
        then [SendResponse(gattServer.value, device.mac, requestId, offset)]
        else []
    {
      notifications := [];
      if value.Some? {
        var deliveries := readChannel.Read(device.mac, value.value, parse);
        for i := 0 to |deliveries|
          invariant notifications == if i == 0 then [] else OnMessageAvailable(host, channels, device, deliveries[0].message)
        {
          notifications := notifications + OnMessageAvailable(host, channels, device, deliveries[i].message);
        }
      }
      responses := [];
      if responseNeeded && CheckBluetoothConnectPermission(host) && gattServer.Some? {
        responses := [SendResponse(gattServer.value, device.mac, requestId, offset)];
      }
    }
  }
}
