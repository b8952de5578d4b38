/**
 * The `BleMessage` protocol-buffer messages exchanged between peers, as plain values. The
 * protobuf wire format itself is not modelled: encoding and parsing are supplied as functions.
 */
module Proto {
  import opened Common
  import opened Frames

  /** `MsgType`; `Unrecognized` stands for any wire value the receiver does not know. */
  datatype MsgType = PostNotification | RemoveNotification | Unrecognized

  /** `BleMessageProto.Notification`; an unset string field reads as `""`, an unset int as 0. */
  datatype Notification = Notification(
    title: string,
    bigTitle: string,
    contentText: string,
    subText: string,
    priority: int,
    flags: int,
    visibility: int,
    appName: string,
    channelId: string)

  /** The default instance a reader sees for an unset `Notification` field. */
  const DefaultNotification: Notification := Notification("", "", "", "", 0, 0, 0, "", "")

  /** `BleMessageProto.StatusBarNotification` */
  datatype StatusBarNotification = StatusBarNotification(pkg: string, id: int, notification: Notification)

  /** `BleMessageProto.BleMessage` */
  datatype BleMessage = BleMessage(msgType: MsgType, notification: StatusBarNotification)

  /** `toByteArray`, supplied by the protobuf library. */
  type Serializer = BleMessage -> seq<Byte>

  /** `BleMessage.parseFrom`, supplied by the protobuf library; `None` when it throws. */
  type Parser = seq<Byte> -> Option<BleMessage>
}
