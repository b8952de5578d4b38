/**
 * `BondedBleDevice`, the bonded-device record the core service hands to its clients across
 * processes, and its `Parcelable` form.
 */
module Parcels {
  import opened Common

  /** A bonded device as clients see it: whether it is synchronised and whether it is connected. */
  datatype BondedBleDevice = BondedBleDevice(device: BleDevice, synced: bool, connected: bool)

  /** One value written to a `Parcel`: an `int`, or a nested parcelable device. */
  datatype ParcelValue = IntValue(n: int) | DeviceValue(device: BleDevice)

  /** The int a boolean is written as. */
  function BoolToInt(b: bool): int {
    if b then 1 else 0
  }

  /** What `writeToParcel` appends: the device, then `synced`, then `connected`, booleans as 1/0. */
  function Encode(b: BondedBleDevice): seq<ParcelValue> {
    [DeviceValue(b.device), IntValue(BoolToInt(b.synced)), IntValue(BoolToInt(b.connected))]
  }

  /** `Parcel.readInt`: the int at `pos`, or 0 when there is none there. */
  function IntAt(data: seq<ParcelValue>, pos: nat): int {
    if pos < |data| && data[pos].IntValue? then data[pos].n else 0
  }

  /**
   * The parcel constructor reading from `pos`: a device (`!!` throws, `None`, when none is there),
   * then two ints, each mapped to true exactly when it is 1. Returns the record and the new position.
   */
  function Decode(data: seq<ParcelValue>, pos: nat): (r: Option<(BondedBleDevice, nat)>)
    ensures r.Some? ==> r.value.1 == pos + 3
  {
    if pos < |data| && data[pos].DeviceValue? then
      Some((BondedBleDevice(data[pos].device, IntAt(data, pos + 1) == 1, IntAt(data, pos + 2) == 1), pos + 3))
    else None
  }

  /** Reading back what `writeToParcel` wrote, wherever it sits in the parcel, gives the same record. */
  lemma DecodeEncode(prefix: seq<ParcelValue>, b: BondedBleDevice, suffix: seq<ParcelValue>)
    ensures Decode(prefix + Encode(b) + suffix, |prefix|) == Some((b, |prefix| + 3))
  {
    var data := prefix + Encode(b) + suffix;
    assert data[|prefix|] == DeviceValue(b.device);
    assert data[|prefix| + 1] == IntValue(BoolToInt(b.synced));
    assert data[|prefix| + 2] == IntValue(BoolToInt(b.connected));
  }

  /** The value at `i` is an int a boolean could have been written as. */
  predicate BoolSlot(data: seq<ParcelValue>, i: nat) {
    i < |data| && (data[i] == IntValue(0) || data[i] == IntValue(1))
  }

  /**
   * Reading is lossy on the booleans: writing back a record that was read reproduces the three
   * values it was read from exactly when both boolean slots hold 0 or 1; any other int (or a
   * missing one) is read as false and written back as 0.
   */
  lemma EncodeDecodeCanonical(data: seq<ParcelValue>, pos: nat)
    requires Decode(data, pos).Some?
    ensures var b := Decode(data, pos).value.0;
      (pos + 3 <= |data| && data[pos..pos + 3] == Encode(b)) <==> BoolSlot(data, pos + 1) && BoolSlot(data, pos + 2)
  {
    var b := Decode(data, pos).value.0;
    if pos + 3 <= |data| && data[pos..pos + 3] == Encode(b) {
      assert data[pos + 1] == data[pos..pos + 3][1] == IntValue(BoolToInt(b.synced));
      assert data[pos + 2] == data[pos..pos + 3][2] == IntValue(BoolToInt(b.connected));
    }
    if BoolSlot(data, pos + 1) && BoolSlot(data, pos + 2) {
      assert data[pos + 1] == IntValue(BoolToInt(b.synced));
      assert data[pos + 2] == IntValue(BoolToInt(b.connected));
      assert data[pos..pos + 3] == [data[pos], data[pos + 1], data[pos + 2]];
    }
  }

  /** Records written one after another by `writeToParcel`. */
  function EncodeAll(bs: seq<BondedBleDevice>): seq<ParcelValue> {
    if bs == [] then [] else Encode(bs[0]) + EncodeAll(bs[1..])
  }

  /** `k` successive `createFromParcel` calls from `pos`; `None` when one of them throws. */
  function DecodeAll(data: seq<ParcelValue>, pos: nat, k: nat): Option<seq<BondedBleDevice>>
    decreases k
  {
    if k == 0 then Some([])
    else
      match Decode(data, pos)
      case None => None
      case Some(d) =>
        match DecodeAll(data, d.1, k - 1)
        case None => None
        case Some(rest) => Some([d.0] + rest)
  }

  /** Records written back to back, anywhere in a parcel, are all read back, in order. */
  lemma {:induction false} DecodeAllEncodeAll(prefix: seq<ParcelValue>, bs: seq<BondedBleDevice>,
                                              suffix: seq<ParcelValue>)
    ensures DecodeAll(prefix + EncodeAll(bs) + suffix, |prefix|, |bs|) == Some(bs)
    decreases |bs|
  {
    if bs != [] {
      var rest := EncodeAll(bs[1..]) + suffix;
      assert prefix + EncodeAll(bs) + suffix == prefix + Encode(bs[0]) + rest;
      DecodeEncode(prefix, bs[0], rest);
      var prefix' := prefix + Encode(bs[0]);
      assert prefix + Encode(bs[0]) + rest == prefix' + EncodeAll(bs[1..]) + suffix;
      DecodeAllEncodeAll(prefix', bs[1..], suffix);
      assert [bs[0]] + bs[1..] == bs;
    }
  }

  /** `android.os.Parcel`: the values written so far and the read position. */
  class Parcel {
    var data: seq<ParcelValue>
    var pos: nat

    constructor()
      ensures data == [] && pos == 0
    {
      data := [];
      pos := 0;
    }

    method WriteInt(n: int)
      modifies this
      ensures data == old(data) + [IntValue(n)] && pos == old(pos)
    {
      data := data + [IntValue(n)];
    }

    method WriteParcelable(device: BleDevice)
      modifies this
      ensures data == old(data) + [DeviceValue(device)] && pos == old(pos)
    {
      data := data + [DeviceValue(device)];
    }

    method ReadInt() returns (n: int)
      modifies this
      ensures n == IntAt(old(data), old(pos)) && data == old(data)
      ensures pos == if old(pos) < |old(data)| then old(pos) + 1 else old(pos)
    {
      n := IntAt(data, pos);
      if pos < |data| {
        pos := pos + 1;
      }
    }

    method ReadParcelable() returns (device: Option<BleDevice>)
      modifies this
      ensures data == old(data)
      ensures old(pos) < |old(data)| && old(data)[old(pos)].DeviceValue? ==>
        device == Some(old(data)[old(pos)].device) && pos == old(pos) + 1
      ensures !(old(pos) < |old(data)| && old(data)[old(pos)].DeviceValue?) ==> device == None && pos == old(pos)
    {
      if pos < |data| && data[pos].DeviceValue? {
        device := Some(data[pos].device);
        pos := pos + 1;
      } else {
        device := None;
      }
    }
  }

  /** `writeToParcel`: appends the device, then `synced`, then `connected`. */
  method WriteToParcel(b: BondedBleDevice, dest: Parcel)
    modifies dest
    ensures dest.data == old(dest.data) + Encode(b) && dest.pos == old(dest.pos)
  {
    dest.WriteParcelable(b.device);
    dest.WriteInt(if b.synced then 1 else 0);
    dest.WriteInt(if b.connected then 1 else 0);
  }

  /** `CREATOR.createFromParcel`: the parcel constructor; `None` where reading the device throws. */
  method CreateFromParcel(source: Parcel) returns (b: Option<BondedBleDevice>)
    modifies source
    ensures source.data == old(source.data)
    ensures var d := Decode(old(source.data), old(source.pos));
      && (d.None? ==> b.None?)
      && (d.Some? ==> b == Some(d.value.0) && source.pos <= d.value.1)
    ensures forall x ::
      (old(source.pos) + 3 <= |old(source.data)| && old(source.data)[old(source.pos)..old(source.pos) + 3] == Encode(x))
      ==> b == Some(x) && source.pos == old(source.pos) + 3
  {
    forall x | old(source.pos) + 3 <= |old(source.data)|
      && old(source.data)[old(source.pos)..old(source.pos) + 3] == Encode(x)
      ensures Decode(old(source.data), old(source.pos)) == Some((x, old(source.pos) + 3))
    {
      var data, pos := old(source.data), old(source.pos);
      assert data == data[..pos] + Encode(x) + data[pos + 3..];
      DecodeEncode(data[..pos], x, data[pos + 3..]);
    }
    var device := source.ReadParcelable();
    if device.None? {
      return None;
    }
    var synced := source.ReadInt();
    var connected := source.ReadInt();
    b := Some(BondedBleDevice(device.value, synced == 1, connected == 1));
  }

  /** `describeContents` */
  function DescribeContents(): int {
    0
  }

  /** `CREATOR.newArray`: an array of the given size holding only nulls. */
  function NewArray(size: nat): (r: seq<Option<BondedBleDevice>>)
    ensures |r| == size
    ensures forall i :: 0 <= i < size ==> r[i] == None
  {
    seq(size, _ => None)
  }
}
