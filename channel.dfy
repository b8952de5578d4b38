/**
 * The receiving half of `BleMessageChannel`: frames arriving one packet at a time are
 * reassembled into a message, which is parsed and handed to every registered callback.
 */
module Channel {
  import opened Common
  import opened Frames

  /** How the two header bytes are turned back into a number. */
  datatype HeaderDecoding =
    | SignExtending   // `bytesToInt` as written
    | ZeroExtending   // both bytes read unsigned

  function Decode(d: HeaderDecoding, h: Byte, l: Byte): int {
    match d
    case SignExtending => BytesToInt(h, l)
    case ZeroExtending => BytesToIntUnsigned(h, l)
  }

  /** The number a receiver reads back from the header bytes `write` produces for `x`. */
  function HeaderValue(d: HeaderDecoding, x: int): int {
    Decode(d, IntToBytes(x)[0], IntToBytes(x)[1])
  }

  /** The header fields a receiver reads from a packet. */
  function IndexField(d: HeaderDecoding, packet: seq<Byte>): int
    requires |packet| >= 4
  {
    Decode(d, packet[0], packet[1])
  }

  function CountField(d: HeaderDecoding, packet: seq<Byte>): int
    requires |packet| >= 4
  {
    Decode(d, packet[2], packet[3])
  }

  /** The result of one `read`: the new partial message and the message completed, if any. */
  datatype ReadOutcome<M> = ReadOutcome(current: Option<seq<Byte>>, message: Option<M>)

  /**
   * One call of `read` on the partial message `current`. A packet shorter than the header throws
   * while the header is read and changes nothing; a non-initial frame with no message under way is
   * dropped; frame 0 starts a new message, discarding any partial one; the payload is appended; and
   * the frame whose index is the count less one ends the message, which is parsed (`parse` yields
   * `None` where `parseFrom` throws).
   */
  function Receive<M>(d: HeaderDecoding, current: Option<seq<Byte>>, bytes: seq<Byte>,
                      parse: seq<Byte> -> Option<M>): ReadOutcome<M>
  {
    if |bytes| < 4 then ReadOutcome(current, None)
    else
      var frame := IndexField(d, bytes);
      var frameCount := CountField(d, bytes);
      if frame != 0 && current.None? then ReadOutcome(None, None)
      else
        var acc := if frame == 0 then bytes[4..] else current.value + bytes[4..];
        if frame == frameCount - 1 then ReadOutcome(None, parse(acc))
        else ReadOutcome(Some(acc), None)
  }

  /** `read` never lets a packet too short to hold a header disturb the message under way. */
  lemma ShortPacketIgnored<M>(d: HeaderDecoding, current: Option<seq<Byte>>, bytes: seq<Byte>,
                              parse: seq<Byte> -> Option<M>)
    requires |bytes| < 4
    ensures Receive(d, current, bytes, parse) == ReadOutcome(current, None)
  {
  }

  /** A frame 0 starts afresh: what came before it has no influence on the outcome. */
  lemma FirstFrameRestarts<M>(d: HeaderDecoding, current: Option<seq<Byte>>, bytes: seq<Byte>,
                              parse: seq<Byte> -> Option<M>)
    requires |bytes| >= 4 && Decode(d, bytes[0], bytes[1]) == 0
    ensures Receive(d, current, bytes, parse) == Receive(d, None, bytes, parse)
    ensures Receive(d, current, bytes, parse).current == None || Receive(d, current, bytes, parse).current == Some(bytes[4..])
  {
  }

  /** A message that completes leaves no partial message behind. */
  lemma DeliveryClearsPartial<M>(d: HeaderDecoding, current: Option<seq<Byte>>, bytes: seq<Byte>,
                                 parse: seq<Byte> -> Option<M>)
    ensures Receive(d, current, bytes, parse).message.Some? ==> Receive(d, current, bytes, parse).current == None
  {
  }

  /** What a sequence of `read` calls has produced: the partial message left and the messages completed. */
  datatype FeedResult<M> = FeedResult(current: Option<seq<Byte>>, messages: seq<M>)

  function OptionToSeq<M>(o: Option<M>): seq<M> {
    if o.Some? then [o.value] else []
  }

  /** `read` applied to each packet in arrival order, starting from the partial message `current`. */
  function FeedAll<M>(d: HeaderDecoding, current: Option<seq<Byte>>, packets: seq<seq<Byte>>,
                      parse: seq<Byte> -> Option<M>): FeedResult<M>
  {
    if packets == [] then FeedResult(current, [])
    else
      var before := FeedAll(d, current, packets[..|packets| - 1], parse);
      var o := Receive(d, before.current, packets[|packets| - 1], parse);
      FeedResult(o.current, before.messages + OptionToSeq(o.message))
  }

  /** A decoder reads back every header value up to and including `n` exactly. */
  ghost predicate HeadersFaithful(d: HeaderDecoding, n: int) {
    forall i :: 0 <= i <= n ==> HeaderValue(d, i) == i
  }

  /** The as-written decoder is faithful for frame counts up to `n` exactly when `n` is below 128. */
  lemma SignExtendingFaithfulIff(n: nat)
    ensures HeadersFaithful(SignExtending, n) <==> n < 128
  {
    if n < 128 {
      forall i | 0 <= i <= n
        ensures HeaderValue(SignExtending, i) == i
      {
        SignExtendedDecode(i);
        ModUnique(i, 65536, 0, i);
      }
    } else {
      SignExtensionBreaksIndex128();
      assert HeaderValue(SignExtending, 128) != 128;
    }
  }

  /** The corrected decoder is faithful for frame counts up to `n` exactly when `n` fits sixteen bits. */
  lemma ZeroExtendingFaithfulIff(n: nat)
    ensures HeadersFaithful(ZeroExtending, n) <==> n < 65536
  {
    if n < 65536 {
      forall i | 0 <= i <= n
        ensures HeaderValue(ZeroExtending, i) == i
      {
        UnsignedRoundTrip(i);
        ModUnique(i, 65536, 0, i);
      }
    } else {
      UnsignedRoundTrip(65536);
      assert HeaderValue(ZeroExtending, 65536) == 0;
    }
  }

  /** Where the fields of frame `j` of `write` sit, and what a receiver reads from its header. */
  lemma FrameFields(d: HeaderDecoding, content: seq<Byte>, splitWriteNum: int, j: int)
    requires splitWriteNum > 4
    requires 0 <= j < |EncodeFrames(content, splitWriteNum)|
    ensures var f := EncodeFrames(content, splitWriteNum)[j];
      && |f| >= 4
      && f[4..] == Chunks(content, splitWriteNum - 4)[j]
      && Decode(d, f[0], f[1]) == HeaderValue(d, j)
      && Decode(d, f[2], f[3]) == HeaderValue(d, |EncodeFrames(content, splitWriteNum)|)
  {
    var frames := EncodeFrames(content, splitWriteNum);
    var f := frames[j];
    var index, count := IntToBytes(j), IntToBytes(|frames|);
    assert f == index + count + Chunks(content, splitWriteNum - 4)[j];
    assert f[0] == index[0] && f[1] == index[1] && f[2] == count[0] && f[3] == count[1];
  }

  /**
   * While every packet announces the same count, the first reads as index 0, no later one reads
   * as index 0 and none reads as the last index, the packets fed so far leave exactly their
   * payloads, concatenated, as the partial message, and nothing is delivered.
   */
  lemma {:induction false} FeedPrefix<M>(d: HeaderDecoding, current: Option<seq<Byte>>, packets: seq<seq<Byte>>,
                                         payloads: seq<seq<Byte>>, count: int,
                                         parse: seq<Byte> -> Option<M>, k: nat)
    requires 1 <= k <= |packets| == |payloads|
    requires forall j :: 0 <= j < |packets| ==> |packets[j]| >= 4 && packets[j][4..] == payloads[j]
    requires forall j :: 0 <= j < k ==> CountField(d, packets[j]) == count && IndexField(d, packets[j]) != count - 1
    requires IndexField(d, packets[0]) == 0
    requires forall j :: 1 <= j < k ==> IndexField(d, packets[j]) != 0
    ensures FeedAll(d, current, packets[..k], parse) == FeedResult(Some(Flatten(payloads[..k])), [])
  {
    FeedAllStep(d, current, packets, parse, k);
    var p := packets[k - 1];
    assert |p| >= 4 && p[4..] == payloads[k - 1];
    assert CountField(d, p) == count && IndexField(d, p) != count - 1;
    if k == 1 {
      assert IndexField(d, p) == 0;
      assert packets[..0] == [] && payloads[..0] == [];
      ReceiveAppends(d, current, p, parse);
      TakeSnoc(payloads, 1);
      FlattenSnoc(payloads[..0], payloads[0]);
      assert Flatten(payloads[..1]) == [] + payloads[0] == payloads[0];
    } else {
      assert IndexField(d, p) != 0;
      FeedPrefix(d, current, packets, payloads, count, parse, k - 1);
      ReceiveAppends(d, Some(Flatten(payloads[..k - 1])), p, parse);
      TakeSnoc(payloads, k);
      FlattenSnoc(payloads[..k - 1], payloads[k - 1]);
    }
  }

  /** A packet that is not the last frame extends the partial message, or starts one when it is frame 0. */
  lemma ReceiveAppends<M>(d: HeaderDecoding, current: Option<seq<Byte>>, p: seq<Byte>, parse: seq<Byte> -> Option<M>)
    requires |p| >= 4 && IndexField(d, p) != CountField(d, p) - 1
    requires IndexField(d, p) == 0 || current.Some?
    ensures Receive(d, current, p, parse)
      == ReadOutcome(Some(if IndexField(d, p) == 0 then p[4..] else current.value + p[4..]), None)
  {
  }

  /** Feeding the first `k` packets is feeding the first `k - 1` and then reading packet `k - 1`. */
  lemma FeedAllStep<M>(d: HeaderDecoding, current: Option<seq<Byte>>, packets: seq<seq<Byte>>,
                       parse: seq<Byte> -> Option<M>, k: nat)
    requires 1 <= k <= |packets|
    ensures var before := FeedAll(d, current, packets[..k - 1], parse);
      var o := Receive(d, before.current, packets[k - 1], parse);
      FeedAll(d, current, packets[..k], parse) == FeedResult(o.current, before.messages + OptionToSeq(o.message))
  {
    assert packets[..k][..k - 1] == packets[..k - 1];
  }

  /**
   * The frames of `write` in the form `FeedPrefix` takes them: each carries its chunk after the
   * header, its index field reads as the decoded index and its count field as the decoded count.
   */
  lemma FramesFields(d: HeaderDecoding, content: seq<Byte>, splitWriteNum: int)
    requires splitWriteNum > 4
    ensures var frames := EncodeFrames(content, splitWriteNum);
      && |frames| == |Chunks(content, splitWriteNum - 4)|
      && (forall j :: 0 <= j < |frames| ==> |frames[j]| >= 4 && frames[j][4..] == Chunks(content, splitWriteNum - 4)[j])
      && (forall j :: 0 <= j < |frames| ==> IndexField(d, frames[j]) == HeaderValue(d, j))
      && (forall j :: 0 <= j < |frames| ==> CountField(d, frames[j]) == HeaderValue(d, |frames|))
  {
    var frames := EncodeFrames(content, splitWriteNum);
    forall j | 0 <= j < |frames|
      ensures |frames[j]| >= 4 && frames[j][4..] == Chunks(content, splitWriteNum - 4)[j]
      ensures IndexField(d, frames[j]) == HeaderValue(d, j)
      ensures CountField(d, frames[j]) == HeaderValue(d, |frames|)
    {
      FrameFields(d, content, splitWriteNum, j);
    }
  }

  /**
   * Packets whose index fields read as their positions and whose count fields read as their
   * number deliver the parse of their concatenated payloads exactly once and leave no partial
   * message.
   */
  lemma FeedComplete<M>(d: HeaderDecoding, current: Option<seq<Byte>>, packets: seq<seq<Byte>>,
                        payloads: seq<seq<Byte>>, parse: seq<Byte> -> Option<M>)
    requires 1 <= |packets| == |payloads|
    requires forall j :: 0 <= j < |packets| ==> |packets[j]| >= 4 && packets[j][4..] == payloads[j]
    requires forall j :: 0 <= j < |packets| ==> IndexField(d, packets[j]) == j && CountField(d, packets[j]) == |packets|
    ensures FeedAll(d, current, packets, parse) == FeedResult(None, OptionToSeq(parse(Flatten(payloads))))
  {
    var n := |packets|;
    var p := packets[n - 1];
    var before := FeedAll(d, current, packets[..n - 1], parse);
    assert before == FeedResult(if n == 1 then current else Some(Flatten(payloads[..n - 1])), []) by {
      if n == 1 {
        assert packets[..0] == [];
      } else {
        FeedPrefix(d, current, packets, payloads, n, parse, n - 1);
      }
    }
    assert Flatten(payloads) == (if n == 1 then [] else Flatten(payloads[..n - 1])) + p[4..] by {
      TakeSnoc(payloads, n);
      assert payloads[..n] == payloads;
      FlattenSnoc(payloads[..n - 1], payloads[n - 1]);
      assert payloads[..0] == [];
    }
    var o := Receive(d, before.current, p, parse);
    assert o == ReadOutcome(None, parse(Flatten(payloads))) by {
      assert IndexField(d, p) == n - 1 && CountField(d, p) == n;
      ReceiveCompletes(d, before.current, p, parse);
      assert n == 1 ==> Flatten(payloads) == p[4..];
    }
    FeedAllStep(d, current, packets, parse, n);
    assert packets[..n] == packets;
    assert [] + OptionToSeq(o.message) == OptionToSeq(o.message);
  }

  /** The last frame ends the message under way, or one of its own when it is also frame 0, and hands it to `parse`. */
  lemma ReceiveCompletes<M>(d: HeaderDecoding, current: Option<seq<Byte>>, p: seq<Byte>, parse: seq<Byte> -> Option<M>)
    requires |p| >= 4 && IndexField(d, p) == CountField(d, p) - 1
    requires IndexField(d, p) == 0 || current.Some?
    ensures Receive(d, current, p, parse)
      == ReadOutcome(None, parse(if IndexField(d, p) == 0 then p[4..] else current.value + p[4..]))
  {
  }

  /**
   * The stream round trip: when the decoder reads every header value up to the frame count back
   * exactly, feeding the frames `write` produces for a non-empty payload, in order, delivers that
   * payload's parse exactly once and leaves no partial message, whatever partial message was under
   * way before; an empty payload produces no frames and so changes nothing.
   */
  lemma RoundTrip<M>(d: HeaderDecoding, current: Option<seq<Byte>>, content: seq<Byte>,
                     splitWriteNum: int, parse: seq<Byte> -> Option<M>)
    requires splitWriteNum > 4
    requires HeadersFaithful(d, |EncodeFrames(content, splitWriteNum)|)
    ensures content == [] ==> FeedAll(d, current, EncodeFrames(content, splitWriteNum), parse) == FeedResult(current, [])
    ensures content != [] ==> FeedAll(d, current, EncodeFrames(content, splitWriteNum), parse)
                              == FeedResult(None, OptionToSeq(parse(content)))
  {
    var frames := EncodeFrames(content, splitWriteNum);
    if content == [] {
      FramesLayout(content, splitWriteNum);
    } else {
      var chunks := Chunks(content, splitWriteNum - 4);
      ChunksShape(content, splitWriteNum - 4);
      FlattenNonEmpty(chunks);
      FaithfulFields(d, content, splitWriteNum);
      FramesFields(d, content, splitWriteNum);
      FeedComplete(d, current, frames, chunks, parse);
    }
  }

  /** A faithful decoder reads every frame's index as its position and its count as the frame count. */
  lemma FaithfulFields(d: HeaderDecoding, content: seq<Byte>, splitWriteNum: int)
    requires splitWriteNum > 4
    requires HeadersFaithful(d, |EncodeFrames(content, splitWriteNum)|)
    ensures var frames := EncodeFrames(content, splitWriteNum);
      forall j :: 0 <= j < |frames| ==> IndexField(d, frames[j]) == j && CountField(d, frames[j]) == |frames|
  {
    var frames := EncodeFrames(content, splitWriteNum);
    FramesFields(d, content, splitWriteNum);
    forall j | 0 <= j < |frames|
      ensures IndexField(d, frames[j]) == j && CountField(d, frames[j]) == |frames|
    {
      assert HeaderValue(d, j) == j;
      assert HeaderValue(d, |frames|) == |frames|;
    }
  }

  /**
   * A payload that needs exactly 128 frames is never delivered by the as-written decoder: the count
   * 128 is read back as 65408, so no frame is taken for the last one, and the whole payload stays
   * pending as a partial message.
   */
  lemma Message128FramesLost<M>(current: Option<seq<Byte>>, content: seq<Byte>,
                                splitWriteNum: int, parse: seq<Byte> -> Option<M>)
    requires splitWriteNum > 4
    requires |EncodeFrames(content, splitWriteNum)| == 128
    ensures FeedAll(SignExtending, current, EncodeFrames(content, splitWriteNum), parse)
         == FeedResult(Some(content), [])
  {
    var frames := EncodeFrames(content, splitWriteNum);
    var chunks := Chunks(content, splitWriteNum - 4);
    SignExtensionBreaksIndex128();
    SignExtendingFaithfulIff(127);
    FramesFields(SignExtending, content, splitWriteNum);
    forall j | 0 <= j < 128
      ensures IndexField(SignExtending, frames[j]) == j
    {
      assert HeaderValue(SignExtending, j) == j;
    }
    FeedPrefix(SignExtending, current, frames, chunks, 65408, parse, 128);
    assert frames[..128] == frames;
    ChunksShape(content, splitWriteNum - 4);
    assert chunks[..128] == chunks;
  }

  /** With the corrected decoder the same 128-frame payload is delivered. */
  lemma Message128FramesDeliveredWhenCorrected<M>(current: Option<seq<Byte>>, content: seq<Byte>,
                                                  splitWriteNum: int, parse: seq<Byte> -> Option<M>)
    requires splitWriteNum > 4
    requires |EncodeFrames(content, splitWriteNum)| == 128
    ensures FeedAll(ZeroExtending, current, EncodeFrames(content, splitWriteNum), parse)
         == FeedResult(None, OptionToSeq(parse(content)))
  {
    ZeroExtendingFaithfulIff(128);
    FramesLayout(content, splitWriteNum);
    RoundTrip(ZeroExtending, current, content, splitWriteNum, parse);
  }

  /** What the as-written decoder reads back for a value `j` of the sixteen-bit range. */
  function SignExtendedValue(j: int): int {
    if j % 256 < 128 then j else if j >= 256 then j - 256 else j + 65280
  }

  lemma SignExtendedHeader(j: int)
    requires 0 <= j < 65536
    ensures HeaderValue(SignExtending, j) == SignExtendedValue(j)
  {
    SignExtendedDecode(j);
    if j % 256 < 128 {
      ModUnique(j, 65536, 0, j);
    } else if j >= 256 {
      ModUnique(j - 256, 65536, 0, j - 256);
    } else {
      ModUnique(j - 256, 65536, -1, j + 65280);
    }
  }

  /**
   * The frame of an `n`-frame message that the as-written decoder takes for the last one: none
   * when `n` is 128 or a multiple of 256; frame `n - 257` when `n` is 128 more than a non-zero
   * multiple of 256; otherwise the true last frame `n - 1`.
   */
  function SignExtendedEnd(n: int): Option<int> {
    if n == 128 || n % 256 == 0 then None
    else if n % 256 == 128 then Some(n - 257)
    else Some(n - 1)
  }

  /**
   * Among the frames of an `n`-frame message read with the as-written decoder, frame `j` reads as
   * the count less one exactly when it is `SignExtendedEnd(n)`, and only frame 0 reads as index 0.
   */
  lemma SignExtendedEndIff(n: int, j: int)
    requires 1 <= n < 65536 && 0 <= j < n
    ensures SignExtendedValue(j) == SignExtendedValue(n) - 1 <==> SignExtendedEnd(n) == Some(j)
    ensures SignExtendedValue(j) == 0 <==> j == 0
  {
    var q, r := n / 256, n % 256;
    ModUnique(n, 256, q, r);
    if r != 0 {
      ModUnique(n - 1, 256, q, r - 1);
    } else {
      ModUnique(n - 1, 256, q - 1, 255);
    }
    if r >= 128 && n >= 256 {
      ModUnique(n - 257, 256, q - 1, r - 1);
    }
    if j % 256 < 128 {
      assert SignExtendedValue(j) == j;
    } else if j >= 256 {
      assert SignExtendedValue(j) == j - 256;
    } else {
      assert SignExtendedValue(j) == j + 65280;
    }
  }

  /**
   * Packets that start with index 0, never read as index 0 again and of which only packet `e`
   * reads as the last: feeding the first `e + 1` delivers the parse of their payloads.
   */
  lemma FeedEndsAt<M>(d: HeaderDecoding, current: Option<seq<Byte>>, packets: seq<seq<Byte>>,
                      payloads: seq<seq<Byte>>, count: int, parse: seq<Byte> -> Option<M>, e: nat)
    requires e < |packets| == |payloads|
    requires forall j :: 0 <= j < |packets| ==> |packets[j]| >= 4 && packets[j][4..] == payloads[j]
    requires forall j :: 0 <= j < |packets| ==> CountField(d, packets[j]) == count
    requires forall j :: 0 <= j < |packets| ==> (IndexField(d, packets[j]) == count - 1 <==> j == e)
    requires IndexField(d, packets[0]) == 0
    requires forall j :: 1 <= j < |packets| ==> IndexField(d, packets[j]) != 0
    ensures FeedAll(d, current, packets[..e + 1], parse) == FeedResult(None, OptionToSeq(parse(Flatten(payloads[..e + 1]))))
  {
    var p := packets[e];
    var before := FeedAll(d, current, packets[..e], parse);
    assert before == FeedResult(if e == 0 then current else Some(Flatten(payloads[..e])), []) by {
      if e == 0 {
        assert packets[..0] == [];
      } else {
        FeedPrefix(d, current, packets, payloads, count, parse, e);
      }
    }
    assert Flatten(payloads[..e + 1]) == (if e == 0 then [] else Flatten(payloads[..e])) + p[4..] by {
      TakeSnoc(payloads, e + 1);
      FlattenSnoc(payloads[..e], payloads[e]);
      assert payloads[..0] == [];
    }
    var o := Receive(d, before.current, p, parse);
    assert o == ReadOutcome(None, parse(Flatten(payloads[..e + 1]))) by {
      assert |p| >= 4 && IndexField(d, p) == count - 1 && CountField(d, p) == count;
      ReceiveCompletes(d, before.current, p, parse);
      if e == 0 {
        assert IndexField(d, p) == 0;
        assert Flatten(payloads[..e + 1]) == p[4..];
      } else {
        assert IndexField(d, p) != 0;
        assert before.current == Some(Flatten(payloads[..e]));
        assert Flatten(payloads[..e + 1]) == before.current.value + p[4..];
      }
    }
    FeedAllStep(d, current, packets, parse, e + 1);
    assert [] + OptionToSeq(o.message) == OptionToSeq(o.message);
  }

  /** Once no message is under way, packets that do not read as index 0 are dropped without effect. */
  lemma {:induction false} FeedDrops<M>(d: HeaderDecoding, current: Option<seq<Byte>>, packets: seq<seq<Byte>>,
                                        parse: seq<Byte> -> Option<M>, k: nat, m: nat)
    requires k <= m <= |packets|
    requires FeedAll(d, current, packets[..k], parse).current == None
    requires forall j :: k <= j < m ==> |packets[j]| >= 4 && IndexField(d, packets[j]) != 0
    ensures FeedAll(d, current, packets[..m], parse) == FeedAll(d, current, packets[..k], parse)
    decreases m
  {
    if m > k {
      FeedDrops(d, current, packets, parse, k, m - 1);
      FeedAllStep(d, current, packets, parse, m);
      var before := FeedAll(d, current, packets[..m - 1], parse);
      assert before.messages + OptionToSeq(Receive(d, before.current, packets[m - 1], parse).message) == before.messages;
    }
  }

  /**
   * The headers of the frames of an `n`-frame payload read with the as-written decoder: each
   * carries its chunk, all announce the same count, only frame 0 reads as index 0, and frame `j`
   * reads as the last exactly when it is `SignExtendedEnd(n)`.
   */
  lemma SignExtendedFrames(content: seq<Byte>, splitWriteNum: int)
    requires splitWriteNum > 4
    requires |EncodeFrames(content, splitWriteNum)| < 65536
    ensures var frames := EncodeFrames(content, splitWriteNum);
      var n, count := |frames|, HeaderValue(SignExtending, |frames|);
      && |frames| == |Chunks(content, splitWriteNum - 4)|
      && (forall j :: 0 <= j < n ==> |frames[j]| >= 4 && frames[j][4..] == Chunks(content, splitWriteNum - 4)[j])
      && (forall j :: 0 <= j < n ==> CountField(SignExtending, frames[j]) == count)
      && (forall j :: 0 <= j < n ==> (IndexField(SignExtending, frames[j]) == count - 1 <==> SignExtendedEnd(n) == Some(j)))
      && (forall j :: 0 <= j < n ==> (IndexField(SignExtending, frames[j]) == 0 <==> j == 0))
  {
    var frames := EncodeFrames(content, splitWriteNum);
    var n := |frames|;
    FramesFields(SignExtending, content, splitWriteNum);
    SignExtendedHeader(n);
    forall j | 0 <= j < n
      ensures IndexField(SignExtending, frames[j]) == HeaderValue(SignExtending, n) - 1 <==> SignExtendedEnd(n) == Some(j)
      ensures IndexField(SignExtending, frames[j]) == 0 <==> j == 0
    {
      SignExtendedHeader(j);
      SignExtendedEndIff(n, j);
    }
  }

  /** With no frame read as the last, the as-written decoder leaves the whole payload pending. */
  lemma SignExtendedNoEnd<M>(current: Option<seq<Byte>>, content: seq<Byte>,
                             splitWriteNum: int, parse: seq<Byte> -> Option<M>)
    requires splitWriteNum > 4
    requires |EncodeFrames(content, splitWriteNum)| < 65536
    requires SignExtendedEnd(|EncodeFrames(content, splitWriteNum)|).None?
    requires content != []
    ensures FeedAll(SignExtending, current, EncodeFrames(content, splitWriteNum), parse) == FeedResult(Some(content), [])
  {
    var frames := EncodeFrames(content, splitWriteNum);
    var chunks := Chunks(content, splitWriteNum - 4);
    var n := |frames|;
    ChunksShape(content, splitWriteNum - 4);
    assert chunks != [];
    SignExtendedFrames(content, splitWriteNum);
    FeedPrefix(SignExtending, current, frames, chunks, HeaderValue(SignExtending, n), parse, n);
    assert frames[..n] == frames && chunks[..n] == chunks;
  }

  /**
   * With frame `e` read as the last, the as-written decoder delivers the first `e + 1` chunks as
   * one message and drops the frames after it.
   */
  lemma SignExtendedEndsAt<M>(current: Option<seq<Byte>>, content: seq<Byte>,
                              splitWriteNum: int, parse: seq<Byte> -> Option<M>, e: nat)
    requires splitWriteNum > 4
    requires |EncodeFrames(content, splitWriteNum)| < 65536
    requires SignExtendedEnd(|EncodeFrames(content, splitWriteNum)|) == Some(e)
    ensures e < |Chunks(content, splitWriteNum - 4)|
    ensures FeedAll(SignExtending, current, EncodeFrames(content, splitWriteNum), parse)
         == FeedResult(None, OptionToSeq(parse(Flatten(Chunks(content, splitWriteNum - 4)[..e + 1]))))
  {
    var frames := EncodeFrames(content, splitWriteNum);
    var chunks := Chunks(content, splitWriteNum - 4);
    var n := |frames|;
    assert e < n == |chunks| by {
      SignExtendedFrames(content, splitWriteNum);
    }
    var delivered := FeedResult(None, OptionToSeq(parse(Flatten(chunks[..e + 1]))));
    assert FeedAll(SignExtending, current, frames[..e + 1], parse) == delivered by {
      SignExtendedFrames(content, splitWriteNum);
      FeedEndsAt(SignExtending, current, frames, chunks, HeaderValue(SignExtending, n), parse, e);
    }
    assert FeedAll(SignExtending, current, frames[..n], parse) == delivered by {
      SignExtendedFrames(content, splitWriteNum);
      FeedDrops(SignExtending, current, frames, parse, e + 1, n);
    }
    assert frames[..n] == frames;
  }

  /**
   * What the as-written decoder makes of the frames of a non-empty payload of fewer than 65536
   * frames, by `SignExtendedEnd`: with no end frame the whole payload stays pending and nothing is
   * delivered; with the true last frame as end the payload is delivered; with frame `n - 257` as
   * end only the first `n - 256` chunks are delivered and the last 256 frames are dropped.
   */
  lemma SignExtendingOutcome<M>(current: Option<seq<Byte>>, content: seq<Byte>,
                                splitWriteNum: int, parse: seq<Byte> -> Option<M>)
    requires splitWriteNum > 4
    requires content != [] && |EncodeFrames(content, splitWriteNum)| < 65536
    ensures var n := |EncodeFrames(content, splitWriteNum)|;
      var r := FeedAll(SignExtending, current, EncodeFrames(content, splitWriteNum), parse);
      && (SignExtendedEnd(n).None? ==> r == FeedResult(Some(content), []))
      && (SignExtendedEnd(n) == Some(n - 1) ==> r == FeedResult(None, OptionToSeq(parse(content))))
      && (SignExtendedEnd(n) == Some(n - 257) ==>
            r == FeedResult(None, OptionToSeq(parse(Flatten(Chunks(content, splitWriteNum - 4)[..n - 256])))))
  {
    var n := |EncodeFrames(content, splitWriteNum)|;
    var chunks := Chunks(content, splitWriteNum - 4);
    match SignExtendedEnd(n)
    case None =>
      SignExtendedNoEnd(current, content, splitWriteNum, parse);
    case Some(e) =>
      SignExtendedEndsAt(current, content, splitWriteNum, parse, e);
      if e == n - 1 {
        ChunksShape(content, splitWriteNum - 4);
        assert chunks[..n] == chunks;
      }
  }

  /** A message handed to one registered callback. */
  datatype Delivery<M> = Delivery(callback: CallbackId, device: Mac, message: M)

  /** Identity of a registered `MessageCallback`. */
  type CallbackId = int

  /** The deliveries of `message`, one per callback, in registration order. */
  function Fanout<M>(callbacks: seq<CallbackId>, device: Mac, message: M): seq<Delivery<M>> {
    seq(|callbacks|, i requires 0 <= i < |callbacks| => Delivery(callbacks[i], device, message))
  }

  /** `BleMessageChannel`, receiving side: the registered callbacks and the partial message. */
  class BleMessageChannel<M> {
    /** How this channel reads frame headers: `SignExtending` is `bytesToInt` as written. */
    const decoding: HeaderDecoding
    var messageCallbacks: seq<CallbackId>
    var currentBytes: Option<seq<Byte>>

    constructor(decoding: HeaderDecoding)
      ensures this.decoding == decoding
      ensures messageCallbacks == [] && currentBytes == None
    {
      this.decoding := decoding;
      messageCallbacks := [];
      currentBytes := None;
    }

    /** `addMessageCallback`: appends, so callbacks are notified in registration order. */
    method AddMessageCallback(callback: CallbackId)
      modifies this
      ensures messageCallbacks == old(messageCallbacks) + [callback]
      ensures currentBytes == old(currentBytes)
    {
      messageCallbacks := messageCallbacks + [callback];
    }

    /**
     * `read`: advances the partial message as `Receive` says, with this channel's decoder, and
     * when a message completes and parses hands it to every callback in registration order.
     */
    method Read(device: Mac, bytes: seq<Byte>, parse: seq<Byte> -> Option<M>)
      returns (deliveries: seq<Delivery<M>>)
      modifies this
      ensures var o := Receive(decoding, old(currentBytes), bytes, parse);
        && currentBytes == o.current
        && messageCallbacks == old(messageCallbacks)
        && deliveries == (if o.message.Some? then Fanout(messageCallbacks, device, o.message.value) else [])
    {
      deliveries := [];
      if |bytes| < 4 {
        return;
      }
      var callbacks := messageCallbacks;
      var frame := IndexField(decoding, bytes);
      var frameCount := CountField(decoding, bytes);
      if frame == 0 {
        currentBytes := Some([]);
      } else if currentBytes.None? {
        return;
      }
      var currBytes := currentBytes.value + bytes[4..];
      if frame == 0 {
        assert currBytes == bytes[4..];
      }
      currentBytes := Some(currBytes);
      if frame == frameCount - 1 {
        currentBytes := None;
        var parsed := parse(currBytes);
        if parsed.Some? {
          var message := parsed.value;
          for i := 0 to |callbacks|
            invariant deliveries == Fanout(callbacks[..i], device, message)
          {
            deliveries := deliveries + [Delivery(callbacks[i], device, message)];
          }
          assert callbacks[..|callbacks|] == callbacks;
        }
      }
    }
  }
}
