/**
 * The frame codec of `BleMessageChannel`: a payload is cut into chunks of `splitWriteNum - 4`
 * bytes and each chunk is prefixed with a four-byte header, the 16-bit frame index and the
 * 16-bit frame count, both big-endian.
 */
module Frames {

  /** A JVM `Byte`: a signed eight-bit value. */
  newtype Byte = x: int | -128 <= x < 128

  /** `Int.toByte()`: keeps the low eight bits and reads them back as a signed value. */
  function ToByte(n: int): Byte {
    var low := n % 256;
    if low < 128 then low as Byte else (low - 256) as Byte
  }

  /** `Byte.toInt() and 0xff`: the unsigned reading of a byte. */
  function Unsigned(b: Byte): int {
    if b < 0 then b as int + 256 else b as int
  }

  /** `intToBytes`: `[(num shr 8) and 0xff, num and 0xff]`, each truncated to a byte. */
  function IntToBytes(num: int): seq<Byte> {
    [ToByte((num / 256) % 256), ToByte(num % 256)]
  }

  /**
   * `bytesToInt` as written: `(h.toInt() shl 8) + l.toInt()`, plus 65536 when negative.
   * `l.toInt()` sign-extends, so a low byte of 0x80 or more is read as a negative number.
   */
  function BytesToInt(h: Byte, l: Byte): int {
    var high := h as int * 256;
    var low := l as int;
    var res := low + high;
    if res < 0 then res + 65536 else res
  }

  /** The evident intent of `bytesToInt`: both bytes read unsigned. */
  function BytesToIntUnsigned(h: Byte, l: Byte): int {
    Unsigned(h) * 256 + Unsigned(l)
  }

  // ---------------------------------------------------------------------------------------------
  // Arithmetic facts about the 16-bit header.

  lemma ModUnique(n: int, d: int, a: int, m: int)
    requires d > 0 && 0 <= m < d && n == d * a + m
    ensures n % d == m && n / d == a
  {
    var q, r := n / d, n % d;
    assert n == d * q + r;
    var k := a - q;
    assert d * k == r - m;
    assert k >= 1 ==> d * k >= d;
    assert k <= -1 ==> d * k <= -d;
  }

  /** The low sixteen bits of `n` are its high byte times 256 plus its low byte. */
  lemma Split16(n: int)
    ensures n % 65536 == ((n / 256) % 256) * 256 + n % 256
  {
    var q, r := n / 256, n % 256;
    var a, b := q / 256, q % 256;
    assert n == 256 * q + r;
    assert q == 256 * a + b;
    assert n == 65536 * a + (256 * b + r);
    ModUnique(n, 65536, a, 256 * b + r);
  }

  /** On a value that already fits in eight bits, `toByte` only reinterprets the top bit as a sign. */
  lemma ToByteInRange(x: int)
    requires 0 <= x < 256
    ensures ToByte(x) as int == if x < 128 then x else x - 256
    ensures Unsigned(ToByte(x)) == x
  {
    ModUnique(x, 256, 0, x);
  }

  /** The header bytes of `n` are its second-lowest and lowest bytes, each read as a signed byte. */
  lemma HeaderBytes(n: int)
    ensures var b, r := (n / 256) % 256, n % 256;
      && 0 <= b < 256 && 0 <= r < 256
      && n % 65536 == b * 256 + r
      && IntToBytes(n) == [ToByte(b), ToByte(r)]
      && IntToBytes(n)[0] as int == (if b < 128 then b else b - 256)
      && IntToBytes(n)[1] as int == (if r < 128 then r else r - 256)
      && Unsigned(IntToBytes(n)[0]) == b && Unsigned(IntToBytes(n)[1]) == r
  {
    Split16(n);
    ToByteInRange((n / 256) % 256);
    ToByteInRange(n % 256);
  }

  /**
   * What the as-written decoder makes of an encoded header: the low sixteen bits of `n`, less 256
   * whenever the low byte has its top bit set.
   */
  lemma SignExtendedDecode(n: int)
    ensures BytesToInt(IntToBytes(n)[0], IntToBytes(n)[1])
         == (if n % 256 < 128 then n else n - 256) % 65536
  {
    HeaderBytes(n);
    var m := n % 65536;
    if n % 256 >= 128 {
      if m >= 256 {
        ModUnique(n - 256, 65536, n / 65536, m - 256);
      } else {
        ModUnique(n - 256, 65536, n / 65536 - 1, m - 256 + 65536);
      }
    }
  }

  /** Over the 16-bit range the as-written decoder inverts the encoder exactly when the low byte is below 0x80. */
  lemma SignExtendedRoundTripIff(n: int)
    requires 0 <= n < 65536
    ensures BytesToInt(IntToBytes(n)[0], IntToBytes(n)[1]) == n <==> n % 256 < 128
  {
    SignExtendedDecode(n);
    ModUnique(n, 65536, 0, n);
    if n % 256 >= 128 {
      assert n >= 128;
      ModUnique(n - 256, 65536, if n >= 256 then 0 else -1, if n >= 256 then n - 256 else n - 256 + 65536);
    }
  }

  /** The counterexample: frame number 128 is read back as 65408. */
  lemma SignExtensionBreaksIndex128()
    ensures IntToBytes(128) == [0, -128]
    ensures BytesToInt(IntToBytes(128)[0], IntToBytes(128)[1]) == 65408
  {
  }

  /** The corrected decoder inverts the encoder on the low sixteen bits of every number. */
  lemma UnsignedRoundTrip(n: int)
    ensures BytesToIntUnsigned(IntToBytes(n)[0], IntToBytes(n)[1]) == n % 65536
  {
    HeaderBytes(n);
  }

  // ---------------------------------------------------------------------------------------------
  // Chunking and frames.

  function Flatten<T>(xs: seq<seq<T>>): seq<T> {
    if xs == [] then [] else xs[0] + Flatten(xs[1..])
  }

  lemma {:induction false} FlattenSnoc<T>(xs: seq<seq<T>>, x: seq<T>)
    ensures Flatten(xs + [x]) == Flatten(xs) + x
  {
    if xs == [] {
      assert [] + [x] == [x];
    } else {
      assert (xs + [x])[1..] == xs[1..] + [x];
      FlattenSnoc(xs[1..], x);
    }
  }

  /** A prefix one longer is the shorter prefix followed by the next element. */
  lemma TakeSnoc<T>(xs: seq<T>, k: int)
    requires 1 <= k <= |xs|
    ensures xs[..k] == xs[..k - 1] + [xs[k - 1]]
  {
  }

  /** Kotlin's `chunked(size)`: consecutive pieces of `size` elements, the last possibly shorter. */
  function Chunks<T>(content: seq<T>, size: nat): seq<seq<T>>
    requires size > 0
    decreases |content|
  {
    if |content| == 0 then []
    else if |content| <= size then [content]
    else [content[..size]] + Chunks(content[size..], size)
  }

  /** The frame count `write` puts in every header: the ceiling of the content length over the chunk size. */
  function FrameCount(contentLength: nat, chunkSize: nat): nat
    requires chunkSize > 0
  {
    (contentLength + chunkSize - 1) / chunkSize
  }

  /** `chunked` loses and reorders nothing. */
  lemma {:induction false} ChunksFlatten<T>(content: seq<T>, size: nat)
    requires size > 0
    ensures Flatten(Chunks(content, size)) == content
    decreases |content|
  {
    if 0 < |content| <= size {
      assert Flatten(Chunks(content, size)) == content + Flatten([]);
    } else if |content| > size {
      var rest := content[size..];
      ChunksFlatten(rest, size);
      assert Chunks(content, size)[1..] == Chunks(rest, size);
      assert content == content[..size] + rest;
    }
  }

  /** `chunked` makes `FrameCount` pieces. */
  lemma {:induction false} ChunksCount<T>(content: seq<T>, size: nat)
    requires size > 0
    ensures |Chunks(content, size)| == FrameCount(|content|, size)
    decreases |content|
  {
    if |content| == 0 {
      ModUnique(size - 1, size, 0, size - 1);
    } else if |content| <= size {
      ModUnique(|content| + size - 1, size, 1, |content| - 1);
    } else {
      var rest := content[size..];
      ChunksCount(rest, size);
      var k := FrameCount(|rest|, size);
      ModUnique(|rest| + size - 1, size, k, (|rest| + size - 1) % size);
      ModUnique(|content| + size - 1, size, k + 1, (|rest| + size - 1) % size);
    }
  }

  /** Every piece of `chunked` but the last is full, and the last holds between one and `size` elements. */
  lemma {:induction false} ChunksSizes<T>(content: seq<T>, size: nat)
    requires size > 0
    ensures forall i :: 0 <= i < |Chunks(content, size)| - 1 ==> |Chunks(content, size)[i]| == size
    ensures forall i :: 0 <= i < |Chunks(content, size)| ==> 0 < |Chunks(content, size)[i]| <= size
    decreases |content|
  {
    if |content| > size {
      var rest := content[size..];
      ChunksSizes(rest, size);
      var r := Chunks(content, size);
      assert r[1..] == Chunks(rest, size);
      forall i | 0 < i < |r|
        ensures r[i] == Chunks(rest, size)[i - 1]
      {
      }
    }
  }

  /**
   * `chunked` loses and reorders nothing, makes `FrameCount` pieces, and every piece but the last
   * is full while the last holds between one and `size` elements.
   */
  lemma ChunksShape<T>(content: seq<T>, size: nat)
    requires size > 0
    ensures Flatten(Chunks(content, size)) == content
    ensures |Chunks(content, size)| == FrameCount(|content|, size)
    ensures forall i :: 0 <= i < |Chunks(content, size)| - 1 ==> |Chunks(content, size)[i]| == size
    ensures forall i :: 0 <= i < |Chunks(content, size)| ==> 0 < |Chunks(content, size)[i]| <= size
  {
    ChunksFlatten(content, size);
    ChunksCount(content, size);
    ChunksSizes(content, size);
  }

  /** The wire image of frame `index` of `count`: index, count, then the chunk. */
  function Frame(index: int, count: int, chunk: seq<Byte>): seq<Byte> {
    IntToBytes(index) + IntToBytes(count) + chunk
  }

  /** The frames `write` produces for `content`, in index order. */
  function EncodeFrames(content: seq<Byte>, splitWriteNum: int): (frames: seq<seq<Byte>>)
    requires splitWriteNum > 4
  {
    var chunks := Chunks(content, splitWriteNum - 4);
    seq(|chunks|, i requires 0 <= i < |chunks| => Frame(i, |chunks|, chunks[i]))
  }

  /**
   * `write`: cuts `content` into chunks of `splitWriteNum - 4` bytes, prefixes each with its
   * index and the frame count, and concatenates the frames in index order into the one buffer
   * that is handed to the radio.
   */
  method Write(content: seq<Byte>, splitWriteNum: int) returns (bytesToSend: seq<Byte>)
    requires splitWriteNum > 4
    ensures bytesToSend == Flatten(EncodeFrames(content, splitWriteNum))
  {
    var byteLists := Chunks(content, splitWriteNum - 4);
    var frameCount := |byteLists|;
    ghost var frames := EncodeFrames(content, splitWriteNum);
    bytesToSend := [];
    for index := 0 to |byteLists|
      invariant bytesToSend == Flatten(frames[..index])
    {
      var frameBytes := IntToBytes(index);
      var frameCountBytes := IntToBytes(frameCount);
      var bytes := byteLists[index];
      bytes := frameCountBytes + bytes;
      bytes := frameBytes + bytes;
      assert bytes == frames[index];
      FlattenSnoc(frames[..index], bytes);
      TakeSnoc(frames, index + 1);
      bytesToSend := bytesToSend + bytes;
    }
    assert frames[..|byteLists|] == frames;
  }

  /**
   * The frames of `write`: as many as `FrameCount`; frame `i` is the header `[hi(i), lo(i),
   * hi(count), lo(count)]` followed by the `i`-th chunk; every frame but the last is exactly
   * `splitWriteNum` bytes long and the last between five and `splitWriteNum`; and the payloads
   * after the headers, concatenated, give back the content. Empty content has no frames.
   */
  lemma FramesLayout(content: seq<Byte>, splitWriteNum: int)
    requires splitWriteNum > 4
    ensures var frames := EncodeFrames(content, splitWriteNum);
      && |frames| == FrameCount(|content|, splitWriteNum - 4)
      && (content == [] <==> frames == [])
      && (forall i :: 0 <= i < |frames| ==>
            |frames[i]| > 4 && frames[i][..4] == IntToBytes(i) + IntToBytes(|frames|))
      && (forall i :: 0 <= i < |frames| - 1 ==> |frames[i]| == splitWriteNum)
      && (forall i :: 0 <= i < |frames| ==> |frames[i]| <= splitWriteNum)
      && Flatten(Payloads(frames)) == content
  {
    var chunks := Chunks(content, splitWriteNum - 4);
    var frames := EncodeFrames(content, splitWriteNum);
    ChunksShape(content, splitWriteNum - 4);
    assert Payloads(frames) == chunks by {
      PayloadsAt(frames);
    }
    forall i | 0 <= i < |frames|
      ensures |frames[i]| > 4 && frames[i][..4] == IntToBytes(i) + IntToBytes(|frames|)
    {
      assert frames[i] == IntToBytes(i) + IntToBytes(|frames|) + chunks[i];
    }
    if content != [] {
      assert |chunks| > 0 by { assert Flatten(chunks) == content; }
    }
  }

  /** What follows the four header bytes of each frame. */
  function Payloads(frames: seq<seq<Byte>>): (r: seq<seq<Byte>>)
    ensures |r| == |frames|
  {
    seq(|frames|, i requires 0 <= i < |frames| => if |frames[i]| >= 4 then frames[i][4..] else [])
  }

  lemma PayloadsAt(frames: seq<seq<Byte>>)
    ensures forall i :: 0 <= i < |frames| && |frames[i]| >= 4 ==> Payloads(frames)[i] == frames[i][4..]
  {
  }

  /**
   * The radio cuts the buffer `write` hands it into packets of `splitWriteNum` bytes; because
   * every frame but the last fills a packet exactly, those packets are the frames themselves.
   */
  lemma PacketsAreFrames(content: seq<Byte>, splitWriteNum: int)
    requires splitWriteNum > 4
    ensures Chunks(Flatten(EncodeFrames(content, splitWriteNum)), splitWriteNum)
         == EncodeFrames(content, splitWriteNum)
  {
    FramesLayout(content, splitWriteNum);
    ChunksOfFlatten(EncodeFrames(content, splitWriteNum), splitWriteNum);
  }

  lemma {:induction false} ChunksOfFlatten<T>(xs: seq<seq<T>>, size: nat)
    requires size > 0
    requires forall i :: 0 <= i < |xs| - 1 ==> |xs[i]| == size
    requires forall i :: 0 <= i < |xs| ==> 0 < |xs[i]| <= size
    ensures Chunks(Flatten(xs), size) == xs
  {
    if xs != [] {
      var flat := Flatten(xs);
      assert flat == xs[0] + Flatten(xs[1..]);
      if |xs| == 1 {
        assert Flatten(xs[1..]) == [];
        assert flat == xs[0];
      } else {
        ChunksOfFlatten(xs[1..], size);
        FlattenNonEmpty(xs[1..]);
        assert flat[..size] == xs[0];
        assert flat[size..] == Flatten(xs[1..]);
      }
    }
  }

  lemma {:induction false} FlattenNonEmpty<T>(xs: seq<seq<T>>)
    requires xs != [] && |xs[0]| > 0
    ensures |Flatten(xs)| > 0
  {
  }
}
