/**
 * The VarInt codec of the Server List Ping protocol: `writeVarInt` and
 * `readVarInt` of utils/server-status.js.
 *
 * A VarInt carries 7 payload bits per byte, least significant group first;
 * bit 0x80 of a byte says that another byte follows. The JavaScript code
 * works on numbers with the int32/uint32 conversions of its bitwise
 * operators; those conversions are written out here as ToInt32 and ToUint32.
 */
module VarInt {
  import opened Wrappers

  /** One byte of a Node.js Buffer. */
  type Byte = b: int | 0 <= b < 256

  const CONTINUATION: int := 0x80
  const TWO_31: int := 0x8000_0000
  const TWO_32: int := 0x1_0000_0000
  /** A VarInt may not take more than five bytes. */
  const MAX_VARINT_BYTES: nat := 5
  /** The message of the Error `readVarInt` throws, in both failure cases. */
  const VARINT_TOO_LONG: string := "VarInt too long"

  /** JavaScript's ToUint32 on an integral number. */
  function ToUint32(x: int): (r: nat)
    ensures r < TWO_32
    ensures 0 <= x < TWO_32 ==> r == x
  {
    x % TWO_32
  }

  /** JavaScript's ToInt32 on an integral number: the 32-bit pattern read as two's complement. */
  function ToInt32(x: int): (r: int)
  {
    var u := x % TWO_32;
    if u < TWO_31 then u else u - TWO_32
  }

  /**
   * ToInt32 lands in the int32 range and leaves int32-range non-negative
   * numbers alone. Stated apart from the function so that only the proofs
   * that need these facts pay for them.
   */
  lemma ToInt32Range(x: int)
    ensures -TWO_31 <= ToInt32(x) < TWO_31
    ensures 0 <= x < TWO_31 ==> ToInt32(x) == x
    ensures TWO_31 <= x < TWO_32 ==> ToInt32(x) == x - TWO_32
  {
  }

  /** `128^n`, the weight of the `n`-th 7-bit group. */
  function Pow128(n: nat): (r: nat)
    ensures r >= 1
  {
    if n == 0 then 1 else 128 * Pow128(n - 1)
  }

  /** `x << (7 * n)` on unbounded integers. */
  function Shl7(x: nat, n: nat): (r: nat)
  {
    x * Pow128(n)
  }

  /** The number the 7-bit groups of `bs` spell, least significant group first. */
  function GroupValue(bs: seq<Byte>): (r: nat)
  {
    if bs == [] then 0 else bs[0] % 128 + 128 * GroupValue(bs[1..])
  }

  // ---------------------------------------------------------------------------
  // Encoding
  // ---------------------------------------------------------------------------

  /**
   * The bytes `writeVarInt(v)` returns, for an integral number `v`.
   * While `v >= 0x80` it emits `(v & 0xFF) | 0x80`, which is `v % 128 + 128`,
   * and continues with `v >>>= 7`, which is `ToUint32(v) / 128`; the last
   * byte is `v & 0xFF`, which is `v % 256`.
   */
  function VarIntBytes(v: int): (r: seq<Byte>)
    ensures |r| >= 1
    decreases if v < CONTINUATION then 0 else v
  {
    if v < CONTINUATION then [v % 256]
    else [v % 128 + 128] + VarIntBytes(ToUint32(v) / 128)
  }

  /** `writeVarInt`: the loop that pushes one byte per 7-bit group. */
  method WriteVarInt(value: int) returns (bytes: seq<Byte>)
    ensures bytes == VarIntBytes(value)
  {
    bytes := [];
    var v := value;
    while v >= CONTINUATION
      invariant bytes + VarIntBytes(v) == VarIntBytes(value)
      decreases v
    {
      var next := ToUint32(v) / 128;
      assert VarIntBytes(v) == [v % 128 + 128] + VarIntBytes(next);
      assert bytes + VarIntBytes(v) == (bytes + [v % 128 + 128]) + VarIntBytes(next);
      bytes := bytes + [v % 128 + 128];  // (value & 0xFF) | 0x80
      v := next;                         // value >>>= 7
    }
    bytes := bytes + [v % 256];          // value & 0xFF
  }

  /** An unsigned 32-bit value below 128^(n+1) takes at most n + 1 bytes. */
  lemma {:induction false} VarIntBytesLength(v: int, n: nat)
    requires 0 <= v < TWO_32 && v < Pow128(n + 1)
    ensures |VarIntBytes(v)| <= n + 1
    decreases n
  {
    if v >= CONTINUATION {
      assert Pow128(n + 1) == 128 * Pow128(n);
      var p := Pow128(n);
      assert v == 128 * (v / 128) + v % 128;
      assert 128 * (v / 128) < 128 * p;
      assert 1 <= v / 128 < p;
      assert n != 0;
      assert ToUint32(v) == v;
      VarIntBytesLength(v / 128, n - 1);
    }
  }

  /**
   * For an unsigned 32-bit value the last byte of the encoding has no
   * continuation bit, the groups spell `v`, and the length is the least
   * number of groups that can hold `v`.
   */
  lemma {:induction false} VarIntBytesValue(v: int)
    requires 0 <= v < TWO_32
    ensures var w := VarIntBytes(v);
      && w[|w| - 1] < CONTINUATION
      && GroupValue(w) == v
      && v < Pow128(|w|)
      && (|w| > 1 ==> Pow128(|w| - 1) <= v)
  {
    var w := VarIntBytes(v);
    if v < CONTINUATION {
      assert w == [v];
      assert w[1..] == [];
    } else {
      var rest := VarIntBytes(v / 128);
      assert w == [v % 128 + 128] + rest;
      VarIntBytesValue(v / 128);
      assert w[1..] == rest;
      assert GroupValue(w) == v % 128 + 128 * GroupValue(rest);
      assert Pow128(|w|) == 128 * Pow128(|rest|);
      if |rest| > 1 {
        assert Pow128(|w| - 1) == 128 * Pow128(|rest| - 1);
      }
    }
  }

  /**
   * For an unsigned 32-bit value the encoding has between one and five bytes,
   * every byte but the last carries the continuation bit and the last does
   * not, the groups spell `v`, and the length is the least number of groups
   * that can hold `v`.
   */
  lemma VarIntBytesShape(v: int)
    requires 0 <= v < TWO_32
    ensures var w := VarIntBytes(v);
      && 1 <= |w| <= MAX_VARINT_BYTES
      && (forall i :: 0 <= i < |w| - 1 ==> w[i] >= CONTINUATION)
      && w[|w| - 1] < CONTINUATION
      && GroupValue(w) == v
      && v < Pow128(|w|)
      && (|w| > 1 ==> Pow128(|w| - 1) <= v)
  {
    VarIntBytesValue(v);
    assert Pow128(MAX_VARINT_BYTES) == 0x8_0000_0000;
    VarIntBytesLength(v, MAX_VARINT_BYTES - 1);
  }

  /** The boundary encodings the protocol documentation lists. */
  lemma VarIntBytesExamples()
    ensures VarIntBytes(0) == [0x00]
    ensures VarIntBytes(127) == [0x7F]
    ensures VarIntBytes(128) == [0x80, 0x01]
    ensures VarIntBytes(300) == [0xAC, 0x02]
    ensures VarIntBytes(760) == [0xF8, 0x05]
  {
  }

  // ---------------------------------------------------------------------------
  // Decoding
  // ---------------------------------------------------------------------------

  /** The decoded VarInt and the number of bytes it took: `{value, bytesRead}`. */
  datatype VarIntRead = VarIntRead(value: int, bytesRead: nat)

  /**
   * Scanning from position `i` of the VarInt at `offset`: the length of the
   * VarInt if a byte without the continuation bit is found before the
   * buffer ends and among its first five bytes; None otherwise.
   */
  function TerminatorFrom(buf: seq<Byte>, offset: nat, i: nat): (r: Option<nat>)
    requires i <= MAX_VARINT_BYTES
    ensures r.Some? ==> i < r.value <= MAX_VARINT_BYTES && offset + r.value <= |buf|
    decreases MAX_VARINT_BYTES - i
  {
    if i == MAX_VARINT_BYTES || offset + i >= |buf| then None
    else if buf[offset + i] < CONTINUATION then Some(i + 1)
    else TerminatorFrom(buf, offset, i + 1)
  }

  /**
   * The loop of `readVarInt(buf, offset)` from `position` on, with `value`
   * the groups accumulated so far. Each step ORs
   * `(currentByte & 0x7F) << (position * 7)` into the int32 accumulator.
   * The groups of the first five bytes occupy disjoint bits, so `|=` adds;
   * the int32 `<<` and `|=` drop the bits above bit 31, which commutes with
   * the additions, so the model accumulates the unbounded sum and drops
   * those bits once, with ToInt32, when the VarInt ends. A sixth byte would
   * be accumulated differently, but the throw after it discards it.
   */
  function DecodeFrom(buf: seq<Byte>, offset: nat, position: nat, value: nat): (r: Result<VarIntRead>)
    requires position <= MAX_VARINT_BYTES
    decreases MAX_VARINT_BYTES - position
  {
    if offset + position >= |buf| then Failure(VARINT_TOO_LONG)
    else
      var currentByte := buf[offset + position];
      var next := value + Shl7(currentByte % 128, position);
      if position + 1 > MAX_VARINT_BYTES then Failure(VARINT_TOO_LONG)
      else if currentByte < CONTINUATION then Success(VarIntRead(ToInt32(next), position + 1))
      else DecodeFrom(buf, offset, position + 1, next)
  }

  /**
   * `readVarInt` described by where the VarInt ends rather than by its loop:
   * it fails when the scan finds no end byte, and otherwise yields the int32
   * reinterpretation of the groups up to and including the end byte.
   */
  function DecodeSpec(buf: seq<Byte>, offset: nat): (r: Result<VarIntRead>)
  {
    match TerminatorFrom(buf, offset, 0)
    case None => Failure(VARINT_TOO_LONG)
    case Some(n) => Success(VarIntRead(ToInt32(GroupValue(buf[offset..offset + n])), n))
  }

  /** What `readVarInt(buf, offset)` returns or throws. */
  function DecodeVarInt(buf: seq<Byte>, offset: nat): (r: Result<VarIntRead>)
  {
    DecodeFrom(buf, offset, 0, 0)
  }

  lemma {:induction false} GroupValueSnoc(bs: seq<Byte>, b: Byte)
    ensures GroupValue(bs + [b]) == GroupValue(bs) + Shl7(b % 128, |bs|)
    decreases |bs|
  {
    if bs == [] {
      assert bs + [b] == [b];
      assert GroupValue([b]) == b % 128 + 128 * GroupValue([]) by {
        assert [b][1..] == [];
      }
    } else {
      var tail := bs[1..];
      assert (bs + [b])[0] == bs[0];
      assert (bs + [b])[1..] == tail + [b];
      GroupValueSnoc(tail, b);
      assert GroupValue(bs + [b]) == bs[0] % 128 + 128 * GroupValue(tail + [b]);
      var g, p := b % 128, Pow128(|tail|);
      assert Pow128(|bs|) == 128 * p;
      assert 128 * (g * p) == g * (128 * p);
    }
  }

  /**
   * `readVarInt`, a do-while loop over the bytes from `offset`. It reads only
   * `buffer[offset .. offset + bytesRead)` and takes one to five bytes.
   */
  method ReadVarInt(buffer: seq<Byte>, offset: nat) returns (r: Result<VarIntRead>)
    ensures r == DecodeVarInt(buffer, offset)
  {
    // The groups accumulated so far; ToInt32 of it is the int32 `value`.
    var value: nat := 0;
    var position: nat := 0;
    while true
      invariant position <= MAX_VARINT_BYTES
      invariant DecodeFrom(buffer, offset, position, value) == DecodeVarInt(buffer, offset)
      decreases MAX_VARINT_BYTES - position
    {
      if offset + position >= |buffer| {
        return Failure(VARINT_TOO_LONG);
      }
      var currentByte := buffer[offset + position];
      value := value + Shl7(currentByte % 128, position);  // value |= (currentByte & 0x7F) << (position * 7)
      position := position + 1;
      if position > MAX_VARINT_BYTES {
        return Failure(VARINT_TOO_LONG);
      }
      if currentByte < CONTINUATION {
        return Success(VarIntRead(ToInt32(value), position));
      }
    }
  }

  // ---------------------------------------------------------------------------
  // Properties of decoding
  // ---------------------------------------------------------------------------

  /**
   * The loop from `position` on, when no byte before `position` ended the
   * VarInt and `value` holds the groups read so far.
   */
  lemma {:induction false} DecodeFromClosed(buf: seq<Byte>, offset: nat, position: nat, value: nat)
    requires position <= MAX_VARINT_BYTES
    requires TerminatorFrom(buf, offset, position) == TerminatorFrom(buf, offset, 0)
    requires position == 0 ==> value == 0
    requires position > 0 ==> offset + position <= |buf|
    requires position > 0 ==> value == GroupValue(buf[offset..offset + position])
    ensures DecodeFrom(buf, offset, position, value) == DecodeSpec(buf, offset)
    decreases MAX_VARINT_BYTES - position
  {
    if offset + position >= |buf| || position == MAX_VARINT_BYTES {
      assert TerminatorFrom(buf, offset, position) == None;
      assert DecodeFrom(buf, offset, position, value) == Failure(VARINT_TOO_LONG);
    } else {
      var currentByte := buf[offset + position];
      var next := value + Shl7(currentByte % 128, position);
      AccumulateStep(buf, offset, position, value);
      if currentByte < CONTINUATION {
        assert TerminatorFrom(buf, offset, position) == Some(position + 1);
        assert DecodeFrom(buf, offset, position, value) == Success(VarIntRead(ToInt32(next), position + 1));
      } else {
        assert TerminatorFrom(buf, offset, position) == TerminatorFrom(buf, offset, position + 1);
        DecodeFromClosed(buf, offset, position + 1, next);
        assert DecodeFrom(buf, offset, position, value) == DecodeFrom(buf, offset, position + 1, next);
      }
    }
  }

  /** One step of the loop adds the next group to the accumulator. */
  lemma AccumulateStep(buf: seq<Byte>, offset: nat, position: nat, value: nat)
    requires offset + position < |buf|
    requires position == 0 ==> value == 0
    requires position > 0 ==> value == GroupValue(buf[offset..offset + position])
    ensures value + Shl7(buf[offset + position] % 128, position)
         == GroupValue(buf[offset..offset + position + 1])
  {
    var currentByte := buf[offset + position];
    var before := buf[offset..offset + position];
    assert buf[offset..offset + position + 1] == before + [currentByte];
    GroupValueSnoc(before, currentByte);
  }

  /** The loop and the description by the end byte agree on every input. */
  lemma DecodeVarIntClosed(buf: seq<Byte>, offset: nat)
    ensures DecodeVarInt(buf, offset) == DecodeSpec(buf, offset)
  {
    DecodeFromClosed(buf, offset, 0, 0);
  }

  /** Where the scan stops: the first byte without the continuation bit. */
  lemma {:induction false} TerminatorFromSound(buf: seq<Byte>, offset: nat, i: nat)
    requires i <= MAX_VARINT_BYTES
    requires TerminatorFrom(buf, offset, i).Some?
    ensures var n := TerminatorFrom(buf, offset, i).value;
      && (forall k :: offset + i <= k < offset + n - 1 ==> buf[k] >= CONTINUATION)
      && buf[offset + n - 1] < CONTINUATION
    decreases MAX_VARINT_BYTES - i
  {
    if buf[offset + i] >= CONTINUATION {
      TerminatorFromSound(buf, offset, i + 1);
    }
  }

  /** A byte without the continuation bit after continuation bytes ends the scan there. */
  lemma {:induction false} TerminatorFromAt(buf: seq<Byte>, offset: nat, i: nat, n: nat)
    requires i < n <= MAX_VARINT_BYTES && offset + n <= |buf|
    requires forall k :: offset + i <= k < offset + n - 1 ==> buf[k] >= CONTINUATION
    requires buf[offset + n - 1] < CONTINUATION
    ensures TerminatorFrom(buf, offset, i) == Some(n)
    decreases n - i
  {
    if i < n - 1 {
      TerminatorFromAt(buf, offset, i + 1, n);
    }
  }

  /** The scan fails exactly when every available byte of the first five carries the continuation bit. */
  lemma {:induction false} TerminatorFromNone(buf: seq<Byte>, offset: nat, i: nat)
    requires i <= MAX_VARINT_BYTES
    ensures TerminatorFrom(buf, offset, i).None?
        <==> forall k :: offset + i <= k < offset + MAX_VARINT_BYTES && k < |buf| ==> buf[k] >= CONTINUATION
    decreases MAX_VARINT_BYTES - i
  {
    if i < MAX_VARINT_BYTES && offset + i < |buf| && buf[offset + i] >= CONTINUATION {
      TerminatorFromNone(buf, offset, i + 1);
    }
  }

  /**
   * A successful read takes one to five bytes inside the buffer: continuation
   * bytes followed by one byte without the continuation bit; its value is the
   * int32 reinterpretation of the groups those bytes spell.
   */
  lemma DecodeVarIntShape(buf: seq<Byte>, offset: nat)
    requires DecodeVarInt(buf, offset).Success?
    ensures var r := DecodeVarInt(buf, offset).value;
      && 1 <= r.bytesRead <= MAX_VARINT_BYTES
      && offset + r.bytesRead <= |buf|
      && (forall k :: offset <= k < offset + r.bytesRead - 1 ==> buf[k] >= CONTINUATION)
      && buf[offset + r.bytesRead - 1] < CONTINUATION
      && r.value == ToInt32(GroupValue(buf[offset..offset + r.bytesRead]))
  {
    DecodeVarIntClosed(buf, offset);
    TerminatorFromSound(buf, offset, 0);
  }

  /**
   * `readVarInt` throws "VarInt too long" exactly when no byte without the
   * continuation bit occurs before the buffer ends or among the first five
   * bytes: it ran off the buffer, or five continuation bytes came first.
   */
  lemma DecodeVarIntFailsIff(buf: seq<Byte>, offset: nat)
    ensures DecodeVarInt(buf, offset).Failure?
        <==> forall k :: offset <= k < offset + MAX_VARINT_BYTES && k < |buf| ==> buf[k] >= CONTINUATION
    ensures DecodeVarInt(buf, offset).Failure? ==> DecodeVarInt(buf, offset).error == VARINT_TOO_LONG
  {
    DecodeVarIntClosed(buf, offset);
    TerminatorFromNone(buf, offset, 0);
  }

  /** Reading off the end of the buffer fails. */
  lemma DecodeVarIntPastEnd(buf: seq<Byte>, offset: nat)
    requires offset >= |buf|
    ensures DecodeVarInt(buf, offset) == Failure(VARINT_TOO_LONG)
  {
    DecodeVarIntFailsIff(buf, offset);
  }

  /** Six bytes that all carry the continuation bit are rejected. */
  lemma DecodeVarIntSixContinuationBytes(buf: seq<Byte>, offset: nat)
    requires offset + 6 <= |buf|
    requires forall k :: offset <= k < offset + 6 ==> buf[k] >= CONTINUATION
    ensures DecodeVarInt(buf, offset) == Failure(VARINT_TOO_LONG)
  {
    DecodeVarIntFailsIff(buf, offset);
  }

  /** A read depends on nothing but the bytes it took. */
  lemma DecodeVarIntWindow(buf: seq<Byte>, other: seq<Byte>, offset: nat)
    requires DecodeVarInt(buf, offset).Success?
    requires var n := DecodeVarInt(buf, offset).value.bytesRead;
      offset + n <= |other| && offset + n <= |buf| && other[offset..offset + n] == buf[offset..offset + n]
    ensures DecodeVarInt(other, offset) == DecodeVarInt(buf, offset)
  {
    var n := DecodeVarInt(buf, offset).value.bytesRead;
    DecodeVarIntShape(buf, offset);
    forall k | offset <= k < offset + n
      ensures other[k] == buf[k]
    {
      assert other[offset..offset + n][k - offset] == buf[offset..offset + n][k - offset];
    }
    TerminatorFromAt(other, offset, 0, n);
    DecodeVarIntClosed(buf, offset);
    DecodeVarIntClosed(other, offset);
  }

  /** An encoding found at `offset` reads back as the value it encodes. */
  lemma VarIntAt(buf: seq<Byte>, offset: nat, v: int)
    requires 0 <= v < TWO_32
    requires offset + |VarIntBytes(v)| <= |buf|
    requires buf[offset..offset + |VarIntBytes(v)|] == VarIntBytes(v)
    ensures DecodeVarInt(buf, offset)
         == Success(VarIntRead(if v < TWO_31 then v else v - TWO_32, |VarIntBytes(v)|))
  {
    var w := VarIntBytes(v);
    VarIntBytesShape(v);
    forall k | offset <= k < offset + |w|
      ensures buf[k] == w[k - offset]
    {
      assert buf[offset..offset + |w|][k - offset] == buf[k];
    }
    TerminatorFromAt(buf, offset, 0, |w|);
    DecodeVarIntClosed(buf, offset);
    assert DecodeVarInt(buf, offset) == Success(VarIntRead(ToInt32(GroupValue(w)), |w|));
    ToInt32Range(v);
  }

  /**
   * Round trip: reading back what `writeVarInt(v)` wrote, wherever it sits in
   * a buffer, takes exactly its bytes and gives `v` for `v < 2^31`, and the
   * int32 reinterpretation `v - 2^32` for `2^31 <= v < 2^32`.
   */
  lemma VarIntRoundTrip(prefix: seq<Byte>, v: int, rest: seq<Byte>)
    requires 0 <= v < TWO_32
    ensures var w := VarIntBytes(v);
      DecodeVarInt(prefix + w + rest, |prefix|)
        == Success(VarIntRead(if v < TWO_31 then v else v - TWO_32, |w|))
  {
    var w := VarIntBytes(v);
    assert (prefix + w + rest)[|prefix|..|prefix| + |w|] == w;
    VarIntAt(prefix + w + rest, |prefix|, v);
  }

  /** Any proper prefix of an encoding cannot be read: the buffer ends first. */
  lemma VarIntTruncated(prefix: seq<Byte>, v: int, k: nat)
    requires 0 <= v < TWO_32
    requires k < |VarIntBytes(v)|
    ensures DecodeVarInt(prefix + VarIntBytes(v)[..k], |prefix|) == Failure(VARINT_TOO_LONG)
  {
    var w := VarIntBytes(v);
    var buf := prefix + w[..k];
    VarIntBytesShape(v);
    forall j | |prefix| <= j < |prefix| + MAX_VARINT_BYTES && j < |buf|
      ensures buf[j] >= CONTINUATION
    {
      assert buf[j] == w[j - |prefix|];
    }
    DecodeVarIntFailsIff(buf, |prefix|);
  }
}
