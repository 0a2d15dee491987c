/**
  Raw blocks: BytesBuilder, and the framing of a compressed header and its signature into one byte string
  (finalize) with its inverse (getHeaderEnd, getBlockMetaHeaderRaw, getBlockSignature).
  Compression and signing enter as the bytes they produce.
 */
module BlockFraming {
  import opened ByteStrings
  import opened ModArith

  const INT32: int := 0x8000_0000
  const WORD32: int := 0x1_0000_0000
  const WORD64: int := 0x1_0000_0000_0000_0000
  const MEMORY: int := 0x8000_0000_0000_0000

  // ---- big-endian integers ----

  /** The low n bytes of x, most significant first. */
  function BigEndian(x: nat, n: nat): (b: Bytes)
    ensures |b| == n
  {
    if n == 0 then [] else BigEndian(x / 256, n - 1) + [x % 256]
  }

  function FromBigEndian(b: Bytes): nat {
    if b == [] then 0 else FromBigEndian(b[..|b| - 1]) * 256 + b[|b| - 1]
  }

  function Power256(n: nat): (p: nat)
    ensures p > 0
  {
    if n == 0 then 1 else 256 * Power256(n - 1)
  }

  /** Writing n bytes and reading them back keeps the number modulo 256^n. */
  lemma {:induction false} BigEndianRoundTrip(x: nat, n: nat)
    ensures FromBigEndian(BigEndian(x, n)) == x % Power256(n)
  {
    if n > 0 {
      BigEndianRoundTrip(x / 256, n - 1);
      var b := BigEndian(x, n);
      assert b[..n - 1] == BigEndian(x / 256, n - 1);
      LowDigits(x, Power256(n - 1));
    }
  }

  lemma LowDigits(x: nat, p: nat)
    requires p > 0
    ensures x % (256 * p) == (x / 256) % p * 256 + x % 256
  {
    var q := x / 256;
    var r := q % p * 256 + x % 256;
    assert x == q / p * (256 * p) + r by {
      assert q == q / p * p + q % p;
      assert q / p * (256 * p) == q / p * p * 256;
    }
    DivModUnique(x, 256 * p, q / p, r);
  }

  /** Byte i counted from the end is the i-th digit to base 256. */
  lemma {:induction false} BigEndianAt(x: nat, n: nat, i: nat)
    requires i < n
    ensures BigEndian(x, n)[n - 1 - i] == (x / Power256(i)) % 256
  {
    if i > 0 {
      BigEndianAt(x / 256, n - 1, i - 1);
      DivideTwice(x, 256, Power256(i - 1));
    }
  }

  // ---- the builder ----

  class BytesBuilder {
    var bytes: Bytes
    var filled: nat
    var autoAppend: bool

    ghost predicate Valid()
      reads this
    {
      filled <= |bytes|
    }

    /** What has been appended. */
    ghost function Contents(): Bytes
      requires Valid()
      reads this
    {
      if autoAppend then bytes else bytes[..filled]
    }

    constructor ()
      ensures Valid() && Contents() == [] && autoAppend
    {
      bytes, filled, autoAppend := [], 0, true;
    }

    constructor Fixed(len: nat)
      ensures Valid() && Contents() == [] && !autoAppend && |bytes| == len
    {
      bytes, filled, autoAppend := seq(len, _ => 0), 0, false;
    }

    /** append for bytes: the first len of them, or all; a fixed builder without room takes none. */
    method Append(v: Bytes, len: int)
      requires Valid() && |v| < INT32
      modifies this`bytes, this`filled
      ensures Valid() && |bytes| == (if autoAppend then |old(bytes)| + Taken(v, len) else |old(bytes)|)
      ensures Contents() == old(Contents()) +
                if autoAppend || old(filled) + Taken(v, len) <= |bytes| then v[..Taken(v, len)] else []
    {
      var n := if len < 0 || len > |v| then |v| else len;
      if n == 0 {
        return;
      }
      if autoAppend {
        bytes := bytes + v[..n];
      } else {
        if filled >= |bytes| {
          return;
        }
        if filled + n > |bytes| {
          return;
        }
        bytes := bytes[..filled] + v[..n] + bytes[filled + n..];
        filled := filled + n;
      }
    }

    /** append for integers: the low bytes, most significant first. */
    method AppendInt(x: nat, len: nat)
      requires Valid() && x < WORD64
      modifies this`bytes, this`filled
      ensures Valid() && |bytes| == (if autoAppend then |old(bytes)| + Min(len, 8) else |old(bytes)|)
      ensures Contents() == old(Contents()) +
                if autoAppend || old(filled) + Min(len, 8) <= |bytes| then BigEndian(x, Min(len, 8)) else []
    {
      var n := if len > 8 then 8 else len;
      if n == 0 {
        return;
      }
      var v := IntBytes(x, n);
      Append(v, 0 - 1);
    }

    method GetBytes() returns (b: Bytes)
      requires Valid()
      ensures b == Contents()
    {
      if autoAppend || filled == |bytes| {
        return bytes;
      }
      b := bytes[..filled];
    }
  }

  /** The byte loop of append for integers. */
  method IntBytes(x: nat, len: nat) returns (v: Bytes)
    ensures v == BigEndian(x, len)
  {
    v := seq(len, _ => 0);
    var i := len;
    while i > 0
      invariant 0 <= i <= len == |v|
      invariant forall k | 0 <= k < len - i :: v[k] == BigEndian(x, len)[k]
    {
      BigEndianAt(x, len, i - 1);
      v := v[len - i := ShiftedByte(x, i - 1)];
      i := i - 1;
    }
  }

  function Min(a: nat, b: nat): nat { if a < b then a else b }

  function Taken(v: Bytes, len: int): nat { if len < 0 || len > |v| then |v| else len }

  /** (x >> 8 i) & 0xFF */
  function ShiftedByte(x: nat, i: nat): Byte { (x / Power256(i)) % 256 }

  // ---- framing ----

  /** The signed part: algorithm, end of the header as 32 bits, compressed header. */
  function Prefix(algorithm: Byte, header: Bytes): Bytes {
    [algorithm] + BigEndian((|header| + 5) % WORD32, 4) + header
  }

  /** What finalize makes of the signed part and its signature. */
  function Framed(algorithm: Byte, header: Bytes, signature: Bytes): Bytes { Prefix(algorithm, header) + signature }

  /** generateMetaWithCompHeader */
  method MetaWithHeader(algorithm: Byte, header: Bytes) returns (prefix: Bytes)
    requires |header| < INT32
    ensures prefix == Prefix(algorithm, header)
  {
    var end := (|header| + 5) % WORD32;
    var meta := new BytesBuilder();
    meta.Append([algorithm], 0 - 1);
    meta.AppendInt(end, 4);
    meta.Append(header, 0 - 1);
    prefix := meta.GetBytes();
  }

  method Finalize(algorithm: Byte, header: Bytes, sign: Bytes -> Bytes) returns (raw: Bytes)
    requires |header| + 5 < INT32 && |sign(Prefix(algorithm, header))| < INT32
    ensures raw == Framed(algorithm, header, sign(Prefix(algorithm, header)))
  {
    var prefix := MetaWithHeader(algorithm, header);
    var builder := new BytesBuilder();
    builder.Append(prefix, 0 - 1);
    builder.Append(sign(prefix), 0 - 1);
    raw := builder.GetBytes();
  }

  /** Four bytes put together by shifts. */
  function Word(a: int, b: int, c: int, d: int): int { a * 16777216 + b * 65536 + c * 256 + d }

  /** getHeaderEnd: the four bytes are put together in a signed 32-bit integer and widened to 64 bits, so a set
      top bit makes a position past every end. */
  function HeaderEnd(raw: Bytes): (e: nat)
    ensures e != 0 ==> e < |raw|
  {
    if |raw| <= 5 then 0
    else
      var v := Word(raw[1], raw[2], raw[3], raw[4]);
      var end := if v < INT32 then v else WORD64 - WORD32 + v;
      if end >= |raw| then 0 else end
  }

  /** getBlockMetaHeaderRaw and getBlockSignature. */
  function MetaHeaderRaw(raw: Bytes): Bytes { if HeaderEnd(raw) == 0 then [] else raw[..HeaderEnd(raw)] }
  function BlockSignature(raw: Bytes): Bytes { if HeaderEnd(raw) == 0 then [] else raw[HeaderEnd(raw)..] }

  lemma FourBytes(x: nat, b: Bytes)
    requires x < WORD32 && b == BigEndian(x, 4)
    ensures Word(b[0], b[1], b[2], b[3]) == x
  {
    var q1 := x / 256;
    var q2 := q1 / 256;
    var q3 := q2 / 256;
    assert BigEndian(q3, 1) == [q3 % 256];
    assert BigEndian(q2, 2) == [q3 % 256, q2 % 256];
    assert BigEndian(q1, 3) == [q3 % 256, q2 % 256, q1 % 256];
    Digits(x, q1, q2, q3);
  }

  lemma Digits(x: nat, q1: nat, q2: nat, q3: nat)
    requires x < WORD32 && q1 == x / 256 && q2 == q1 / 256 && q3 == q2 / 256
    ensures Word(q3 % 256, q2 % 256, q1 % 256, x % 256) == x
  {
    assert q3 < 256;
  }

  /** Where the parser finds the header's end in a framed block. */
  lemma FramedEnd(algorithm: Byte, header: Bytes, signature: Bytes)
    requires |header| + 5 + |signature| < MEMORY
    ensures var v := (|header| + 5) % WORD32;
            HeaderEnd(Framed(algorithm, header, signature))
            == if v < INT32 && v < |header| + 5 + |signature| && |header| + |signature| > 0 then v else 0
  {
    var raw := Framed(algorithm, header, signature);
    var v := (|header| + 5) % WORD32;
    var b := BigEndian(v, 4);
    assert |raw| == |header| + 5 + |signature|;
    assert raw[1] == b[0] && raw[2] == b[1] && raw[3] == b[2] && raw[4] == b[3];
    FourBytes(v, b);
  }

  /** Parsing a finalized block gives back the signed part and the signature exactly when the header's length
      plus 5 stays below 2^31 and the signature is not empty. */
  lemma RoundTripIff(algorithm: Byte, header: Bytes, signature: Bytes)
    requires |header| + 5 + |signature| < MEMORY
    ensures var raw := Framed(algorithm, header, signature);
            (MetaHeaderRaw(raw) == Prefix(algorithm, header) && BlockSignature(raw) == signature) <==>
              (|header| + 5 < INT32 && signature != [])
  {
    var raw := Framed(algorithm, header, signature);
    var n := |header| + 5;
    FramedEnd(algorithm, header, signature);
    assert |Prefix(algorithm, header)| == n;
    if n < INT32 {
      ModSmall(n, WORD32);
      if signature != [] {
        assert raw[..n] == Prefix(algorithm, header) && raw[n..] == signature;
      }
    }
  }

  /** Whenever the parser finds a header end, the two parts make up the input. */
  lemma PartsMakeWhole(raw: Bytes)
    requires HeaderEnd(raw) != 0
    ensures MetaHeaderRaw(raw) + BlockSignature(raw) == raw && MetaHeaderRaw(raw) != [] && BlockSignature(raw) != []
  {
  }
}
