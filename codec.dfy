/** The integer reader and writer of the value codec: readUint / readInt
    (tag, length and value octets read one at a time from a BER reader) and
    writeUint (four big-endian octets). */
module IntCodec {
  import opened SnmpTypes
  import opened JsNumber

  /** asn1-ber's Reader.readByte: the octet at k, or null (None) past the
      end. The reader's offset does not move past the end. */
  function ReadByteAt(buf: seq<byte>, k: nat): (r: Option<byte>)
    ensures r.Some? <==> k < |buf|
  {
    if k < |buf| then Some(buf[k]) else None
  }

  /** JavaScript arithmetic on a read octet: null counts as 0. */
  function ByteOrZero(b: Option<byte>): (r: int)
    ensures 0 <= r < 256
    ensures b.Some? ==> r == b.value
  {
    if b.Some? then b.value else 0
  }

  /** The n octets from `start`, null (past the end) read as 0. */
  function Window(buf: seq<byte>, start: nat, n: nat): (r: seq<int>)
    ensures |r| == n
    ensures forall k :: 0 <= k < n ==> r[k] == ByteOrZero(ReadByteAt(buf, start + k))
  {
    seq(n, k requires 0 <= k < n => ByteOrZero(ReadByteAt(buf, start + k)))
  }

  /** Big-endian value of a sequence of octets. */
  function BigEndian(s: seq<int>): int
  {
    if s == [] then 0 else BigEndian(s[..|s| - 1]) * 256 + s[|s| - 1]
  }

  function Pow2(k: nat): (r: nat)
    ensures r >= 1
  {
    if k == 0 then 1 else 2 * Pow2(k - 1)
  }

  /** JavaScript `1 << k`: the shift count is taken modulo 32 and the result
      is a signed 32-bit integer. */
  function JsShiftOne(k: nat): int
  {
    var p := Pow2(k % 32);
    if p >= 0x8000_0000 then p - 0x1_0000_0000 else p
  }

  /** The value readUint computes from n value octets at `start`, with the
      offset the reader is left at: the big-endian value, from which
      `1 << (n * 8)` is subtracted when signed and the first octet's top bit
      is set. */
  function DecodeValueOctets(buf: seq<byte>, start: nat, n: nat, isSigned: bool): (int, nat)
  {
    var value := BigEndian(Window(buf, start, n));
    var signedBitSet := isSigned && n > 0 && ByteOrZero(ReadByteAt(buf, start)) >= 0x80;
    var end := if start + n <= |buf| then start + n else if start <= |buf| then |buf| else start;
    (if signedBitSet then value - JsShiftOne(n * 8) else value, end)
  }

  /** The RangeError readUint throws for a length octet above 4, with the
      length spliced into its text. */
  function TooLong(length: nat): Error
  {
    RangeError("Integer too long '" + Decimal(length) + "'")
  }

  /** What readUint(buffer, isSigned) returns or throws for a reader at `pos`
      (on the value's tag octet), with the offset the reader is left at. */
  function DecodeUint(buf: seq<byte>, pos: nat, isSigned: bool): Result<(int, nat)>
    requires pos <= |buf|
  {
    var length := ByteOrZero(ReadByteAt(buf, pos + 1));
    var afterLength := if pos + 2 <= |buf| then pos + 2 else |buf|;
    if length > 5 then
      Err(TooLong(length))
    else if length == 5 && ReadByteAt(buf, afterLength) != Some(0) then
      Err(TooLong(length))
    else if length == 5 then
      Ok(DecodeValueOctets(buf, afterLength + 1, 4, isSigned))
    else
      Ok(DecodeValueOctets(buf, afterLength, length, isSigned))
  }

  lemma {:induction false} BigEndianPush(s: seq<int>, b: int)
    ensures BigEndian(s + [b]) == BigEndian(s) * 256 + b
  {
    assert (s + [b])[..|s|] == s;
  }

  /** readUint / readInt on a reader over `buf` positioned at `pos` (at the
      value's tag). */
  method ReadUint(buf: seq<byte>, pos: nat, isSigned: bool) returns (r: Result<(int, nat)>)
    requires pos <= |buf|
    ensures r == DecodeUint(buf, pos, isSigned)
  {
    var offset := pos;
    // the tag octet
    if offset < |buf| { offset := offset + 1; }
    var lengthOctet := ReadByteAt(buf, offset);
    if offset < |buf| { offset := offset + 1; }
    var length := ByteOrZero(lengthOctet);

    if length > 5 {
      return Err(TooLong(length));
    } else if length == 5 {
      var lead := ReadByteAt(buf, offset);
      if offset < |buf| { offset := offset + 1; }
      if lead != Some(0) {
        return Err(TooLong(length));
      }
      length := 4;
    }
    var value, end := ReadValueOctets(buf, offset, length, isSigned);
    return Ok((value, end));
  }

  /** The accumulating loop of readUint over `length` value octets. */
  method ReadValueOctets(buf: seq<byte>, start: nat, length: nat, isSigned: bool) returns (value: int, offset: nat)
    requires start <= |buf|
    ensures value == DecodeValueOctets(buf, start, length, isSigned).0
    ensures offset == DecodeValueOctets(buf, start, length, isSigned).1
  {
    offset := start;
    value := 0;
    var signedBitSet := false;
    var i := 0;
    while i < length
      invariant 0 <= i <= length
      invariant offset == if start + i <= |buf| then start + i else |buf|
      invariant value == BigEndian(Window(buf, start, i))
      invariant signedBitSet <==> isSigned && i > 0 && ByteOrZero(ReadByteAt(buf, start)) >= 0x80
    {
      var b := ByteOrZero(ReadByteAt(buf, offset));
      WindowStep(buf, start, i, offset);
      if i == 0 {
        WindowFirst(buf, start);
      }
      value := value * 256;
      value := value + b;
      if offset < |buf| { offset := offset + 1; }
      if isSigned && i <= 0 {
        if value >= 0x80 {
          signedBitSet := true;
        }
      }
      i := i + 1;
    }
    if signedBitSet {
      value := value - JsShiftOne(i * 8);
    }
  }

  /** One more octet of the window, read at the reader's clamped offset. */
  lemma WindowStep(buf: seq<byte>, start: nat, i: nat, offset: nat)
    requires offset == if start + i <= |buf| then start + i else |buf|
    ensures BigEndian(Window(buf, start, i + 1))
         == BigEndian(Window(buf, start, i)) * 256 + ByteOrZero(ReadByteAt(buf, offset))
  {
    var b := ByteOrZero(ReadByteAt(buf, start + i));
    assert ByteOrZero(ReadByteAt(buf, offset)) == b by {
      if start + i > |buf| {
        assert ReadByteAt(buf, start + i).None? && ReadByteAt(buf, offset).None?;
      }
    }
    var w := Window(buf, start, i);
    assert Window(buf, start, i + 1) == w + [b] by { WindowGrows(buf, start, i); }
    BigEndianPush(w, b);
  }

  /** The window of one octet has that octet's value. */
  lemma WindowFirst(buf: seq<byte>, start: nat)
    ensures BigEndian(Window(buf, start, 1)) == ByteOrZero(ReadByteAt(buf, start))
  {
    var w := Window(buf, start, 1);
    assert w[..0] == [];
  }

  /** The window of i + 1 octets is that of i octets and the next one. */
  lemma WindowGrows(buf: seq<byte>, start: nat, i: nat)
    ensures Window(buf, start, i + 1) == Window(buf, start, i) + [ByteOrZero(ReadByteAt(buf, start + i))]
  {
    var w := Window(buf, start, i);
    var w1 := Window(buf, start, i + 1);
    forall k | 0 <= k < i + 1
      ensures w1[k] == (w + [ByteOrZero(ReadByteAt(buf, start + i))])[k]
    {
    }
  }

  /** readInt: readUint with sign handling. */
  method ReadInt(buf: seq<byte>, pos: nat) returns (r: Result<(int, nat)>)
    requires pos <= |buf|
    ensures r == DecodeUint(buf, pos, true)
  {
    r := ReadUint(buf, pos, true);
  }

  /** writeUint: Buffer.writeUInt32BE followed by writeBuffer(b, type); the
      buffer method throws a RangeError for a value outside 0 .. 2^32-1. */
  /** The RangeError of writeUInt32BE. */
  const OutOfRange: Error := ArgumentOutOfRange("value")

  function WriteUint(tag: byte, value: int): (r: Result<seq<byte>>)
    ensures r.Ok? <==> 0 <= value < 0x1_0000_0000
    ensures r.Ok? ==> |r.value| == 6 && r.value[0] == tag && r.value[1] == 4
    ensures r.Ok? ==> BigEndian(r.value[2..]) == value
  {
    if value < 0 || value >= 0x1_0000_0000 then
      Err(OutOfRange)
    else
      var q1 := value / 256;
      var q2 := q1 / 256;
      var q3 := q2 / 256;
      var bytes := [q3, q2 % 256, q1 % 256, value % 256];
      assert BigEndian(bytes) == value by {
        BigEndian4(q3, q2 % 256, q1 % 256, value % 256);
      }
      Ok([tag, 4] + bytes)
  }

  lemma BigEndian4(a: int, b: int, c: int, d: int)
    ensures BigEndian([a, b, c, d]) == ((a * 256 + b) * 256 + c) * 256 + d
  {
    assert [a][..0] == [];
    assert BigEndian([a]) == a;
    assert [a, b][..1] == [a];
    assert BigEndian([a, b]) == a * 256 + b;
    assert [a, b, c][..2] == [a, b];
    assert BigEndian([a, b, c]) == (a * 256 + b) * 256 + c;
    assert [a, b, c, d][..3] == [a, b, c];
  }

  lemma Pow2Table()
    ensures Pow2(7) == 128 && Pow2(8) == 256 && Pow2(16) == 0x1_0000
    ensures Pow2(24) == 0x100_0000 && Pow2(32) == 0x1_0000_0000
  {
    assert Pow2(2) == 4;
    Pow2Add(2, 2);
    Pow2Add(4, 4);
    Pow2Add(8, 8);
    Pow2Add(16, 8);
    Pow2Add(16, 16);
  }

  // ---------------------------------------------------------------------
  // Properties of the reader
  // ---------------------------------------------------------------------

  /** readUint throws exactly when the length octet exceeds 5, or is 5 and
      the next octet is not 0. */
  lemma DecodeUintRejects(buf: seq<byte>, pos: nat, isSigned: bool)
    requires pos + 2 <= |buf|
    ensures DecodeUint(buf, pos, isSigned).Err?
        <==> buf[pos + 1] > 5 || (buf[pos + 1] == 5 && (pos + 2 == |buf| || buf[pos + 2] != 0))
    ensures DecodeUint(buf, pos, isSigned).Err? ==> DecodeUint(buf, pos, isSigned).error == TooLong(buf[pos + 1])
  {
  }

  /** Otherwise the unsigned reading is the big-endian value of min(length, 4)
      value octets (the zero lead octet of a 5-octet value is skipped), so it
      lies in 0 .. 2^32-1. */
  lemma {:induction false} DecodeUintValue(buf: seq<byte>, pos: nat)
    requires pos + 2 <= |buf| && DecodeUint(buf, pos, false).Ok?
    ensures var n := if buf[pos + 1] == 5 then 4 else buf[pos + 1];
            var start := if buf[pos + 1] == 5 then pos + 3 else pos + 2;
            start + n <= |buf| ==>
              DecodeUint(buf, pos, false).value.0 == BigEndian(buf[start..start + n])
    ensures 0 <= DecodeUint(buf, pos, false).value.0 < 0x1_0000_0000
  {
    var n := if buf[pos + 1] == 5 then 4 else buf[pos + 1];
    var start := if buf[pos + 1] == 5 then pos + 3 else pos + 2;
    BigEndianBound(Window(buf, start, n));
    Pow2Monotone(8 * n, 32);
    Pow2Table();
    if start + n <= |buf| {
      assert Window(buf, start, n) == buf[start..start + n];
    }
  }

  lemma {:induction false} BigEndianBound(s: seq<int>)
    requires forall k :: 0 <= k < |s| ==> 0 <= s[k] < 256
    ensures 0 <= BigEndian(s) < Pow2(8 * |s|)
    decreases |s|
  {
    if s != [] {
      BigEndianBound(s[..|s| - 1]);
      assert Pow2(8 * |s|) == Pow2(8 * (|s| - 1)) * 256 by {
        Pow2Add(8 * (|s| - 1), 8);
      }
    }
  }

  lemma {:induction false} Pow2Add(a: nat, b: nat)
    ensures Pow2(a + b) == Pow2(a) * Pow2(b)
    decreases b
  {
    if b > 0 {
      Pow2Add(a, b - 1);
    }
  }

  /** Round trip: the six octets writeUint emits read back, unsigned, as the
      value written, leaving the reader just past them. */
  lemma WriteThenReadUint(tag: byte, value: int)
    requires 0 <= value < 0x1_0000_0000
    ensures DecodeUint(WriteUint(tag, value).value, 0, false) == Ok((value, 6))
  {
    var buf := WriteUint(tag, value).value;
    assert Window(buf, 2, 4) == buf[2..];
  }

  /** A 5-octet encoding with a zero lead octet reads as the 4-octet value
      after it: 00 ff ff ff ff is 4294967295. */
  lemma FiveOctetPadding(tag: byte, value: int)
    requires 0 <= value < 0x1_0000_0000
    ensures var w := WriteUint(tag, value).value;
            DecodeUint([tag, 5, 0] + w[2..], 0, false) == Ok((value, 7))
  {
    var w := WriteUint(tag, value).value;
    var buf := [tag, 5, 0] + w[2..];
    assert Window(buf, 3, 4) == w[2..];
  }

  /** readInt with 1 to 3 value octets is two's complement: the result lies
      in -2^(8n-1) .. 2^(8n-1)-1 and is negative exactly when the first value
      octet has its top bit set. */
  lemma {:induction false} ReadIntShortIsTwosComplement(buf: seq<byte>, pos: nat)
    requires pos + 2 <= |buf| && 1 <= buf[pos + 1] <= 3 && pos + 2 + buf[pos + 1] <= |buf|
    ensures var n := buf[pos + 1] as nat;
            var v := DecodeUint(buf, pos, true).value.0;
            -(Pow2(8 * n - 1) as int) <= v < Pow2(8 * n - 1) && (v < 0 <==> buf[pos + 2] >= 0x80)
  {
    var n := buf[pos + 1] as nat;
    var w := Window(buf, pos + 2, n);
    assert DecodeUint(buf, pos, true) == Ok(DecodeValueOctets(buf, pos + 2, n, true));
    assert w[0] == buf[pos + 2];
    BigEndianBound(w);
    BigEndianLead(w);
    ShortShift(n);
  }

  /** For 1 to 3 octets, `1 << (n * 8)` is 2^(8n), twice the sign bit's weight. */
  lemma ShortShift(n: nat)
    requires 1 <= n <= 3
    ensures JsShiftOne(n * 8) == Pow2(8 * n) == 2 * Pow2(8 * n - 1)
  {
    Pow2Table();
    if n == 1 {
      assert n * 8 == 8 * n == 8;
    } else if n == 2 {
      assert n * 8 == 8 * n == 16;
      assert Pow2(16) == 2 * Pow2(15);
    } else {
      assert n * 8 == 8 * n == 24;
      assert Pow2(24) == 2 * Pow2(23);
    }
  }

  lemma {:induction false} Pow2Monotone(a: nat, b: nat)
    requires a <= b
    ensures Pow2(a) <= Pow2(b)
    decreases b
  {
    if a < b {
      Pow2Monotone(a, b - 1);
    }
  }

  /** The top bit of the first octet decides whether the value reaches half
      of its range. */
  lemma {:induction false} BigEndianLead(s: seq<int>)
    requires |s| >= 1
    requires forall k :: 0 <= k < |s| ==> 0 <= s[k] < 256
    ensures BigEndian(s) >= Pow2(8 * |s| - 1) <==> s[0] >= 0x80
    decreases |s|
  {
    if |s| == 1 {
      assert s[..0] == [];
      Pow2Table();
    } else {
      var init := s[..|s| - 1];
      assert init[0] == s[0];
      BigEndianLead(init);
      var p := Pow2(8 * |init| - 1);
      assert Pow2(8 * |s| - 1) == p * 256 by {
        assert 8 * |s| - 1 == (8 * |init| - 1) + 8;
        Pow2Add(8 * |init| - 1, 8);
        Pow2Table();
      }
      var v := BigEndian(init);
      var last := s[|s| - 1];
      assert BigEndian(s) == v * 256 + last;
      assert v >= p ==> v * 256 + last >= p * 256;
      assert v < p ==> v * 256 + last < p * 256 by {
        if v < p {
          assert v * 256 <= p * 256 - 256;
        }
      }
    }
  }

  /** readInt on four value octets subtracts 1 << 32, which JavaScript
      evaluates to 1, so ff ff ff ff reads as 4294967294 rather than -1; the
      same holds for the padded form 00 ff ff ff ff. */
  lemma ReadIntFourOctetQuirk()
    ensures DecodeUint([2, 4, 0xff, 0xff, 0xff, 0xff], 0, true) == Ok((4294967294, 6))
    ensures DecodeUint([2, 5, 0, 0xff, 0xff, 0xff, 0xff], 0, true) == Ok((4294967294, 7))
  {
    var a: seq<byte> := [2, 4, 0xff, 0xff, 0xff, 0xff];
    assert Window(a, 2, 4) == [0xff, 0xff, 0xff, 0xff];
    var b: seq<byte> := [2, 5, 0, 0xff, 0xff, 0xff, 0xff];
    assert Window(b, 3, 4) == [0xff, 0xff, 0xff, 0xff];
    BigEndian4(0xff, 0xff, 0xff, 0xff);
    assert JsShiftOne(32) == 1;
  }

  // ---------------------------------------------------------------------
  // Two's complement
  // ---------------------------------------------------------------------

  /** The two's-complement value of octets: big-endian, less 2^(8n) when
      the first octet's top bit is set. */
  function SignedValue(o: seq<byte>): int
  {
    BigEndian(o) - (if |o| > 0 && o[0] >= 0x80 then Pow2(8 * |o|) else 0)
  }

  /** Minimal two's-complement octets, as a BER INTEGER is written: at
      least one octet, and no leading 00 or ff that the next octet's top
      bit makes redundant. */
  predicate MinimalSigned(o: seq<byte>)
  {
    |o| >= 1 && (|o| >= 2 ==> !(o[0] == 0 && o[1] < 0x80) && !(o[0] == 0xff && o[1] >= 0x80))
  }

  /** readInt of one to three value octets, or four with the top bit
      clear, is their two's-complement value. */
  lemma ReadSignedOctets(tag: byte, o: seq<byte>)
    requires 1 <= |o| <= 4 && (|o| < 4 || o[0] < 0x80)
    ensures DecodeUint([tag, |o| as byte] + o, 0, true) == Ok((SignedValue(o), 2 + |o|))
  {
    DecodeOctets(tag, o);
    if o[0] >= 0x80 {
      ShortShift(|o|);
    }
  }

  /** Four value octets with the top bit set lose 1 instead of 2^32,
      because `1 << 32` is 1. */
  lemma ReadFourOctetsNegative(tag: byte, o: seq<byte>)
    requires |o| == 4 && o[0] >= 0x80
    ensures DecodeUint([tag, |o| as byte] + o, 0, true) == Ok((BigEndian(o) - 1, 6))
  {
    DecodeOctets(tag, o);
    ShiftWraps();
  }

  /** `1 << 32` is 1: the shift count is taken modulo 32. */
  lemma ShiftWraps()
    ensures JsShiftOne(32) == 1
  {
  }

  /** readInt of value octets that follow their tag and length. */
  lemma DecodeOctets(tag: byte, o: seq<byte>)
    requires 1 <= |o| <= 4
    ensures var r := DecodeUint([tag, |o| as byte] + o, 0, true);
      && r.Ok?
      && r.value.0 == BigEndian(o) - (if o[0] >= 0x80 then JsShiftOne(|o| * 8) else 0)
      && r.value.1 == 2 + |o|
  {
    DecodeHeader(tag, o);
    DecodeBody(tag, o);
  }

  /** The length octet of such a buffer sends readInt to the value octets. */
  lemma DecodeHeader(tag: byte, o: seq<byte>)
    requires 1 <= |o| <= 4
    ensures var buf := [tag, |o| as byte] + o;
      DecodeUint(buf, 0, true) == Ok(DecodeValueOctets(buf, 2, |o|, true))
  {
    var buf := [tag, |o| as byte] + o;
    assert ByteOrZero(ReadByteAt(buf, 1)) == |o|;
  }

  lemma DecodeBody(tag: byte, o: seq<byte>)
    requires 1 <= |o| <= 4
    ensures DecodeValueOctets([tag, |o| as byte] + o, 2, |o|, true).0
         == BigEndian(o) - (if o[0] >= 0x80 then JsShiftOne(|o| * 8) else 0)
    ensures DecodeValueOctets([tag, |o| as byte] + o, 2, |o|, true).1 == 2 + |o|
  {
    var buf := [tag, |o| as byte] + o;
    WindowOfTail(tag, o);
    assert ByteOrZero(ReadByteAt(buf, 2)) == o[0];
  }

  lemma WindowOfTail(tag: byte, o: seq<byte>)
    requires |o| <= 4
    ensures Window([tag, |o| as byte] + o, 2, |o|) == o
  {
    var buf := [tag, |o| as byte] + o;
    forall k | 0 <= k < |o|
      ensures Window(buf, 2, |o|)[k] == o[k]
    {
      assert buf[2 + k] == o[k];
    }
  }

  /** The value of a minimal encoding bounds its length: below -2^23 it
      takes four octets with the top bit set, and from -2^23 up it takes at
      most three, or four with the top bit clear. */
  lemma MinimalSignedRange(o: seq<byte>)
    requires 1 <= |o| <= 4 && MinimalSigned(o)
    ensures SignedValue(o) < -0x80_0000 <==> |o| == 4 && o[0] >= 0x80
  {
    Pow2Table();
    if |o| == 4 {
      BigEndian4(o[0], o[1], o[2], o[3]);
      assert o == [o[0], o[1], o[2], o[3]];
      var hi: int := o[0] as int * 256 + o[1] as int;
      var lo: int := o[2] as int * 256 + o[3] as int;
      assert BigEndian(o) == hi * 0x1_0000 + lo;
      if o[0] >= 0x80 {
        assert hi <= 65407;
        assert SignedValue(o) == BigEndian(o) - 0x1_0000_0000;
      }
    } else {
      BigEndianBound(o);
      Pow2Monotone(8 * |o|, 24);
      if o[0] >= 0x80 {
        BigEndianLead(o);
        ShortShift(|o|);
        Pow2Monotone(8 * |o| - 1, 23);
        assert Pow2(24) == 2 * Pow2(23);
      }
    }
  }
}
