/** The varbind value codec: the ObjectType dispatch of readVarbinds and
    writeVarbinds over an abstract stream of BER items. */
module VarbindCodec {
  import opened SnmpTypes
  import IntCodec
  import Oid
  import opened JsNumber

  /** One BER item as the asn1-ber library hands it over: tag and content. */
  datatype Tlv = Tlv(tag: byte, content: seq<byte>)

  /** One varbind SEQUENCE on the wire: the encoded OID and the value item. */
  datatype WireVarbind = WireVarbind(name: seq<byte>, value: Tlv)

  /** The parts of the BER library the codec relies on without looking
      inside: OID text to content octets and back, and string encoding. */
  datatype Ber = Ber(
    oidText: seq<byte> -> string,
    oidOctets: string -> seq<byte>,
    intOctets: int -> seq<byte>,
    stringOctets: string -> seq<byte>)

  /** A varbind as a caller supplies it: type and value may be absent. */
  datatype RequestVarbind = RequestVarbind(oid: string, typ: Option<int>, value: Option<Value>)

  // ---------------------------------------------------------------------
  // Numbers from text
  // ---------------------------------------------------------------------

  /** One element of Buffer.from(parts): the part converted by
      StringToNumber and stored as an octet, so "-1" gives 255, "0x10" 16
      and text that is no numeral 0. */
  function OctetOfPart(p: string): byte
  {
    ToUint8(StringToNumber(p))
  }

  /** `+value` on a varbind value: null is 0, a boolean 1 or 0, text is
      read by StringToNumber, and a Buffer by its text, one character per
      octet. */
  function ValueToNumber(v: Value): Number
  {
    match v
    case NullValue => Finite(0.0)
    case Bool(b) => Finite(if b then 1.0 else 0.0)
    case Int(i) => Finite(i as real)
    case Text(s) => StringToNumber(s)
    case Bytes(bs) => StringToNumber(seq(|bs|, k requires 0 <= k < |bs| => bs[k] as char))
  }

  /** What writeUInt32BE stores for a number: NaN passes its range check
      and is stored as 0, a finite value in 0 .. 2^32-1 is truncated, and
      anything else is refused with a RangeError. */
  function Uint32Operand(n: Number): (r: Result<int>)
    ensures r.Ok? ==> 0 <= r.value < 0x1_0000_0000
    ensures r.Err? <==> n.Infinity? || (n.Finite? && (n.r < 0.0 || n.r > 4294967295.0))
    ensures n.Finite? && r.Ok? ==> r.value as real <= n.r < r.value as real + 1.0
  {
    match n
    case NaN => Ok(0)
    case Infinity(_) => Err(IntCodec.OutOfRange)
    case Finite(r) => if r < 0.0 || r > 4294967295.0 then Err(IntCodec.OutOfRange) else Ok(Truncate(r))
  }

  /** The dotted-quad rendering bytes[0] + "." + ... + bytes[3]. */
  function DottedQuad(b: seq<byte>): string
    requires |b| == 4
  {
    Decimal(b[0]) + "." + Decimal(b[1]) + "." + Decimal(b[2]) + "." + Decimal(b[3])
  }

  // ---------------------------------------------------------------------
  // Reading
  // ---------------------------------------------------------------------

  /** The octets asn1-ber would hand readUint for an INTEGER-shaped item: tag,
      length, content. A long-form length starts with 0x80 plus the number of
      length octets that follow (0x81 up to 255 content octets, 0x82 up to
      65535, and so on), which readUint rejects as longer than 5. Lengths of
      more than four octets, which asn1-ber refuses itself, get 0x84 too. */
  function IntegerItemOctets(item: Tlv): seq<byte>
  {
    var n := |item.content|;
    var first: byte :=
      if n < 0x80 then n
      else if n < 0x100 then 0x81
      else if n < 0x1_0000 then 0x82
      else if n < 0x100_0000 then 0x83
      else 0x84;
    [item.tag, first] + item.content
  }

  /** What readUint / readInt give for an INTEGER-shaped item. */
  function ReadIntegerItem(item: Tlv, isSigned: bool): Result<int>
  {
    var r := IntCodec.DecodeUint(IntegerItemOctets(item), 0, isSigned);
    if r.Ok? then Ok(r.value.0) else Err(r.error)
  }

  /** The readVarbinds dispatch for one value item. */
  function ReadValue(item: Tlv, ber: Ber): Result<Value>
  {
    var t := item.tag as int;
    if t == Boolean then Ok(Bool(IntCodec.BigEndian(item.content) != 0))
    else if t == Integer then
      var r := ReadIntegerItem(item, true); if r.Ok? then Ok(Int(r.value)) else Err(r.error)
    else if t == OctetString then Ok(Bytes(item.content))
    else if t == Null then Ok(NullValue)
    else if t == OID then Ok(Text(ber.oidText(item.content)))
    else if t == IpAddress then
      if |item.content| != 4 then Err(IpLengthError(item.content))
      else Ok(Text(DottedQuad(item.content)))
    else if t == Counter || t == Gauge || t == TimeTicks then
      var r := ReadIntegerItem(item, false); if r.Ok? then Ok(Int(r.value)) else Err(r.error)
    else if t == Opaque then Ok(Bytes(item.content))
    else if t == Counter64 then Ok(Bytes(item.content))
    else if t == NoSuchObject || t == NoSuchInstance || t == EndOfMibView then Ok(NullValue)
    else Err(ResponseInvalidError("Unknown type '" + IntText(t) + "' in response"))
  }

  /** Index of the first item whose value cannot be read, or |items|. */
  function FirstBadItem(items: seq<WireVarbind>, ber: Ber): (k: nat)
    ensures k <= |items|
    ensures forall i :: 0 <= i < k ==> ReadValue(items[i].value, ber).Ok?
    ensures k < |items| ==> ReadValue(items[k].value, ber).Err?
  {
    if items == [] then 0
    else if ReadValue(items[0].value, ber).Err? then 0
    else 1 + FirstBadItem(items[1..], ber)
  }

  /** The list readVarbinds produces, or the error of the first bad item. */
  function DecodeVarbinds(items: seq<WireVarbind>, ber: Ber): Result<seq<Varbind>>
  {
    var k := FirstBadItem(items, ber);
    if k < |items| then Err(ReadValue(items[k].value, ber).error)
    else Ok(seq(|items|, i requires 0 <= i < |items| =>
      Varbind(ber.oidText(items[i].name), items[i].value.tag, ReadValue(items[i].value, ber).value)))
  }

  /** readVarbinds: reads the items in order; the first item with an
      unknown type or a malformed value aborts the whole list. */
  method ReadVarbinds(items: seq<WireVarbind>, ber: Ber) returns (r: Result<seq<Varbind>>)
    ensures r.Ok? <==> FirstBadItem(items, ber) == |items|
    ensures r.Ok? ==> |r.value| == |items| && forall i :: 0 <= i < |items| ==>
      r.value[i] == Varbind(ber.oidText(items[i].name), items[i].value.tag, ReadValue(items[i].value, ber).value)
    ensures r.Err? ==> r.error == ReadValue(items[FirstBadItem(items, ber)].value, ber).error
    ensures r == DecodeVarbinds(items, ber)
  {
    var varbinds: seq<Varbind> := [];
    var i := 0;
    while i < |items|
      invariant 0 <= i <= |items| && i <= FirstBadItem(items, ber)
      invariant |varbinds| == i
      invariant forall j :: 0 <= j < i ==>
        varbinds[j] == Varbind(ber.oidText(items[j].name), items[j].value.tag, ReadValue(items[j].value, ber).value)
    {
      FirstBadStep(items, ber, i);
      var oid := ber.oidText(items[i].name);
      var value := ReadValue(items[i].value, ber);
      if value.Err? {
        return Err(value.error);
      }
      varbinds := varbinds + [Varbind(oid, items[i].value.tag, value.value)];
      i := i + 1;
    }
    assert varbinds == seq(|items|, i requires 0 <= i < |items| =>
      Varbind(ber.oidText(items[i].name), items[i].value.tag, ReadValue(items[i].value, ber).value));
    return Ok(varbinds);
  }

  lemma {:induction false} FirstBadStep(items: seq<WireVarbind>, ber: Ber, i: nat)
    requires i < |items| && i <= FirstBadItem(items, ber)
    ensures ReadValue(items[i].value, ber).Ok? ==> i < FirstBadItem(items, ber)
    ensures ReadValue(items[i].value, ber).Err? ==> i == FirstBadItem(items, ber)
  {
  }

  // ---------------------------------------------------------------------
  // Writing
  // ---------------------------------------------------------------------

  /** JavaScript truthiness of a value (`value ? true : false`). */
  predicate Truthy(v: Value)
  {
    match v
    case NullValue => false
    case Bool(b) => b
    case Int(i) => i != 0
    case Bytes(_) => true
    case Text(s) => s != ""
  }

  /** The writeVarbinds dispatch for one varbind's value item. A varbind
      without a type (or with the falsy type 0) or without a value is
      written as NULL. */
  function WriteValue(vb: RequestVarbind, ber: Ber): Result<Tlv>
  {
    if vb.typ.None? || vb.typ.value == 0 || vb.value.None? then Ok(Tlv(Null as byte, []))
    else
      var t := vb.typ.value;
      var v := vb.value.value;
      if t == Boolean then Ok(Tlv(1, if Truthy(v) then [0xff] else [0]))
      else if t == Integer then
        if v.Int? then Ok(Tlv(2, ber.intOctets(v.i))) else Err(TypeError("argument must be a Number"))
      else if t == OctetString then
        if v.Text? then Ok(Tlv(4, ber.stringOctets(v.s)))
        else if v.Bytes? then Ok(Tlv(4, v.bs))
        else Err(TypeError("argument must be a Buffer"))
      else if t == Null then Ok(Tlv(5, []))
      else if t == OID then
        if v.Text? then Ok(Tlv(6, ber.oidOctets(v.s))) else Err(TypeError("argument must be a string"))
      else if t == IpAddress then
        if !v.Text? then Err(TypeError("value.split is not a function"))
        else
          var parts := Oid.Split(v.s);
          if |parts| != 4 then Err(RequestInvalidError("Invalid IP address '" + v.s + "'"))
          else Ok(Tlv(64, [OctetOfPart(parts[0]), OctetOfPart(parts[1]), OctetOfPart(parts[2]), OctetOfPart(parts[3])]))
      else if t == Counter || t == Gauge || t == TimeTicks then WriteUint32Value(t, v)
      else if t == Opaque then
        if v.Bytes? then Ok(Tlv(68, v.bs)) else Err(TypeError("argument must be a Buffer"))
      else if t == Counter64 then
        if v.Bytes? then Ok(Tlv(70, v.bs)) else Err(TypeError("argument must be a Buffer"))
      else Err(UnknownTypeInRequest(t))
  }

  /** writeUInt32BE on `+value`: the content octets of the integer
      writeUint would write for the converted operand. */
  function WriteUint32Value(t: int, v: Value): Result<Tlv>
    requires t == Counter || t == Gauge || t == TimeTicks
  {
    var n :- Uint32Operand(ValueToNumber(v));
    var w :- IntCodec.WriteUint(t as byte, n);
    Ok(Tlv(t as byte, w[2..]))
  }

  /** The copy set, inform and trap make of a caller's varbind,
      `{oid, type, value}`: the value becomes an own property even when the
      caller gave none, and then holds undefined, which every branch of the
      writer treats as it treats null. */
  function CopyVarbind(vb: RequestVarbind): (r: RequestVarbind)
    ensures r.oid == vb.oid && r.typ == vb.typ && r.value.Some?
    ensures vb.value.Some? ==> r == vb
  {
    RequestVarbind(vb.oid, vb.typ, Some(if vb.value.Some? then vb.value.value else NullValue))
  }

  function CopyVarbinds(vbs: seq<RequestVarbind>): (r: seq<RequestVarbind>)
    ensures |r| == |vbs| && forall k :: 0 <= k < |vbs| ==> r[k] == CopyVarbind(vbs[k])
  {
    seq(|vbs|, k requires 0 <= k < |vbs| => CopyVarbind(vbs[k]))
  }

  /** A typed varbind without a value is written as NULL as given, but its
      copy is dispatched by its type: Boolean false, a TypeError for an
      Integer, and four zero octets for a Counter, Gauge or TimeTicks. */
  lemma CopyDispatchesByType(oid: string, t: int, ber: Ber)
    requires t != 0
    ensures WriteValue(RequestVarbind(oid, Some(t), None), ber) == Ok(Tlv(Null as byte, []))
    ensures t == Boolean ==> WriteValue(CopyVarbind(RequestVarbind(oid, Some(t), None)), ber) == Ok(Tlv(1, [0]))
    ensures t == Integer ==>
      WriteValue(CopyVarbind(RequestVarbind(oid, Some(t), None)), ber) == Err(TypeError("argument must be a Number"))
    ensures t in {Counter, Gauge, TimeTicks} ==>
      WriteValue(CopyVarbind(RequestVarbind(oid, Some(t), None)), ber) == Ok(Tlv(t as byte, [0, 0, 0, 0]))
  {
    if t in {Counter, Gauge, TimeTicks} {
      assert Truncate(0.0) == 0;
      var w := IntCodec.WriteUint(t as byte, 0).value;
      assert w[2..] == [0, 0, 0, 0];
    }
  }

  /** Index of the first varbind that cannot be written, or |vbs|. */
  function FirstUnwritable(vbs: seq<RequestVarbind>, ber: Ber): (k: nat)
    ensures k <= |vbs|
    ensures forall i :: 0 <= i < k ==> WriteValue(vbs[i], ber).Ok?
    ensures k < |vbs| ==> WriteValue(vbs[k], ber).Err?
  {
    if vbs == [] then 0
    else if WriteValue(vbs[0], ber).Err? then 0
    else 1 + FirstUnwritable(vbs[1..], ber)
  }

  /** The items writeVarbinds produces, or the error of the first varbind
      that cannot be written. */
  function EncodeVarbinds(vbs: seq<RequestVarbind>, ber: Ber): Result<seq<WireVarbind>>
  {
    var k := FirstUnwritable(vbs, ber);
    if k < |vbs| then Err(WriteValue(vbs[k], ber).error)
    else Ok(seq(|vbs|, i requires 0 <= i < |vbs| =>
      WireVarbind(ber.oidOctets(vbs[i].oid), WriteValue(vbs[i], ber).value)))
  }

  /** writeVarbinds: one varbind SEQUENCE per request varbind, in order; the
      first unencodable varbind aborts the request. */
  method WriteVarbinds(vbs: seq<RequestVarbind>, ber: Ber) returns (r: Result<seq<WireVarbind>>)
    ensures r.Ok? <==> FirstUnwritable(vbs, ber) == |vbs|
    ensures r.Ok? ==> |r.value| == |vbs| && forall i :: 0 <= i < |vbs| ==>
      r.value[i] == WireVarbind(ber.oidOctets(vbs[i].oid), WriteValue(vbs[i], ber).value)
    ensures r.Err? ==> r.error == WriteValue(vbs[FirstUnwritable(vbs, ber)], ber).error
    ensures r == EncodeVarbinds(vbs, ber)
  {
    var out: seq<WireVarbind> := [];
    var i := 0;
    while i < |vbs|
      invariant 0 <= i <= |vbs| && i <= FirstUnwritable(vbs, ber)
      invariant |out| == i
      invariant forall j :: 0 <= j < i ==>
        out[j] == WireVarbind(ber.oidOctets(vbs[j].oid), WriteValue(vbs[j], ber).value)
    {
      FirstUnwritableStep(vbs, ber, i);
      var name := ber.oidOctets(vbs[i].oid);
      var value := WriteValue(vbs[i], ber);
      if value.Err? {
        return Err(value.error);
      }
      out := out + [WireVarbind(name, value.value)];
      i := i + 1;
    }
    assert out == seq(|vbs|, i requires 0 <= i < |vbs| =>
      WireVarbind(ber.oidOctets(vbs[i].oid), WriteValue(vbs[i], ber).value));
    return Ok(out);
  }

  lemma {:induction false} FirstUnwritableStep(vbs: seq<RequestVarbind>, ber: Ber, i: nat)
    requires i < |vbs| && i <= FirstUnwritable(vbs, ber)
    ensures WriteValue(vbs[i], ber).Ok? ==> i < FirstUnwritable(vbs, ber)
    ensures WriteValue(vbs[i], ber).Err? ==> i == FirstUnwritable(vbs, ber)
  {
  }

  // ---------------------------------------------------------------------
  // Properties of the dispatch
  // ---------------------------------------------------------------------

  /** The ResponseInvalidError for an IP address that is not four octets
      long: its length and its octets in hex are spliced into the text. */
  function IpLengthError(content: seq<byte>): Error
  {
    ResponseInvalidError("Length '" + Decimal(|content|) + "' of IP address '" + Hex(content) + "' is not 4")
  }

  /** The RequestInvalidError for a type the writer does not know, with
      the type spliced into its text. */
  function UnknownTypeInRequest(t: int): Error
  {
    RequestInvalidError("Unknown type '" + IntText(t) + "' in request")
  }

  /** Reading fails exactly for an unknown type, an IP address whose length
      is not 4, and an integer-typed value readUint rejects; the three
      exception types read as a null value. */
  lemma ReadValueErrors(item: Tlv, ber: Ber)
    ensures ReadValue(item, ber).Err? <==>
      || ObjectTypeName(item.tag).None?
      || (item.tag == IpAddress && |item.content| != 4)
      || (item.tag == Integer && ReadIntegerItem(item, true).Err?)
      || (item.tag in {Counter, Gauge, TimeTicks} && ReadIntegerItem(item, false).Err?)
    ensures item.tag in {NoSuchObject, NoSuchInstance, EndOfMibView} ==> ReadValue(item, ber) == Ok(NullValue)
    ensures item.tag == IpAddress && |item.content| != 4 ==> ReadValue(item, ber) == Err(IpLengthError(item.content))
    ensures ObjectTypeName(item.tag).None? ==>
      ReadValue(item, ber) == Err(ResponseInvalidError("Unknown type '" + IntText(item.tag) + "' in response"))
  {
  }

  /** The writer refuses the three exception types and any unknown type as
      an unknown type, naming it; a varbind with no type or no value
      becomes NULL. */
  lemma WriteValueErrors(vb: RequestVarbind, ber: Ber)
    ensures vb.typ.Some? && vb.value.Some? && vb.typ.value != 0 && ObjectTypeName(vb.typ.value).None?
            ==> WriteValue(vb, ber) == Err(UnknownTypeInRequest(vb.typ.value))
    ensures vb.typ.Some? && vb.value.Some? && vb.typ.value in {NoSuchObject, NoSuchInstance, EndOfMibView}
            ==> WriteValue(vb, ber) == Err(UnknownTypeInRequest(vb.typ.value))
    ensures vb.typ.None? || vb.value.None? ==> WriteValue(vb, ber) == Ok(Tlv(5, []))
    ensures vb.typ == Some(IpAddress) && vb.value.Some? && vb.value.value.Text? && |Oid.Split(vb.value.value.s)| != 4
            ==> WriteValue(vb, ber) == Err(RequestInvalidError("Invalid IP address '" + vb.value.value.s + "'"))
  {
  }

  /** A decoded varbind whose value has the shape its type calls for, and
      which the writer can encode. */
  ghost predicate Writable(vb: Varbind)
  {
    match vb.value
    case NullValue => vb.typ == Null
    case Bool(_) => vb.typ == Boolean
    case Int(i) =>
      || (vb.typ in {Counter, Gauge, TimeTicks} && 0 <= i < 0x1_0000_0000)
      || (vb.typ == Integer && -0x80_0000 <= i < 0x8000_0000)
    case Bytes(_) => vb.typ in {OctetString, Opaque, Counter64}
    case Text(s) => vb.typ == OID || (vb.typ == IpAddress && exists b: seq<byte> :: |b| == 4 && DottedQuad(b) == s)
  }

  /** The BER library reads back the OIDs it writes. */
  ghost predicate OidLaw(ber: Ber)
  {
    forall s :: ber.oidText(ber.oidOctets(s)) == s
  }

  /** The BER library writes a 32-bit INTEGER as its minimal
      two's-complement octets. */
  ghost predicate IntLaw(ber: Ber)
  {
    forall i :: -0x8000_0000 <= i < 0x8000_0000 ==>
      var o := ber.intOctets(i);
      1 <= |o| <= 4 && IntCodec.MinimalSigned(o) && IntCodec.SignedValue(o) == i
  }

  /** Round trip: writing a writable varbind and reading the item back gives
      the same OID, type and value. */
  lemma VarbindRoundTrip(vb: Varbind, ber: Ber)
    requires Writable(vb) && OidLaw(ber) && IntLaw(ber)
    ensures var w := WriteValue(RequestVarbind(vb.oid, Some(vb.typ), Some(vb.value)), ber);
            && w.Ok?
            && w.value.tag == vb.typ
            && ReadValue(w.value, ber) == Ok(vb.value)
            && ber.oidText(ber.oidOctets(vb.oid)) == vb.oid
  {
    var rv := RequestVarbind(vb.oid, Some(vb.typ), Some(vb.value));
    match vb.value
    case Int(i) =>
      if vb.typ == Integer {
        IntegerRoundTrip(i, ber);
      } else {
        var w := IntCodec.WriteUint(vb.typ as byte, i).value;
        assert IntegerItemOctets(Tlv(vb.typ as byte, w[2..])) == w;
        IntCodec.WriteThenReadUint(vb.typ as byte, i);
      }
    case Bool(b) =>
      assert IntCodec.BigEndian([0]) == 0 by { assert [0][..0] == []; }
      assert IntCodec.BigEndian([0xff]) == 0xff by { assert [0xff][..0] == []; }
    case Text(s) =>
      if vb.typ == IpAddress {
        var b: seq<byte> :| |b| == 4 && DottedQuad(b) == s;
        IpAddressRoundTrip(b);
      }
    case _ =>
  }

  /** An INTEGER from -2^23 up to 2^31-1 reads back as written. */
  lemma IntegerRoundTrip(i: int, ber: Ber)
    requires IntLaw(ber) && -0x80_0000 <= i < 0x8000_0000
    ensures ReadValue(Tlv(Integer as byte, ber.intOctets(i)), ber) == Ok(Int(i))
  {
    var o := ber.intOctets(i);
    IntCodec.MinimalSignedRange(o);
    IntCodec.ReadSignedOctets(Integer as byte, o);
    assert IntegerItemOctets(Tlv(Integer as byte, o)) == [Integer as byte, |o| as byte] + o;
  }

  /** Below -2^23 an INTEGER takes four octets with the top bit set, and
      readInt subtracts `1 << 32`, which is 1, instead of 2^32: the value
      read is 2^32 - 1 too large. */
  lemma LowIntegerMisread(i: int, ber: Ber)
    requires IntLaw(ber) && -0x8000_0000 <= i < -0x80_0000
    ensures ReadValue(Tlv(Integer as byte, ber.intOctets(i)), ber) == Ok(Int(i + 0xFFFF_FFFF))
  {
    var o := ber.intOctets(i);
    IntCodec.MinimalSignedRange(o);
    IntCodec.ReadFourOctetsNegative(Integer as byte, o);
    IntCodec.Pow2Table();
    assert IntegerItemOctets(Tlv(Integer as byte, o)) == [Integer as byte, |o| as byte] + o;
  }

  /** An OctetString given as text is written as the library's encoding
      of the text and read back as those octets, not as the text. */
  lemma TextOctetStringReadsAsOctets(oid: string, s: string, ber: Ber)
    ensures var w := WriteValue(RequestVarbind(oid, Some(OctetString), Some(Text(s))), ber);
      w == Ok(Tlv(OctetString as byte, ber.stringOctets(s)))
      && ReadValue(w.value, ber) == Ok(Bytes(ber.stringOctets(s)))
  {
  }

  /** writeUInt32BE converts its operand with `+value`: text that is a
      numeral is written as its number. */
  lemma CounterTextIsNumber(oid: string, t: int, s: string, ber: Ber)
    requires t in {Counter, Gauge, TimeTicks}
    requires s != [] && AllDigits(s)
    ensures WriteValue(RequestVarbind(oid, Some(t), Some(Text(s))), ber)
         == WriteValue(RequestVarbind(oid, Some(t), Some(Int(DigitsValue(s)))), ber)
  {
    assert WriteUint32Value(t, Text(s)) == WriteUint32Value(t, Int(DigitsValue(s))) by {
      DigitStringValue(s);
      CounterByNumber(t, Text(s), Int(DigitsValue(s)));
    }
    CounterWrites(oid, t, Text(s), ber);
    CounterWrites(oid, t, Int(DigitsValue(s)), ber);
  }

  lemma CounterWrites(oid: string, t: int, v: Value, ber: Ber)
    requires t == Counter || t == Gauge || t == TimeTicks
    ensures WriteValue(RequestVarbind(oid, Some(t), Some(v)), ber) == WriteUint32Value(t, v)
  {
    var vb := RequestVarbind(oid, Some(t), Some(v));
    assert vb.typ.value == t && vb.value.value == v;
    assert t != 0 && t != Boolean && t != Integer && t != OctetString && t != Null && t != OID && t != IpAddress;
  }

  /** The 32-bit writer sees a value only through `+value`. */
  lemma CounterByNumber(t: int, v: Value, w: Value)
    requires t == Counter || t == Gauge || t == TimeTicks
    requires Uint32Operand(ValueToNumber(v)) == Uint32Operand(ValueToNumber(w))
    ensures WriteUint32Value(t, v) == WriteUint32Value(t, w)
  {
  }

  /** Text that is no numeral converts to NaN, which is written as 0. */
  lemma CounterNonNumeralIsZero(oid: string, t: int, s: string, ber: Ber)
    requires t in {Counter, Gauge, TimeTicks}
    requires StringToNumber(s) == NaN
    ensures WriteValue(RequestVarbind(oid, Some(t), Some(Text(s))), ber)
         == WriteValue(RequestVarbind(oid, Some(t), Some(Int(0))), ber)
  {
    assert WriteUint32Value(t, Text(s)) == WriteUint32Value(t, Int(0)) by {
      assert Truncate(0.0) == 0;
      CounterByNumber(t, Text(s), Int(0));
    }
    CounterWrites(oid, t, Text(s), ber);
    CounterWrites(oid, t, Int(0), ber);
  }

  /** An integer is written as four big-endian octets when it lies in
      0 .. 2^32-1 and refused with writeUInt32BE's RangeError otherwise. */
  lemma CounterIntegerRange(oid: string, t: int, i: int, ber: Ber)
    requires t in {Counter, Gauge, TimeTicks}
    ensures var w := WriteValue(RequestVarbind(oid, Some(t), Some(Int(i))), ber);
      && (w.Ok? <==> 0 <= i < 0x1_0000_0000)
      && (w.Ok? ==> w.value.tag == t && |w.value.content| == 4 && IntCodec.BigEndian(w.value.content) == i)
      && (w.Err? ==> w.error == IntCodec.OutOfRange)
  {
    assert Truncate(i as real) == i;
  }

  /** The dotted quad a read produces is written back as the same four
      octets. */
  lemma IpAddressRoundTrip(b: seq<byte>)
    requires |b| == 4
    ensures var parts := Oid.Split(DottedQuad(b));
            |parts| == 4 && [OctetOfPart(parts[0]), OctetOfPart(parts[1]), OctetOfPart(parts[2]), OctetOfPart(parts[3])] == b
  {
    QuadParts(b);
    OctetsOfDecimals(b, Oid.Split(DottedQuad(b)));
  }

  lemma OctetsOfDecimals(b: seq<byte>, parts: seq<string>)
    requires |b| == 4 && parts == [Decimal(b[0]), Decimal(b[1]), Decimal(b[2]), Decimal(b[3])]
    ensures [OctetOfPart(parts[0]), OctetOfPart(parts[1]), OctetOfPart(parts[2]), OctetOfPart(parts[3])] == b
  {
    var x0, x1, x2, x3 := b[0], b[1], b[2], b[3];
    assert b == [x0, x1, x2, x3];
    OctetOfDecimal(x0);
    OctetOfDecimal(x1);
    OctetOfDecimal(x2);
    OctetOfDecimal(x3);
  }

  lemma QuadParts(b: seq<byte>)
    requires |b| == 4
    ensures Oid.Split(DottedQuad(b)) == [Decimal(b[0]), Decimal(b[1]), Decimal(b[2]), Decimal(b[3])]
  {
    var d0, d1, d2, d3 := Decimal(b[0]), Decimal(b[1]), Decimal(b[2]), Decimal(b[3]);
    assert DottedQuad(b) == d0 + "." + (d1 + "." + (d2 + "." + d3));
    SplitQuad(d0, d1, d2, d3);
  }

  lemma SplitQuad(d0: string, d1: string, d2: string, d3: string)
    requires AllDigits(d0)
    requires AllDigits(d1)
    requires AllDigits(d2)
    requires AllDigits(d3)
    ensures Oid.Split(d0 + "." + (d1 + "." + (d2 + "." + d3))) == [d0, d1, d2, d3]
  {
    SplitDigits(d0);
    SplitDigits(d1);
    SplitDigits(d2);
    SplitDigits(d3);
    Oid.SplitAppend(d2, d3);
    Oid.SplitAppend(d1, d2 + "." + d3);
    Oid.SplitAppend(d0, d1 + "." + (d2 + "." + d3));
  }

  lemma OctetOfDecimal(x: byte)
    ensures OctetOfPart(Decimal(x)) == x
  {
    DecimalToUint8(x);
  }

  /** A digit string splits into itself. */
  lemma {:induction false} SplitDigits(s: string)
    requires AllDigits(s)
    ensures Oid.Split(s) == [s]
    decreases |s|
  {
    if |s| > 0 {
      SplitDigits(s[1..]);
      assert s[0] != '.' by { assert IsDigit(s[0]); }
      assert [s[0]] + s[1..] == s;
    }
  }
}
