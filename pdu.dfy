/** The PDUs the client builds and the ones it accepts: SimplePdu (get,
    getNext, getBulk, set, inform, v2 trap), the v1 TrapPdu with its
    enterprise / generic / specific fields, the sysUpTime / snmpTrapOID
    prefix of v2 notifications, and readPdu for GetResponse and Report. */
module Pdu {
  import opened SnmpTypes
  import IntCodec
  import opened VarbindCodec
  import opened JsNumber

  /** What a caller passes as the trap: a dotted OID string or a numeric
      generic-trap code. */
  datatype TrapId = TrapOid(oid: string) | TrapCode(code: int)

  /** A request PDU. A SimplePdu keeps the caller's nonRepeaters and
      maxRepetitions options (absent or present); only GetBulk uses them. */
  datatype Pdu =
    | SimplePdu(typ: int, id: int, varbinds: seq<RequestVarbind>,
                nonRepeaters: Option<int>, maxRepetitions: Option<int>)
    | TrapPdu(agentAddr: string, upTime: Option<int>, generic: int, specific: int,
              enterprise: string, varbinds: seq<RequestVarbind>)

  /** A PDU as handed to the BER writer: the PDU tag with its three INTEGER
      fields and varbinds, or the v1 trap layout. */
  datatype PduItems =
    | SimpleItems(tag: int, ints: seq<int>, varbinds: seq<WireVarbind>)
    | TrapItems(enterprise: seq<byte>, agentAddr: seq<byte>, generic: int, specific: int,
                upTime: seq<byte>, varbinds: seq<WireVarbind>)

  /** A received PDU as the BER reader yields it. */
  datatype ResponseItems = ResponseItems(tag: int, id: int, errorStatus: int, errorIndex: int,
                                         varbinds: seq<WireVarbind>)

  /** GetResponsePdu: the decoded response or report. */
  datatype ResponsePdu = ResponsePdu(typ: int, id: int, errorStatus: int, errorIndex: int,
                                     varbinds: seq<Varbind>)

  /** The v1 trap fields: generic, specific and enterprise. */
  datatype TrapFields = TrapFields(generic: int, specific: int, enterprise: string)

  const EnterpriseSpecific: int := 6
  const SysUpTimeOid: string := "1.3.6.1.2.1.1.3.0"
  const SnmpTrapOidOid: string := "1.3.6.1.6.3.1.1.4.1.0"
  const SnmpTrapsPrefix: string := "1.3.6.1.6.3.1.1.5."
  const DefaultEnterprise: string := "1.3.6.1.4.1"
  const DefaultAgentAddr: string := "127.0.0.1"

  // ---------------------------------------------------------------------
  // Encoding
  // ---------------------------------------------------------------------

  /** `option || 0`: an absent option, like the falsy 0, gives 0. */
  function OrZero(o: Option<int>): int
  {
    if o.Some? then o.value else 0
  }

  /** `options.upTime || Math.floor(process.uptime() * 100)`: an absent or
      zero upTime falls back to the process uptime in hundredths. */
  function UpTimeOr(upTime: Option<int>, processUptime: int): int
  {
    if upTime.Some? && upTime.value != 0 then upTime.value else processUptime
  }

  /** Buffer.from(agentAddr.split(".")): one octet per dotted part, however
      many parts there are, each the part's number stored as an octet. */
  function AgentAddrOctets(agentAddr: string): (r: seq<byte>)
    ensures |r| == |Oid.Split(agentAddr)|
    ensures forall k :: 0 <= k < |r| ==> r[k] == ToUint8(StringToNumber(Oid.Split(agentAddr)[k]))
  {
    var parts := Oid.Split(agentAddr);
    seq(|parts|, k requires 0 <= k < |parts| => OctetOfPart(parts[k]))
  }

  /** SimplePdu.toBuffer and TrapPdu.toBuffer. A SimplePdu writes its id and
      then nonRepeaters / maxRepetitions for GetBulk and two zeros for every
      other type; a trap writes its uptime with writeUint before its
      varbinds, so an out-of-range uptime is reported first. */
  function EncodePdu(p: Pdu, ber: Ber, processUptime: int): Result<PduItems>
  {
    match p
    case SimplePdu(typ, id, varbinds, nonRepeaters, maxRepetitions) =>
      var vbs :- EncodeVarbinds(varbinds, ber);
      Ok(SimpleItems(typ, [id,
                           if typ == GetBulkRequest then OrZero(nonRepeaters) else 0,
                           if typ == GetBulkRequest then OrZero(maxRepetitions) else 0],
                     vbs))
    case TrapPdu(agentAddr, upTime, generic, specific, enterprise, varbinds) =>
      var ticks :- IntCodec.WriteUint(TimeTicks as byte, UpTimeOr(upTime, processUptime));
      var vbs :- EncodeVarbinds(varbinds, ber);
      Ok(TrapItems(ber.oidOctets(enterprise), AgentAddrOctets(agentAddr), generic, specific,
                   ticks[2..], vbs))
  }

  /** The options only reach the wire for GetBulk: any other SimplePdu
      encodes the same whatever they are. For GetBulk an absent option is
      written as 0 and a present one as given. */
  lemma BulkFieldsOnlyForGetBulk(p: Pdu, nr: Option<int>, mr: Option<int>, ber: Ber, up: int)
    requires p.SimplePdu?
    ensures p.typ != GetBulkRequest ==>
      EncodePdu(p.(nonRepeaters := nr, maxRepetitions := mr), ber, up) == EncodePdu(p, ber, up)
    ensures EncodePdu(p, ber, up).Ok? <==> EncodeVarbinds(p.varbinds, ber).Ok?
    ensures EncodePdu(p, ber, up).Ok? ==>
      var items := EncodePdu(p, ber, up).value;
      && items.SimpleItems? && items.tag == p.typ && |items.ints| == 3 && items.ints[0] == p.id
      && items.varbinds == EncodeVarbinds(p.varbinds, ber).value
      && (p.typ == GetBulkRequest && p.nonRepeaters.Some? ==> items.ints[1] == p.nonRepeaters.value)
      && (p.typ == GetBulkRequest && p.maxRepetitions.Some? ==> items.ints[2] == p.maxRepetitions.value)
      && (p.typ != GetBulkRequest || p.nonRepeaters.None? ==> items.ints[1] == 0)
      && (p.typ != GetBulkRequest || p.maxRepetitions.None? ==> items.ints[2] == 0)
  {
  }

  /** A trap encodes exactly when its uptime (after the fallback) fits in
      32 unsigned bits and its varbinds encode; an upTime of 0 is the same as
      none. */
  lemma TrapEncoding(p: Pdu, ber: Ber, up: int)
    requires p.TrapPdu?
    ensures EncodePdu(p, ber, up).Ok? <==>
      0 <= UpTimeOr(p.upTime, up) < 0x1_0000_0000 && EncodeVarbinds(p.varbinds, ber).Ok?
    ensures EncodePdu(p.(upTime := Some(0)), ber, up) == EncodePdu(p.(upTime := None), ber, up)
    ensures EncodePdu(p, ber, up).Ok? ==>
      var items := EncodePdu(p, ber, up).value;
      && items.TrapItems? && items.generic == p.generic && items.specific == p.specific
      && IntCodec.BigEndian(items.upTime) == UpTimeOr(p.upTime, up)
      && items.agentAddr == AgentAddrOctets(p.agentAddr)
      && |items.agentAddr| == |Oid.Split(p.agentAddr)|
  {
  }

  /** An agent address written as a dotted quad of octets is sent as those
      four octets, as the default 127.0.0.1 is. */
  lemma AgentAddrOfQuad(b: seq<byte>)
    requires |b| == 4
    ensures AgentAddrOctets(DottedQuad(b)) == b
  {
    IpAddressRoundTrip(b);
  }

  /** Parts that are not plain digits are converted as numbers: "-1" is
      stored as 255 and "0x10" as 16. */
  lemma AgentAddrCoerces()
    ensures AgentAddrOctets("-1.0x10") == [255, 16]
  {
    assert Oid.Split("-1.0x10") == ["-1", "0x10"] by {
      SplitMinusOne();
      SplitHex();
      assert "-1.0x10" == "-1" + "." + "0x10";
      Oid.SplitAppend("-1", "0x10");
    }
    var r := AgentAddrOctets("-1.0x10");
    assert r[0] == 255 by { MinusOneWraps(); }
    assert r[1] == 16 by { HexNumeral(); }
  }

  lemma SplitMinusOne()
    ensures Oid.Split("-1") == ["-1"]
  {
    SplitDigits("1");
    assert "-1"[1..] == "1" && ['-'] + "1" == "-1";
  }

  lemma SplitHex()
    ensures Oid.Split("0x10") == ["0x10"]
  {
    SplitDigits("10");
    assert "x10"[1..] == "10" && ['x'] + "10" == "x10";
    assert Oid.Split("x10") == ["x10"];
    assert "0x10"[1..] == "x10" && ['0'] + "x10" == "0x10";
  }

  // ---------------------------------------------------------------------
  // The v1 trap fields
  // ---------------------------------------------------------------------

  /** The position of the last '.' in s, if any. */
  function LastDot(s: string): (r: Option<nat>)
    ensures r.Some? ==> r.value < |s| && s[r.value] == '.'
    ensures r.Some? ==> forall k :: r.value < k < |s| ==> s[k] != '.'
    ensures r.None? ==> forall k :: 0 <= k < |s| ==> s[k] != '.'
  {
    if s == [] then None
    else if s[|s| - 1] == '.' then Some(|s| - 1)
    else LastDot(s[..|s| - 1])
  }

  /** Where the pattern /\.(\d+)$/ matches: a '.' followed by one or more
      digits up to the end. */
  ghost predicate TrailingNumberAt(s: string, p: int)
  {
    0 <= p < |s| - 1 && s[p] == '.' && AllDigits(s[p + 1..])
  }

  /** The TrapPdu constructor's field derivation. A string is split at its
      trailing ".<digits>": the digits are the specific code, the rest the
      enterprise, and the generic code is enterpriseSpecific. A string
      without one makes `match(...)[1]` throw. A number is the generic code,
      with specific 0 and the enterprises OID. */
  function DeriveTrapFields(t: TrapId): Result<TrapFields>
  {
    match t
    case TrapCode(n) => Ok(TrapFields(n, 0, DefaultEnterprise))
    case TrapOid(s) =>
      var p := LastDot(s);
      if p.Some? && p.value + 1 < |s| && AllDigits(s[p.value + 1..]) then
        Ok(TrapFields(EnterpriseSpecific, DigitsValue(s[p.value + 1..]), s[..p.value]))
      else
        Err(TypeError("Cannot read property '1' of null"))
  }

  /** new TrapPdu(typeOrOid, varbinds, options); agentAddr defaults to
      127.0.0.1 when absent or empty. */
  function MakeTrapPdu(t: TrapId, varbinds: seq<RequestVarbind>, agentAddr: Option<string>,
                       upTime: Option<int>): (r: Result<Pdu>)
    ensures r.Ok? <==> DeriveTrapFields(t).Ok?
    ensures r.Ok? ==> r.value.TrapPdu? && r.value.varbinds == varbinds && r.value.upTime == upTime
    ensures r.Ok? ==> r.value.agentAddr != ""
    ensures r.Ok? && agentAddr.Some? && agentAddr.value != "" ==> r.value.agentAddr == agentAddr.value
    ensures r.Ok? ==> var f := DeriveTrapFields(t).value;
      r.value.generic == f.generic && r.value.specific == f.specific && r.value.enterprise == f.enterprise
  {
    var f :- DeriveTrapFields(t);
    var addr := if agentAddr.Some? && agentAddr.value != "" then agentAddr.value else DefaultAgentAddr;
    Ok(TrapPdu(addr, upTime, f.generic, f.specific, f.enterprise, varbinds))
  }

  lemma {:induction false} LastDotAfterDigits(e: string, d: string)
    requires AllDigits(d)
    ensures LastDot(e + "." + d) == Some(|e|)
    decreases |d|
  {
    var s := e + "." + d;
    if |d| > 0 {
      assert IsDigit(d[|d| - 1]);
      assert s[..|s| - 1] == e + "." + d[..|d| - 1];
      LastDotAfterDigits(e, d[..|d| - 1]);
    } else {
      assert s[|s| - 1] == '.';
    }
  }

  /** The pattern can only match at the last '.': digits contain no dot. */
  lemma TrailingNumberIsLastDot(s: string, p: int)
    requires TrailingNumberAt(s, p)
    ensures LastDot(s) == Some(p)
  {
    assert s == s[..p] + "." + s[p + 1..];
    LastDotAfterDigits(s[..p], s[p + 1..]);
  }

  /** A string trap is accepted exactly when it ends in ".<digits>"; then the
      enterprise, a '.', and the digits of the specific code give back the
      string. */
  lemma TrapOidParse(s: string)
    ensures DeriveTrapFields(TrapOid(s)).Ok? <==> exists p :: TrailingNumberAt(s, p)
    ensures DeriveTrapFields(TrapOid(s)).Ok? ==>
      var f := DeriveTrapFields(TrapOid(s)).value;
      var digits := s[|f.enterprise| + 1..];
      && f.generic == EnterpriseSpecific
      && TrailingNumberAt(s, |f.enterprise|)
      && s == f.enterprise + "." + digits
      && f.specific == DigitsValue(digits)
  {
    if exists p :: TrailingNumberAt(s, p) {
      var p :| TrailingNumberAt(s, p);
      TrailingNumberIsLastDot(s, p);
    }
    if DeriveTrapFields(TrapOid(s)).Ok? {
      var p := LastDot(s).value;
      assert TrailingNumberAt(s, p);
      assert s == s[..p] + "." + s[p + 1..];
    }
  }

  /** Round trip: an enterprise OID extended by a specific code is split
      back into the same two. */
  lemma TrapOidRoundTrip(enterprise: string, specific: nat)
    ensures DeriveTrapFields(TrapOid(enterprise + "." + IntText(specific)))
         == Ok(TrapFields(EnterpriseSpecific, specific, enterprise))
  {
    var s := enterprise + "." + Decimal(specific);
    LastDotAfterDigits(enterprise, Decimal(specific));
    assert s[..|enterprise|] == enterprise;
    assert s[|enterprise| + 1..] == Decimal(specific);
    DecimalValue(specific);
  }

  // ---------------------------------------------------------------------
  // v2 notifications
  // ---------------------------------------------------------------------

  /** The snmpTrapOID value of a v2 trap or inform: a string as given, a
      numeric code n as snmpTraps.(n + 1). */
  function NotificationOid(t: TrapId): string
  {
    match t
    case TrapOid(s) => s
    case TrapCode(n) => SnmpTrapsPrefix + IntText(n + 1)
  }

  /** The varbinds of a v2 trap or inform: sysUpTime.0 as TimeTicks and
      snmpTrapOID.0 as an OID, then copies of the caller's varbinds. */
  function NotificationVarbinds(t: TrapId, upTime: Option<int>, processUptime: int,
                                varbinds: seq<RequestVarbind>): seq<RequestVarbind>
  {
    [RequestVarbind(SysUpTimeOid, Some(TimeTicks), Some(Int(UpTimeOr(upTime, processUptime)))),
     RequestVarbind(SnmpTrapOidOid, Some(OID), Some(Text(NotificationOid(t))))]
    + varbinds
  }

  /** The numeric codes of the v2 notification OID agree with the v1 trap
      fields: read as a v1 trap OID, snmpTraps.(n + 1) has specific code
      n + 1 under the snmpTraps enterprise. */
  lemma NotificationOidAsV1(n: int)
    requires n >= -1
    ensures DeriveTrapFields(TrapOid(NotificationOid(TrapCode(n))))
         == Ok(TrapFields(EnterpriseSpecific, n + 1, "1.3.6.1.6.3.1.1.5"))
  {
    assert SnmpTrapsPrefix == "1.3.6.1.6.3.1.1.5" + ".";
    assert NotificationOid(TrapCode(n)) == "1.3.6.1.6.3.1.1.5" + "." + IntText(n + 1);
    TrapOidRoundTrip("1.3.6.1.6.3.1.1.5", n + 1);
  }

  /** A notification's varbinds encode exactly when its uptime fits in 32
      unsigned bits and the caller's varbinds encode; the caller's varbinds
      follow the two prefix items unchanged. */
  lemma NotificationEncoding(t: TrapId, upTime: Option<int>, processUptime: int,
                             varbinds: seq<RequestVarbind>, ber: Ber)
    ensures var all := NotificationVarbinds(t, upTime, processUptime, varbinds);
      && |all| == |varbinds| + 2 && all[2..] == varbinds
      && (EncodeVarbinds(all, ber).Ok? <==>
          0 <= UpTimeOr(upTime, processUptime) < 0x1_0000_0000 && EncodeVarbinds(varbinds, ber).Ok?)
      && (EncodeVarbinds(all, ber).Ok? ==> EncodeVarbinds(all, ber).value[2..] == EncodeVarbinds(varbinds, ber).value)
  {
    var all := NotificationVarbinds(t, upTime, processUptime, varbinds);
    assert all[1..][1..] == varbinds;
    var ticks := WriteValue(all[0], ber);
    assert ticks.Ok? <==> 0 <= UpTimeOr(upTime, processUptime) < 0x1_0000_0000;
    assert WriteValue(all[1], ber).Ok?;
    assert FirstUnwritable(all, ber) == if ticks.Err? then 0 else 2 + FirstUnwritable(varbinds, ber);
  }

  // ---------------------------------------------------------------------
  // Decoding
  // ---------------------------------------------------------------------

  /** The ResponseInvalidError for a PDU tag readPdu does not read, with
      the tag spliced into its text. */
  function UnknownPduType(tag: int): Error
  {
    ResponseInvalidError("Unknown PDU type '" + IntText(tag) + "' in response")
  }

  /** readPdu: only GetResponse and Report PDUs are read (both with the
      GetResponsePdu layout); any other tag is refused. */
  function ReadPdu(items: ResponseItems, ber: Ber): Result<ResponsePdu>
  {
    if items.tag != GetResponse && items.tag != Report then
      Err(UnknownPduType(items.tag))
    else
      var vbs :- DecodeVarbinds(items.varbinds, ber);
      Ok(ResponsePdu(items.tag, items.id, items.errorStatus, items.errorIndex, vbs))
  }

  /** A received PDU is accepted exactly when it is a GetResponse or a
      Report whose varbinds all decode, and its fields are kept as read. */
  lemma ReadPduAccepts(items: ResponseItems, ber: Ber)
    ensures ReadPdu(items, ber).Ok? <==>
      (items.tag == GetResponse || items.tag == Report) && DecodeVarbinds(items.varbinds, ber).Ok?
    ensures items.tag !in {GetResponse, Report} ==>
      ReadPdu(items, ber) == Err(UnknownPduType(items.tag))
    ensures ReadPdu(items, ber).Ok? ==>
      var pdu := ReadPdu(items, ber).value;
      && pdu.typ == items.tag && pdu.id == items.id
      && pdu.errorStatus == items.errorStatus && pdu.errorIndex == items.errorIndex
      && |pdu.varbinds| == |items.varbinds|
  {
  }
}
