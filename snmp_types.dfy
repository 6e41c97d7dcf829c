/** Shared vocabulary of the SNMP client model: bytes, results, the error
    taxonomy, the numeric tags of object types, PDU types and error statuses,
    and the varbind record. */
module SnmpTypes {

  /** One octet of a Node.js Buffer. */
  type byte = b: int | 0 <= b < 256

  datatype Option<+T> = None | Some(value: T)

  /** The status a RequestFailedError carries: normally the numeric error
      status, but the name "GeneralError" when the agent's status is not in
      the ErrorStatus table. */
  datatype Status = StatusCode(code: int) | StatusName(name: string)

  /** The four exception classes the client raises, plus the RangeError and
      TypeError that Node.js throws, the plain Error of a closing socket or a
      failed decipher, and the BER reader's InvalidAsn1Error. */
  datatype Error =
    | ResponseInvalidError(message: string)
    | RequestInvalidError(message: string)
    | RequestFailedError(message: string, status: Status)
    | RequestTimedOutError(message: string)
    | RangeError(message: string)
    | TypeError(message: string)
    | PlainError(message: string)
    | InvalidAsn1Error(message: string)
    | ReferenceError(message: string)

  /** The RangeError Node.js throws when the argument `name` of a Buffer
      method is out of range, kept to the first clause of its message. */
  function ArgumentOutOfRange(name: string): Error
  {
    RangeError("The value of \"" + name + "\" is out of range")
  }

  datatype Result<+T> = Ok(value: T) | Err(error: Error) {
    predicate IsFailure() { Err? }
    function PropagateFailure<U>(): Result<U>
      requires Err?
    {
      Err(error)
    }
    function Extract(): T
      requires Ok?
    {
      value
    }
  }

  // ObjectType tags (the ASN.1 application tags of SNMP values)
  const Boolean: int := 1
  const Integer: int := 2
  const OctetString: int := 4
  const Null: int := 5
  const OID: int := 6
  const IpAddress: int := 64
  const Counter: int := 65
  const Gauge: int := 66
  const TimeTicks: int := 67
  const Opaque: int := 68
  const Counter64: int := 70
  const NoSuchObject: int := 128
  const NoSuchInstance: int := 129
  const EndOfMibView: int := 130

  /** The name the ObjectType table gives a tag, or None for an unlisted tag. */
  function ObjectTypeName(t: int): (r: Option<string>)
    ensures r.None? <==> t !in {1, 2, 4, 5, 6, 64, 65, 66, 67, 68, 70, 128, 129, 130}
  {
    match t
    case 1 => Some("Boolean")
    case 2 => Some("Integer")
    case 4 => Some("OctetString")
    case 5 => Some("Null")
    case 6 => Some("OID")
    case 64 => Some("IpAddress")
    case 65 => Some("Counter")
    case 66 => Some("Gauge")
    case 67 => Some("TimeTicks")
    case 68 => Some("Opaque")
    case 70 => Some("Counter64")
    case 128 => Some("NoSuchObject")
    case 129 => Some("NoSuchInstance")
    case 130 => Some("EndOfMibView")
    case _ => None
  }

  // PduType tags
  const GetRequest: int := 160
  const GetNextRequest: int := 161
  const GetResponse: int := 162
  const SetRequest: int := 163
  const Trap: int := 164
  const GetBulkRequest: int := 165
  const InformRequest: int := 166
  const TrapV2: int := 167
  const Report: int := 168

  // Protocol versions as written on the wire
  const Version1: int := 0
  const Version2c: int := 1
  const Version3: int := 3

  // ErrorStatus codes used by the algorithms
  const NoError: int := 0
  const NoSuchName: int := 2
  const GeneralError: int := 5

  /** The symbolic name of an SNMP error status, None outside 0..18. */
  function ErrorStatusName(s: int): (r: Option<string>)
    ensures r.Some? <==> 0 <= s <= 18
  {
    if s == 0 then Some("NoError")
    else if s == 1 then Some("TooBig")
    else if s == 2 then Some("NoSuchName")
    else if s == 3 then Some("BadValue")
    else if s == 4 then Some("ReadOnly")
    else if s == 5 then Some("GeneralError")
    else if s == 6 then Some("NoAccess")
    else if s == 7 then Some("WrongType")
    else if s == 8 then Some("WrongLength")
    else if s == 9 then Some("WrongEncoding")
    else if s == 10 then Some("WrongValue")
    else if s == 11 then Some("NoCreation")
    else if s == 12 then Some("InconsistentValue")
    else if s == 13 then Some("ResourceUnavailable")
    else if s == 14 then Some("CommitFailed")
    else if s == 15 then Some("UndoFailed")
    else if s == 16 then Some("AuthorizationError")
    else if s == 17 then Some("NotWritable")
    else if s == 18 then Some("InconsistentName")
    else None
  }

  /** An in-memory varbind value; its shape is fixed by the varbind's type. */
  datatype Value =
    | NullValue
    | Bool(b: bool)
    | Int(i: int)
    | Bytes(bs: seq<byte>)
    | Text(s: string)          // OIDs, IP addresses and string octet values

  /** A varbind as decoded from a response (type and value always present). */
  datatype Varbind = Varbind(oid: string, typ: int, value: Value)

  /** isVarbindError: the varbind carries one of the three exception tags. */
  predicate IsVarbindError(vb: Varbind)
  {
    vb.typ == NoSuchObject || vb.typ == NoSuchInstance || vb.typ == EndOfMibView
  }

  /** varbindError: "<type name or NotAnError>: <oid>". */
  function VarbindErrorText(vb: Varbind): (r: string)
    ensures |r| >= |vb.oid| + 2 && r[|r| - |vb.oid|..] == vb.oid
    ensures r[|r| - |vb.oid| - 2..|r| - |vb.oid|] == ": "
    ensures ObjectTypeName(vb.typ).None? <==> r[..|r| - |vb.oid| - 2] == "NotAnError"
  {
    var name := match ObjectTypeName(vb.typ) case Some(n) => n case None => "NotAnError";
    name + ": " + vb.oid
  }
}
