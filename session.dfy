/** The session: the table of pending requests with their retry timers,
    sending a request, handling a received message (onMsg and
    onSimpleGetResponse), cancelling every request when the socket closes,
    and the operations get, set, getNext, getBulk, inform and trap.

    The socket, the timers and the event emitter are not modelled as such:
    what the session sends is appended to `sent`, the callbacks it makes to
    `calls`, the errors it emits to `errors`; a timer that fires is a call
    of Timeout, a datagram that arrives a call of OnMsg, and a failed
    datagram send the `sendError` parameter of the operation that sends. */
module Session {
  import opened SnmpTypes
  import opened JsNumber
  import opened VarbindCodec
  import opened Pdu
  import opened Usm
  import M = Message
  import opened Responses

  /** The feed callback a request carries: one per operation. */
  datatype FeedKind = GetKind | SetKind | InformKind | GetNextKind | GetBulkKind(nonRepeaters: nat)

  /** One call of a request's responseCb; `callback` names the caller's
      function. */
  datatype Call = Call(callback: nat, arg: CallbackArg)

  /** One datagram handed to the socket. */
  datatype Packet = Packet(bytes: seq<byte>, port: int)

  /** What onMsg does with a received message once it has found the
      request it answers: emit an error on the session, call the request's
      responseCb, or send the original PDU of a discovery request again. */
  datatype Verdict =
    | Emit(error: Error)
    | Answer(outcome: FeedOutcome)
    | Resend(engineID: seq<byte>, engineBoots: int, engineTime: int)

  function Max0(x: int): nat
  {
    if x > 0 then x else 0
  }

  /** A single responseCb call with an error, after which the handler
      returns. */
  function Fails(e: Error): FeedOutcome
  {
    FeedOutcome([ErrorArg(e)], true)
  }

  /** The calls of a feed outcome, made on one callback. */
  function CallsOf(callback: nat, args: seq<CallbackArg>): (r: seq<Call>)
    ensures |r| == |args| && forall i :: 0 <= i < |r| ==> r[i] == Call(callback, args[i])
  {
    seq(|args|, i requires 0 <= i < |args| => Call(callback, args[i]))
  }

  /** The OIDs of a request PDU's varbinds. */
  function ReqOids(p: Pdu): seq<string>
  {
    seq(|p.varbinds|, i requires 0 <= i < |p.varbinds| => p.varbinds[i].oid)
  }

  /** The varbinds get, getNext and getBulk send: an OID each, no type or
      value. */
  function OidVarbinds(oids: seq<string>): seq<RequestVarbind>
  {
    seq(|oids|, i requires 0 <= i < |oids| => RequestVarbind(oids[i], None, None))
  }

  /** The port of a new Req: the option when it is present and nonzero,
      the session's port otherwise. */
  function ReqPort(option: Option<int>, sessionPort: int): int
  {
    if option.Some? && option.value != 0 then option.value else sessionPort
  }

  /** A JavaScript value in string concatenation: an absent community
      reads "undefined". */
  function TextOf(s: Option<string>): string
  {
    if s.Some? then s.value else "undefined"
  }

  // ---------------------------------------------------------------------
  // onSimpleGetResponse
  // ---------------------------------------------------------------------

  /** The feed callback of each operation applied to a response. */
  function FeedOutcomeOf(kind: FeedKind, reqOids: seq<string>, resp: seq<Varbind>): FeedOutcome
  {
    match kind
    case GetKind => Matched(reqOids, resp, RequestWords)
    case SetKind => Matched(reqOids, resp, RequestWords)
    case InformKind => Matched(reqOids, resp, InformWords)
    case GetNextKind => NextChecked(reqOids, resp)
    case GetBulkKind(n) => BulkFed(reqOids, resp, n)
  }

  /** statusString and statusCode of a failed request. The ErrorStatus
      table maps names to codes and codes to names, so an unknown status
      reads as the code of GeneralError, 5, with the name "GeneralError" as
      its status. */
  function FailedStatus(errorStatus: int): (string, Status)
  {
    var name := ErrorStatusName(errorStatus);
    if name.Some? && errorStatus != 0 then (name.value, StatusCode(errorStatus))
    else ("5", StatusName("GeneralError"))
  }

  /** onSimpleGetResponse: a nonzero error status fails the request,
      naming the varbind errorIndex points at when it points into the
      response; otherwise the feed callback decides. */
  function SimpleGetOutcome(kind: FeedKind, reqOids: seq<string>, pdu: ResponsePdu): FeedOutcome
  {
    if pdu.errorStatus > 0 then
      var (text, status) := FailedStatus(pdu.errorStatus);
      if pdu.errorIndex <= 0 || pdu.errorIndex > |pdu.varbinds| then Fails(RequestFailedError(text, status))
      else Fails(RequestFailedError(text + ": " + pdu.varbinds[pdu.errorIndex - 1].oid, status))
    else FeedOutcomeOf(kind, reqOids, pdu.varbinds)
  }

  /** A response with a nonzero error status fails with exactly one error:
      a known status by its name and code, an unknown one as "5" with the
      status "GeneralError"; the OID of the varbind errorIndex designates
      follows when and only when the index is within the response. A zero
      status hands the varbinds to the operation's feed. */
  lemma SimpleGetOutcomeSpec(kind: FeedKind, reqOids: seq<string>, pdu: ResponsePdu)
    ensures var o := SimpleGetOutcome(kind, reqOids, pdu);
      && (pdu.errorStatus <= 0 ==> o == FeedOutcomeOf(kind, reqOids, pdu.varbinds))
      && (pdu.errorStatus > 0 ==>
            && o.halts && |o.calls| == 1 && o.calls[0].ErrorArg? && o.calls[0].error.RequestFailedError?
            && var e := o.calls[0].error;
            var text := if pdu.errorStatus <= 18 then ErrorStatusName(pdu.errorStatus).value else "5";
            && e.status == (if pdu.errorStatus <= 18 then StatusCode(pdu.errorStatus) else StatusName("GeneralError"))
            && |text| <= |e.message| && e.message[..|text|] == text
            && (1 <= pdu.errorIndex <= |pdu.varbinds| <==> e.message != text)
            && (1 <= pdu.errorIndex <= |pdu.varbinds| ==>
                  e.message == text + ": " + pdu.varbinds[pdu.errorIndex - 1].oid))
  {
    var o := SimpleGetOutcome(kind, reqOids, pdu);
    if pdu.errorStatus > 0 {
      var text := if pdu.errorStatus <= 18 then ErrorStatusName(pdu.errorStatus).value else "5";
      assert FailedStatus(pdu.errorStatus).0 == text;
      var e := o.calls[0].error;
      if 1 <= pdu.errorIndex <= |pdu.varbinds| {
        assert e.message == text + ": " + pdu.varbinds[pdu.errorIndex - 1].oid;
        assert |e.message| > |text|;
        assert e.message[..|text|] == text;
      }
    }
  }

  /** req.feedCb for each kind of request, run as the operation's loop. */
  method RunFeed(kind: FeedKind, reqOids: seq<string>, resp: seq<Varbind>) returns (out: FeedOutcome)
    ensures out == FeedOutcomeOf(kind, reqOids, resp)
  {
    match kind
    case GetKind => out := MatchFeed(reqOids, resp, RequestWords);
    case SetKind => out := MatchFeed(reqOids, resp, RequestWords);
    case InformKind => out := MatchFeed(reqOids, resp, InformWords);
    case GetNextKind => out := GetNextFeed(reqOids, resp);
    case GetBulkKind(n) => out := GetBulkFeed(reqOids, resp, n);
  }

  /** onSimpleGetResponse, calling the feed when the status is zero. */
  method SimpleGetResponse(kind: FeedKind, reqOids: seq<string>, pdu: ResponsePdu) returns (out: FeedOutcome)
    ensures out == SimpleGetOutcome(kind, reqOids, pdu)
  {
    if pdu.errorStatus > 0 {
      var (text, status) := FailedStatus(pdu.errorStatus);
      if pdu.errorIndex <= 0 || pdu.errorIndex > |pdu.varbinds| {
        out := Fails(RequestFailedError(text, status));
      } else {
        out := Fails(RequestFailedError(text + ": " + pdu.varbinds[pdu.errorIndex - 1].oid, status));
      }
    } else {
      out := RunFeed(kind, reqOids, pdu.varbinds);
    }
  }

  // ---------------------------------------------------------------------
  // onMsg's decisions
  // ---------------------------------------------------------------------

  /** The error a digest mismatch reports, with both digests in hex. */
  function DigestMismatch(received: seq<byte>, calculated: seq<byte>): Error
  {
    ResponseInvalidError("Authentication digest " + Hex(received)
      + " received in message does not match digest " + Hex(calculated) + " calculated for message")
  }

  /** The authentication check of onMsg with the session's user, on the
      received octets: None lets the message through. A message without the
      authentication flag passes unchecked; an exception is emitted on the
      session; a digest that does not match answers the request with the
      received digest and the one recalculated over the octets as
      isAuthentic leaves them. */
  function AuthVerdict(buf: seq<byte>, user: Option<M.User>, msg: M.Received): (r: Option<Verdict>)
    ensures r.None? <==>
      !M.HasAuthentication(msg.globalData)
      || (&& user.Some? && user.value.authProtocol.Some? && msg.securityParameters.Some?
          && var sec := msg.securityParameters.value;
          Authentic(buf, user.value.authProtocol.value, user.value.authKey, sec.engineID, sec.authParams) == Ok(true))
    ensures r.Some? && r.value.Answer? <==>
      && M.HasAuthentication(msg.globalData)
      && user.Some? && user.value.authProtocol.Some? && msg.securityParameters.Some?
      && var sec := msg.securityParameters.value;
      Authentic(buf, user.value.authProtocol.value, user.value.authKey, sec.engineID, sec.authParams) == Ok(false)
    ensures r.Some? ==> !r.value.Resend?
    ensures r.Some? && r.value.Answer? ==>
      r.value.outcome.halts && |r.value.outcome.calls| == 1 && r.value.outcome.calls[0].ErrorArg?
      && r.value.outcome.calls[0].error.ResponseInvalidError?
  {
    if !M.HasAuthentication(msg.globalData) then None
    else if user.None? then Some(Emit(TypeError("Cannot read property 'authProtocol' of undefined")))
    else if msg.securityParameters.None? then
      Some(Emit(TypeError("Cannot read property 'msgAuthoritativeEngineID' of undefined")))
    else
      var u, sec := user.value, msg.securityParameters.value;
      match u.authProtocol
      case None => Some(Emit(NoAlgorithmError(buf, sec.authParams)))
      case Some(h) => DigestVerdict(buf, h, u.authKey, sec)
  }

  /** isAuthentic without an algorithm: the field is zeroed (when it can
      be found) before the missing algorithm throws. */
  function NoAlgorithmError(buf: seq<byte>, digestInMessage: seq<byte>): Error
  {
    var off := IndexOf(buf, digestInMessage);
    if off < 0 || off + AuthCodeLength > |buf| then FillRangeError(off) else M.NoAlgorithm
  }

  /** isAuthentic with the user's algorithm, and the digest recalculated
      on a mismatch. */
  function DigestVerdict(buf: seq<byte>, h: HashFunction, authKey: seq<byte>, sec: M.SecurityParameters)
    : Option<Verdict>
  {
    match Authentic(buf, h, authKey, sec.engineID, sec.authParams)
    case Err(e) => Some(Emit(e))
    case Ok(true) => None
    case Ok(false) =>
      Some(Answer(Fails(DigestMismatch(sec.authParams,
                                       Digest(h, authKey, sec.engineID, AfterAuthentic(buf, sec.authParams))))))
  }

  /** onMsg's authentication check, in place on the received octets:
      isAuthentic zeroes the digest field and copies the received digest
      back, and a mismatch recalculates the digest over what it left. */
  method CheckAuthentication(buffer: array<byte>, user: Option<M.User>, msg: M.Received) returns (v: Option<Verdict>)
    modifies buffer
    ensures v == AuthVerdict(old(buffer[..]), user, msg)
  {
    if !M.HasAuthentication(msg.globalData) {
      return None;
    }
    if user.None? {
      return Some(Emit(TypeError("Cannot read property 'authProtocol' of undefined")));
    }
    if msg.securityParameters.None? {
      return Some(Emit(TypeError("Cannot read property 'msgAuthoritativeEngineID' of undefined")));
    }
    var u, sec := user.value, msg.securityParameters.value;
    if u.authProtocol.None? {
      var e := FailWithoutAlgorithm(buffer, sec.authParams);
      return Some(Emit(e));
    }
    v := CheckDigest(buffer, u.authProtocol.value, u.authKey, sec);
  }

  /** The zeroing isAuthentic does before the missing algorithm throws. */
  method FailWithoutAlgorithm(buffer: array<byte>, digestInMessage: seq<byte>) returns (e: Error)
    modifies buffer
    ensures e == NoAlgorithmError(old(buffer[..]), digestInMessage)
  {
    var off := IndexOf(buffer[..], digestInMessage);
    if off < 0 || off + AuthCodeLength > buffer.Length {
      return FillRangeError(off);
    }
    FillZero(buffer, off);
    return M.NoAlgorithm;
  }

  /** isAuthentic in place, and calculateDigest over what it left when
      the digests differ. */
  method CheckDigest(buffer: array<byte>, h: HashFunction, authKey: seq<byte>, sec: M.SecurityParameters)
    returns (v: Option<Verdict>)
    modifies buffer
    ensures v == DigestVerdict(old(buffer[..]), h, authKey, sec)
  {
    var authentic := IsAuthentic(buffer, h, authKey, sec.engineID, sec.authParams);
    if authentic.Err? {
      return Some(Emit(authentic.error));
    }
    if authentic.value {
      return None;
    }
    var calculated := CalculateDigest(buffer[..], h, authKey, sec.engineID);
    return Some(Answer(Fails(DigestMismatch(sec.authParams, calculated))));
  }

  /** The inner part of onMsg, for a message that passed the
      authentication check: the version and the community must be the
      request's; a response goes to onSimpleGetResponse; a report to a
      discovery request sends the original PDU again with the engine fields
      the report carries; anything else fails the request. An exception
      here reaches the request's callback, never the session. */
  function Dispatch(reqVersion: int, reqCommunity: Option<string>, kind: FeedKind, reqOids: seq<string>,
                    originalPdu: Option<Pdu>, user: Option<M.User>, msg: M.Received): (v: Verdict)
    ensures !v.Emit?
    ensures v.Resend? <==>
      && msg.version == reqVersion && msg.community == reqCommunity && msg.pdu.typ == Report
      && originalPdu.Some? && msg.securityParameters.Some? && user.Some?
    ensures v.Resend? ==>
      var sec := msg.securityParameters.value;
      v == Resend(sec.engineID, sec.engineBoots, sec.engineTime)
    ensures msg.version == reqVersion && msg.community == reqCommunity && msg.pdu.typ == GetResponse ==>
      v == Answer(SimpleGetOutcome(kind, reqOids, msg.pdu))
    ensures (msg.version == reqVersion && msg.community == reqCommunity && msg.pdu.typ == Report
             && originalPdu.None?) ==> v == Answer(Fails(ResponseInvalidError("Unexpected Report PDU")))
    ensures msg.version != reqVersion || msg.community != reqCommunity ==>
      v.Answer? && v.outcome.halts && |v.outcome.calls| == 1 && v.outcome.calls[0].ErrorArg?
      && v.outcome.calls[0].error.ResponseInvalidError?
  {
    if msg.version != reqVersion then
      Answer(Fails(ResponseInvalidError("Version in request '" + IntText(reqVersion)
        + "' does not match version in response '" + IntText(msg.version) + "'")))
    else if msg.community != reqCommunity then
      Answer(Fails(ResponseInvalidError("Community '" + TextOf(reqCommunity)
        + "' in request does not match community '" + TextOf(msg.community) + "' in response")))
    else if msg.pdu.typ == GetResponse then Answer(SimpleGetOutcome(kind, reqOids, msg.pdu))
    else if msg.pdu.typ == Report then
      if originalPdu.None? then Answer(Fails(ResponseInvalidError("Unexpected Report PDU")))
      else if msg.securityParameters.None? then
        Answer(Fails(TypeError("Cannot read property 'msgAuthoritativeEngineID' of undefined")))
      else if user.None? then Answer(Fails(TypeError("Cannot read property 'level' of undefined")))
      else
        var sec := msg.securityParameters.value;
        Resend(sec.engineID, sec.engineBoots, sec.engineTime)
    else
      Answer(Fails(UnknownPduType(msg.pdu.typ)))
  }

  /** A request whose report was answered by sending its original PDU
      carries no original PDU of its own, so a second report for it is
      unexpected: discovery happens once per request. */
  lemma SecondReportUnexpected(reqVersion: int, reqCommunity: Option<string>, kind: FeedKind,
                               reqOids: seq<string>, user: Option<M.User>, first: M.Received, second: M.Received,
                               originalPdu: Pdu)
    requires Dispatch(reqVersion, reqCommunity, kind, reqOids, Some(originalPdu), user, first).Resend?
    requires second.version == reqVersion && second.community == reqCommunity && second.pdu.typ == Report
    ensures first.pdu.typ == Report
    ensures Dispatch(reqVersion, reqCommunity, kind, reqOids, None, user, second)
         == Answer(Fails(ResponseInvalidError("Unexpected Report PDU")))
  {
  }

  /** A message is matched to its request by the request id alone; the
      parsed message's id, for a well-formed message, is its msgID or its
      PDU's id. */
  lemma ParsedIdIsWireId(w: M.WireMessage, pending: Option<Option<M.User>>, env: M.Env)
    requires M.ParseMessage(w, pending, env).Ok?
    ensures M.ParseMessage(w, pending, env).value.ReqId()
         == if w.version == Version3 then w.body.globalData.msgID else w.body.pdu.id
  {
    M.ParseMessageShape(w, pending, env);
  }

  // ---------------------------------------------------------------------
  // cancelRequests: pending requests in ascending id order
  // ---------------------------------------------------------------------

  lemma NonEmpty(s: set<int>)
    requires s != {}
    ensures exists x :: x in s
  {
    if forall x :: x !in s {
      assert false;
    }
  }

  /** The least element of a finite non-empty set of ids. */
  ghost function MinOf(s: set<int>): (k: int)
    requires s != {}
    ensures k in s && forall y :: y in s ==> k <= y
    decreases |s|
  {
    NonEmpty(s);
    var x :| x in s;
    if s == {x} then x
    else
      var m := MinOf(s - {x});
      assert forall y :: y in s ==> y == x || y in s - {x};
      if x < m then x else m
  }

  lemma MinOfIsLeast(s: set<int>)
    requires s != {}
    ensures exists k :: k in s && forall x :: x in s ==> k <= x
  {
    var k := MinOf(s);
  }

  lemma LeastIsMinOf(s: set<int>, k: int)
    requires k in s && forall x :: x in s ==> k <= x
    ensures k == MinOf(s)
  {
  }

  /** The ids of a set in the order a for-in loop visits integer keys. */
  ghost function Ascending(s: set<int>): seq<int>
    decreases |s|
  {
    if s == {} then [] else [MinOf(s)] + Ascending(s - {MinOf(s)})
  }

  /** Ascending lists every id of the set once, in increasing order. */
  lemma {:induction false} AscendingSpec(s: set<int>)
    ensures var r := Ascending(s);
      && |r| == |s|
      && (forall x :: x in s <==> x in r)
      && (forall i, j :: 0 <= i < j < |r| ==> r[i] < r[j])
    decreases |s|
  {
    if s != {} {
      var k := MinOf(s);
      AscendingSpec(s - {k});
      var r := Ascending(s);
      assert r == [k] + Ascending(s - {k});
      forall i, j | 0 <= i < j < |r|
        ensures r[i] < r[j]
      {
        if i == 0 {
          assert r[j] in s - {k};
        }
      }
    }
  }

  /** The responseCb calls cancelRequests makes: one per pending request,
      in ascending id order, each with the same error. */
  ghost function CancelCalls(reqs: map<int, Req>, error: Error): seq<Call>
    decreases |reqs.Keys|
  {
    if reqs.Keys == {} then []
    else
      var k := MinOf(reqs.Keys);
      [Call(reqs[k].callback, ErrorArg(error))] + CancelCalls(reqs - {k}, error)
  }

  /** One round of cancelRequests' loop in terms of the calls made so far:
      calling back the least id and cancelling the rest is cancelling all. */
  lemma CancelCallsStep(done: seq<Call>, reqs: map<int, Req>, id: int, error: Error)
    requires reqs.Keys != {} && id == MinOf(reqs.Keys)
    ensures (done + [Call(reqs[id].callback, ErrorArg(error))]) + CancelCalls(reqs - {id}, error)
            == done + CancelCalls(reqs, error)
  {
    var c := Call(reqs[id].callback, ErrorArg(error));
    assert CancelCalls(reqs, error) == [c] + CancelCalls(reqs - {id}, error);
    assert (done + [c]) + CancelCalls(reqs - {id}, error) == done + ([c] + CancelCalls(reqs - {id}, error));
  }

  /** cancelRequests calls each pending request's callback exactly once:
      the i-th call goes to the request with the i-th smallest id. */
  lemma {:induction false} CancelCallsSpec(reqs: map<int, Req>, error: Error)
    ensures var ks := Ascending(reqs.Keys);
      && |CancelCalls(reqs, error)| == |ks|
      && forall i :: 0 <= i < |ks| ==> ks[i] in reqs && CancelCalls(reqs, error)[i] == Call(reqs[ks[i]].callback, ErrorArg(error))
    decreases |reqs.Keys|
  {
    var ks := Ascending(reqs.Keys);
    AscendingSpec(reqs.Keys);
    if reqs.Keys != {} {
      var k := MinOf(reqs.Keys);
      var rest := reqs - {k};
      assert rest.Keys == reqs.Keys - {k};
      CancelCallsSpec(rest, error);
      var later := Ascending(rest.Keys);
      var cs := CancelCalls(rest, error);
      assert ks == [k] + later;
      assert CancelCalls(reqs, error) == [Call(reqs[k].callback, ErrorArg(error))] + cs;
      forall i | 1 <= i < |ks|
        ensures ks[i] in reqs && CancelCalls(reqs, error)[i] == Call(reqs[ks[i]].callback, ErrorArg(error))
      {
        assert ks[i] == later[i - 1] && later[i - 1] in rest;
        assert rest[ks[i]] == reqs[ks[i]];
      }
    }
  }

  // ---------------------------------------------------------------------
  // Requests and the session
  // ---------------------------------------------------------------------

  /** A pending request: its message (whose id it is registered under),
      the feed and caller's callback, the port it goes to, the retries it
      has left and, for a discovery request, the PDU to send once the
      engine is known. `sends` counts the datagrams sent for it. */
  class Req {
    const message: M.Message
    const id: Option<int>
    const kind: Option<FeedKind>
    const callback: nat
    const port: int
    var retries: int
    var timerArmed: bool
    var originalPdu: Option<Pdu>
    ghost const budget: int
    ghost var sends: nat

    /** The datagrams sent so far plus the retries left never exceed one
        first send plus the retries the request started with. */
    ghost predicate WithinBudget()
      reads this
    {
      sends + Max0(retries) <= 1 + Max0(budget)
    }

    /** new Req: the retries are the session's; the caller has settled the
        port. */
    constructor (message: M.Message, kind: Option<FeedKind>, callback: nat, port: int, retries: int)
      requires message.Valid()
      ensures this.message == message && id == message.ReqId() && this.kind == kind
      ensures this.callback == callback && this.port == port && this.retries == retries
      ensures !timerArmed && originalPdu.None? && sends == 0 && budget == retries
      ensures WithinBudget()
    {
      this.message := message;
      id := message.ReqId();
      this.kind := kind;
      this.callback := callback;
      this.port := port;
      this.retries := retries;
      timerArmed := false;
      originalPdu := None;
      budget := retries;
      sends := 0;
    }
  }

  /** What toBuffer returns for a message: the cached octets if there are
      any, a fresh serialization otherwise. */
  ghost function Serialized(m: M.Message, env: M.Env, processUptime: int, random: seq<byte>): Result<seq<byte>>
    reads m, m.buffer
    requires m.Valid() && |random| == 4
  {
    if m.buffer != null then Ok(m.buffer[..])
    else if m.version == Version3 then
      M.SerializeV3(m.globalData.value, m.securityParameters.value, m.user.value, m.pdu, env,
                    processUptime, random).0
    else M.SerializeCommunity(m.version, m.community.value, m.pdu, env, processUptime)
  }

  /** toBuffer, as the octets handed to the socket. */
  method ToBytes(m: M.Message, env: M.Env, processUptime: int, random: seq<byte>) returns (r: Result<seq<byte>>)
    requires m.Valid() && |random| == 4
    modifies m
    ensures r == old(Serialized(m, env, processUptime, random))
    ensures m.Valid() && m.version == old(m.version) && m.community == old(m.community) && m.pdu == old(m.pdu)
    ensures m.user == old(m.user) && m.globalData == old(m.globalData)
    ensures m.securityParameters == old(m.securityParameters)
  {
    var b := m.ToBuffer(env, processUptime, random);
    if b.Err? {
      return Err(b.error);
    }
    return Ok(b.value[..]);
  }

  lemma KeyRemoved(m: map<int, Req>, id: int)
    requires id in m
    ensures |m - {id}| == |m| - 1
  {
    assert m.Keys == (m - {id}).Keys + {id};
  }

  /** The table after registerRequest: a request goes in under its id
      unless that id is taken. */
  function Registered(reqs: map<int, Req>, req: Req): map<int, Req>
    requires req.id.Some?
  {
    if req.id.value in reqs then reqs else reqs[req.id.value := req]
  }

  /** The octets of a fresh v3 request (createRequestV3) from `user`
      under `msgID`, with the given engine fields. */
  ghost function V3Octets(user: M.User, engineID: seq<byte>, engineBoots: int, engineTime: int, pdu: Pdu,
                          msgID: int, env: M.Env, processUptime: int, random: seq<byte>): Result<seq<byte>>
    requires |random| == 4
  {
    M.SerializeV3(M.GlobalData(msgID, M.MsgMaxSize, M.MsgFlags(user.level), M.UsmSecurityModel),
                  M.SecurityParameters(engineID, engineBoots, engineTime, user.name, [], []),
                  user, pdu, env, processUptime, random).0
  }

  /** The empty noAuthNoPriv user of createDiscoveryV3. */
  const DiscoveryUser: M.User := M.User("", M.NoAuthNoPriv, None, [], None, [], None)

  /** The ids a new request draws from _generateId: the PDU's request id,
      and for a v3 session the discovery PDU's id and the discovery
      message's msgID. */
  datatype Draws = Draws(id: int, discoveryId: int, discoveryMsgId: int)

  /** The PDU trap builds from copies of the caller's varbinds: a v2c or
      v3 session sends a TrapV2 PDU under the drawn id, with sysUpTime.0 and
      snmpTrapOID.0 before the copies; any other version sends a v1 trap
      PDU, which fails when the trap OID cannot be split into enterprise and
      specific code. */
  function TrapPduFor(version: int, t: TrapId, varbinds: seq<RequestVarbind>, agentAddr: Option<string>,
                      upTime: Option<int>, id: int, processUptime: int): (r: Result<Pdu>)
    ensures version == Version2c || version == Version3 ==>
      && r.Ok? && r.value.SimplePdu? && r.value.typ == TrapV2 && r.value.id == id
      && |r.value.varbinds| == |varbinds| + 2 && r.value.varbinds[2..] == CopyVarbinds(varbinds)
    ensures version != Version2c && version != Version3 ==>
      (r.Ok? <==> DeriveTrapFields(t).Ok?) && (r.Ok? ==> r.value.TrapPdu? && r.value.varbinds == CopyVarbinds(varbinds))
  {
    if version == Version2c || version == Version3 then
      Ok(SimplePdu(TrapV2, id, NotificationVarbinds(t, upTime, processUptime, CopyVarbinds(varbinds)), None, None))
    else MakeTrapPdu(t, CopyVarbinds(varbinds), agentAddr, upTime)
  }

  /** The engine ID a trap is sent to: the user's, or the empty buffer. */
  function EngineIdOf(user: M.User): seq<byte>
  {
    if user.engineID.Some? then user.engineID.value else []
  }

  /** What a session has recorded: its table of pending requests, the
      callbacks made, the errors emitted, the datagrams sent, and whether a
      handler has entered a loop that does not end. */
  datatype Record = Record(reqs: map<int, Req>, calls: seq<Call>, errors: seq<Error>, sent: seq<Packet>, hung: bool)

  class Session {
    const version: int
    const community: string
    const user: Option<M.User>
    const port: int
    const trapPort: int
    const retries: int
    var reqs: map<int, Req>
    var reqCount: int
    var calls: seq<Call>
    var errors: seq<Error>
    var sent: seq<Packet>
    var hung: bool

    /** The table and the logs as they stand. */
    function Rec(): Record
      reads this
    {
      Record(reqs, calls, errors, sent, hung)
    }

    /** reqCount counts the table, every request is registered under its
        own id, and every registered request has a feed. */
    predicate Valid()
      reads this
    {
      && reqCount == |reqs|
      && forall k :: k in reqs ==> reqs[k].id == Some(k) && reqs[k].kind.Some?
    }

    /** A session with its options settled: no pending request, nothing
        sent, called or emitted yet. */
    constructor (version: int, community: string, user: Option<M.User>, port: int, trapPort: int, retries: int)
      ensures Valid() && reqs == map[] && calls == [] && errors == [] && sent == [] && !hung
      ensures this.version == version && this.community == community && this.user == user
      ensures this.port == port && this.trapPort == trapPort && this.retries == retries
    {
      this.version := version;
      this.community := community;
      this.user := user;
      this.port := port;
      this.trapPort := trapPort;
      this.retries := retries;
      reqs := map[];
      reqCount := 0;
      calls := [];
      errors := [];
      sent := [];
      hung := false;
    }

    /** The effect of send on the session's records, given what toBuffer
        returned: a serialization error goes to the callback; otherwise the
        datagram is sent, and then a socket error goes to the callback, a
        message sent without waiting gets a bare `null`, and a request
        waiting for its response is registered with its timer running. */
    ghost predicate SendEffect(before: Record, req: Req, noWait: bool, sendError: Option<Error>,
                               payload: Result<seq<byte>>)
      reads this, req
    {
      && errors == before.errors && hung == before.hung
      && (payload.Err? ==>
            sent == before.sent && reqs == before.reqs && calls == before.calls + [Call(req.callback, ErrorArg(payload.error))])
      && (payload.Ok? ==> sent == before.sent + [Packet(payload.value, req.port)])
      && (payload.Ok? && sendError.Some? ==>
            reqs == before.reqs && calls == before.calls + [Call(req.callback, ErrorArg(sendError.value))])
      && (payload.Ok? && sendError.None? && noWait ==>
            reqs == before.reqs && calls == before.calls + [Call(req.callback, NullArg)])
      && (payload.Ok? && sendError.None? && !noWait ==>
            req.id.Some? && req.timerArmed && reqs == Registered(before.reqs, req) && calls == before.calls)
    }

    /** registerRequest: the request goes into the table unless its id is
        taken, and its timer is started either way. */
    method RegisterRequest(req: Req)
      requires Valid() && req.id.Some? && req.kind.Some?
      modifies this, req
      ensures Valid() && reqs == Registered(old(reqs), req)
      ensures req.timerArmed && req.retries == old(req.retries) && req.sends == old(req.sends)
      ensures req.originalPdu == old(req.originalPdu)
      ensures calls == old(calls) && errors == old(errors) && sent == old(sent) && hung == old(hung)
    {
      var id := req.id.value;
      if id !in reqs {
        reqs := reqs[id := req];
        reqCount := reqCount + 1;
      }
      req.timerArmed := true;
    }

    /** unregisterRequest: remove the request registered under the id, if
        any, and stop its timer. */
    method UnregisterRequest(id: int) returns (r: Option<Req>)
      requires Valid()
      modifies this, (if id in reqs then {reqs[id]} else {})`timerArmed
      ensures Valid() && reqs == old(reqs) - {id}
      ensures r == if id in old(reqs) then Some(old(reqs)[id]) else None
      ensures r.Some? ==> !r.value.timerArmed
      ensures calls == old(calls) && errors == old(errors) && sent == old(sent) && hung == old(hung)
    {
      if id in reqs {
        var req := reqs[id];
        KeyRemoved(reqs, id);
        reqs := reqs - {id};
        req.timerArmed := false;
        reqCount := reqCount - 1;
        return Some(req);
      }
      return None;
    }

    /** One round of cancelRequests' loop: the request under the id is
        removed, its timer stopped and its callback called with the error. */
    method CancelOne(error: Error, id: int)
      requires Valid() && id in reqs
      modifies this, reqs[id]
      ensures Valid() && reqs == old(reqs) - {id} && !old(reqs)[id].timerArmed
      ensures calls == old(calls) + [Call(old(reqs)[id].callback, ErrorArg(error))]
      ensures errors == old(errors) && sent == old(sent) && hung == old(hung)
    {
      var req := reqs[id];
      var removed := UnregisterRequest(id);
      calls := calls + [Call(req.callback, ErrorArg(error))];
    }

    /** One round of cancelRequests' loop, on the least pending id: what
        is still to be cancelled after it, called back after the calls made
        so far, is what was to be cancelled before it. */
    method CancelLeast(error: Error) returns (id: int)
      requires Valid() && reqs != map[]
      modifies this, reqs[MinOf(reqs.Keys)]
      ensures id == MinOf(old(reqs).Keys)
      ensures Valid() && reqs == old(reqs) - {id} && !old(reqs)[id].timerArmed
      ensures calls + CancelCalls(reqs, error) == old(calls) + CancelCalls(old(reqs), error)
      ensures errors == old(errors) && sent == old(sent) && hung == old(hung)
    {
      assert reqs.Keys != {} by {
        assert MinOf(reqs.Keys) in reqs.Keys;
      }
      id :| id in reqs && forall x :: x in reqs ==> id <= x by {
        MinOfIsLeast(reqs.Keys);
      }
      LeastIsMinOf(reqs.Keys, id);
      CancelCallsStep(calls, reqs, id, error);
      CancelOne(error, id);
    }

    /** cancelRequests: every pending request is removed and its callback
        called with the error, in ascending id order. */
    method CancelRequests(error: Error)
      requires Valid()
      modifies this, reqs.Values
      ensures Valid() && reqs == map[]
      ensures calls == old(calls) + CancelCalls(old(reqs), error)
      ensures errors == old(errors) && sent == old(sent) && hung == old(hung)
      ensures forall r :: r in old(reqs).Values ==> !r.timerArmed
    {
      while reqs.Keys != {}
        invariant Valid()
        invariant forall k :: k in reqs ==> k in old(reqs) && reqs[k] == old(reqs)[k]
        invariant calls + CancelCalls(reqs, error) == old(calls) + CancelCalls(old(reqs), error)
        invariant errors == old(errors) && sent == old(sent) && hung == old(hung)
        invariant forall k :: k in old(reqs) && k !in reqs ==> !old(reqs)[k].timerArmed
        decreases |reqs.Keys|
      {
        ghost var before := reqs;
        var id := CancelLeast(error);
        assert reqs.Keys == before.Keys - {id};
      }
      assert reqs == map[];
      forall r | r in old(reqs).Values
        ensures !r.timerArmed
      {
        var k :| k in old(reqs) && old(reqs)[k] == r;
      }
    }

    /** onClose: the socket closed under the pending requests. */
    method OnClose()
      requires Valid()
      modifies this, reqs.Values
      ensures Valid() && reqs == map[]
      ensures calls == old(calls) + CancelCalls(old(reqs), PlainError("Socket forcibly closed"))
      ensures errors == old(errors) && sent == old(sent) && hung == old(hung)
    {
      CancelRequests(PlainError("Socket forcibly closed"));
    }

    /** send: serialize (or reuse the cached octets) and hand the datagram
        to the socket. */
    method Send(req: Req, noWait: bool, sendError: Option<Error>, env: M.Env, processUptime: int,
                random: seq<byte>) returns (ghost payload: Result<seq<byte>>)
      requires Valid() && req.message.Valid() && |random| == 4
      requires !noWait ==> req.id.Some? && req.kind.Some?
      requires req.sends + 1 + Max0(req.retries) <= 1 + Max0(req.budget)
      modifies this, req, req.message
      ensures Valid() && req.message.Valid() && SendEffect(old(Rec()), req, noWait, sendError, payload)
      ensures req.sends == old(req.sends) + (if payload.Ok? then 1 else 0) && req.WithinBudget()
      ensures req.retries == old(req.retries) && req.originalPdu == old(req.originalPdu)
      ensures !(payload.Ok? && sendError.None? && !noWait) ==> req.timerArmed == old(req.timerArmed)
      ensures payload == old(Serialized(req.message, env, processUptime, random))
    {
      var r := ToBytes(req.message, env, processUptime, random);
      payload := r;
      if r.Err? {
        calls := calls + [Call(req.callback, ErrorArg(r.error))];
        return;
      }
      sent := sent + [Packet(r.value, req.port)];
      req.sends := req.sends + 1;
      if sendError.Some? {
        calls := calls + [Call(req.callback, ErrorArg(sendError.value))];
      } else if noWait {
        calls := calls + [Call(req.callback, NullArg)];
      } else {
        RegisterRequest(req);
      }
    }

    /** The timer of a request fires, and so is no longer armed: while
        retries remain the request is sent again, which arms a new timer only
        when it is registered again; otherwise it is removed and fails with a
        timeout. Either way a request is never sent more than once plus its
        retries, and a timer that has fired fires again only after a
        successful resend. */
    method Timeout(req: Req, sendError: Option<Error>, env: M.Env, processUptime: int, random: seq<byte>)
      returns (ghost payload: Result<seq<byte>>)
      requires Valid() && req.timerArmed && req.message.Valid() && req.WithinBudget() && |random| == 4
      requires req.id.Some? && req.kind.Some?
      modifies this, req, req.message, reqs.Values
      ensures Valid() && req.retries == old(req.retries) - 1 && req.WithinBudget()
      ensures old(req.retries) <= 0 ==>
        && calls == old(calls) + [Call(req.callback, ErrorArg(RequestTimedOutError("Request timed out")))]
        && reqs == old(reqs) - {req.id.value}
        && sent == old(sent) && errors == old(errors) && hung == old(hung) && req.sends == old(req.sends)
        && !req.timerArmed
      ensures old(req.retries) > 0 ==>
        && payload == old(Serialized(req.message, env, processUptime, random))
        && SendEffect(old(Rec()), req, false, sendError, payload)
        && req.sends == old(req.sends) + (if payload.Ok? then 1 else 0)
        && (req.timerArmed <==> payload.Ok? && sendError.None?)
    {
      req.timerArmed := false;
      var left := req.retries;
      req.retries := req.retries - 1;
      if left > 0 {
        payload := Send(req, false, sendError, env, processUptime, random);
      } else {
        payload := Ok([]);
        Expire(req);
      }
    }

    /** The timeout with no retries left: the request registered under the
        id is removed and `req`'s callback gets "Request timed out". */
    method Expire(req: Req)
      requires Valid() && req.id.Some? && !req.timerArmed
      modifies this, reqs.Values
      ensures Valid() && reqs == old(reqs) - {req.id.value}
      ensures calls == old(calls) + [Call(req.callback, ErrorArg(RequestTimedOutError("Request timed out")))]
      ensures sent == old(sent) && errors == old(errors) && hung == old(hung)
      ensures !req.timerArmed && req.sends == old(req.sends) && req.retries == old(req.retries)
    {
      var id := req.id.value;
      if id in reqs {
        assert reqs[id] in reqs.Values;
      }
      var _ := UnregisterRequest(id);
      calls := calls + [Call(req.callback, ErrorArg(RequestTimedOutError("Request timed out")))];
    }

    /** The records after onMsg carried out a verdict on `req` from
        `before`: an error emitted on the session, the calls of the
        request's callback made, or the original PDU sent as `next`. */
    ghost predicate Carried(before: Record, req: Req, v: Verdict, next: Req?, sendError: Option<Error>,
                            payload: Result<seq<byte>>)
      reads this, next
    {
      match v
      case Emit(e) => Rec() == before.(errors := before.errors + [e])
      case Answer(o) =>
        Rec() == before.(calls := before.calls + CallsOf(req.callback, o.calls), hung := before.hung || !o.halts)
      case Resend(_, _, _) => next != null && SendEffect(before, next, false, sendError, payload)
    }

    /** The request sent for a discovery request's original PDU: a v3
        request from the session's user under a new msgID, with the engine
        fields of the report, the same feed, callback and port, and the
        session's retries. */
    ghost predicate Resends(req: Req, v: Verdict, msgID: int, next: Req, payload: Result<seq<byte>>,
                            env: M.Env, processUptime: int, random: seq<byte>)
      reads req, next
    {
      && v.Resend? && user.Some? && req.originalPdu.Some? && |random| == 4
      && next.id == Some(msgID) && next.kind == req.kind && next.callback == req.callback
      && next.port == ReqPort(Some(req.port), port) && next.originalPdu.None? && next.retries == retries
      && payload == V3Octets(user.value, v.engineID, v.engineBoots, v.engineTime, req.originalPdu.value, msgID,
                             env, processUptime, random)
    }

    /** Carry out an emit or an answer. */
    method Conclude(req: Req, v: Verdict)
      requires !v.Resend?
      modifies this
      ensures Carried(old(Rec()), req, v, null, None, Ok([]))
      ensures reqCount == old(reqCount)
    {
      match v
      case Emit(e) =>
        errors := errors + [e];
      case Answer(o) =>
        calls := calls + CallsOf(req.callback, o.calls);
        hung := hung || !o.halts;
    }

    /** The report branch of onMsg: send the original PDU again. */
    method SendOriginal(req: Req, v: Verdict, msgID: int, sendError: Option<Error>, env: M.Env,
                        processUptime: int, random: seq<byte>) returns (next: Req, ghost payload: Result<seq<byte>>)
      requires Valid() && v.Resend? && user.Some? && req.kind.Some? && req.originalPdu.Some? && |random| == 4
      modifies this
      ensures Valid() && fresh(next) && Carried(old(Rec()), req, v, next, sendError, payload)
      ensures Resends(req, v, msgID, next, payload, env, processUptime, random)
    {
      var message := new M.Message.CreateRequestV3(user.value, Some(v.engineID), Some(v.engineBoots),
                                                   Some(v.engineTime), req.originalPdu.value, msgID);
      next := new Req(message, req.kind, req.callback, ReqPort(Some(req.port), port), retries);
      payload := Send(next, false, sendError, env, processUptime, random);
    }

    /** The inner try of onMsg, for a message that passed the
        authentication check: a response of the request's version and
        community goes through onSimpleGetResponse; a report is answered or
        resent, anything else fails the request. */
    method Respond(req: Req, msg: M.Received, msgID: int, sendError: Option<Error>, env: M.Env,
                   processUptime: int, random: seq<byte>) returns (next: Req?, ghost payload: Result<seq<byte>>)
      requires Valid() && req.kind.Some? && |random| == 4
      modifies this
      ensures Valid()
      ensures var v := Dispatch(req.message.version, req.message.community, req.kind.value, ReqOids(req.message.pdu),
                                req.originalPdu, user, msg);
        && Carried(old(Rec()), req, v, next, sendError, payload)
        && (v.Resend? ==> next != null && fresh(next) && Resends(req, v, msgID, next, payload, env, processUptime, random))
    {
      if msg.version == req.message.version && msg.community == req.message.community && msg.pdu.typ == GetResponse {
        var o := SimpleGetResponse(req.kind.value, ReqOids(req.message.pdu), msg.pdu);
        Conclude(req, Answer(o));
        return null, Ok([]);
      }
      var v := Dispatch(req.message.version, req.message.community, req.kind.value, ReqOids(req.message.pdu),
                        req.originalPdu, user, msg);
      if v.Resend? {
        next, payload := SendOriginal(req, v, msgID, sendError, env, processUptime, random);
      } else {
        Conclude(req, v);
        return null, Ok([]);
      }
    }

    /** The user of the request registered under a msgID, which decrypts
        an encrypted response: None when no request is registered under it. */
    function PendingUser(msgID: int): Option<Option<M.User>>
      reads this, set r | r in reqs.Values :: r.message
    {
      if msgID in reqs then Some(reqs[msgID].message.user) else None
    }

    /** The pending user a received message is parsed with. */
    function PendingFor(w: M.WireMessage): Option<Option<M.User>>
      reads this, set r | r in reqs.Values :: r.message
    {
      if w.body.V3Body? then PendingUser(w.body.globalData.msgID) else None
    }

    /** The whole decision of onMsg for a message that answers `req`. */
    function Decide(buf: seq<byte>, req: Req, msg: M.Received): Verdict
      reads req`originalPdu, req.message
      requires req.kind.Some?
    {
      var a := AuthVerdict(buf, user, msg);
      if a.Some? then a.value
      else Dispatch(req.message.version, req.message.community, req.kind.value, ReqOids(req.message.pdu),
                    req.originalPdu, user, msg)
    }

    /** onMsg once the request is found: the authentication check, then
        the inner try. */
    method Handle(req: Req, msg: M.Received, buffer: array<byte>, msgID: int, sendError: Option<Error>,
                  env: M.Env, processUptime: int, random: seq<byte>) returns (next: Req?, ghost payload: Result<seq<byte>>)
      requires Valid() && req.kind.Some? && |random| == 4
      modifies this, buffer
      ensures Valid()
      ensures var v := Decide(old(buffer[..]), req, msg);
        && Carried(old(Rec()), req, v, next, sendError, payload)
        && (v.Resend? ==> next != null && fresh(next) && Resends(req, v, msgID, next, payload, env, processUptime, random))
    {
      var auth := CheckAuthentication(buffer, user, msg);
      if auth.Some? {
        Conclude(req, auth.value);
        return null, Ok([]);
      }
      next, payload := Respond(req, msg, msgID, sendError, env, processUptime, random);
    }

    /** onMsg after the message was read: a message whose request id is
        not pending is dropped; otherwise its request is removed from the
        table, its timer stopped, and the verdict on it carried out. */
    method Deliver(msg: M.Received, buffer: array<byte>, msgID: int, sendError: Option<Error>, env: M.Env,
                   processUptime: int, random: seq<byte>) returns (next: Req?, ghost payload: Result<seq<byte>>)
      requires Valid() && |random| == 4
      modifies this, buffer, reqs.Values
      ensures Valid()
      ensures msg.ReqId() !in old(reqs) ==> Rec() == old(Rec())
      ensures msg.ReqId() in old(reqs) ==>
        var id := msg.ReqId();
        var req := old(reqs)[id];
        var v := Decide(old(buffer[..]), req, msg);
        && !req.timerArmed
        && Carried(old(Rec()).(reqs := old(reqs) - {id}), req, v, next, sendError, payload)
        && (v.Resend? ==> next != null && fresh(next) && Resends(req, v, msgID, next, payload, env, processUptime, random))
    {
      var id := msg.ReqId();
      if id !in reqs {
        return null, Ok([]);
      }
      var req := reqs[id];
      assert req in reqs.Values;
      ghost var rest := old(Rec()).(reqs := old(reqs) - {id});
      var _ := UnregisterRequest(id);
      assert Rec() == rest;
      next, payload := Handle(req, msg, buffer, msgID, sendError, env, processUptime, random);
    }

    /** onMsg: a datagram arrives. A message that cannot be read is
        emitted as an error on the session; one that can is delivered.
        `msgID` is the id a resent original PDU is given. */
    method OnMsg(w: M.WireMessage, buffer: array<byte>, msgID: int, sendError: Option<Error>, env: M.Env,
                 processUptime: int, random: seq<byte>) returns (next: Req?, ghost payload: Result<seq<byte>>)
      requires Valid() && |random| == 4
      modifies this, buffer, reqs.Values
      ensures Valid()
      ensures var parsed := M.ParseMessage(w, old(PendingFor(w)), env);
        && (parsed.Err? ==> Rec() == old(Rec()).(errors := old(errors) + [parsed.error]))
        && (parsed.Ok? && parsed.value.ReqId() !in old(reqs) ==> Rec() == old(Rec()))
        && (parsed.Ok? && parsed.value.ReqId() in old(reqs) ==>
              var id := parsed.value.ReqId();
              var req := old(reqs)[id];
              var v := Decide(old(buffer[..]), req, parsed.value);
              && !req.timerArmed
              && Carried(old(Rec()).(reqs := old(reqs) - {id}), req, v, next, sendError, payload)
              && (v.Resend? ==> next != null && fresh(next) && Resends(req, v, msgID, next, payload, env, processUptime, random)))
    {
      var parsed := M.ParseMessage(w, PendingFor(w), env);
      if parsed.Err? {
        errors := errors + [parsed.error];
        return null, Ok([]);
      }
      next, payload := Deliver(parsed.value, buffer, msgID, sendError, env, processUptime, random);
    }

    /** The request simpleGet sends for `pdu`, which waits for its
        response with the operation's feed. A v3 session sends a discovery
        request first: an empty get from the empty user to the empty engine
        ID, holding the PDU as the original to send once a report names the
        engine. Any other session sends the PDU in a community message. */
    ghost predicate Requested(req: Req, kind: FeedKind, pdu: Pdu, reqPort: int, callback: nat, draws: Draws,
                              payload: Result<seq<byte>>, env: M.Env, processUptime: int, random: seq<byte>)
      reads req
    {
      && req.kind == Some(kind) && req.callback == callback && req.port == reqPort && req.retries == retries
      && |random| == 4
      && if version == Version3 then
           && req.id == Some(draws.discoveryMsgId) && req.originalPdu == Some(pdu)
           && payload == V3Octets(DiscoveryUser, [], 0, 0, SimplePdu(GetRequest, draws.discoveryId, [], None, None),
                                  draws.discoveryMsgId, env, processUptime, random)
         else
           && pdu.SimplePdu? && req.id == Some(pdu.id) && req.originalPdu.None?
           && payload == M.SerializeCommunity(version, community, pdu, env, processUptime)
    }

    /** simpleGet. */
    method SimpleGet(kind: FeedKind, pdu: Pdu, reqPort: int, callback: nat, draws: Draws, sendError: Option<Error>,
                     env: M.Env, processUptime: int, random: seq<byte>) returns (req: Req, ghost payload: Result<seq<byte>>)
      requires Valid() && pdu.SimplePdu? && pdu.id == draws.id && |random| == 4
      modifies this
      ensures Valid() && fresh(req) && SendEffect(old(Rec()), req, false, sendError, payload)
      ensures Requested(req, kind, pdu, reqPort, callback, draws, payload, env, processUptime, random)
    {
      if version == Version3 {
        var discoveryPdu := SimplePdu(GetRequest, draws.discoveryId, [], None, None);
        var discovery := new M.Message.CreateDiscoveryV3(discoveryPdu, draws.discoveryMsgId);
        req := new Req(discovery, Some(kind), callback, reqPort, retries);
        req.originalPdu := Some(pdu);
      } else {
        var message := new M.Message.CreateRequestCommunity(version, community, pdu);
        req := new Req(message, Some(kind), callback, reqPort, retries);
      }
      payload := Send(req, false, sendError, env, processUptime, random);
    }

    /** get: a GetRequest with a null varbind per OID, answered
        through the get feed. */
    method Get(oids: seq<string>, callback: nat, draws: Draws, sendError: Option<Error>, env: M.Env,
              processUptime: int, random: seq<byte>) returns (req: Req, ghost payload: Result<seq<byte>>)
      requires Valid() && |random| == 4
      modifies this
      ensures Valid() && fresh(req) && SendEffect(old(Rec()), req, false, sendError, payload)
      ensures Requested(req, GetKind, SimplePdu(GetRequest, draws.id, OidVarbinds(oids), None, None),
                        port, callback, draws, payload, env, processUptime, random)
    {
      req, payload := SimpleGet(GetKind, SimplePdu(GetRequest, draws.id, OidVarbinds(oids), None, None),
                                port, callback, draws, sendError, env, processUptime, random);
    }

    /** set: a SetRequest with copies of the caller's varbinds, answered
        through the set feed. */
    method Set(varbinds: seq<RequestVarbind>, callback: nat, draws: Draws, sendError: Option<Error>, env: M.Env,
              processUptime: int, random: seq<byte>) returns (req: Req, ghost payload: Result<seq<byte>>)
      requires Valid() && |random| == 4
      modifies this
      ensures Valid() && fresh(req) && SendEffect(old(Rec()), req, false, sendError, payload)
      ensures Requested(req, SetKind, SimplePdu(SetRequest, draws.id, CopyVarbinds(varbinds), None, None),
                        port, callback, draws, payload, env, processUptime, random)
    {
      req, payload := SimpleGet(SetKind, SimplePdu(SetRequest, draws.id, CopyVarbinds(varbinds), None, None),
                                port, callback, draws, sendError, env, processUptime, random);
    }

    /** getNext: a GetNextRequest with a null varbind per OID, answered
        through the getNext feed. */
    method GetNext(oids: seq<string>, callback: nat, draws: Draws, sendError: Option<Error>, env: M.Env,
              processUptime: int, random: seq<byte>) returns (req: Req, ghost payload: Result<seq<byte>>)
      requires Valid() && |random| == 4
      modifies this
      ensures Valid() && fresh(req) && SendEffect(old(Rec()), req, false, sendError, payload)
      ensures Requested(req, GetNextKind, SimplePdu(GetNextRequest, draws.id, OidVarbinds(oids), None, None),
                        port, callback, draws, payload, env, processUptime, random)
    {
      req, payload := SimpleGet(GetNextKind, SimplePdu(GetNextRequest, draws.id, OidVarbinds(oids), None, None),
                                port, callback, draws, sendError, env, processUptime, random);
    }

    /** getBulk: a GetBulkRequest carrying nonRepeaters and
        maxRepetitions, answered through the getBulk feed with the same
        nonRepeaters. */
    method GetBulk(oids: seq<string>, nonRepeaters: nat, maxRepetitions: int, callback: nat, draws: Draws, sendError: Option<Error>, env: M.Env,
              processUptime: int, random: seq<byte>) returns (req: Req, ghost payload: Result<seq<byte>>)
      requires Valid() && |random| == 4
      modifies this
      ensures Valid() && fresh(req) && SendEffect(old(Rec()), req, false, sendError, payload)
      ensures Requested(req, GetBulkKind(nonRepeaters), SimplePdu(GetBulkRequest, draws.id, OidVarbinds(oids), Some(nonRepeaters), Some(maxRepetitions)),
                        port, callback, draws, payload, env, processUptime, random)
    {
      req, payload := SimpleGet(GetBulkKind(nonRepeaters), SimplePdu(GetBulkRequest, draws.id, OidVarbinds(oids), Some(nonRepeaters), Some(maxRepetitions)),
                                port, callback, draws, sendError, env, processUptime, random);
    }

    /** inform: an InformRequest to the trap port whose varbinds are
        sysUpTime.0, snmpTrapOID.0 and copies of the caller's, answered
        through the inform feed. */
    method Inform(t: TrapId, varbinds: seq<RequestVarbind>, upTime: Option<int>, callback: nat, draws: Draws, sendError: Option<Error>, env: M.Env,
              processUptime: int, random: seq<byte>) returns (req: Req, ghost payload: Result<seq<byte>>)
      requires Valid() && |random| == 4
      modifies this
      ensures Valid() && fresh(req) && SendEffect(old(Rec()), req, false, sendError, payload)
      ensures Requested(req, InformKind, SimplePdu(InformRequest, draws.id, NotificationVarbinds(t, upTime, processUptime, CopyVarbinds(varbinds)), None, None),
                        ReqPort(Some(trapPort), port), callback, draws, payload, env, processUptime, random)
    {
      req, payload := SimpleGet(InformKind, SimplePdu(InformRequest, draws.id, NotificationVarbinds(t, upTime, processUptime, CopyVarbinds(varbinds)), None, None),
                                ReqPort(Some(trapPort), port), callback, draws, sendError, env, processUptime, random);
    }

    /** trap: a notification sent to the trap port without waiting for a
        response; once it is sent the callback gets a bare null. A trap OID
        a v1 trap PDU cannot use, or a v3 session without a user, throws
        before the request exists: nothing is sent and no callback made. */
    method Trap(t: TrapId, varbinds: seq<RequestVarbind>, agentAddr: Option<string>, upTime: Option<int>,
                callback: nat, id: int, msgID: int, sendError: Option<Error>, env: M.Env, processUptime: int,
                random: seq<byte>) returns (req: Req?, ghost payload: Result<seq<byte>>)
      requires Valid() && |random| == 4
      modifies this
      ensures Valid()
      ensures var pdu := TrapPduFor(version, t, varbinds, agentAddr, upTime, id, processUptime);
        if pdu.Err? || (version == Version3 && user.None?) then req == null && Rec() == old(Rec())
        else
          && req != null && fresh(req) && req.port == trapPort && req.callback == callback && req.kind.None?
          && SendEffect(old(Rec()), req, true, sendError, payload)
          && payload == if version == Version3
                        then V3Octets(user.value, EngineIdOf(user.value), 0, 0, pdu.value, msgID, env, processUptime, random)
                        else M.SerializeCommunity(version, community, pdu.value, env, processUptime)
    {
      var pdu := TrapPduFor(version, t, varbinds, agentAddr, upTime, id, processUptime);
      if pdu.Err? || (version == Version3 && user.None?) {
        return null, Ok([]);
      }
      var message: M.Message;
      if version == Version3 {
        message := new M.Message.CreateRequestV3(user.value, user.value.engineID, Some(0), Some(0), pdu.value, msgID);
      } else {
        message := new M.Message.CreateRequestCommunity(version, community, pdu.value);
      }
      req := new Req(message, None, callback, trapPort, 0);
      payload := Send(req, true, sendError, env, processUptime, random);
    }
  }
}
