/** The message envelope: community messages (v1, v2c) and v3 messages with
    their header, msgFlags and USM security parameters; the serialize-once
    buffer cache of a request message; and createResponse for a received
    message. */
module Message {
  import opened SnmpTypes
  import opened VarbindCodec
  import opened Pdu
  import opened Usm

  // UsmLevel
  const NoAuthNoPriv: int := 1
  const AuthNoPriv: int := 2
  const AuthPriv: int := 3

  const MsgMaxSize: int := 65507
  const UsmSecurityModel: int := 3

  /** A v3 user: the hash its authProtocol names (absent when it names
      none), its level, its passwords as octets, its privProtocol (absent
      when it has none), and the engine ID a trap is sent to (absent when
      the user has none). */
  datatype User = User(name: string, level: int, authProtocol: Option<HashFunction>,
                       authKey: seq<byte>, privProtocol: Option<string>, privKey: seq<byte>,
                       engineID: Option<seq<byte>>)

  /** msgGlobalData, the v3 HeaderData. */
  datatype GlobalData = GlobalData(msgID: int, msgMaxSize: int, msgFlags: byte, msgSecurityModel: int)

  /** msgSecurityParameters, the USM fields. */
  datatype SecurityParameters = SecurityParameters(
    engineID: seq<byte>, engineBoots: int, engineTime: int, userName: string,
    authParams: seq<byte>, privParams: seq<byte>)

  /** The BER writer's layout of whole messages, not looked into: a
      community message from version, community and PDU; a ScopedPDU from
      the context engine ID and the PDU; a v3 message from its header, its
      security parameters as written and its (possibly encrypted) ScopedPDU
      octets. */
  datatype Writer = Writer(
    community: (int, string, PduItems) -> seq<byte>,
    scopedPdu: (seq<byte>, PduItems) -> seq<byte>,
    v3: (GlobalData, SecurityParameters, seq<byte>) -> seq<byte>)

  /** The external libraries a message needs: the BER value codec, the
      message writer, DES-CBC, the other CBC ciphers crypto knows by name
      (None for a name it does not know), and the BER reader of a decrypted
      ScopedPDU. */
  datatype Env = Env(ber: Ber, writer: Writer, des: Cipher, ciphers: string -> Option<Cipher>,
                     readScopedPdu: seq<byte> -> Result<ResponseItems>)

  /** Looking up the CRYPTO_ALGORITHM of a user without authProtocol. */
  const NoAlgorithm: Error := TypeError("Cannot read property 'CRYPTO_ALGORITHM' of undefined")
  /** Buffer.fill at offset -1, when a placeholder is missing. */
  const OffsetOutOfRange: Error := ArgumentOutOfRange("offset")

  // ---------------------------------------------------------------------
  // msgFlags (section 6 of RFC 3412) and the request id
  // ---------------------------------------------------------------------

  /** reportableFlag * 4 | privFlag * 2 | authFlag: the three bits are
      disjoint, so the OR adds them. Every request is reportable. */
  function MsgFlags(level: int): byte
  {
    4 + (if level == AuthPriv then 2 else 0) + (if level == AuthNoPriv || level == AuthPriv then 1 else 0)
  }

  /** hasAuthentication: a header whose msgFlags is nonzero with bit 0 set. */
  predicate HasAuthentication(g: Option<GlobalData>)
  {
    g.Some? && g.value.msgFlags != 0 && g.value.msgFlags % 2 == 1
  }

  /** hasPrivacy: a header whose msgFlags is nonzero with bit 1 set. */
  predicate HasPrivacy(g: Option<GlobalData>)
  {
    g.Some? && g.value.msgFlags != 0 && (g.value.msgFlags / 2) % 2 == 1
  }

  /** The flags of a request read back as its level: authentication for
      authNoPriv and authPriv, privacy for authPriv only (so never privacy
      without authentication), and the reportable bit always. */
  lemma FlagsFromLevel(level: int, msgID: int)
    ensures var g := Some(GlobalData(msgID, MsgMaxSize, MsgFlags(level), UsmSecurityModel));
      && (HasAuthentication(g) <==> level == AuthNoPriv || level == AuthPriv)
      && (HasPrivacy(g) <==> level == AuthPriv)
      && (HasPrivacy(g) ==> HasAuthentication(g))
      && (MsgFlags(level) / 4) % 2 == 1 && MsgFlags(level) < 8
  {
  }

  // ---------------------------------------------------------------------
  // Serializing a request
  // ---------------------------------------------------------------------

  /** toBufferCommunity without a cached buffer: a PDU that cannot be
      written throws, and nothing is cached. */
  function SerializeCommunity(version: int, community: string, pdu: Pdu, env: Env, processUptime: int)
    : Result<seq<byte>>
  {
    var items :- EncodePdu(pdu, env.ber, processUptime);
    Ok(env.writer.community(version, community, items))
  }

  /** The security parameters as toBufferV3 writes them: the placeholders
      stand in for the parameters the flags call for. */
  function WrittenParameters(g: GlobalData, sec: SecurityParameters): (r: SecurityParameters)
    ensures r.authParams == if HasAuthentication(Some(g)) then AuthPlaceholder else sec.authParams
    ensures r.privParams == if HasPrivacy(Some(g)) then PrivPlaceholder else sec.privParams
    ensures r.engineID == sec.engineID && r.engineBoots == sec.engineBoots
      && r.engineTime == sec.engineTime && r.userName == sec.userName
  {
    sec.(authParams := if HasAuthentication(Some(g)) then AuthPlaceholder else sec.authParams,
         privParams := if HasPrivacy(Some(g)) then PrivPlaceholder else sec.privParams)
  }

  /** The v3 message laid out around its placeholders, with the salt that
      goes into the privacy placeholder (empty without privacy). The
      ScopedPDU is encrypted when the flags ask for privacy. */
  function LaidOutV3(g: GlobalData, sec: SecurityParameters, user: User, pdu: Pdu, env: Env,
                     processUptime: int, random: seq<byte>): Result<(seq<byte>, seq<byte>)>
    requires |random| == 4
  {
    var items :- EncodePdu(pdu, env.ber, processUptime);
    var scoped := env.writer.scopedPdu(sec.engineID, items);
    if HasPrivacy(Some(g)) then
      if user.authProtocol.None? then Err(NoAlgorithm)
      else
        var (encrypted, salt) := Encrypted(scoped, env.des, user.authProtocol.value, user.privKey, sec.engineID, random);
        Ok((env.writer.v3(g, WrittenParameters(g, sec), encrypted), salt))
    else Ok((env.writer.v3(g, WrittenParameters(g, sec), scoped), []))
  }

  /** The authentication patch of the cached buffer: its result, and what
      the cache then holds. Without an authProtocol the field is zeroed
      before the digest throws. */
  function AuthStage(buf: seq<byte>, user: User, engineID: seq<byte>): (Result<seq<byte>>, Option<seq<byte>>)
  {
    if user.authProtocol.Some? then
      var p := AuthPatched(buf, user.authProtocol.value, user.authKey, engineID);
      (p, Some(if p.Ok? then p.value else buf))
    else
      var off := IndexOf(buf, AuthPlaceholder);
      if off < 0 then (Err(OffsetOutOfRange), Some(buf))
      else (Err(NoAlgorithm), Some(Zeroed(buf, off)))
  }

  /** The patches of a laid-out v3 buffer, privacy first: the result, and
      what the cache then holds. */
  function PatchedV3(buf: seq<byte>, salt: seq<byte>, g: GlobalData, user: User, engineID: seq<byte>)
    : (Result<seq<byte>>, Option<seq<byte>>)
  {
    var afterPriv := if HasPrivacy(Some(g)) then PrivPatched(buf, salt) else Ok(buf);
    if afterPriv.Err? then (Err(afterPriv.error), Some(buf))
    else if !HasAuthentication(Some(g)) then (afterPriv, Some(afterPriv.value))
    else AuthStage(afterPriv.value, user, engineID)
  }

  /** toBufferV3 without a cached buffer: the result, and what this.buffer
      holds afterwards. The buffer is cached as soon as it is laid out, so a
      patch that throws leaves the buffer as far as it got in the cache. */
  function SerializeV3(g: GlobalData, sec: SecurityParameters, user: User, pdu: Pdu, env: Env,
                       processUptime: int, random: seq<byte>): (Result<seq<byte>>, Option<seq<byte>>)
    requires |random| == 4
  {
    var laid := LaidOutV3(g, sec, user, pdu, env, processUptime, random);
    if laid.Err? then (Err(laid.error), None)
    else PatchedV3(laid.value.0, laid.value.1, g, user, sec.engineID)
  }

  /** What a successful serialization returns is what it caches; a failed
      one caches nothing exactly when the failure precedes the layout, and
      otherwise a buffer of the laid-out length. */
  lemma SerializeV3Caches(g: GlobalData, sec: SecurityParameters, user: User, pdu: Pdu, env: Env,
                          processUptime: int, random: seq<byte>)
    requires |random| == 4
    ensures var (r, cache) := SerializeV3(g, sec, user, pdu, env, processUptime, random);
      && (r.Ok? ==> cache == Some(r.value))
      && (cache.None? <==> LaidOutV3(g, sec, user, pdu, env, processUptime, random).Err?)
      && (cache.Some? ==> |cache.value| == |LaidOutV3(g, sec, user, pdu, env, processUptime, random).value.0|)
  {
  }

  /** A successful authentication patch checks as authentic under the same
      key, with the 12 octets at the placeholder's position as the received
      digest, unless those octets also occur earlier in the patched buffer. */
  lemma {:induction false} PatchedFieldIsAuthentic(buf: seq<byte>, h: HashFunction, password: seq<byte>,
                                                   engineID: seq<byte>)
    requires AuthPatched(buf, h, password, engineID).Ok?
    ensures var out := AuthPatched(buf, h, password, engineID).value;
      var off := IndexOf(buf, AuthPlaceholder);
      && 0 <= off && off + AuthCodeLength <= |out|
      && (IndexOf(out, out[off..off + AuthCodeLength]) == off ==>
          Authentic(out, h, password, engineID, out[off..off + AuthCodeLength]) == Ok(true))
  {
    var off := IndexOf(buf, AuthPlaceholder);
    var d := Digest(h, password, engineID, Zeroed(buf, off));
    var out := AuthPatched(buf, h, password, engineID).value;
    assert |d| == AuthCodeLength;
    assert out[off..off + AuthCodeLength] == d;
    if IndexOf(out, d) == off {
      PatchedIsAuthentic(buf, h, password, engineID);
    }
  }

  /** The buffer a v3 serialization hands to the authentication patch:
      laid out, privacy patched when the flags ask for it. */
  function PreAuthV3(g: GlobalData, sec: SecurityParameters, user: User, pdu: Pdu, env: Env,
                     processUptime: int, random: seq<byte>): Result<seq<byte>>
    requires |random| == 4
  {
    var (buf, salt) :- LaidOutV3(g, sec, user, pdu, env, processUptime, random);
    if HasPrivacy(Some(g)) then PrivPatched(buf, salt) else Ok(buf)
  }

  /** Round trip: a message serialized with authentication checks as
      authentic under the same user and engine ID, with the 12 octets where
      the placeholder was as the received digest, unless those octets also
      occur earlier in the message. */
  lemma SerializedV3IsAuthentic(g: GlobalData, sec: SecurityParameters, user: User,
                                pdu: Pdu, env: Env, processUptime: int, random: seq<byte>)
    requires |random| == 4 && HasAuthentication(Some(g))
    requires SerializeV3(g, sec, user, pdu, env, processUptime, random).0.Ok?
    ensures user.authProtocol.Some? && PreAuthV3(g, sec, user, pdu, env, processUptime, random).Ok?
    ensures var out := SerializeV3(g, sec, user, pdu, env, processUptime, random).0.value;
      var off := IndexOf(PreAuthV3(g, sec, user, pdu, env, processUptime, random).value, AuthPlaceholder);
      && 0 <= off && off + AuthCodeLength <= |out|
      && (IndexOf(out, out[off..off + AuthCodeLength]) == off ==>
          Authentic(out, user.authProtocol.value, user.authKey, sec.engineID,
                    out[off..off + AuthCodeLength]) == Ok(true))
  {
    var pre := PreAuthV3(g, sec, user, pdu, env, processUptime, random).value;
    assert SerializeV3(g, sec, user, pdu, env, processUptime, random) == AuthStage(pre, user, sec.engineID);
    PatchedFieldIsAuthentic(pre, user.authProtocol.value, user.authKey, sec.engineID);
  }

  /** toBufferV3's layout step. */
  method LayOutV3(g: GlobalData, sec: SecurityParameters, user: User, pdu: Pdu, env: Env,
                  processUptime: int, random: seq<byte>) returns (r: Result<(seq<byte>, seq<byte>)>)
    requires |random| == 4
    ensures r == LaidOutV3(g, sec, user, pdu, env, processUptime, random)
  {
    var items := EncodePdu(pdu, env.ber, processUptime);
    if items.Err? {
      return Err(items.error);
    }
    var scoped := env.writer.scopedPdu(sec.engineID, items.value);
    var payload, salt := scoped, [];
    if HasPrivacy(Some(g)) {
      if user.authProtocol.None? {
        return Err(NoAlgorithm);
      }
      payload, salt := EncryptPdu(scoped, env.des, user.authProtocol.value, user.privKey, sec.engineID, random);
    }
    return Ok((env.writer.v3(g, WrittenParameters(g, sec), payload), salt));
  }

  /** toBufferV3's patches, in place on the cached buffer. */
  method PatchV3(buf: array<byte>, salt: seq<byte>, g: GlobalData, user: User, engineID: seq<byte>)
    returns (r: Result<()>)
    modifies buf
    ensures var (s, cache) := PatchedV3(old(buf[..]), salt, g, user, engineID);
      && cache == Some(buf[..])
      && (r.Ok? <==> s.Ok?) && (r.Ok? ==> s.value == buf[..]) && (r.Err? ==> r.error == s.error)
  {
    if HasPrivacy(Some(g)) {
      var p := AddPrivParameters(buf, salt);
      if p.Err? {
        return Err(p.error);
      }
    }
    if HasAuthentication(Some(g)) {
      r := AuthPatchV3(buf, user, engineID);
    } else {
      r := Ok(());
    }
  }

  /** The authentication patch, in place. */
  method AuthPatchV3(buf: array<byte>, user: User, engineID: seq<byte>) returns (r: Result<()>)
    modifies buf
    ensures var (s, cache) := AuthStage(old(buf[..]), user, engineID);
      && cache == Some(buf[..])
      && (r.Ok? <==> s.Ok?) && (r.Ok? ==> s.value == buf[..]) && (r.Err? ==> r.error == s.error)
  {
    if user.authProtocol.Some? {
      r := AddAuthParameters(buf, user.authProtocol.value, user.authKey, engineID);
    } else {
      var off := IndexOf(buf[..], AuthPlaceholder);
      if off < 0 {
        return Err(OffsetOutOfRange);
      }
      FillZero(buf, off);
      return Err(NoAlgorithm);
    }
  }

  /** A request message. The serialized buffer is cached on first use and
      returned as it is afterwards. */
  class Message {
    var version: int
    var community: Option<string>
    var globalData: Option<GlobalData>
    var securityParameters: Option<SecurityParameters>
    var user: Option<User>
    var pdu: Pdu
    var buffer: array?<byte>

    /** v3 messages carry header, security parameters and user; community
        messages carry the community. */
    predicate Valid()
      reads this
    {
      if version == Version3 then globalData.Some? && securityParameters.Some? && user.Some?
      else community.Some?
    }

    /** createRequestCommunity. */
    constructor CreateRequestCommunity(version: int, community: string, pdu: Pdu)
      requires version != Version3
      ensures Valid() && this.version == version && this.community == Some(community) && this.pdu == pdu
      ensures globalData.None? && securityParameters.None? && user.None? && buffer == null
    {
      this.version := version;
      this.community := Some(community);
      this.pdu := pdu;
      globalData := None;
      securityParameters := None;
      user := None;
      buffer := null;
    }

    /** createRequestV3: msgFlags from the user's level, absent engine
        fields defaulted (an engine ID to the empty buffer, boots and time
        to 0), and empty authentication and privacy parameters. msgID is
        the generated id. */
    constructor CreateRequestV3(user: User, engineID: Option<seq<byte>>, engineBoots: Option<int>,
                                engineTime: Option<int>, pdu: Pdu, msgID: int)
      ensures Valid() && version == Version3 && community.None? && this.pdu == pdu && buffer == null
      ensures this.user == Some(user)
      ensures globalData == Some(GlobalData(msgID, MsgMaxSize, MsgFlags(user.level), UsmSecurityModel))
      ensures securityParameters == Some(SecurityParameters(
        if engineID.Some? then engineID.value else [], OrZero(engineBoots), OrZero(engineTime),
        user.name, [], []))
    {
      version := Version3;
      community := None;
      this.user := Some(user);
      globalData := Some(GlobalData(msgID, MsgMaxSize, MsgFlags(user.level), UsmSecurityModel));
      securityParameters := Some(SecurityParameters(
        if engineID.Some? then engineID.value else [], OrZero(engineBoots), OrZero(engineTime),
        user.name, [], []));
      this.pdu := pdu;
      buffer := null;
    }

    /** createDiscoveryV3: a noAuthNoPriv request from the empty user to
        the empty engine ID. */
    constructor CreateDiscoveryV3(pdu: Pdu, msgID: int)
      ensures Valid() && version == Version3 && community.None? && this.pdu == pdu && buffer == null
      ensures user == Some(User("", NoAuthNoPriv, None, [], None, [], None))
      ensures globalData == Some(GlobalData(msgID, MsgMaxSize, MsgFlags(NoAuthNoPriv), UsmSecurityModel))
      ensures securityParameters == Some(SecurityParameters([], 0, 0, "", [], []))
    {
      version := Version3;
      community := None;
      user := Some(User("", NoAuthNoPriv, None, [], None, [], None));
      globalData := Some(GlobalData(msgID, MsgMaxSize, MsgFlags(NoAuthNoPriv), UsmSecurityModel));
      securityParameters := Some(SecurityParameters([], 0, 0, "", [], []));
      this.pdu := pdu;
      buffer := null;
    }

    /** getReqId: the msgID of a v3 message, the PDU's id otherwise (a v1
        trap PDU has none). */
    function ReqId(): Option<int>
      reads this
      requires Valid()
    {
      if version == Version3 then Some(globalData.value.msgID)
      else if pdu.SimplePdu? then Some(pdu.id)
      else None
    }

    /** toBuffer: the cached buffer if there is one, else a fresh
        serialization. */
    method ToBuffer(env: Env, processUptime: int, random: seq<byte>) returns (r: Result<array<byte>>)
      requires Valid() && |random| == 4
      modifies this
      ensures Valid() && version == old(version) && community == old(community) && pdu == old(pdu)
      ensures globalData == old(globalData) && securityParameters == old(securityParameters) && user == old(user)
      ensures old(buffer) != null ==> buffer == old(buffer) && r.Ok? && r.value == buffer
      ensures old(buffer) == null && version != Version3 ==>
        var s := SerializeCommunity(version, community.value, pdu, env, processUptime);
        && (r.Ok? <==> s.Ok?)
        && (r.Ok? ==> fresh(r.value) && r.value == buffer && r.value[..] == s.value)
        && (r.Err? ==> r.error == s.error && buffer == null)
      ensures old(buffer) == null && version == Version3 ==>
        var (s, cache) := SerializeV3(globalData.value, securityParameters.value, user.value, pdu, env,
                                      processUptime, random);
        && (cache.None? <==> buffer == null)
        && (buffer != null ==> fresh(buffer) && buffer[..] == cache.value)
        && (r.Ok? <==> s.Ok?)
        && (r.Ok? ==> r.value == buffer && r.value[..] == s.value)
        && (r.Err? ==> r.error == s.error)
    {
      if version == Version3 {
        r := ToBufferV3(env, processUptime, random);
      } else {
        r := ToBufferCommunity(env, processUptime);
      }
    }

    /** toBufferCommunity. */
    method ToBufferCommunity(env: Env, processUptime: int) returns (r: Result<array<byte>>)
      requires Valid() && version != Version3
      modifies this
      ensures Valid() && version == old(version) && community == old(community) && pdu == old(pdu)
      ensures globalData == old(globalData) && securityParameters == old(securityParameters) && user == old(user)
      ensures old(buffer) != null ==> buffer == old(buffer) && r.Ok? && r.value == buffer
      ensures old(buffer) == null ==>
        var s := SerializeCommunity(version, community.value, pdu, env, processUptime);
        && (r.Ok? <==> s.Ok?)
        && (r.Ok? ==> fresh(r.value) && r.value == buffer && r.value[..] == s.value)
        && (r.Err? ==> r.error == s.error && buffer == null)
    {
      if buffer != null {
        return Ok(buffer);
      }
      var items := EncodePdu(pdu, env.ber, processUptime);
      if items.Err? {
        return Err(items.error);
      }
      var laid := env.writer.community(version, community.value, items.value);
      var a := new byte[|laid|](i requires 0 <= i < |laid| => laid[i]);
      assert a[..] == laid;
      buffer := a;
      return Ok(a);
    }

    /** toBufferV3: lay out, cache, then patch the cached buffer in place,
        privacy first. */
    method ToBufferV3(env: Env, processUptime: int, random: seq<byte>) returns (r: Result<array<byte>>)
      requires Valid() && version == Version3 && |random| == 4
      modifies this
      ensures Valid() && version == old(version) && community == old(community) && pdu == old(pdu)
      ensures globalData == old(globalData) && securityParameters == old(securityParameters) && user == old(user)
      ensures old(buffer) != null ==> buffer == old(buffer) && r.Ok? && r.value == buffer
      ensures old(buffer) == null ==>
        var (s, cache) := SerializeV3(globalData.value, securityParameters.value, user.value, pdu, env,
                                      processUptime, random);
        && (cache.None? <==> buffer == null)
        && (buffer != null ==> fresh(buffer) && buffer[..] == cache.value)
        && (r.Ok? <==> s.Ok?)
        && (r.Ok? ==> r.value == buffer && r.value[..] == s.value)
        && (r.Err? ==> r.error == s.error)
    {
      if buffer != null {
        return Ok(buffer);
      }
      var g, sec, u := globalData.value, securityParameters.value, user.value;
      var laid := LayOutV3(g, sec, u, pdu, env, processUptime, random);
      if laid.Err? {
        return Err(laid.error);
      }
      var (bytes, salt) := laid.value;
      var a := new byte[|bytes|](i requires 0 <= i < |bytes| => bytes[i]);
      assert a[..] == bytes;
      buffer := a;
      var p := PatchV3(a, salt, g, u, sec.engineID);
      if p.Err? {
        return Err(p.error);
      }
      return Ok(a);
    }
  }

  // ---------------------------------------------------------------------
  // Reading a response (createResponse)
  // ---------------------------------------------------------------------

  /** What follows the v3 security parameters: the ScopedPDU, or the
      OCTET STRING holding it encrypted. */
  datatype ScopedPayload = PlainScoped(items: ResponseItems) | EncryptedScoped(octets: seq<byte>)

  /** What follows the version in a received message, as the BER reader
      finds it. */
  datatype WireBody =
    | CommunityBody(community: string, pdu: ResponseItems)
    | V3Body(globalData: GlobalData, securityParameters: SecurityParameters, payload: ScopedPayload)

  datatype WireMessage = WireMessage(version: int, body: WireBody)

  /** A received message. */
  datatype Received = Received(version: int, community: Option<string>, globalData: Option<GlobalData>,
                               securityParameters: Option<SecurityParameters>, pdu: ResponsePdu)
  {
    /** getReqId. */
    function ReqId(): int
    {
      if version == Version3 && globalData.Some? then globalData.value.msgID else pdu.id
    }
  }

  /** The cipher decryptPdu asks crypto for: privProtocol + '-cbc', where
      an absent privProtocol is the text "undefined". encryptPdu, by
      contrast, always uses DES-CBC. */
  function PrivCipherName(user: User): string
  {
    (if user.privProtocol.Some? then user.privProtocol.value else "undefined") + "-cbc"
  }

  /** createDecipheriv by name: DES-CBC under "des-cbc", otherwise what
      crypto has under that name. */
  function DecipherNamed(env: Env, name: string): Option<Cipher>
  {
    if name == "des-cbc" then Some(env.des) else env.ciphers(name)
  }

  /** Only the privProtocol "des" names the cipher requests are encrypted
      with. */
  lemma DesCipherOnlyForDes(user: User)
    ensures PrivCipherName(user) == "des-cbc" <==> user.privProtocol == Some("des")
  {
    var p := if user.privProtocol.Some? then user.privProtocol.value else "undefined";
    if PrivCipherName(user) == "des-cbc" {
      assert |p| == 3 && p == PrivCipherName(user)[..3];
      assert "des-cbc"[..3] == "des";
    }
    if user.privProtocol == Some("des") {
      assert PrivCipherName(user) == "des" + "-cbc";
    }
  }

  /** The ScopedPDU of a v3 response. Under privacy it is decrypted with
      the user of the pending request registered under the message's msgID:
      `pending` is None when no request is registered under it, and Some(None)
      when that request's message has no user. A payload of the other kind
      is not what the reader expects. */
  function ScopedItems(g: GlobalData, sec: SecurityParameters, payload: ScopedPayload,
                       pending: Option<Option<User>>, env: Env): (r: Result<ResponseItems>)
    ensures HasPrivacy(Some(g)) != payload.EncryptedScoped? ==> r.Err? && r.error.InvalidAsn1Error?
    ensures !HasPrivacy(Some(g)) && payload.PlainScoped? ==> r == Ok(payload.items)
  {
    if HasPrivacy(Some(g)) then
      match payload
      case PlainScoped(_) => Err(InvalidAsn1Error("Expected 0x4: got 0x30"))
      case EncryptedScoped(octets) =>
        if pending.None? then Err(TypeError("Cannot read property 'message' of undefined"))
        else if pending.value.None? then Err(TypeError("Cannot read property 'privProtocol' of undefined"))
        else if pending.value.value.authProtocol.None? then Err(NoAlgorithm)
        else
          var user := pending.value.value;
          var cipher := DecipherNamed(env, PrivCipherName(user));
          if cipher.None? then Err(PlainError("Unknown cipher"))
          else
            var plain :- Decrypted(octets, sec.privParams, cipher.value, user.authProtocol.value, user.privKey, sec.engineID);
            env.readScopedPdu(plain)
    else
      match payload
      case PlainScoped(items) => Ok(items)
      case EncryptedScoped(_) => Err(InvalidAsn1Error("Expected 0x30: got 0x4"))
  }

  /** Message.createResponse: the version decides whether a community or a
      v3 header follows; the PDU is read from either. */
  function ParseMessage(w: WireMessage, pending: Option<Option<User>>, env: Env): Result<Received>
  {
    if w.version != Version3 then
      match w.body
      case CommunityBody(community, items) =>
        var pdu :- ReadPdu(items, env.ber);
        Ok(Received(w.version, Some(community), None, None, pdu))
      case V3Body(_, _, _) => Err(InvalidAsn1Error("Expected 0x4: got 0x30"))
    else
      match w.body
      case CommunityBody(_, _) => Err(InvalidAsn1Error("Expected 0x30: got 0x4"))
      case V3Body(g, sec, payload) =>
        var items :- ScopedItems(g, sec, payload, pending, env);
        var pdu :- ReadPdu(items, env.ber);
        Ok(Received(w.version, None, Some(g), Some(sec), pdu))
  }

  /** A parsed message is a response or a report; a v3 message has a
      header and no community and its request id is its msgID, while a
      community message has a community and no header and its request id is
      its PDU's id. */
  lemma ParseMessageShape(w: WireMessage, pending: Option<Option<User>>, env: Env)
    ensures var r := ParseMessage(w, pending, env);
      r.Ok? ==>
        && r.value.version == w.version
        && (r.value.pdu.typ == GetResponse || r.value.pdu.typ == Report)
        && (w.version == Version3 <==> r.value.globalData.Some?)
        && (w.version == Version3 <==> r.value.community.None?)
        && (w.version == Version3 ==> r.value.ReqId() == w.body.globalData.msgID)
        && (w.version != Version3 ==> r.value.ReqId() == w.body.pdu.id)
  {
    var r := ParseMessage(w, pending, env);
    if r.Ok? {
      if w.version == Version3 {
        var items := ScopedItems(w.body.globalData, w.body.securityParameters, w.body.payload, pending, env);
        ReadPduAccepts(items.value, env.ber);
      } else {
        ReadPduAccepts(w.body.pdu, env.ber);
      }
    }
  }

  /** Round trip of privacy: a ScopedPDU encrypted for the user under a
      salt, received with that salt as its privacy parameters, is read back
      from the decrypted (padded) octets, when the user's privProtocol is
      "des" and so names the cipher it was encrypted with. */
  lemma EncryptedPayloadParses(g: GlobalData, sec: SecurityParameters, scoped: seq<byte>, user: User,
                               env: Env, random: seq<byte>, items: ResponseItems)
    requires |random| == 4 && CipherInverts(env.des) && HasPrivacy(Some(g)) && user.authProtocol.Some?
    requires user.privProtocol == Some("des")
    requires sec.privParams == Encrypted(scoped, env.des, user.authProtocol.value, user.privKey, sec.engineID, random).1
    requires env.readScopedPdu(Padded(scoped)) == Ok(items)
    ensures var enc := Encrypted(scoped, env.des, user.authProtocol.value, user.privKey, sec.engineID, random).0;
      ScopedItems(g, sec, EncryptedScoped(enc), Some(Some(user)), env) == Ok(items)
  {
    EncryptThenDecrypt(scoped, env.des, user.authProtocol.value, user.privKey, sec.engineID, random);
  }

  /** A user whose privProtocol is not "des" has its replies decrypted with
      another cipher than its requests were encrypted with; when crypto
      knows no cipher by that name, no encrypted reply can be read. */
  lemma OtherPrivProtocolUnreadable(g: GlobalData, sec: SecurityParameters, octets: seq<byte>, user: User, env: Env)
    requires HasPrivacy(Some(g)) && user.authProtocol.Some? && user.privProtocol != Some("des")
    requires env.ciphers(PrivCipherName(user)).None?
    ensures ScopedItems(g, sec, EncryptedScoped(octets), Some(Some(user)), env) == Err(PlainError("Unknown cipher"))
  {
    DesCipherOnlyForDes(user);
  }
}
