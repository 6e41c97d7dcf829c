/** The User-based Security Model transforms of the client (RFC 3414):
    password-to-key localisation, the HMAC-96 digest, the placeholder patches
    applied to a serialized message, and the DES-CBC key, IV and padding
    around the cipher. The hash and the cipher are given functions. */
module Usm {
  import opened SnmpTypes
  import IntCodec

  const HmacBufferSize: nat := 1048576
  const HmacBlockSize: nat := 64
  const AuthCodeLength: nat := 12
  const DesKeyLength: nat := 8
  const DesBlockLength: nat := 8

  /** The bytes 81 82 .. 8c reserve the authentication parameters. */
  const AuthPlaceholder: seq<byte> :=
    [0x81, 0x82, 0x83, 0x84, 0x85, 0x86, 0x87, 0x88, 0x89, 0x8a, 0x8b, 0x8c]

  /** The bytes 91 92 .. 98 reserve the privacy parameters. */
  const PrivPlaceholder: seq<byte> := [0x91, 0x92, 0x93, 0x94, 0x95, 0x96, 0x97, 0x98]

  /** A message digest (MD5 or SHA-1): a function of the whole input with a
      fixed output size of 16 to 64 octets. */
  datatype Hash = Hash(digest: seq<byte> -> seq<byte>, size: nat)

  type HashFunction = h: Hash | 16 <= h.size <= HmacBlockSize && forall m :: |h.digest(m)| == h.size
    witness Hash(m => seq(16, _ => 0), 16)

  /** DES-CBC under a key and an IV. Decryption may fail (the decipher's
      final block is rejected). */
  datatype Cipher = Cipher(
    encrypt: (seq<byte>, seq<byte>, seq<byte>) -> seq<byte>,
    decrypt: (seq<byte>, seq<byte>, seq<byte>) -> Option<seq<byte>>)

  /** Bitwise XOR of the low k bits of a and b. */
  function XorLow(a: nat, b: nat, k: nat): (r: nat)
    ensures r < IntCodec.Pow2(k)
  {
    if k == 0 then 0 else (a + b) % 2 + 2 * XorLow(a / 2, b / 2, k - 1)
  }

  /** Octet XOR, `a ^ b` on two buffer elements. */
  function Xor(a: byte, b: byte): byte
  {
    IntCodec.Pow2Table();
    XorLow(a, b, 8)
  }

  // ---------------------------------------------------------------------
  // Password to key (RFC 3414 appendix A.2)
  // ---------------------------------------------------------------------

  /** Octet k of the 1 MiB buffer: the password repeated. An empty password
      indexes `undefined`, which writeUInt8 stores as 0. */
  function ExpandedOctet(password: seq<byte>, k: nat): byte
  {
    if |password| == 0 then 0 else password[k % |password|]
  }

  function Expanded(password: seq<byte>): (r: seq<byte>)
    ensures |r| == HmacBufferSize
  {
    seq(HmacBufferSize, k requires 0 <= k < HmacBufferSize => ExpandedOctet(password, k))
  }

  /** The localized key: the digest of the expanded password, then the
      digest of that digest, the engine ID and the digest again. */
  function LocalizedKey(h: HashFunction, password: seq<byte>, engineID: seq<byte>): (r: seq<byte>)
    ensures |r| == h.size
  {
    var first := h.digest(Expanded(password));
    h.digest(first + engineID + first)
  }

  /** Authentication.passwordToKey: fills the buffer 64 octets at a time,
      then hashes twice. */
  method PasswordToKey(h: HashFunction, password: seq<byte>, engineID: seq<byte>) returns (key: seq<byte>)
    ensures key == LocalizedKey(h, password, engineID)
  {
    var buf := new byte[HmacBufferSize](_ => 0);
    var count := 0;
    while count < HmacBufferSize
      invariant count % HmacBlockSize == 0 && count <= HmacBufferSize
      invariant forall k :: 0 <= k < count ==> buf[k] == ExpandedOctet(password, k)
    {
      FillBlock(buf, password, count);
      count := count + HmacBlockSize;
    }
    assert buf[..] == Expanded(password);
    var firstDigest := h.digest(buf[..]);
    key := h.digest(firstDigest + engineID + firstDigest);
  }

  /** The inner loop of passwordToKey: the 64 octets from `count` on are
      the password repeated, continuing from where the buffer left off. */
  method FillBlock(buf: array<byte>, password: seq<byte>, count: nat)
    requires buf.Length == HmacBufferSize && count + HmacBlockSize <= HmacBufferSize
    requires forall k :: 0 <= k < count ==> buf[k] == ExpandedOctet(password, k)
    modifies buf
    ensures forall k :: 0 <= k < count + HmacBlockSize ==> buf[k] == ExpandedOctet(password, k)
  {
    var bufOffset, passwordIndex := count, count;
    var i := 0;
    while i < HmacBlockSize
      invariant 0 <= i <= HmacBlockSize
      invariant bufOffset == count + i && passwordIndex == count + i
      invariant forall k :: 0 <= k < bufOffset ==> buf[k] == ExpandedOctet(password, k)
    {
      buf[bufOffset] := if |password| == 0 then 0 else password[passwordIndex % |password|];
      passwordIndex := passwordIndex + 1;
      bufOffset := bufOffset + 1;
      i := i + 1;
    }
  }

  // ---------------------------------------------------------------------
  // HMAC-96 (RFC 2104, RFC 3414 section 6.3.1)
  // ---------------------------------------------------------------------

  /** A 64-octet HMAC block: the key XOR pad, then the pad octet. */
  function KeyBlock(key: seq<byte>, pad: byte): (r: seq<byte>)
    requires |key| <= HmacBlockSize
    ensures |r| == HmacBlockSize
  {
    seq(HmacBlockSize, i requires 0 <= i < HmacBlockSize => if i < |key| then Xor(key[i], pad) else pad)
  }

  /** The first n octets of d, zero-filled when d is shorter. */
  function Truncated(d: seq<byte>, n: nat): (r: seq<byte>)
    ensures |r| == n
  {
    seq(n, i requires 0 <= i < n => if i < |d| then d[i] else 0)
  }

  /** HMAC over msg under key, truncated to 12 octets; a key longer than a
      block is first hashed. */
  function Hmac96(h: HashFunction, key: seq<byte>, msg: seq<byte>): seq<byte>
  {
    var k := if |key| > HmacBlockSize then h.digest(key) else key;
    var inner := h.digest(KeyBlock(k, 0x36) + msg);
    Truncated(h.digest(KeyBlock(k, 0x5c) + inner), AuthCodeLength)
  }

  /** calculateDigest: HMAC-96 of the message under the key localized from
      the password and the engine ID. */
  function Digest(h: HashFunction, password: seq<byte>, engineID: seq<byte>, msg: seq<byte>): (r: seq<byte>)
    ensures |r| == AuthCodeLength
  {
    Hmac96(h, LocalizedKey(h, password, engineID), msg)
  }

  /** The digest is the first 12 octets of the outer HMAC hash. */
  lemma DigestIsPrefix(h: HashFunction, password: seq<byte>, engineID: seq<byte>, msg: seq<byte>)
    ensures var k := LocalizedKey(h, password, engineID);
      Digest(h, password, engineID, msg)
        == h.digest(KeyBlock(k, 0x5c) + h.digest(KeyBlock(k, 0x36) + msg))[..AuthCodeLength]
  {
  }

  /** Authentication.calculateDigest. */
  method CalculateDigest(msg: seq<byte>, h: HashFunction, password: seq<byte>, engineID: seq<byte>)
    returns (r: seq<byte>)
    ensures r == Digest(h, password, engineID, msg)
    ensures |r| == AuthCodeLength
  {
    var authKey := PasswordToKey(h, password, engineID);
    if |authKey| > HmacBlockSize {
      authKey := h.digest(authKey);
    }
    var kIpad := KeyBlockOf(authKey, 0x36);
    var kOpad := KeyBlockOf(authKey, 0x5c);
    var firstDigest := h.digest(kIpad + msg);
    var finalDigest := h.digest(kOpad + firstDigest);
    r := TruncateDigest(finalDigest);
  }

  /** kIpad / kOpad: a zeroed 64-octet buffer, the key octets XOR the pad,
      then the pad octet from the key's length on. */
  method KeyBlockOf(key: seq<byte>, pad: byte) returns (block: seq<byte>)
    requires |key| <= HmacBlockSize
    ensures block == KeyBlock(key, pad)
  {
    var a := new byte[HmacBlockSize](_ => 0);
    var i := 0;
    while i < |key|
      invariant 0 <= i <= |key|
      invariant forall k :: 0 <= k < i ==> a[k] == Xor(key[k], pad)
    {
      a[i] := Xor(key[i], pad);
      i := i + 1;
    }
    while i < HmacBlockSize
      invariant |key| <= i <= HmacBlockSize
      invariant forall k :: 0 <= k < |key| ==> a[k] == Xor(key[k], pad)
      invariant forall k :: |key| <= k < i ==> a[k] == pad
    {
      a[i] := pad;
      i := i + 1;
    }
    block := a[..];
  }

  /** truncatedDigest: a zeroed 12-octet buffer receiving the first octets
      of the digest. */
  method TruncateDigest(d: seq<byte>) returns (r: seq<byte>)
    ensures r == Truncated(d, AuthCodeLength)
  {
    var a := new byte[AuthCodeLength](_ => 0);
    var i := 0;
    while i < AuthCodeLength && i < |d|
      invariant 0 <= i <= AuthCodeLength && i <= |d|
      invariant forall k :: 0 <= k < i ==> a[k] == d[k]
      invariant forall k :: i <= k < AuthCodeLength ==> a[k] == 0
    {
      a[i] := d[i];
      i := i + 1;
    }
    r := a[..];
  }

  // ---------------------------------------------------------------------
  // Finding a field by its content (Buffer.indexOf)
  // ---------------------------------------------------------------------

  predicate OccursAt(buf: seq<byte>, pat: seq<byte>, j: int)
  {
    0 <= j && j + |pat| <= |buf| && buf[j..j + |pat|] == pat
  }

  /** The first occurrence of pat at or after j, or -1. */
  function IndexFrom(buf: seq<byte>, pat: seq<byte>, j: nat): (r: int)
    requires j <= |buf|
    ensures r == -1 || (j <= r && OccursAt(buf, pat, r))
    ensures r == -1 ==> forall k :: j <= k ==> !OccursAt(buf, pat, k)
    ensures r >= 0 ==> forall k :: j <= k < r ==> !OccursAt(buf, pat, k)
    decreases |buf| - j
  {
    if OccursAt(buf, pat, j) then j
    else if j + |pat| >= |buf| then -1
    else IndexFrom(buf, pat, j + 1)
  }

  /** buf.indexOf(pat): the first occurrence, or -1; an empty pattern is
      found at 0. */
  function IndexOf(buf: seq<byte>, pat: seq<byte>): int
  {
    IndexFrom(buf, pat, 0)
  }

  /** buf with the 12 octets at off set to zero. */
  function Zeroed(buf: seq<byte>, off: nat): (r: seq<byte>)
    requires off + AuthCodeLength <= |buf|
    ensures |r| == |buf|
  {
    buf[..off] + seq(AuthCodeLength, _ => 0) + buf[off + AuthCodeLength..]
  }

  /** buf with src written over it from off on. */
  function Overwritten(buf: seq<byte>, off: nat, src: seq<byte>): (r: seq<byte>)
    requires off + |src| <= |buf|
    ensures |r| == |buf|
  {
    buf[..off] + src + buf[off + |src|..]
  }

  // ---------------------------------------------------------------------
  // Authentication parameters
  // ---------------------------------------------------------------------

  /** What Authentication.addParametersToMessageBuffer leaves in the buffer:
      the 12 octets at the first placeholder replaced by the digest of the
      buffer with those octets zeroed. Without a placeholder, fill throws a
      RangeError for the offset -1. */
  function AuthPatched(buf: seq<byte>, h: HashFunction, password: seq<byte>, engineID: seq<byte>)
    : (r: Result<seq<byte>>)
    ensures r.Ok? <==> IndexOf(buf, AuthPlaceholder) >= 0
    ensures r.Ok? ==> |r.value| == |buf|
  {
    var off := IndexOf(buf, AuthPlaceholder);
    if off < 0 then Err(ArgumentOutOfRange("offset"))
    else Ok(Overwritten(buf, off, Digest(h, password, engineID, Zeroed(buf, off))))
  }

  /** Authentication.addParametersToMessageBuffer, in place. */
  method AddAuthParameters(buf: array<byte>, h: HashFunction, password: seq<byte>, engineID: seq<byte>)
    returns (r: Result<()>)
    modifies buf
    ensures var p := AuthPatched(old(buf[..]), h, password, engineID);
      r.Ok? == p.Ok? && (r.Err? ==> r.error == p.error)
      && (if p.Ok? then buf[..] == p.value else buf[..] == old(buf[..]))
  {
    ghost var was := buf[..];
    var off := IndexOf(buf[..], AuthPlaceholder);
    if off < 0 {
      return Err(ArgumentOutOfRange("offset"));
    }
    FillZero(buf, off);
    var digest := CalculateDigest(buf[..], h, password, engineID);
    CopyInto(buf, off, digest);
    OverwriteZeroed(was, off, digest);
    return Ok(());
  }

  /** Writing 12 octets over a zeroed field hides the zeroing. */
  lemma OverwriteZeroed(buf: seq<byte>, off: nat, d: seq<byte>)
    requires off + AuthCodeLength <= |buf| && |d| == AuthCodeLength
    ensures Overwritten(Zeroed(buf, off), off, d) == Overwritten(buf, off, d)
  {
  }

  /** buf.fill(0, off, off + 12). */
  method FillZero(buf: array<byte>, off: nat)
    requires off + AuthCodeLength <= buf.Length
    modifies buf
    ensures buf[..] == Zeroed(old(buf[..]), off)
  {
    var k := off;
    while k < off + AuthCodeLength
      invariant off <= k <= off + AuthCodeLength
      invariant forall j :: 0 <= j < buf.Length ==> buf[j] == (if off <= j < k then 0 else old(buf[j]))
    {
      buf[k] := 0;
      k := k + 1;
    }
  }

  /** src.copy(buf, off): src written over buf from off on. */
  method CopyInto(buf: array<byte>, off: nat, src: seq<byte>)
    requires off + |src| <= buf.Length
    modifies buf
    ensures buf[..] == Overwritten(old(buf[..]), off, src)
  {
    var k := 0;
    while k < |src|
      invariant 0 <= k <= |src|
      invariant forall j :: 0 <= j < buf.Length ==>
        buf[j] == (if off <= j < off + k then src[j - off] else old(buf[j]))
    {
      buf[off + k] := src[k];
      k := k + 1;
    }
  }

  /** The RangeError of fill(0, off, off + 12) on a range the buffer does
      not hold: the start -1 of a digest not found, else the end past the
      buffer. */
  function FillRangeError(off: int): Error
  {
    if off < 0 then ArgumentOutOfRange("offset") else ArgumentOutOfRange("end")
  }

  /** isAuthentic's verdict: zero the 12 octets where the received digest
      first occurs, recompute, and compare the whole received digest with
      the 12 computed octets (the second argument of `equals` is ignored).
      A digest that is not found, or found too near the end for 12 octets,
      makes fill throw. */
  function Authentic(buf: seq<byte>, h: HashFunction, password: seq<byte>, engineID: seq<byte>,
                     digestInMessage: seq<byte>): Result<bool>
  {
    var off := IndexOf(buf, digestInMessage);
    if off < 0 || off + AuthCodeLength > |buf| then Err(FillRangeError(off))
    else Ok(Digest(h, password, engineID, Zeroed(buf, off)) == digestInMessage)
  }

  /** The buffer isAuthentic leaves behind: zeroed, then the first (at most)
      12 octets of the received digest copied back. */
  function AfterAuthentic(buf: seq<byte>, digestInMessage: seq<byte>): seq<byte>
  {
    var off := IndexOf(buf, digestInMessage);
    if off < 0 || off + AuthCodeLength > |buf| then buf
    else
      var n := if |digestInMessage| < AuthCodeLength then |digestInMessage| else AuthCodeLength;
      Overwritten(Zeroed(buf, off), off, digestInMessage[..n])
  }

  /** Authentication.isAuthentic, in place. */
  method IsAuthentic(buf: array<byte>, h: HashFunction, password: seq<byte>, engineID: seq<byte>,
                     digestInMessage: seq<byte>) returns (r: Result<bool>)
    modifies buf
    ensures r == Authentic(old(buf[..]), h, password, engineID, digestInMessage)
    ensures buf[..] == AfterAuthentic(old(buf[..]), digestInMessage)
  {
    ghost var was := buf[..];
    var off := IndexOf(buf[..], digestInMessage);
    if off < 0 || off + AuthCodeLength > buf.Length {
      return Err(FillRangeError(off));
    }
    FillZero(buf, off);
    var calculated := CalculateDigest(buf[..], h, password, engineID);
    var n := if |digestInMessage| < AuthCodeLength then |digestInMessage| else AuthCodeLength;
    CopyInto(buf, off, digestInMessage[..n]);
    return Ok(calculated == digestInMessage);
  }

  /** isAuthentic's fill throws for the start -1 of a digest it cannot
      find, and for the end of a digest found within 12 octets of the end of
      the buffer, which only a digest shorter than 12 octets can be. */
  lemma AuthenticRangeErrors(buf: seq<byte>, h: HashFunction, password: seq<byte>, engineID: seq<byte>,
                             digestInMessage: seq<byte>)
    ensures var off := IndexOf(buf, digestInMessage);
      off < 0 ==> Authentic(buf, h, password, engineID, digestInMessage) == Err(ArgumentOutOfRange("offset"))
    ensures var off := IndexOf(buf, digestInMessage);
      off >= 0 && off + AuthCodeLength > |buf| ==>
        && Authentic(buf, h, password, engineID, digestInMessage) == Err(ArgumentOutOfRange("end"))
        && |digestInMessage| < AuthCodeLength
  {
  }

  /** isAuthentic leaves the buffer as it found it whenever the received
      digest has at least 12 octets; a shorter one leaves zeros behind it. */
  lemma {:induction false} AuthenticRestores(buf: seq<byte>, digestInMessage: seq<byte>)
    requires |digestInMessage| >= AuthCodeLength
    ensures AfterAuthentic(buf, digestInMessage) == buf
  {
    var off := IndexOf(buf, digestInMessage);
    if off >= 0 && off + AuthCodeLength <= |buf| {
      assert buf[off..off + |digestInMessage|] == digestInMessage;
      var d := digestInMessage[..AuthCodeLength];
      assert buf[off..off + AuthCodeLength] == d;
      assert Overwritten(Zeroed(buf, off), off, d) == buf;
    }
  }

  /** Only a digest of exactly 12 octets can be authentic. */
  lemma AuthenticNeedsTwelve(buf: seq<byte>, h: HashFunction, password: seq<byte>, engineID: seq<byte>,
                             digestInMessage: seq<byte>)
    requires Authentic(buf, h, password, engineID, digestInMessage) == Ok(true)
    ensures |digestInMessage| == AuthCodeLength
  {
  }

  /** Round trip: a buffer patched by addParametersToMessageBuffer checks as
      authentic under the same key, provided the digest written is not also
      found earlier in the buffer. */
  lemma {:induction false} PatchedIsAuthentic(buf: seq<byte>, h: HashFunction, password: seq<byte>,
                                              engineID: seq<byte>)
    requires AuthPatched(buf, h, password, engineID).Ok?
    requires var off := IndexOf(buf, AuthPlaceholder);
      IndexOf(AuthPatched(buf, h, password, engineID).value,
              Digest(h, password, engineID, Zeroed(buf, off))) == off
    ensures var patched := AuthPatched(buf, h, password, engineID).value;
      var d := Digest(h, password, engineID, Zeroed(buf, IndexOf(buf, AuthPlaceholder)));
      Authentic(patched, h, password, engineID, d) == Ok(true)
      && AfterAuthentic(patched, d) == patched
  {
    var off := IndexOf(buf, AuthPlaceholder);
    var d := Digest(h, password, engineID, Zeroed(buf, off));
    var patched := AuthPatched(buf, h, password, engineID).value;
    assert |d| == AuthCodeLength;
    assert Zeroed(patched, off) == Zeroed(buf, off);
    AuthenticRestores(patched, d);
  }

  /** The patch lands at the first occurrence of the placeholder: when the
      placeholder octets also occur earlier (say inside a user name), the
      real field further on keeps the placeholder. */
  lemma PlaceholderCollision(buf: seq<byte>, h: HashFunction, password: seq<byte>, engineID: seq<byte>,
                             early: nat, field: nat)
    requires early + AuthCodeLength <= field
    requires OccursAt(buf, AuthPlaceholder, early) && OccursAt(buf, AuthPlaceholder, field)
    ensures AuthPatched(buf, h, password, engineID).Ok?
    ensures AuthPatched(buf, h, password, engineID).value[field..field + AuthCodeLength] == AuthPlaceholder
  {
    var off := IndexOf(buf, AuthPlaceholder);
    FoundByFirst(buf, AuthPlaceholder, early);
    var d := Digest(h, password, engineID, Zeroed(buf, off));
    OverwrittenKeepsAfter(buf, off, d, field, field + AuthCodeLength);
  }

  /** A pattern that occurs at j is found, at j or before. */
  lemma FoundByFirst(buf: seq<byte>, pat: seq<byte>, j: nat)
    requires OccursAt(buf, pat, j)
    ensures 0 <= IndexOf(buf, pat) <= j
  {
  }

  /** Octets past the overwritten span are those of the original buffer. */
  lemma OverwrittenKeepsAfter(buf: seq<byte>, off: nat, src: seq<byte>, i: nat, j: nat)
    requires off + |src| <= i <= j <= |buf|
    ensures Overwritten(buf, off, src)[i..j] == buf[i..j]
  {
    var w := Overwritten(buf, off, src);
    assert forall k :: i <= k < j ==> w[k] == buf[k];
  }

  // ---------------------------------------------------------------------
  // Privacy: DES-CBC (RFC 3414 section 8.1.1)
  // ---------------------------------------------------------------------

  /** The salt: engine boots fixed at 1 in octets 0..3, four random octets
      in 4..7. */
  function Salt(random: seq<byte>): (r: seq<byte>)
    requires |random| == 4
    ensures |r| == DesBlockLength && r[..4] == [0, 0, 0, 1] && r[4..] == random
  {
    [0, 0, 0, 1] + random
  }

  /** salt[i] past the end is `undefined`, which XORs as 0. */
  function SaltOctet(salt: seq<byte>, i: nat): byte
  {
    if i < |salt| then salt[i] else 0
  }

  /** iv[i] = preIv[i] ^ salt[i]. */
  function DesIv(preIv: seq<byte>, salt: seq<byte>): (r: seq<byte>)
    requires |preIv| == DesBlockLength
    ensures |r| == DesBlockLength
  {
    seq(DesBlockLength, i requires 0 <= i < DesBlockLength => Xor(preIv[i], SaltOctet(salt, i)))
  }

  /** The scoped PDU zero-padded to the next multiple of 8 octets. */
  function Padded(scopedPdu: seq<byte>): seq<byte>
  {
    if |scopedPdu| % DesBlockLength == 0 then scopedPdu
    else scopedPdu + seq(DesBlockLength - |scopedPdu| % DesBlockLength, _ => 0)
  }

  /** Padding is the smallest multiple of 8 not below the length, adds only
      zeros, and leaves an aligned PDU unchanged. */
  lemma PaddedShape(scopedPdu: seq<byte>)
    ensures var p := Padded(scopedPdu);
      && |p| % DesBlockLength == 0
      && |scopedPdu| <= |p| < |scopedPdu| + DesBlockLength
      && p[..|scopedPdu|] == scopedPdu
      && (forall i :: |scopedPdu| <= i < |p| ==> p[i] == 0)
      && (|scopedPdu| % DesBlockLength == 0 ==> p == scopedPdu)
  {
  }

  /** The DES key (octets 0..7) and pre-IV (octets 8..15) of the privacy key
      localized with the authentication hash. */
  function DesKey(h: HashFunction, privPassword: seq<byte>, engineID: seq<byte>): seq<byte>
  {
    LocalizedKey(h, privPassword, engineID)[..DesKeyLength]
  }

  function PreIv(h: HashFunction, privPassword: seq<byte>, engineID: seq<byte>): (r: seq<byte>)
    ensures |r| == DesBlockLength
  {
    LocalizedKey(h, privPassword, engineID)[DesKeyLength..DesKeyLength + DesBlockLength]
  }

  /** What encryptPdu returns: the ciphertext of the padded PDU and the
      salt that goes into msgPrivacyParameters. */
  function Encrypted(scopedPdu: seq<byte>, cipher: Cipher, h: HashFunction, privPassword: seq<byte>,
                     engineID: seq<byte>, random: seq<byte>): (seq<byte>, seq<byte>)
    requires |random| == 4
  {
    var salt := Salt(random);
    var iv := DesIv(PreIv(h, privPassword, engineID), salt);
    (cipher.encrypt(DesKey(h, privPassword, engineID), iv, Padded(scopedPdu)), salt)
  }

  /** What decryptPdu returns for the received salt. */
  function Decrypted(encryptedPdu: seq<byte>, salt: seq<byte>, cipher: Cipher, h: HashFunction,
                     privPassword: seq<byte>, engineID: seq<byte>): Result<seq<byte>>
  {
    var iv := DesIv(PreIv(h, privPassword, engineID), salt);
    var plain := cipher.decrypt(DesKey(h, privPassword, engineID), iv, encryptedPdu);
    if plain.Some? then Ok(plain.value) else Err(PlainError("bad decrypt"))
  }

  /** Key and pre-IV: the first 16 octets of the localized key, copied. */
  method KeyAndPreIv(h: HashFunction, privPassword: seq<byte>, engineID: seq<byte>)
    returns (key: seq<byte>, preIv: seq<byte>)
    ensures key == DesKey(h, privPassword, engineID) && preIv == PreIv(h, privPassword, engineID)
  {
    var localized := PasswordToKey(h, privPassword, engineID);
    key := localized[..DesKeyLength];
    preIv := localized[DesKeyLength..DesKeyLength + DesBlockLength];
  }

  method MakeIv(preIv: seq<byte>, salt: seq<byte>) returns (iv: seq<byte>)
    requires |preIv| == DesBlockLength
    ensures iv == DesIv(preIv, salt)
  {
    var a := new byte[DesBlockLength](_ => 0);
    var i := 0;
    while i < DesBlockLength
      invariant 0 <= i <= DesBlockLength
      invariant forall k :: 0 <= k < i ==> a[k] == Xor(preIv[k], SaltOctet(salt, k))
    {
      a[i] := Xor(preIv[i], if i < |salt| then salt[i] else 0);
      i := i + 1;
    }
    iv := a[..];
  }

  /** Encryption.encryptPdu; `random` stands for crypto.randomBytes(4). */
  method EncryptPdu(scopedPdu: seq<byte>, cipher: Cipher, h: HashFunction, privPassword: seq<byte>,
                    engineID: seq<byte>, random: seq<byte>) returns (encryptedPdu: seq<byte>, salt: seq<byte>)
    requires |random| == 4
    ensures encryptedPdu == Encrypted(scopedPdu, cipher, h, privPassword, engineID, random).0
    ensures salt == Encrypted(scopedPdu, cipher, h, privPassword, engineID, random).1
  {
    var key, preIv := KeyAndPreIv(h, privPassword, engineID);
    salt := [0, 0, 0, 1] + random;
    var iv := MakeIv(preIv, salt);
    var padded := PadPdu(scopedPdu);
    encryptedPdu := cipher.encrypt(key, iv, padded);
  }

  /** The padding of encryptPdu: an unaligned PDU is copied into a zeroed
      buffer of the next multiple of 8 octets. */
  method PadPdu(scopedPdu: seq<byte>) returns (padded: seq<byte>)
    ensures padded == Padded(scopedPdu)
  {
    if |scopedPdu| % DesBlockLength == 0 {
      return scopedPdu;
    }
    var a := new byte[DesBlockLength * (|scopedPdu| / DesBlockLength + 1)](_ => 0);
    var i := 0;
    while i < |scopedPdu|
      invariant 0 <= i <= |scopedPdu|
      invariant forall k :: 0 <= k < i ==> a[k] == scopedPdu[k]
      invariant forall k :: |scopedPdu| <= k < a.Length ==> a[k] == 0
    {
      a[i] := scopedPdu[i];
      i := i + 1;
    }
    padded := a[..];
    assert padded == Padded(scopedPdu);
  }

  /** Encryption.decryptPdu. */
  method DecryptPdu(encryptedPdu: seq<byte>, salt: seq<byte>, cipher: Cipher, h: HashFunction,
                    privPassword: seq<byte>, engineID: seq<byte>) returns (r: Result<seq<byte>>)
    ensures r == Decrypted(encryptedPdu, salt, cipher, h, privPassword, engineID)
  {
    var key, preIv := KeyAndPreIv(h, privPassword, engineID);
    var iv := MakeIv(preIv, salt);
    var plain := cipher.decrypt(key, iv, encryptedPdu);
    if plain.None? {
      return Err(PlainError("bad decrypt"));
    }
    return Ok(plain.value);
  }

  /** DES-CBC decrypts what it encrypts, for whole blocks. */
  ghost predicate CipherInverts(cipher: Cipher)
  {
    forall key, iv, plain :: |plain| % DesBlockLength == 0 ==>
      cipher.decrypt(key, iv, cipher.encrypt(key, iv, plain)) == Some(plain)
  }

  /** Round trip: decrypting with the salt encryptPdu returned gives back
      the padded scoped PDU, which starts with the original. */
  lemma EncryptThenDecrypt(scopedPdu: seq<byte>, cipher: Cipher, h: HashFunction, privPassword: seq<byte>,
                           engineID: seq<byte>, random: seq<byte>)
    requires |random| == 4 && CipherInverts(cipher)
    ensures var (enc, salt) := Encrypted(scopedPdu, cipher, h, privPassword, engineID, random);
      var dec := Decrypted(enc, salt, cipher, h, privPassword, engineID);
      dec == Ok(Padded(scopedPdu)) && dec.value[..|scopedPdu|] == scopedPdu
  {
    PaddedShape(scopedPdu);
  }

  // ---------------------------------------------------------------------
  // Privacy parameters
  // ---------------------------------------------------------------------

  /** What Encryption.addParametersToMessageBuffer leaves: the whole salt
      (the end index DES_IV_LENGTH is undefined) copied over the first
      privacy placeholder, cut at the end of the buffer. Without a
      placeholder the copy's target start -1 is out of range. */
  function PrivPatched(buf: seq<byte>, salt: seq<byte>): (r: Result<seq<byte>>)
    ensures r.Ok? <==> IndexOf(buf, PrivPlaceholder) >= 0
    ensures r.Ok? ==> |r.value| == |buf|
  {
    var off := IndexOf(buf, PrivPlaceholder);
    if off < 0 then Err(ArgumentOutOfRange("targetStart"))
    else
      var n := if |salt| < |buf| - off then |salt| else |buf| - off;
      Ok(Overwritten(buf, off, salt[..n]))
  }

  /** Encryption.addParametersToMessageBuffer, in place. */
  method AddPrivParameters(buf: array<byte>, salt: seq<byte>) returns (r: Result<()>)
    modifies buf
    ensures var p := PrivPatched(old(buf[..]), salt);
      r.Ok? == p.Ok? && (r.Err? ==> r.error == p.error)
      && (if p.Ok? then buf[..] == p.value else buf[..] == old(buf[..]))
  {
    var off := IndexOf(buf[..], PrivPlaceholder);
    if off < 0 {
      return Err(ArgumentOutOfRange("targetStart"));
    }
    var n := if |salt| < buf.Length - off then |salt| else buf.Length - off;
    CopyInto(buf, off, salt[..n]);
    return Ok(());
  }

  /** An 8-octet salt replaces exactly the placeholder octets and nothing
      else. */
  lemma PrivPatchReplacesPlaceholder(buf: seq<byte>, salt: seq<byte>)
    requires |salt| == DesBlockLength && IndexOf(buf, PrivPlaceholder) >= 0
    ensures var off := IndexOf(buf, PrivPlaceholder);
      var p := PrivPatched(buf, salt).value;
      && p[off..off + DesBlockLength] == salt
      && p[..off] == buf[..off] && p[off + DesBlockLength..] == buf[off + DesBlockLength..]
  {
  }
}
