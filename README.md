# node-net-snmp client core, modelled in Dafny

This project models the client side of the `net-snmp` Node.js module
(`index.js`): SNMP versions 1, 2c and 3 over UDP. It covers:

- the integer and varbind codecs;
- PDU construction, including version 1 traps and version 2c/3 notifications;
- the User-based Security Model:
  - password-to-key localisation;
  - HMAC-96 authentication, with the placeholder that is patched after encoding;
  - DES-CBC privacy, including its salt, IV and zero padding;
- message serialisation and the parsing of responses;
- the session:
  - the table of pending requests with their retry timers;
  - sending;
  - the dispatch of received messages (authentication check, version and community check, the engine-discovery Report that triggers a resend);
  - cancelling every request;
  - the checks that each request type's callback applies to a response;
- `walk`, `subtree`, `table` and `tableColumns`.

One Dafny module per area, one file each:

| file | module | what it holds |
|---|---|---|
| snmp_types.dfy | SnmpTypes | constants (ErrorStatus, ObjectType, PduType, versions), the four error classes, varbinds |
| js_number.dfy | JsNumber | JavaScript's conversion of text to a number (ToNumber) and of a number to an octet (ToUint8) |
| oid.dfy | Oid | `oidFollowsOid` (a cursor loop proved against a component-wise order), `oidInSubtree` |
| codec.dfy | IntCodec | `readUint`, `readInt`, `writeUint` on octet buffers, JavaScript's 32-bit shift included; reading back the INTEGER octets a BER writer emits |
| varbind.dfy | VarbindCodec | `readVarbinds`, `writeVarbinds` over BER items, and the copy set, inform and trap make of the caller's varbinds |
| pdu.dfy | Pdu | SimplePdu, TrapPdu and GetResponsePdu encoding and reading, trap OID parsing, notification varbinds |
| usm.dfy | Usm | `passwordToKey`, `calculateDigest`, `isAuthentic`, the auth/priv placeholder patches, `encryptPdu` and `decryptPdu` |
| message.dfy | Message | the Message class: `createRequestCommunity`, `createRequestV3`, `createDiscoveryV3`, `toBuffer` and its cache, `createResponse` |
| responses.dfy | Responses | the feed callbacks of get and set, getNext and getBulk |
| session.dfy | Session | the Req and Session classes: register, unregister, send, timeout, onMsg, cancelRequests and the request operations |
| walk.dfy | Walk | walkCb, subtreeCb, the table and tableColumns callbacks, the TableReq state |

Code that changes state in place is modelled as Dafny classes and methods:

- the Message buffer cache;
- the Session request table;
- the Req retry counter and timer flag;
- the table being built by `table`/`tableColumns`.

Where the source works on a `Buffer`, the method works on an `array<byte>`. Every method is proved against a specification function, and the properties are proved about those functions.

External code is passed in as function-typed parameters:

- the `asn1-ber` reader and writer;
- the `crypto` hashes and DES cipher;
- random bytes;
- `process.uptime`.

The socket, the timers and the event emitter become a record of effects on the session:

- sent: the datagrams sent;
- calls: the callbacks made;
- errors: the errors emitted;
- hung: a callback that never returns.

Several quirks of the source are modelled as the code is written, and lemmas show each of them:

- `1 << 32` is 1 in JavaScript, so `readInt` reads four `ff` octets as 4294967294 (`IntCodec.ReadIntFourOctetQuirk`).
- In getBulk, the count check and the multiple check fall through to the next branch without returning (`Responses.BulkCountFallsThrough`, `Responses.BulkMultipleFallsThrough`).
- In getBulk, zero repeaters make the loop spin (`Responses.BulkZeroRepeatersHangs`).
- getBulk checks the total response length (`Responses.BulkTotalLengthQuirk`).
- walkCb pops the last varbind of a batch, not the one that matched (`Walk.PopsLastNotMatched`).
- `isAuthentic` compares the calculated digest with the whole received digest, so only a 12-octet digest can pass (`Usm.AuthenticNeedsTwelve`).
- The authentication placeholder can be found early, ahead of its own field (`Usm.PlaceholderCollision`).
- The table feed callbacks read the undefined variable `varbind` when they meet a varbind error, so they throw before they record the error (`Walk.FoldFails`).

The same check appears more than once in the source, and each is modelled once:

- The feed callbacks of get (index.js:1116-1139), set (index.js:1528-1551) and inform (index.js:1336-1359) perform one check, differing only in wording. It is `Responses.Matched`.
- `tableFeedCb` (index.js:1719-1736) is the same code as `tableColumnsFeedCb` (index.js:1657-1674). Both are `Walk.TableFold`.

## Model

| member | source | states |
|---|---|---|
| SnmpTypes.ObjectTypeName | index.js:46-68 | an object type has a name exactly when it is one of the fourteen codes of the ObjectType table |
| SnmpTypes.ErrorStatusName | index.js:22-44 | an error status has a name exactly when it lies in 0..18 |
| SnmpTypes.VarbindErrorText | index.js:163-171 | the text of a varbind error ends in ": " and the OID; its prefix is the type's name in the ObjectType table, and "NotAnError" exactly when the type has no name there |
| Oid.GetNumber | index.js:178-189 | the cursor step reads the decimal component starting at the cursor and stops after its dot, as the component scan does |
| Oid.OidFollowsOid | index.js:173-209 | the character loop answers exactly the component-wise comparison of the two OIDs |
| Oid.FollowsIff | index.js:173-209 | `next` fails to follow `oid` exactly when, at the first differing component, `next`'s is numerically smaller |
| Oid.FollowsReflexive | index.js:173-209 | every OID follows itself |
| Oid.FollowsPrefixes | index.js:173-209 | when one OID is a component prefix of the other, the answer is "follows" either way |
| Oid.FollowsTotal | index.js:173-209 | of any two OIDs, at least one follows the other |
| Oid.FollowsBothWays | index.js:173-209 | two OIDs follow each other both ways only when one is a component prefix of the other |
| Oid.NumericNotTextual | index.js:173-209 | example: components compare as numbers, so "1.10" follows "1.9" although it is textually smaller |
| Oid.JoinSplit | index.js:211-224 | joining the parts of a split restores the OID |
| Oid.SplitAppend | index.js:211-224 | splitting `a + "." + b` splits `a` and `b` separately |
| Oid.JoinAppend | index.js:211-224 | joining concatenated part lists joins each and puts a dot between |
| Oid.OidInSubtreeIff | index.js:211-224 | an OID is in the subtree exactly when it equals the root or extends it past a dot |
| Oid.OidInSubtreeBounds | index.js:211-224 | an OID is in its own subtree, and an OID with fewer dotted parts than the root is not |
| IntCodec.ReadUint | index.js:241-269 | the octet-reading loop returns the decoded value or the "Integer too long" error the specification function gives |
| IntCodec.ReadValueOctets | index.js:255-268 | the accumulation loop computes the value and the offset of the specification function, big-endian, with the sign adjustment when signed |
| IntCodec.ReadInt | index.js:237-239 | readInt is readUint with sign |
| IntCodec.WriteUint | index.js:344-348 | a value in 0..2^32-1 is written as tag, length 4 and four octets whose big-endian value is the value; anything else is refused |
| IntCodec.DecodeUintRejects | index.js:241-269 | decoding fails exactly when the length exceeds 5, or is 5 and the first value octet is not 0, and then with the RangeError "Integer too long '<length>'" |
| IntCodec.DecodeUintValue | index.js:241-269 | an unsigned read is the big-endian value of at most four octets and is below 2^32 |
| IntCodec.WriteThenReadUint | index.js:241-348 | the six octets writeUint emits read back, unsigned, as the value written |
| IntCodec.FiveOctetPadding | index.js:241-269 | a 0 padding octet before four value octets is skipped and the value is read unchanged |
| IntCodec.ReadIntShortIsTwosComplement | index.js:237-269 | a signed read of 1 to 3 octets lies in the two's-complement range of that width and is negative exactly when the first octet has its top bit set |
| IntCodec.ReadIntFourOctetQuirk | index.js:259-266 | four `ff` octets read, signed, as 4294967294, since `1 << 32` is 1 |
| IntCodec.ReadSignedOctets | index.js:237-269 | a signed read of 1 to 4 octets, the fourth without its top bit set, gives their two's-complement value |
| IntCodec.ReadFourOctetsNegative | index.js:259-266 | four octets with the top bit set read as their unsigned value less 1 |
| VarbindCodec.ReadVarbinds | index.js:277-342 | the varbind loop decodes every item or stops with the error of the first item whose value cannot be read |
| VarbindCodec.WriteVarbinds | index.js:354-404 | the varbind loop encodes every varbind, through the type dispatch with JavaScript's number conversion for IP address parts and Counter, Gauge and TimeTicks values, or stops with the error of the first that cannot be written |
| VarbindCodec.FirstBadItem | index.js:277-342 | the index returned is the first item whose value fails to read, or the length |
| VarbindCodec.FirstUnwritable | index.js:354-404 | the index returned is the first varbind that fails to write, or the length |
| VarbindCodec.ReadValueErrors | index.js:283-334 | reading a value fails exactly for an unknown type, an IpAddress not of four octets, or an integer too long; the three exception types read as null; an unknown type is refused naming the type, and a short or long IP address naming its length and its octets in hex |
| VarbindCodec.WriteValueErrors | index.js:360-399 | writing refuses unknown types and the exception types with "Unknown type '<type>' in request", and malformed IP addresses with "Invalid IP address '<value>'"; a varbind without type or value is written as null |
| VarbindCodec.VarbindRoundTrip | index.js:277-404 | a varbind whose value has the shape its type calls for is written and read back as the same type and value: Boolean, Null, OID, IpAddress as a dotted quad, Counter, Gauge and TimeTicks in 0..2^32-1, Integer in -2^23..2^31-1, and the octet-string types given as octets |
| VarbindCodec.IntegerRoundTrip | index.js:237-269 | an INTEGER from -2^23 to 2^31-1, written as minimal two's-complement octets, reads back as itself |
| VarbindCodec.LowIntegerMisread | index.js:259-266 | an INTEGER below -2^23 reads back 2^32-1 too large, because `1 << 32` is 1 |
| VarbindCodec.TextOctetStringReadsAsOctets | index.js:368-372 | an OctetString given as text is written as the library's encoding of the text and reads back as those octets |
| VarbindCodec.Uint32Operand | index.js:344-348 | writeUInt32BE accepts NaN as 0 and a number in 0..2^32-1 truncated; it refuses the infinities and everything outside that range |
| VarbindCodec.CounterTextIsNumber | index.js:383-388 | a Counter, Gauge or TimeTicks value given as decimal text is written as the number it spells |
| VarbindCodec.CounterNonNumeralIsZero | index.js:383-388 | a Counter, Gauge or TimeTicks value given as any text that converts to NaN is written as 0 |
| VarbindCodec.CounterIntegerRange | index.js:383-388 | a Counter, Gauge or TimeTicks integer is written as four big-endian octets exactly when it lies in 0..2^32-1, and refused with the RangeError otherwise |
| VarbindCodec.CopyVarbind | index.js:1555-1561 | the copy keeps the OID and the type and always has a value; a varbind that had one is unchanged |
| VarbindCodec.CopyVarbinds | index.js:1553-1562 | one copy per varbind, in order |
| VarbindCodec.CopyDispatchesByType | index.js:354-399 | a typed varbind without a value is written as NULL, but its copy is written by its type: Boolean false, a TypeError for Integer, four zero octets for Counter, Gauge and TimeTicks |
| VarbindCodec.IpAddressRoundTrip | index.js:302-382 | four octets rendered as a dotted quad parse back to the same four octets |
| JsNumber.DecimalValue | index.js:377-382 | the decimal digits of a natural number read back, digit by digit, as that number |
| JsNumber.Truncate | index.js:344-348 | truncation toward zero: the integer lies within 1 of the number, on the side of 0 |
| JsNumber.ToUint8 | index.js:382 | a stored octet is the truncated number modulo 256, and 0 for NaN and the infinities |
| JsNumber.DigitStringValue | index.js:382 | text made only of digits converts to their decimal value |
| JsNumber.DecimalReadsBack | index.js:382 | converting a number's decimal text back to a number gives the number |
| JsNumber.IntText | index.js:1823-1824 | number-to-text gives the decimal digits for naturals and a leading minus otherwise |
| JsNumber.Hex | index.js:1412-1418 | the hex text is two characters per octet |
| JsNumber.LeadingSpaceIgnored | index.js:382 | white space before the numeral does not change the number |
| JsNumber.NegatedDigits | index.js:382 | a minus sign before digits gives the negated value |
| JsNumber.NaturalToUint8 | index.js:382 | a natural number is stored as its low octet |
| JsNumber.MinusOneWraps | index.js:382 | example: "-1" is the number -1 and is stored as 255 |
| JsNumber.HexDigits | index.js:382 | "0x" followed by hex digits is the value of those digits in base 16 |
| JsNumber.HexNumeral | index.js:382 | example: "0x10" is 16 |
| JsNumber.ExponentNumeral | index.js:382 | example: "1e2" is 100 |
| JsNumber.PlusSignIgnored | index.js:382 | a plus sign before digits is ignored: the value is that of the digits |
| JsNumber.SpaceSkipped | index.js:382 | example: " 7" is 7 |
| JsNumber.NonNumeralsStoreZero | index.js:382 | any text that converts to NaN is stored as 0 |
| JsNumber.LetterStartIsNaN | index.js:382 | text whose first character past the white space is a letter other than the I of Infinity converts to NaN |
| JsNumber.EmptyAndLetterText | index.js:382 | example: empty text is 0, and "a" is NaN and is stored as 0 |
| Pdu.AgentAddrOctets | index.js:490-491 | the agent address gives one octet per dotted part, each the part converted to a number and stored as an octet |
| Pdu.AgentAddrOfQuad | index.js:467-491 | an agent address that is a dotted quad of octets, such as the default 127.0.0.1, is sent as those four octets |
| Pdu.AgentAddrCoerces | index.js:490-491 | example: parts that are not plain digits are converted as numbers: "-1.0x10" is sent as 255 and 16 |
| Pdu.BulkFieldsOnlyForGetBulk | index.js:410-430 | the non-repeaters and max-repetitions options reach the encoding only for GetBulk, else 0 is written; encoding fails exactly when the varbinds do |
| Pdu.TrapEncoding | index.js:486-500 | a v1 trap encodes generic, specific, uptime (defaulting to the process uptime when absent or 0) and the agent address's octets; it fails exactly when the uptime or a varbind cannot be written |
| Pdu.MakeTrapPdu | index.js:467-484 | a trap PDU is built exactly when its type or OID is accepted; an explicit non-empty agent address is kept and otherwise a default is used |
| Pdu.LastDot | index.js:475-476 | the position found is the last dot of the OID, or none when there is no dot |
| Pdu.TrapOidParse | index.js:467-484 | a trap OID is accepted exactly when it ends in a dot and a decimal number; the enterprise is what precedes it, and the type is enterpriseSpecific with that number |
| Pdu.TrapOidRoundTrip | index.js:467-484 | an enterprise OID extended with a specific number parses back to that enterprise and number |
| Pdu.TrailingNumberIsLastDot | index.js:475-476 | when the OID ends in a dot and digits, the last dot is the one the pattern anchors on |
| Pdu.NotificationOidAsV1 | index.js:1823-1824 | the v2 notification OID for a generic trap type n, read as a v1 trap OID, is enterprise 1.3.6.1.6.3.1.1.5 with specific number n + 1 |
| Pdu.NotificationEncoding | index.js:1826-1839 | the uptime and trap OID varbinds come before the caller's; encoding fails exactly when the uptime or a caller varbind cannot be written, and otherwise encodes the caller's varbinds unchanged |
| Pdu.ReadPduAccepts | index.js:509-549 | a response PDU is read exactly when it is a GetResponse or Report whose varbinds decode; it keeps type, id, error status, error index and varbind count; other types are refused as unknown, naming the type |
| Usm.XorLow | index.js:714-716 | the exclusive-or of the low k bits stays below 2^k |
| Usm.Expanded | index.js:578-590 | the password is repeated to fill exactly 1048576 octets |
| Usm.LocalizedKey | index.js:574-604 | a localised key is one digest long |
| Usm.PasswordToKey | index.js:574-604 | the block-filling loop over the password produces the localised key of password and engine ID |
| Usm.KeyBlock | index.js:637-680 | the padded key block is 64 octets long |
| Usm.Truncated | index.js:637-680 | truncation gives exactly the requested number of octets |
| Usm.DigestIsPrefix | index.js:637-680 | the message digest is the first 12 octets of the HMAC, under the localised key, of the message |
| Usm.CalculateDigest | index.js:637-680 | the ipad/opad loops produce that 12-octet digest |
| Usm.KeyBlockOf | index.js:657-664 | the pad loop builds the padded key block |
| Usm.TruncateDigest | index.js:677-679 | the copy loop keeps the first 12 octets of the digest |
| Usm.IndexFrom | index.js:611 | the search finds the first occurrence of the placeholder at or after the start, or reports none |
| Usm.Zeroed | index.js:611-612 | zeroing the digest field keeps the buffer length |
| Usm.Overwritten | index.js:615 | copying into the buffer keeps its length |
| Usm.AuthPatched | index.js:606-617 | patching succeeds exactly when the placeholder occurs, and keeps the buffer length |
| Usm.AddAuthParameters | index.js:606-617 | the buffer becomes the patched buffer, or stays as it was and the error is returned when the placeholder is missing |
| Usm.OverwriteZeroed | index.js:606-635 | overwriting a zeroed field equals overwriting the original |
| Usm.FillZero | index.js:612 | the zeroing loop clears the 12 digest octets at the field |
| Usm.CopyInto | index.js:615 | the copy loop writes the digest into the field |
| Usm.IsAuthentic | index.js:619-635 | the check answers whether the digest of the buffer with its field zeroed equals the digest received; the buffer is left as the digest write-back makes it |
| Usm.AuthenticRangeErrors | index.js:624-625 | fill throws for the start of a digest not found, and for the end of a digest found within 12 octets of the buffer's end, which only a digest shorter than 12 octets can be |
| Usm.AuthenticRestores | index.js:619-635 | when the received digest is at least 12 octets, the write-back restores the buffer |
| Usm.AuthenticNeedsTwelve | index.js:634 | only a digest of exactly 12 octets can be judged authentic, because the comparison covers the whole digest |
| Usm.PatchedIsAuthentic | index.js:606-635 | a buffer patched with its own digest is judged authentic, given that the digest is first found at the field, and comes back unchanged |
| Usm.PlaceholderCollision | index.js:606-617 | when the placeholder octets also occur before the field, the patch lands early and the field keeps its zeros |
| Usm.Salt | index.js:708-712 | the DES salt is the boots value 0,0,0,1 followed by the four random octets |
| Usm.DesIv | index.js:713-716 | the IV is eight octets long |
| Usm.PaddedShape | index.js:718-724 | the padded PDU is a multiple of 8 long, less than 8 longer, starts with the PDU and ends in zeros; an aligned PDU is unchanged |
| Usm.PreIv | index.js:705-706 | the pre-IV is eight octets |
| Usm.KeyAndPreIv | index.js:702-706 | the DES key and pre-IV are taken from the localised privacy key |
| Usm.MakeIv | index.js:713-716 | the XOR loop builds the IV from pre-IV and salt |
| Usm.PadPdu | index.js:718-724 | the copy into a zeroed buffer builds the padded PDU |
| Usm.EncryptPdu | index.js:690-737 | encryption returns the cipher text of the padded PDU and the salt of the specification |
| Usm.DecryptPdu | index.js:739-771 | decryption returns the plain text of the specification, or its error |
| Usm.EncryptThenDecrypt | index.js:690-771 | for an inverting cipher, decrypting what was encrypted gives the padded PDU, which starts with the original |
| Usm.PrivPatched | index.js:773-776 | the privacy patch succeeds exactly when its placeholder occurs, and keeps the length |
| Usm.AddPrivParameters | index.js:773-776 | the buffer becomes the salt-patched buffer, or stays as it was with the error |
| Usm.PrivPatchReplacesPlaceholder | index.js:773-776 | the salt replaces the placeholder and nothing else changes |
| Message.FlagsFromLevel | index.js:909-938 | the security level sets the flags so that authentication is set for authNoPriv and authPriv, privacy only for authPriv, and the reportable bit always |
| Message.WrittenParameters | index.js:849-865 | the encoded security parameters put the placeholders into the authentication and privacy fields that the flags call for and keep the rest |
| Message.SerializeV3Caches | index.js:816-902 | the v3 serialiser caches every buffer it lays out, even when a later patch fails, and the cache is what it returns on success |
| Message.PatchedFieldIsAuthentic | index.js:606-635 | the patched authentication field is judged authentic against itself, given that its digest is first found at the field |
| Message.SerializedV3IsAuthentic | index.js:813-903 | a v3 message serialised with authentication is accepted by isAuthentic, given the same proviso about where its digest is first found |
| Message.LayOutV3 | index.js:813-889 | laying out the v3 message gives the buffer and salt of the specification function |
| Message.PatchV3 | index.js:891-902 | the privacy then authentication patches turn the buffer into the specification's result, and the cache holds the patched buffer |
| Message.AuthPatchV3 | index.js:897-900 | the authentication patch alone gives the specification's result and updates the cache |
| Message.Message.CreateRequestCommunity | index.js:917-925 | a community message carries version, community and PDU, and no v3 fields |
| Message.Message.CreateRequestV3 | index.js:927-952 | a v3 message carries the user, the flags of its level and the engine fields given, with 0 for missing boots and time |
| Message.Message.CreateDiscoveryV3 | index.js:954-965 | a discovery message is noAuthNoPriv from the empty user with empty engine fields |
| Message.Message.ToBuffer | index.js:785-791 | a cached buffer is returned as is; otherwise the community or v3 serialisation is produced, cached and returned, and its error passed on |
| Message.Message.ToBufferCommunity | index.js:793-811 | the community message is serialised once and cached; errors leave no cache |
| Message.Message.ToBufferV3 | index.js:813-903 | the v3 message is serialised once and cached, even on a patch error |
| Message.ScopedItems | index.js:999-1009 | a response whose privacy flag disagrees with the form of its scoped PDU is refused, a plain scoped PDU is read as is, and an encrypted one is decrypted with the cipher named by the user's privProtocol |
| Message.ParseMessageShape | index.js:905-1013 | a parsed response keeps its version, is a GetResponse or Report, has v3 fields exactly for v3, and its request id is the msgID (v3) or the PDU id |
| Message.EncryptedPayloadParses | index.js:999-1006 | a scoped PDU encrypted under the user's privacy key is decrypted and read back by createResponse when the user's privProtocol is "des", the cipher requests are encrypted with |
| Message.DesCipherOnlyForDes | index.js:747 | decryption uses DES-CBC, the cipher of encryption, exactly when the privProtocol is "des" |
| Message.OtherPrivProtocolUnreadable | index.js:739-761 | for any other privProtocol that crypto has no cipher for, an encrypted reply is refused with "Unknown cipher" |
| Responses.FirstMismatch | index.js:1116-1139 | the index found is the first varbind whose OID differs from the requested one |
| Responses.MatchFeed | index.js:1116-1139 | the get, set and inform check loop gives the outcome of the specification function |
| Responses.MatchedIff | index.js:1116-1139 | get, set and inform hand the varbinds to the callback exactly when their number and OIDs match the request, and otherwise report a ResponseInvalidError |
| Responses.FirstUnordered | index.js:1264-1290 | the index found is the first varbind neither an error nor following its requested OID |
| Responses.GetNextFeed | index.js:1264-1290 | the getNext check loop gives the specification's outcome |
| Responses.NextCheckedIff | index.js:1264-1290 | getNext hands the varbinds to the callback exactly when each is a varbind error or follows its requested OID, with one varbind per requested OID |
| Responses.NextAcceptsSameOid | index.js:1264-1290 | a getNext response that repeats the requested OID is accepted, since an OID follows itself |
| Responses.FirstBadNonRepeater | index.js:1185-1201 | the index found is the first non-repeater that is neither a varbind error nor following its requested OID |
| Responses.Singles | index.js:1185-1201 | the non-repeaters are handed on one entry each |
| Responses.AddToColumn | index.js:1217-1235 | adding a varbind to a column appends it there and leaves the other entries alone |
| Responses.NextColumn | index.js:1213-1214 | the column cursor stays below the number of repeaters |
| Responses.GetBulkFeed | index.js:1175-1241 | the getBulk check gives the specification's outcome |
| Responses.NonRepeatersLoop | index.js:1185-1201 | the non-repeater loop reports the first failing non-repeater, or returns one entry per non-repeater |
| Responses.NonRepeatersPass | index.js:1186-1200 | when every non-repeater is in order, none is reported |
| Responses.BadNonRepeaterFound | index.js:1186-1200 | a non-repeater reported is neither a varbind error nor following its requested OID |
| Responses.CheckInOrder | index.js:1217-1223 | the order test is "a varbind error, or follows the requested OID" |
| Responses.RepeatersLoop | index.js:1212-1237 | the repeater loop computes the repeater scan of the specification |
| Responses.RoundLoop | index.js:1213-1236 | one round over the columns either ends the scan with the scan's own outcome, or advances r positions to a point from which the scan continues unchanged |
| Responses.OrderedFromIff | index.js:1212-1237 | the repeaters are in order exactly when each response varbind follows the requested OID of its column, taken round-robin |
| Responses.ScanSucceeds | index.js:1212-1240 | an ordered, complete round of repeaters leaves no error and gives one column entry per repeater after the non-repeaters |
| Responses.ScanGathers | index.js:1212-1237 | each column gathers, in order, the response varbinds of that column |
| Responses.ScanRejects | index.js:1212-1237 | a repeater out of order ends the scan with a ResponseInvalidError |
| Responses.OrderBroken | index.js:1212-1237 | one repeater varbind not following the requested OID of its column breaks the order |
| Responses.RepeatersOrdered | index.js:1212-1237 | every repeater varbind following the requested OID of its column gives the order |
| Responses.BulkAccepts | index.js:1175-1241 | a getBulk response with every varbind in order hands the non-repeaters singly and each repeater's column of varbinds to the callback |
| Responses.BulkRejects | index.js:1175-1241 | a getBulk response with a varbind out of order is refused with a ResponseInvalidError |
| Responses.BulkFedScans | index.js:1175-1241 | when the non-repeaters pass and the length checks hold, the outcome is the repeater scan's error or its entries |
| Responses.BulkCountFallsThrough | index.js:1180-1212 | too few varbinds is reported, and the check goes on, so the callback is called a second time |
| Responses.BulkMultipleFallsThrough | index.js:1203-1240 | a response length not a multiple of the repeaters is reported, and the non-repeaters are still handed on |
| Responses.BulkZeroRepeatersHangs | index.js:1203-1237 | with no repeaters and more varbinds than non-repeaters the loop never ends |
| Responses.BulkTotalLengthQuirk | index.js:1203-1211 | the length checks use the total varbind count, so a concrete response passes them and then fails |
| Session.CallsOf | index.js:1099-1106 | one callback call per argument, in order |
| Session.SimpleGetOutcomeSpec | index.js:1461-1481 | a positive error status fails the request with its name and code (GeneralError beyond 18), naming the OID at the error index when it is in range; otherwise the feed check of the request type runs |
| Session.RunFeed | index.js:1461-1481 | running the feed callback gives its specification's outcome |
| Session.SimpleGetResponse | index.js:1461-1481 | onSimpleGetResponse gives the outcome of its specification |
| Session.AuthVerdict | index.js:1410-1421 | a message whose flags ask for authentication is refused with a ResponseInvalidError exactly when the digest check answers false; it passes when no authentication is asked for or the check succeeds |
| Session.CheckAuthentication | index.js:1410-1421 | the authentication check gives the verdict of its specification |
| Session.FailWithoutAlgorithm | index.js:1410-1421 | a user without an authentication protocol makes the check fail with the error the specification gives |
| Session.CheckDigest | index.js:1410-1421 | the digest comparison gives the verdict of its specification |
| Session.Dispatch | index.js:1423-1455 | a mismatched version or community is refused; a GetResponse runs onSimpleGetResponse; a Report resends the original PDU with the reported engine fields, or is "Unexpected" when there is none |
| Session.SecondReportUnexpected | index.js:1432-1448 | after one Report has resent the original PDU, a second Report for the resent request is refused as unexpected |
| Session.ParsedIdIsWireId | index.js:905-907 | the id used to find the request is the msgID for v3 and the PDU id otherwise |
| Session.MinOf | index.js:1099-1106 | the minimum of a set of ids is in the set and not above any of them |
| Session.AscendingSpec | index.js:1099-1106 | the ids in ascending order are each id once, strictly increasing |
| Session.CancelCallsStep | index.js:1099-1106 | cancelling the least id and then the rest makes the same calls as cancelling all |
| Session.CancelCallsSpec | index.js:1099-1106 | cancelling calls every pending request's callback once with the error, in ascending id order |
| Session.Req.constructor | index.js:1015-1029 | a request keeps its message, feed type, callback and port, takes the session's retries and its id from the message, and starts with no timer |
| Session.ToBytes | index.js:1506 | serialising a request's message gives the specification's bytes and keeps the message's fields |
| Session.KeyRemoved | index.js:1872-1885 | removing a present id shrinks the table by one |
| Session.TrapPduFor | index.js:1809-1842 | v2c and v3 send a TrapV2 PDU with the uptime and trap OID varbinds before copies of the caller's; v1 builds a trap PDU of the copies exactly when the trap type or OID is accepted |
| Session.Session.constructor | index.js:1036-1090 | a new session has no pending requests and has made no calls, sends or emissions |
| Session.Session.RegisterRequest | index.js:1483-1500 | the request is added to the table unless its id is present, and its timer is armed |
| Session.Session.UnregisterRequest | index.js:1872-1885 | the id leaves the table, its timer is cleared, and the removed request is returned when there was one |
| Session.Session.CancelOne | index.js:1099-1106 | one pending request is removed, its timer cleared and its callback called with the error |
| Session.Session.CancelLeast | index.js:1099-1106 | the request with the least id is cancelled, extending the cancel calls in order |
| Session.Session.CancelRequests | index.js:1099-1106 | every pending request is removed, its timer cleared and its callback called with the error, in ascending id order |
| Session.Session.OnClose | index.js:1393-1396 | closing cancels every pending request with the "Socket forcibly closed" error |
| Session.Session.Send | index.js:1502-1525 | a serialisation error goes to the callback and nothing is sent; otherwise the octets go to the request's port, then a socket error goes to the callback, a message sent without waiting gets a bare null, and a request that waits is registered with its timer running |
| Session.Session.Timeout | index.js:1491-1499 | the timer that fired is disarmed; with retries left the request is sent again, one retry is used and the timer is armed again only when the resend succeeds; otherwise the request is unregistered and its callback gets "Request timed out" |
| Session.Session.Expire | index.js:1494-1498 | with no retries left the request registered under the id is removed and the callback gets "Request timed out"; nothing is sent |
| Session.Session.Conclude | index.js:1423-1455 | a verdict other than a resend makes its callback calls and leaves the table alone |
| Session.Session.SendOriginal | index.js:1439-1448 | a Report resends the original PDU in a fresh v3 request with the reported engine fields and the same callback and port |
| Session.Session.Respond | index.js:1423-1455 | the dispatch verdict is carried out: callback calls, or the resend of the original PDU |
| Session.Session.Handle | index.js:1410-1455 | the authentication check then the dispatch are carried out |
| Session.Session.Deliver | index.js:1404-1459 | a response for no pending request changes nothing; otherwise the request is unregistered and the verdict carried out |
| Session.Session.OnMsg | index.js:1402-1459 | a message that fails to parse is emitted as an error; otherwise it is delivered by its request id |
| Session.Session.SimpleGet | index.js:1569-1593 | a v1 or v2c session sends the PDU in a community message; a v3 session first sends an empty discovery GetRequest from the empty user and keeps the PDU as the original to send after the Report |
| Session.Session.Get | index.js:1115-1153 | get sends a GetRequest for the OIDs with null values, checked by the get feed |
| Session.Session.Set | index.js:1527-1567 | set sends a SetRequest with copies of the varbinds, checked by the set feed |
| Session.Session.GetNext | index.js:1263-1304 | getNext sends a GetNextRequest for the OIDs, checked by the getNext feed |
| Session.Session.GetBulk | index.js:1155-1261 | getBulk sends a GetBulkRequest with its non-repeaters and max-repetitions, checked by the getBulk feed |
| Session.Session.Inform | index.js:1306-1391 | inform sends an InformRequest with the uptime and trap OID varbinds before copies of the caller's, to the trap port |
| Session.Session.Trap | index.js:1766-1870 | a trap is sent without waiting, to the trap port, as a community or v3 message; a trap type that cannot be built sends nothing and calls nothing |
| Walk.Count | index.js:1904-1910 | the number of varbinds the scan drops is at most the batch length |
| Walk.PopScanSpec | index.js:1904-1910 | the scan pops one varbind from the end for each varbind that matches, wherever that varbind is |
| Walk.TrimSpec | index.js:1904-1910 | trimming drops as many varbinds from the end as match, and reports whether any did |
| Walk.TrimTrailing | index.js:1904-1910 | when the matching varbinds are exactly the trailing ones, the trim removes just them |
| Walk.PopsLastNotMatched | index.js:1904-1910 | an EndOfMibView followed by another varbind is kept while the other is popped |
| Walk.TrimTail | index.js:1904-1910 | the pop loop gives the trim of its specification |
| Walk.WalkStep | index.js:1887-1932 | errors other than NoSuchName end the walk with the error; NoSuchName ends a v1 walk, while a v2c/v3 walk reads the missing varbinds and ends with that TypeError; a feed that throws ends the walk with its exception, except that a NoSuchName failure ends a v1 walk quietly and makes the session emit the TypeError of a v2c/v3 walk without any doneCb call, and only that case emits; the feed saying stop, or an EndOfMibView in a v2 batch, ends it; otherwise the walk goes on from the last (v2) or first (v1) varbind fed |
| Walk.WalkContinuesFromLast | index.js:1903-1914 | a v2 batch without EndOfMibView that the feed accepts continues from its last OID |
| Walk.Steps | index.js:1887-1932 | one step per response callback |
| Walk.RequestsAndDones | index.js:1887-1932 | each step either requests again, calls doneCb, or has the session emit an error |
| Walk.Walk | index.js:1934-1962 | a walk requests its starting OID then one more per continuing step, calls doneCb once per finishing step, and has the session emit an error once per emitting step |
| Walk.SubtreeStopsAtBoundary | index.js:1595-1610 | the subtree callback drops as many varbinds as lie outside the subtree, feeds the rest when there are any, and asks to stop when it dropped some |
| Walk.SubtreeIgnoresStop | index.js:1595-1610 | varbinds inside then outside the subtree feed the inside ones and stop exactly when some are outside |
| Walk.SubtreeCb | index.js:1595-1610 | the subtree callback loop gives its specification's answer |
| Walk.Subtree | index.js:1612-1637 | subtree is a walk whose feed is the subtree callback |
| Walk.FindText | index.js:1664 | the position found is an occurrence of the text at or after the start |
| Walk.FindTextFirst | index.js:1664 | no occurrence precedes the position found |
| Walk.DigitRun | index.js:1666 | the run ends at the first non-digit |
| Walk.RowKey | index.js:1666 | a row key splits into a non-empty column number, a dot and a non-empty index |
| Walk.SetCell | index.js:1668-1670 | setting a cell adds or replaces just that column of that row |
| Walk.FoldFails | index.js:1657-1674 | adding a batch to the table fails exactly when a varbind in it is an error, and then with the error for an undefined varbind |
| Walk.RemovePrefix | index.js:1664 | removing the row prefix from an OID that starts with it leaves the rest |
| Walk.RowKeyOf | index.js:1666 | a column number, dot and index parse back to that column and index |
| Walk.CellKeyOf | index.js:1664-1667 | a cell OID under the row gives its column and index when the column number is positive |
| Walk.CellOf | index.js:1657-1674 | a good varbind under the row sets the cell of its column and index to its value |
| Walk.TableReq.constructor | index.js:1691-1698 | a table request starts with the row OID of the table entry, its columns and an empty table |
| Walk.TableReq.FeedCb | index.js:1657-1674 | the feed adds the batch to the table, or fails, and never asks the walk to stop |
| Walk.TableReq.RunWalk | index.js:1639-1674 | walking one column gives the specification's answer and leaves the table it built |
| Walk.TableReq.PopColumn | index.js:1645-1646 | the next column walked is the last one left |
| Walk.TableReq.WalkColumns | index.js:1639-1655 | the columns are walked from the last, one walk each, until one fails or none are left |
| Walk.WalkFails | index.js:1710-1736 | a table walk fails exactly when the walk ends in error or a batch holds a varbind error |
| Walk.TableOf | index.js:1738-1764 | table gives the answer of walking the table entry's subtree into an empty table |
| Walk.ColumnWalksStops | index.js:1639-1655 | a failed walk, or the last column, ends the column walks with that answer |
| Walk.ColumnWalksGoesOn | index.js:1639-1655 | a successful column walk goes on with the next column and the table so far |
| Walk.ColumnsCount | index.js:1639-1655 | at most one walk per column; success means all columns were walked |
| Walk.ColumnsWalkedInOrder | index.js:1639-1655 | the columns walked are a prefix of the columns in reverse |
| Walk.ColumnsNamedInReverse | index.js:1639-1655 | the k-th column walked is the k-th from the end |
| Walk.ColumnsInReverse | index.js:1676-1708 | tableColumns walks the column OIDs of the entry from the last column |
| Walk.TableColumns | index.js:1676-1708 | tableColumns gives the columns walked and the answer of its specification |

## Left out

- The UDP socket, the timers and the EventEmitter are not modelled as such. Datagrams sent, callbacks made and errors emitted are logs on the session. A timer that fires is a call of `Timeout`, and an arriving datagram is a call of `OnMsg`.
- `close` and `onError` are not modelled. The socket close is modelled only through `OnClose`, and the "close" event it emits is not modelled.
- User callbacks are numbers in the call log; the feed callbacks of walks are functions returning a result. A walk's feed callback that throws is modelled: its exception is the error result, and onMsg's catches take it on (`Walk.WalkStep`). Any other callback that throws (responseCb, doneCb, the table callbacks' responseCb), and a callback that calls the session again from inside itself, are not modelled.
- Optional arguments and variadic argument shapes are not modelled. Each operation takes its options already resolved, and defaults (port, retries, timeout, idBitsSize) are parameters.
- `_generateId` and `process.uptime` are inputs (`Draws`, `processUptime`), not a random source or a clock. `crypto.randomBytes` is the `random` parameter.
- The MD5 and SHA-1 hashes and the DES cipher are function-typed parameters. The model proves what holds for any hash of the stated size and any cipher that inverts.
- The `asn1-ber` library is a record of functions over abstract items. BER lengths, tags and nesting are not modelled byte by byte.
- `readUint64` and `writeUint64` (Counter64) pass the octets through unchanged.
- Walk and table responses are given as sequences of the callback arguments the walk receives. maxRepetitions affects only the request, so it is not modelled.
- Responses.GetBulkFeed: a negative nonRepeaters is not modelled, since non-repeaters are natural numbers here.
- Session.Session.CancelRequests: ids are cancelled in ascending numeric order. That is the order JavaScript's for-in gives for non-negative integer keys. The order for negative ids, which `_generateId` never draws, is not modelled.
- Responses.BulkZeroRepeatersHangs: the loop that never ends is the `hung` flag of the outcome, not a running loop.
- Table indexes are map keys. JavaScript object-key quirks such as an index named `__proto__` are not modelled.
- The `req.error` branch of `tableColumnsResponseCb` cannot be reached in the source, so it is not modelled.
- `createSession` and `createV3Session` are not modelled; they only call the Session constructor. The socket setup inside that constructor is not modelled either.
- VarbindCodec.WriteValue: the TypeError texts are those of one Node.js version, and the copied varbind's undefined value is NullValue, so a missing and a null IP address give the same TypeError text.
- The RangeErrors Node.js throws for a Buffer argument out of range (`SnmpTypes.ArgumentOutOfRange`) keep only the first clause of their message, `The value of "<argument>" is out of range`. The clause that follows, with the accepted range and the value received, differs between Node.js versions and is not modelled. The argument named is the one current Node.js versions name: `offset`, `end`, `targetStart` or `value`.
- The `asn1-ber` library's own checks are not modelled: writeOID's validation of the OID text, and the length check of its Boolean reader.
- Usm.PasswordToKey: a password or engine ID given as text is taken as its octets. The UTF-8 conversion of `Buffer.from` (index.js:582) and of `hash.update` is not modelled.
- Oid.OidFollowsOid: OID components are unbounded integers and compare exactly. JavaScript reads a component above 2^53 as the nearest double, so two such components can compare equal there.
- JsNumber.StringToNumber: numbers are exact decimals, not IEEE doubles. A numeral with more significant digits than a double holds, or beyond its range, is rounded or becomes Infinity in the source, and -0 is 0 here.
- VarbindCodec.ValueToNumber: a Buffer is converted through its text with one character per octet. Node.js decodes it as UTF-8 first, which differs only for octets above 0x7f, and among those only 0xa0 matters: it is white space here and an invalid character there.
- VarbindCodec.VarbindRoundTrip: it covers the Integer type from -2^23 to 2^31-1 only; below that VarbindCodec.LowIntegerMisread states what is read instead. An OctetString given as text does not read back as text; VarbindCodec.TextOctetStringReadsAsOctets states what is read.
