/** Digests over length-prefixed fields: canonical requests and attachments. The
    hash is a parameter, taken to be injective; every Go string is shorter than 2^63. */
module Digests {
  import opened Octets
  import opened Identity

  type Hash = Bytes -> Bytes

  ghost predicate Injective(hash: Hash) { forall x, y | hash(x) == hash(y) :: x == y }

  const MAX_LENGTH: nat := 0x8000_0000_0000_0000

  ghost predicate GoStrings(values: seq<Bytes>) { Short(values, MAX_LENGTH) }

  /** The hash over a list of fields, and the list, determine each other. */
  lemma HashedFieldsIdentify(hash: Hash, left: seq<Bytes>, right: seq<Bytes>)
    requires Injective(hash) && GoStrings(left) && GoStrings(right)
    ensures hash(Fields(8, left)) == hash(Fields(8, right)) <==> left == right
  {
    CommonPowers();
    if Fields(8, left) == Fields(8, right) { FieldsAreDecodable(8, left, right); }
  }

  // ----- Requests ----------------------------------------------------------------------------

  datatype SendInput = SendInput(
    connectionID: Bytes, conversationID: Bytes, recipient: Bytes, lineID: Bytes, routeMode: Bytes, text: Bytes,
    mediaIDs: seq<Bytes>)

  /** The request up to white space around the conversation and the recipient. */
  function Canonical(trim: Bytes -> Bytes, input: SendInput): SendInput {
    input.(conversationID := trim(input.conversationID), recipient := trim(input.recipient))
  }

  function RequestFields(input: SendInput): seq<Bytes> {
    [input.connectionID, input.conversationID, input.recipient, input.lineID, input.routeMode,
        input.text] + input.mediaIDs
  }

  method CanonicalRequestDigest(hash: Hash, trim: Bytes -> Bytes, input: SendInput) returns (digest: Bytes)
    ensures digest == hash(Fields(8, RequestFields(Canonical(trim, input))))
    ensures digest == hash(Fields(8, [input.connectionID, trim(input.conversationID), trim(input.recipient),
                                      input.lineID, input.routeMode, input.text] + input.mediaIDs))
  {
    hide Fields;
    var written := WriteFields(8, [], [input.connectionID, trim(input.conversationID), trim(input.recipient),
                                       input.lineID, input.routeMode, input.text]);
    FieldsAppend(8, [input.connectionID, trim(input.conversationID), trim(input.recipient),
                     input.lineID, input.routeMode, input.text], input.mediaIDs);
    written := WriteFields(8, written, input.mediaIDs);
    assert written == Fields(8, RequestFields(Canonical(trim, input)));
    digest := hash(written);
  }

  /** Two requests have the same digest exactly when they are the same request up to trimming. */
  lemma RequestDigestsIdentify(hash: Hash, trim: Bytes -> Bytes, left: SendInput, right: SendInput)
    requires Injective(hash) && GoStrings(RequestFields(Canonical(trim, left)))
        && GoStrings(RequestFields(Canonical(trim, right)))
    ensures hash(Fields(8, RequestFields(Canonical(trim, left))))
            == hash(Fields(8, RequestFields(Canonical(trim, right))))
            <==>
            && left.connectionID == right.connectionID && left.lineID == right.lineID
            && left.routeMode == right.routeMode && left.text == right.text && left.mediaIDs == right.mediaIDs
            && trim(left.conversationID) == trim(right.conversationID)
            && trim(left.recipient) == trim(right.recipient)
  {
    var l, r := RequestFields(Canonical(trim, left)), RequestFields(Canonical(trim, right));
    HashedFieldsIdentify(hash, l, r);
    if l == r {
      assert l[0] == r[0] && l[1] == r[1] && l[2] == r[2] && l[3] == r[3] && l[4] == r[4] && l[5] == r[5];
      assert l[6..] == left.mediaIDs && r[6..] == right.mediaIDs;
    }
  }

  // ----- Decimal numbers -----------------------------------------------------------------------

  const MINUS: Byte := '-' as int

  function Digit(d: nat): Byte
    requires d < 10
  {
    '0' as int + d
  }

  function Decimal(n: nat): Bytes { if n < 10 then [Digit(n)] else Decimal(n / 10) + [Digit(n % 10)] }

  /** strconv.Itoa */
  function Itoa(n: int): Bytes { if n < 0 then [MINUS] + Decimal(-n) else Decimal(n) }

  lemma {:induction false} DecimalDiffers(x: nat, y: nat)
    requires Decimal(x) == Decimal(y)
    ensures x == y
  {
    DecimalShape(x);
    DecimalShape(y);
    var left, right := Decimal(x), Decimal(y);
    assert left[|left| - 1] == Digit(x % 10) && right[|right| - 1] == Digit(y % 10);
    if |left| > 1 {
      assert left[..|left| - 1] == Decimal(x / 10) && right[..|right| - 1] == Decimal(y / 10);
      DecimalDiffers(x / 10, y / 10);
    }
  }

  lemma {:induction false} DecimalShape(x: nat)
    ensures |Decimal(x)| >= 1 && Decimal(x)[0] != MINUS
    ensures |Decimal(x)| > 1 <==> x >= 10
  {
    if x >= 10 { DecimalShape(x / 10); }
  }

  lemma ItoaDiffers(x: int, y: int)
    requires Itoa(x) == Itoa(y)
    ensures x == y
  {
    if x < 0 { assert Itoa(x)[1..] == Decimal(-x); } else { DecimalShape(x); }
    if y < 0 { assert Itoa(y)[1..] == Decimal(-y); } else { DecimalShape(y); }
    assert Itoa(x)[0] == Itoa(y)[0];
    if x < 0 { DecimalDiffers(-x, -y); } else { DecimalDiffers(x, y); }
  }

  // ----- Attachments ---------------------------------------------------------------------------

  datatype Envelope = Envelope(
    revision: nat, version: int, provider: Bytes, ciphertext: Bytes, wrappedDEK: Bytes, nonce: Bytes, keyID: Bytes,
        keyVersion: int)

  datatype Locator = Locator(
    locator: Bytes, mimeType: Bytes, declaredSize: int, displayFilename: Bytes,
    keyDigest: Bytes, keyEnvelope: Envelope, thumbnailKeyDigest: Bytes, thumbnailKeyEnvelope: Envelope,
    providerMessageID: Bytes, position: int)

  /** Fingerprints are 32 bytes; integers are 64-bit. */
  predicate LocatorOk(l: Locator) {
    && |l.keyDigest| == 32 && |l.thumbnailKeyDigest| == 32
    && Int64(l.declaredSize) && Int64(l.position)
  }

  predicate Int64(x: int) { -0x8000_0000_0000_0000 <= x < 0x8000_0000_0000_0000 }

  /** uint64(x) */
  function Unsigned64(x: int): (u: nat)
    ensures u < 0x1_0000_0000_0000_0000
  {
    x % 0x1_0000_0000_0000_0000
  }

  /** What a key contributes: its fingerprint when there is one, else the sealed envelope. */
  datatype KeyIdentity = Fingerprint(digest: Bytes) | Sealed(envelope: Envelope)

  function KeyOf(digest: Bytes, envelope: Envelope): KeyIdentity {
    if digest != Zeros(32) then Fingerprint(digest) else Sealed(envelope)
  }

  function KeyFields(key: KeyIdentity): (f: seq<Bytes>)
    ensures |f| == if key.Fingerprint? then 2 else 9
  {
    match key
    case Fingerprint(digest) => [[1], digest]
    case Sealed(e) =>
      [[0], Decimal(e.revision), Itoa(e.version), e.provider, e.ciphertext, e.wrappedDEK, e.nonce, e.keyID,
          Itoa(e.keyVersion)]
  }

  /** writeKeyIdentity */
  method WriteKeyIdentity(written: Bytes, digest: Bytes, envelope: Envelope) returns (result: Bytes)
    ensures result == written + Fields(8, KeyFields(KeyOf(digest, envelope)))
  {
    if digest != Zeros(32) {
      result := WriteFields(8, written, [[1], digest]);
      return;
    }
    var e := envelope;
    result := WriteFields(8, written, [[0], Decimal(e.revision), Itoa(e.version), e.provider, e.ciphertext,
        e.wrappedDEK,
                                       e.nonce, e.keyID, Itoa(e.keyVersion)]);
  }

  function PlainFields(l: Locator): seq<Bytes> {
    [l.locator, l.mimeType, BigEndian(Unsigned64(l.declaredSize), 8), l.displayFilename]
  }

  function AttachmentFields(l: Locator): seq<Bytes> {
    PlainFields(l) + KeyFields(KeyOf(l.keyDigest, l.keyEnvelope)) + KeyFields(KeyOf(l.thumbnailKeyDigest,
        l.thumbnailKeyEnvelope))
  }

  method AttachmentIdentityDigest(hash: Hash, l: Locator) returns (digest: Bytes)
    ensures digest == hash(Fields(8, AttachmentFields(l)))
  {
    hide Fields, KeyFields;
    var written := WriteFields(8, [], PlainFields(l));
    written := WriteKeyIdentity(written, l.keyDigest, l.keyEnvelope);
    written := WriteKeyIdentity(written, l.thumbnailKeyDigest, l.thumbnailKeyEnvelope);
    var key, thumbnail := KeyFields(KeyOf(l.keyDigest, l.keyEnvelope)),
        KeyFields(KeyOf(l.thumbnailKeyDigest, l.thumbnailKeyEnvelope));
    FieldsAppend(8, PlainFields(l) + key, thumbnail);
    FieldsAppend(8, PlainFields(l), key);
    assert written == Fields(8, AttachmentFields(l));
    digest := hash(written);
  }

  lemma KeyFieldsSplit(left: KeyIdentity, leftRest: seq<Bytes>, right: KeyIdentity, rightRest: seq<Bytes>)
    requires KeyFields(left) + leftRest == KeyFields(right) + rightRest
    ensures left == right && leftRest == rightRest
  {
    var all, other := KeyFields(left) + leftRest, KeyFields(right) + rightRest;
    assert all[0] == KeyFields(left)[0] && other[0] == KeyFields(right)[0];
    assert KeyFields(left)[0][0] == KeyFields(right)[0][0];
    assert left.Fingerprint? == right.Fingerprint?;
    var n := |KeyFields(left)|;
    assert all[..n] == KeyFields(left) && other[..n] == KeyFields(right);
    assert all[n..] == leftRest && other[n..] == rightRest;
    KeyFieldsDiffer(left, right);
  }

  lemma KeyFieldsDiffer(left: KeyIdentity, right: KeyIdentity)
    requires KeyFields(left) == KeyFields(right) && left.Fingerprint? == right.Fingerprint?
    ensures left == right
  {
    hide Decimal, Itoa;
    var l, r := KeyFields(left), KeyFields(right);
    assert l[1] == r[1];
    if left.Sealed? {
      assert l[2] == r[2] && l[3] == r[3] && l[4] == r[4] && l[5] == r[5] && l[6] == r[6] && l[7] == r[7]
          && l[8] == r[8];
      DecimalDiffers(left.envelope.revision, right.envelope.revision);
      ItoaDiffers(left.envelope.version, right.envelope.version);
      ItoaDiffers(left.envelope.keyVersion, right.envelope.keyVersion);
    }
  }

  lemma UnsignedDiffers(x: int, y: int)
    requires Int64(x) && Int64(y) && BigEndian(Unsigned64(x), 8) == BigEndian(Unsigned64(y), 8)
    ensures x == y
  {
    hide BigEndian;
    CommonPowers();
    BigEndianDiffers(Unsigned64(x), Unsigned64(y), 8);
  }

  /** The same key: equal fingerprints, and where there is no fingerprint, equal sealed envelopes. */
  predicate SameKey(digest: Bytes, envelope: Envelope, digest': Bytes, envelope': Envelope) {
    digest == digest' && (digest == seq(32, _ => 0) ==> envelope == envelope')
  }

  /** The same content: everything that affects fetching or presentation. */
  predicate SameAttachment(left: Locator, right: Locator) {
    && left.locator == right.locator && left.mimeType == right.mimeType
    && left.declaredSize == right.declaredSize && left.displayFilename == right.displayFilename
    && SameKey(left.keyDigest, left.keyEnvelope, right.keyDigest, right.keyEnvelope)
    && SameKey(left.thumbnailKeyDigest, left.thumbnailKeyEnvelope, right.thumbnailKeyDigest,
               right.thumbnailKeyEnvelope)
  }

  lemma KeyOfIdentifies(digest: Bytes, envelope: Envelope, digest': Bytes, envelope': Envelope)
    ensures KeyOf(digest, envelope) == KeyOf(digest', envelope') <==> SameKey(digest, envelope, digest', envelope')
  {
    assert Zeros(32) == seq(32, _ => 0);
  }

  lemma KeysAgree(left: Locator, right: Locator)
    ensures SameKey(left.keyDigest, left.keyEnvelope, right.keyDigest, right.keyEnvelope) <==>
            KeyOf(left.keyDigest, left.keyEnvelope) == KeyOf(right.keyDigest, right.keyEnvelope)
    ensures SameKey(left.thumbnailKeyDigest, left.thumbnailKeyEnvelope, right.thumbnailKeyDigest,
                    right.thumbnailKeyEnvelope) <==>
            KeyOf(left.thumbnailKeyDigest, left.thumbnailKeyEnvelope) ==
            KeyOf(right.thumbnailKeyDigest, right.thumbnailKeyEnvelope)
  {
    KeyOfIdentifies(left.keyDigest, left.keyEnvelope, right.keyDigest, right.keyEnvelope);
    KeyOfIdentifies(left.thumbnailKeyDigest, left.thumbnailKeyEnvelope, right.thumbnailKeyDigest,
                    right.thumbnailKeyEnvelope);
  }

  lemma AttachmentFieldsDiffer(left: Locator, right: Locator)
    requires LocatorOk(left) && LocatorOk(right) && AttachmentFields(left) == AttachmentFields(right)
    ensures SameAttachment(left, right)
  {
    hide BigEndian, KeyFields, KeyOf, SameKey;
    var l, r := AttachmentFields(left), AttachmentFields(right);
    assert l[0] == r[0] && l[1] == r[1] && l[2] == r[2] && l[3] == r[3];
    UnsignedDiffers(left.declaredSize, right.declaredSize);
    var key, key' := KeyOf(left.keyDigest, left.keyEnvelope), KeyOf(right.keyDigest, right.keyEnvelope);
    var thumb, thumb' := KeyOf(left.thumbnailKeyDigest, left.thumbnailKeyEnvelope),
        KeyOf(right.thumbnailKeyDigest, right.thumbnailKeyEnvelope);
    assert l[4..] == KeyFields(key) + KeyFields(thumb) && r[4..] == KeyFields(key') + KeyFields(thumb');
    KeyFieldsSplit(key, KeyFields(thumb), key', KeyFields(thumb'));
    assert KeyFields(thumb) + [] == KeyFields(thumb') + [];
    KeyFieldsSplit(thumb, [], thumb', []);
    KeysAgree(left, right);
  }

  /** Attachment digests agree exactly on the same content, across fingerprints and sealed envelopes. */
  lemma AttachmentDigestsIdentify(hash: Hash, left: Locator, right: Locator)
    requires Injective(hash) && LocatorOk(left) && LocatorOk(right)
    requires GoStrings(AttachmentFields(left)) && GoStrings(AttachmentFields(right))
    ensures hash(Fields(8, AttachmentFields(left))) == hash(Fields(8, AttachmentFields(right)))
        <==> SameAttachment(left, right)
  {
    hide Fields, SameKey, KeyFields;
    HashedFieldsIdentify(hash, AttachmentFields(left), AttachmentFields(right));
    KeysAgree(left, right);
    if AttachmentFields(left) == AttachmentFields(right) { AttachmentFieldsDiffer(left, right); }
  }

  // ----- Aggregate IDs ----------------------------------------------------------------------------

  function HexDigit(d: nat): Byte
    requires d < 16
  {
    if d < 10 then '0' as int + d else 'a' as int + (d - 10)
  }

  function Hex(b: Bytes): Bytes {
    if b == [] then [] else [HexDigit(b[0] / 16), HexDigit(b[0] % 16)] + Hex(b[1..])
  }

  lemma HexDigitDiffers(c: Byte, d: Byte)
    requires HexDigit(c / 16) == HexDigit(d / 16) && HexDigit(c % 16) == HexDigit(d % 16)
    ensures c == d
  {
  }

  lemma {:induction false} HexDiffers(left: Bytes, right: Bytes)
    requires Hex(left) == Hex(right)
    ensures left == right
    decreases |left|
  {
    if left != [] && right != [] {
      var l, r := Hex(left), Hex(right);
      assert l[0] == r[0] && l[1] == r[1];
      HexDigitDiffers(left[0], right[0]);
      assert l[2..] == Hex(left[1..]) && r[2..] == Hex(right[1..]);
      HexDiffers(left[1..], right[1..]);
      assert left == [left[0]] + left[1..] && right == [right[0]] + right[1..];
    }
  }

  const PREFIX: Bytes := [0x61, 0x74, 0x74, 0x61, 0x63, 0x68, 0x6d, 0x65, 0x6e, 0x74, 0x5f]   // "attachment_"

  function AggregateFields(hash: Hash, l: Locator): seq<Bytes> {
    [l.providerMessageID, BigEndian(Unsigned64(l.position), 8), hash(Fields(8, AttachmentFields(l)))]
  }

  /** `short` is the first half of the hash. */
  method AttachmentAggregateID(hash: Hash, short: Hash, l: Locator) returns (id: Bytes)
    ensures id == PREFIX + Hex(short(Fields(8, AggregateFields(hash, l))))
  {
    hide Fields, Hex, BigEndian;
    var identity := AttachmentIdentityDigest(hash, l);
    var written := WriteFields(8, [], [l.providerMessageID, BigEndian(Unsigned64(l.position), 8), identity]);
    assert written == Fields(8, AggregateFields(hash, l));
    id := PREFIX + Hex(short(written));
  }

  /** Aggregate IDs agree exactly on the same attachment at the same position of the same message. */
  lemma AggregateIDsIdentify(hash: Hash, short: Hash, left: Locator, right: Locator)
    requires Injective(hash) && Injective(short) && LocatorOk(left) && LocatorOk(right)
    requires GoStrings(AttachmentFields(left)) && GoStrings(AttachmentFields(right))
    requires GoStrings(AggregateFields(hash, left)) && GoStrings(AggregateFields(hash, right))
    ensures PREFIX + Hex(short(Fields(8, AggregateFields(hash, left))))
            == PREFIX + Hex(short(Fields(8, AggregateFields(hash, right))))
            <==>
            && left.providerMessageID == right.providerMessageID && left.position == right.position
            && SameAttachment(left, right)
  {
    hide Fields, Hex, BigEndian, AttachmentFields;
    var l, r := AggregateFields(hash, left), AggregateFields(hash, right);
    HashedFieldsIdentify(short, l, r);
    AttachmentDigestsIdentify(hash, left, right);
    var x, y := Hex(short(Fields(8, l))), Hex(short(Fields(8, r)));
    assert (PREFIX + x)[|PREFIX|..] == x && (PREFIX + y)[|PREFIX|..] == y;
    if x == y { HexDiffers(short(Fields(8, l)), short(Fields(8, r))); }
    if l == r {
      assert l[0] == r[0] && l[1] == r[1] && l[2] == r[2];
      UnsignedDiffers(left.position, right.position);
    }
  }
}
