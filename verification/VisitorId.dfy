/** The hashed payload: four length-prefixed fields, so that no two inputs share a byte sequence. */
module VisitorId {
  import opened Wrappers
  import opened TrackedEvent

  const FIELD_LIMIT := 0x1_0000_0000
  const VISITOR_ID_LENGTH := 16

  /** writeUInt32BE. */
  function BigEndian32(n: int): (r: Bytes)
    requires 0 <= n < FIELD_LIMIT
    ensures |r| == 4
  {
    [(n / 0x100_0000) as byte, (n / 0x1_0000 % 0x100) as byte, (n / 0x100 % 0x100) as byte, (n % 0x100) as byte]
  }

  function ReadBigEndian32(r: Bytes): int
    requires |r| >= 4
  {
    r[0] as int * 0x100_0000 + r[1] as int * 0x1_0000 + r[2] as int * 0x100 + r[3] as int
  }

  type Field = f: Bytes | |f| < FIELD_LIMIT

  function LengthPrefixed(field: Field): Bytes {
    BigEndian32(|field|) + field
  }

  /** The buffer-writing form. */
  method LengthPrefixedBuffer(field: Field) returns (r: Bytes)
    ensures r == LengthPrefixed(field)
  {
    var prefix := new byte[4];
    var n := |field|;
    prefix[3] := (n % 0x100) as byte;
    prefix[2] := (n / 0x100 % 0x100) as byte;
    prefix[1] := (n / 0x1_0000 % 0x100) as byte;
    prefix[0] := (n / 0x100_0000) as byte;
    r := prefix[..] + field;
    assert prefix[..] == BigEndian32(n);
  }

  datatype VisitorInput = VisitorInput(salt: Field, siteId: Field, ip: Field, userAgent: Field)

  function Payload(input: VisitorInput): Bytes {
    LengthPrefixed(input.salt) + LengthPrefixed(input.siteId) + LengthPrefixed(input.ip) + LengthPrefixed(input.userAgent)
  }

  /** The first bytes of the digest of the payload. */
  function DeriveVisitorId(hash: Bytes -> Bytes, input: VisitorInput): Bytes {
    var digest := hash(Payload(input));
    if |digest| <= VISITOR_ID_LENGTH then digest else digest[..VISITOR_ID_LENGTH]
  }

  // ---- the decoder ----

  datatype Split = Split(field: Bytes, rest: Bytes)

  function TakeField(bytes: Bytes): Option<Split> {
    if |bytes| < 4 then None
    else
      var n := ReadBigEndian32(bytes);
      if n > |bytes| - 4 then None else Some(Split(bytes[4..4 + n], bytes[4 + n..]))
  }

  function DecodeFields(bytes: Bytes, count: nat): Option<seq<Bytes>> {
    if count == 0 then (if bytes == [] then Some([]) else None)
    else
      match TakeField(bytes)
      case None => None
      case Some(split) =>
        match DecodeFields(split.rest, count - 1)
        case None => None
        case Some(fields) => Some([split.field] + fields)
  }

  lemma BigEndianRoundTrip(n: int)
    requires 0 <= n < FIELD_LIMIT
    ensures ReadBigEndian32(BigEndian32(n)) == n
  {
    assert n == n / 0x100 * 0x100 + n % 0x100;
    assert n / 0x100 == n / 0x1_0000 * 0x100 + n / 0x100 % 0x100;
    assert n / 0x1_0000 == n / 0x100_0000 * 0x100 + n / 0x1_0000 % 0x100;
  }

  lemma TakeFieldInvertsPrefix(field: Field, rest: Bytes)
    ensures TakeField(LengthPrefixed(field) + rest) == Some(Split(field, rest))
  {
    var bytes := LengthPrefixed(field) + rest;
    BigEndianRoundTrip(|field|);
    assert bytes[..4] == BigEndian32(|field|);
    assert ReadBigEndian32(bytes) == |field|;
    assert bytes[4..4 + |field|] == field && bytes[4 + |field|..] == rest;
  }

  function EncodeFields(fields: seq<Field>): Bytes {
    if fields == [] then [] else LengthPrefixed(fields[0]) + EncodeFields(fields[1..])
  }

  lemma {:induction false} DecodeInvertsEncode(fields: seq<Field>)
    ensures DecodeFields(EncodeFields(fields), |fields|) == Some(fields)
  {
    if fields != [] {
      TakeFieldInvertsPrefix(fields[0], EncodeFields(fields[1..]));
      DecodeInvertsEncode(fields[1..]);
      assert fields == [fields[0]] + fields[1..];
    }
  }

  function Fields(input: VisitorInput): seq<Field> {
    [input.salt, input.siteId, input.ip, input.userAgent]
  }

  lemma PayloadEncodesFields(input: VisitorInput)
    ensures Payload(input) == EncodeFields(Fields(input))
  {
    var a, b, c, d :=
      LengthPrefixed(input.salt), LengthPrefixed(input.siteId), LengthPrefixed(input.ip), LengthPrefixed(input.userAgent);
    var f := Fields(input);
    assert f[1..] == [input.siteId, input.ip, input.userAgent];
    assert f[1..][1..] == [input.ip, input.userAgent];
    assert f[1..][1..][1..] == [input.userAgent];
    calc {
      EncodeFields(f);
      a + EncodeFields(f[1..]);
      a + (b + EncodeFields(f[1..][1..]));
      a + (b + (c + EncodeFields(f[1..][1..][1..])));
      { assert [input.userAgent][1..] == []; assert EncodeFields([input.userAgent]) == d + []; }
      a + (b + (c + d));
      a + b + c + d;
    }
  }

  /** The payload determines all four fields. */
  lemma DecodeInvertsPayload(input: VisitorInput)
    ensures DecodeFields(Payload(input), 4) == Some(Fields(input))
  {
    PayloadEncodesFields(input);
    DecodeInvertsEncode(Fields(input));
  }

  lemma PayloadIsInjective(x: VisitorInput, y: VisitorInput)
    requires Payload(x) == Payload(y)
    ensures x == y
  {
    DecodeInvertsPayload(x);
    DecodeInvertsPayload(y);
    assert forall i | 0 <= i < 4 :: Fields(x)[i] == Fields(y)[i];
    assert Fields(x)[0] == x.salt && Fields(x)[1] == x.siteId && Fields(x)[2] == x.ip && Fields(x)[3] == x.userAgent;
  }

  /** The bytes in order: each field behind its length, which for fields below 256 bytes is the fourth byte of four. */
  lemma PayloadOfShortFields(input: VisitorInput)
    requires |input.salt| < 256 && |input.siteId| < 256 && |input.ip| < 256 && |input.userAgent| < 256
    ensures Payload(input)
         == [0, 0, 0, |input.salt| as byte] + input.salt + [0, 0, 0, |input.siteId| as byte] + input.siteId
            + [0, 0, 0, |input.ip| as byte] + input.ip + [0, 0, 0, |input.userAgent| as byte] + input.userAgent
  {
    assert forall n | 0 <= n < 256 :: BigEndian32(n) == [0, 0, 0, n as byte];
  }

  /** What is kept of a digest. */
  function FirstSixteen(digest: Bytes): Bytes {
    if |digest| <= 16 then digest else digest[..16]
  }

  /** No two different byte strings of these have digests that agree on what is kept. */
  ghost predicate Separates(hash: Bytes -> Bytes, texts: set<Bytes>) {
    forall x, y | x in texts && y in texts && FirstSixteen(hash(x)) == FirstSixteen(hash(y)) :: x == y
  }

  /** The hash separates the payloads of these inputs: a property of the hash, not of how ids are derived. */
  ghost predicate CollisionFreeOn(hash: Bytes -> Bytes, inputs: set<VisitorInput>) {
    Separates(hash, set i | i in inputs :: Payload(i))
  }

  /** Short of a collision two inputs have one id exactly when they agree in salt, site, address and user agent. */
  lemma IdsFollowFields(hash: Bytes -> Bytes, inputs: set<VisitorInput>, x: VisitorInput, y: VisitorInput)
    requires CollisionFreeOn(hash, inputs) && x in inputs && y in inputs
    ensures DeriveVisitorId(hash, x) == DeriveVisitorId(hash, y)
       <==> x.salt == y.salt && x.siteId == y.siteId && x.ip == y.ip && x.userAgent == y.userAgent
  {
    assert DeriveVisitorId(hash, x) == FirstSixteen(hash(Payload(x))) && DeriveVisitorId(hash, y) == FirstSixteen(hash(Payload(y)));
    if Payload(x) == Payload(y) {
      PayloadIsInjective(x, y);
    }
  }
}
