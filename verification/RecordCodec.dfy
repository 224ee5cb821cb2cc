/** The on-disk record: a length, a checksum, and the checksummed body. */
module RecordCodec {
  import opened Bytes
  import Crc32

  /** The largest encoding that is ever appended, and the largest length field that is ever accepted. */
  const MAX_RECORD_SIZE := 1048576

  datatype Record = Record(offset: uint64, timestamp: int64, key: bytes, value: bytes) {
    /** The value of the length field. */
    function Length(): nat {
      24 + |key| + |value|
    }

    /** The number of bytes the record takes in a log file. */
    function Size(): nat {
      28 + |key| + |value|
    }

    /** The record can be appended. */
    predicate Appendable() {
      Size() <= MAX_RECORD_SIZE
    }

    /** The record can be read back: its length field is within the decoder's limit. */
    predicate Readable() {
      Length() <= MAX_RECORD_SIZE
    }
  }

  /** A record that some log file can hold. */
  type Stored = r: Record | r.Readable() witness Record(0, 0, [], [])

  datatype DecodeResult =
    | Decoded(record: Stored)
    | Corrupt
    | TooLarge
    | Overread  // the key length wraps the 32-bit bound check, and the copy runs past the buffer

  /** The part of the encoding that the checksum covers. */
  function Body(r: Stored): (b: bytes)
    ensures |b| == r.Size() - 8
  {
    U64(r.offset) + U64(ToUnsigned(r.timestamp)) + U32(|r.key|) + r.key + r.value
  }

  function Encode(r: Stored): (b: bytes)
    ensures |b| == r.Size()
  {
    U32(r.Length()) + U32(Crc32.Checksum(Body(r))) + Body(r)
  }

  /** The checks that precede reading the key length: sizes, length field and checksum. */
  predicate HeaderOk(buf: bytes) {
    && |buf| >= 28
    && var length := GetU32(buf, 0);
    && 24 <= length <= MAX_RECORD_SIZE
    && 4 + length <= |buf|
    && GetU32(buf, 4) == Crc32.Checksum(buf[8..4 + length])
  }

  function Decode(buf: bytes): (r: DecodeResult) {
    if |buf| < 28 then Corrupt
    else
      var length := GetU32(buf, 0);
      if length < 24 then Corrupt
      else if length > MAX_RECORD_SIZE then TooLarge
      else if |buf| < 4 + length then Corrupt
      else if GetU32(buf, 4) != Crc32.Checksum(buf[8..4 + length]) then Corrupt
      else
        var keyLen := GetU32(buf, 24);
        if (24 + keyLen) % 0x1_0000_0000 > length then Corrupt
        else if 24 + keyLen > length then Overread
        else Decoded(Record(GetU64(buf, 8), ToSigned(GetU64(buf, 16)), buf[28..28 + keyLen],
                            buf[28 + keyLen..4 + length]))
  }

  /** Every field of `r` is where the layout puts it. */
  ghost predicate Laid(buf: bytes, r: Stored, checksum: uint32)
  {
    && At(buf, 0, U32(r.Length())) && At(buf, 4, U32(checksum))
    && At(buf, 8, U64(r.offset)) && At(buf, 16, U64(ToUnsigned(r.timestamp)))
    && At(buf, 24, U32(|r.key|)) && At(buf, 28, r.key) && At(buf, 28 + |r.key|, r.value)
  }

  lemma EncodeIsLaid(buf: bytes, r: Stored)
    ensures Encode(r) <= buf <==> Laid(buf, r, Crc32.Checksum(Body(r)))
    ensures Encode(r) <= buf ==> At(buf, 8, Body(r))
  {
    hide U32, U64, Crc32.Checksum, Body;
    var l, c, o, t, k := U32(r.Length()), U32(Crc32.Checksum(Body(r))), U64(r.offset), U64(ToUnsigned(r.timestamp)),
        U32(|r.key|);
    AtConcat(buf, 0, l + c, Body(r));
    AtConcat(buf, 0, l, c);
    BodyIsLaid(buf, 8, r);
    assert Encode(r) == (l + c) + Body(r);
    assert Encode(r) <= buf <==> At(buf, 0, Encode(r));
  }

  lemma BodyIsLaid(buf: bytes, at: nat, r: Stored)
    ensures At(buf, at, Body(r)) <==>
            && At(buf, at, U64(r.offset)) && At(buf, at + 8, U64(ToUnsigned(r.timestamp)))
            && At(buf, at + 16, U32(|r.key|)) && At(buf, at + 20, r.key) && At(buf, at + 20 + |r.key|, r.value)
  {
    var o, t, k := U64(r.offset), U64(ToUnsigned(r.timestamp)), U32(|r.key|);
    AtConcat(buf, at, o, t);
    AtConcat(buf, at, o + t, k);
    AtConcat(buf, at, o + t + k, r.key);
    AtConcat(buf, at, o + t + k + r.key, r.value);
  }

  /** The decoder's reads, as positions. */
  lemma FieldsRead(buf: bytes, r: Stored, checksum: uint32)
    requires r.Size() <= |buf|
    ensures Laid(buf, r, checksum) <==>
            && GetU32(buf, 0) == r.Length() && GetU32(buf, 4) == checksum
            && GetU64(buf, 8) == r.offset && GetU64(buf, 16) == ToUnsigned(r.timestamp)
            && GetU32(buf, 24) == |r.key| && buf[28..28 + |r.key|] == r.key && buf[28 + |r.key|..r.Size()] == r.value
  {
    At32(buf, 0, r.Length());
    At32(buf, 4, checksum);
    At64(buf, 8, r.offset);
    At64(buf, 16, ToUnsigned(r.timestamp));
    At32(buf, 24, |r.key|);
  }

  lemma DecodeIsLaid(buf: bytes, r: Stored)
    ensures Decode(buf) == Decoded(r) <==>
            r.Size() <= |buf| && Laid(buf, r, Crc32.Checksum(buf[8..r.Size()]))
  {
    hide U32, U64, GetU32, GetU64, Crc32.Checksum, At, Laid;
    if r.Size() <= |buf| {
      FieldsRead(buf, r, Crc32.Checksum(buf[8..r.Size()]));
      SignRoundTrip(r.timestamp, GetU64(buf, 16));
    }
  }

  /** Decoding accepts a buffer exactly when it starts with the encoding of a readable record, and returns that
      record. */
  lemma DecodesExactlyEncodings(buf: bytes, r: Stored)
    ensures Decode(buf) == Decoded(r) <==> Encode(r) <= buf
  {
    hide U32, U64, GetU32, GetU64, Crc32.Checksum, Decode, Encode, Body;
    DecodeIsLaid(buf, r);
    if r.Size() <= |buf| {
      EncodeIsLaid(buf, r);
      BodyIsLaid(buf, 8, r);
    }
  }

  /** The fields of an encoding. */
  lemma EncodedFields(r: Stored)
    ensures GetU32(Encode(r), 0) == r.Length() && Encode(r)[8..] == Body(r)
    ensures GetU32(Encode(r), 4) == Crc32.Checksum(Body(r))
  {
    var w := Encode(r);
    EncodeIsLaid(w, r);
    FieldsRead(w, r, Crc32.Checksum(Body(r)));
  }

  /** A torn write is recognised by its length alone. */
  lemma TornPrefixRejected(r: Stored, torn: bytes)
    requires torn < Encode(r)
    ensures Decode(torn) == Corrupt
  {
    EncodedFields(r);
    if |torn| >= 28 {
      SamePrefixFields(torn, Encode(r), |torn|);
    }
  }

  /** Exactly which buffers take the wrapped path of the key-length check. */
  lemma OverreadExactlyOnWrap(buf: bytes)
    ensures Decode(buf) == Overread <==> HeaderOk(buf) && GetU32(buf, 24) >= 0x1_0000_0000 - 24
  {
    hide GetU32, GetU64, Crc32.Checksum;
  }

  /** The wrapped path can be taken: a bare header with a huge key length and a matching checksum. */
  lemma OverreadHappens() returns (buf: bytes)
    ensures Decode(buf) == Overread
  {
    hide U32, U64, Crc32.Checksum, Decode;
    var k: uint32 := 0x1_0000_0000 - 24;
    var body := U64(0) + U64(0) + U32(k);
    var l, c := U32(24), U32(Crc32.Checksum(body));
    buf := l + c + body;
    AtConcat(buf, 0, l + c, body);
    AtConcat(buf, 0, l, c);
    AtConcat(buf, 8, U64(0) + U64(0), U32(k));
    BareHeader(buf, k, body);
  }

  lemma BareHeader(buf: bytes, k: uint32, body: bytes)
    requires |buf| == 28 && k == 0x1_0000_0000 - 24
    requires At(buf, 0, U32(24)) && At(buf, 4, U32(Crc32.Checksum(body))) && At(buf, 24, U32(k)) && buf[8..28] == body
    ensures Decode(buf) == Overread
  {
    hide U32, Crc32.Checksum;
    At32(buf, 0, 24);
    At32(buf, 4, Crc32.Checksum(body));
    At32(buf, 24, k);
  }

  lemma SamePrefixFields(a: bytes, b: bytes, lo: nat)
    requires 4 <= lo <= |a| && lo <= |b| && a[..lo] == b[..lo]
    ensures GetU32(a, 0) == GetU32(b, 0)
    ensures 8 <= lo ==> GetU32(a, 4) == GetU32(b, 4)
  {
    assert forall i :: 0 <= i < lo ==> a[i] == a[..lo][i] && b[i] == b[..lo][i];
  }

  lemma ChecksumFieldDamaged(r: Stored, buf: bytes)
    requires |buf| == r.Size() && buf != Encode(r)
    requires buf[..4] == Encode(r)[..4] && buf[8..] == Encode(r)[8..]
    ensures GetU32(buf, 4) != Crc32.Checksum(buf[8..])
  {
    var w := Encode(r);
    EncodedFields(r);
    var c := Crc32.Checksum(Body(r));
    assert buf == buf[..4] + buf[4..8] + buf[8..] && w == w[..4] + w[4..8] + w[8..];
    At32(buf, 4, c);
    At32(w, 4, c);
    assert buf[4..8] != w[4..8];
  }

  lemma BodyDamaged(r: Stored, buf: bytes, lo: nat, hi: nat)
    requires |buf| == r.Size() && buf != Encode(r)
    requires 8 <= lo <= hi <= |buf| && hi - lo <= 4
    requires buf[..lo] == Encode(r)[..lo] && buf[hi..] == Encode(r)[hi..]
    ensures Crc32.Checksum(buf[8..]) != Crc32.Checksum(Encode(r)[8..])
  {
    var w := Encode(r);
    var pre, post := w[8..lo], w[hi..];
    assert buf[8..lo] == buf[..lo][8..] == w[..lo][8..] == pre;
    assert buf[8..] == pre + buf[lo..hi] + post;
    assert w[8..] == pre + w[lo..hi] + post;
    assert buf == buf[..lo] + buf[lo..hi] + post && w == buf[..lo] + w[lo..hi] + post;
    Crc32.BurstDetected(pre, buf[lo..hi], w[lo..hi], post);
  }

  lemma BadChecksumIsCorrupt(buf: bytes, r: Stored)
    requires |buf| == r.Size() && GetU32(buf, 0) == r.Length()
    requires GetU32(buf, 4) != Crc32.Checksum(buf[8..])
    ensures Decode(buf) == Corrupt
  {
    assert buf[8..|buf|] == buf[8..];
  }

  /** A buffer that differs from an encoding only inside four neighbouring body bytes, or only in the checksum field,
      is corrupt. */
  lemma DamageDetected(r: Stored, buf: bytes, lo: nat, hi: nat)
    requires |buf| == r.Size() && buf != Encode(r)
    requires (lo == 4 && hi == 8) || (8 <= lo <= hi <= |buf| && hi - lo <= 4)
    requires buf[..lo] == Encode(r)[..lo] && buf[hi..] == Encode(r)[hi..]
    ensures Decode(buf) == Corrupt
  {
    EncodedFields(r);
    SamePrefixFields(buf, Encode(r), lo);
    if lo == 4 {
      ChecksumFieldDamaged(r, buf);
    } else {
      BodyDamaged(r, buf, lo, hi);
    }
    BadChecksumIsCorrupt(buf, r);
  }

  // ---- The codec's own loops ---------------------------------------------------------------

  /** `std::memcpy` into the buffer. */
  method Place(buf: array<byte>, at: nat, data: bytes)
    requires at + |data| <= buf.Length
    modifies buf
    ensures buf[at..at + |data|] == data
    ensures forall i :: 0 <= i < buf.Length && (i < at || at + |data| <= i) ==> buf[i] == old(buf[i])
  {
    for j := 0 to |data|
      invariant forall i :: 0 <= i < j ==> buf[at + i] == data[i]
      invariant forall i :: 0 <= i < buf.Length && (i < at || at + j <= i) ==> buf[i] == old(buf[i])
    {
      buf[at + j] := data[j];
    }
  }

  lemma AtKept(s: bytes, s': bytes, at: nat, w: bytes)
    requires At(s, at, w) && |s| == |s'| && forall i :: at <= i < at + |w| ==> s'[i] == s[i]
    ensures At(s', at, w)
  {
  }

  /** The header fields other than the checksum. */
  ghost predicate Headed(s: bytes, r: Stored) {
    && At(s, 0, U32(r.Length())) && At(s, 8, U64(r.offset)) && At(s, 16, U64(ToUnsigned(r.timestamp)))
    && At(s, 24, U32(|r.key|))
  }

  method PlaceHeader(buf: array<byte>, r: Stored)
    requires buf.Length == r.Size()
    modifies buf
    ensures Headed(buf[..], r)
  {
    hide U32, U64;
    var l, o, t, k := U32(r.Length()), U64(r.offset), U64(ToUnsigned(r.timestamp)), U32(|r.key|);
    Place(buf, 0, l);
    ghost var s0 := buf[..];
    Place(buf, 8, o);
    ghost var s1 := buf[..];
    AtKept(s0, s1, 0, l);
    Place(buf, 16, t);
    ghost var s2 := buf[..];
    AtKept(s1, s2, 0, l);
    AtKept(s1, s2, 8, o);
    Place(buf, 24, k);
    ghost var s3 := buf[..];
    AtKept(s2, s3, 0, l);
    AtKept(s2, s3, 8, o);
    AtKept(s2, s3, 16, t);
  }

  lemma HeadedKept(s: bytes, s': bytes, r: Stored)
    requires Headed(s, r) && |s| == |s'| && forall i :: 0 <= i < 28 ==> s'[i] == s[i]
    ensures Headed(s', r)
  {
    hide U32, U64, At;
    AtBound(s, r);
    AtKept(s, s', 0, U32(r.Length()));
    AtKept(s, s', 8, U64(r.offset));
    AtKept(s, s', 16, U64(ToUnsigned(r.timestamp)));
    AtKept(s, s', 24, U32(|r.key|));
  }

  lemma AtBound(s: bytes, r: Stored)
    requires Headed(s, r)
    ensures 28 <= |s|
  {
  }

  lemma HeadedBody(s: bytes, r: Stored)
    requires |s| == r.Size() && Headed(s, r) && At(s, 28, r.key) && At(s, 28 + |r.key|, r.value)
    ensures At(s, 8, Body(r)) && s[8..] == Body(r)
  {
    hide U32, U64, Body;
    BodyIsLaid(s, 8, r);
  }

  lemma WholeEncoding(s: bytes, r: Stored)
    requires |s| == r.Size() && At(s, 0, U32(r.Length())) && At(s, 4, U32(Crc32.Checksum(Body(r)))) && At(s, 8, Body(r))
    ensures s == Encode(r)
  {
    hide U32, U64, Body, Encode, Crc32.Checksum;
    BodyIsLaid(s, 8, r);
    EncodeIsLaid(s, r);
  }

  /** `RecordCodec::encode`: the buffer is filled field by field, the checksum last. */
  method EncodeRecord(r: Stored) returns (encoded: bytes)
    ensures encoded == Encode(r)
  {
    hide Encode, Body, Crc32.Checksum, U32, U64, Headed;
    var buf := new byte[4 + r.Length()];
    PlaceHeader(buf, r);
    ghost var s0 := buf[..];
    PlacePayload(buf, r);
    ghost var s1 := buf[..];
    HeadedKept(s0, s1, r);
    HeadedBody(s1, r);
    var crc := Crc32.Calculate(buf[8..]);
    assert buf[8..] == s1[8..];
    Place(buf, 4, U32(crc));
    encoded := buf[..];
    assert At(s1, 0, U32(r.Length())) by { HeadedLength(s1, r); }
    AtKept(s1, encoded, 0, U32(r.Length()));
    AtKept(s1, encoded, 8, Body(r));
    WholeEncoding(encoded, r);
  }

  lemma HeadedLength(s: bytes, r: Stored)
    requires Headed(s, r)
    ensures At(s, 0, U32(r.Length()))
  {
  }

  /** The key and the value go behind the header. */
  method PlacePayload(buf: array<byte>, r: Stored)
    requires buf.Length == r.Size()
    modifies buf
    ensures At(buf[..], 28, r.key) && At(buf[..], 28 + |r.key|, r.value)
    ensures forall i :: 0 <= i < 28 ==> buf[i] == old(buf[i])
  {
    Place(buf, 28, r.key);
    ghost var s := buf[..];
    Place(buf, 28 + |r.key|, r.value);
    AtKept(s, buf[..], 28, r.key);
  }

  /** `RecordCodec::decode`. */
  method DecodeRecord(buf: bytes) returns (r: DecodeResult)
    ensures r == Decode(buf)
  {
    hide Crc32.Checksum;
    if |buf| < 28 {
      return Corrupt;
    }
    var length := GetU32(buf, 0);
    if length < 24 {
      return Corrupt;
    }
    if length > MAX_RECORD_SIZE {
      return TooLarge;
    }
    if |buf| < 4 + length {
      return Corrupt;
    }
    var computed := Crc32.Calculate(buf[8..4 + length]);
    if GetU32(buf, 4) != computed {
      return Corrupt;
    }
    var keyLen := GetU32(buf, 24);
    if (24 + keyLen) % 0x1_0000_0000 > length {
      return Corrupt;
    }
    if 24 + keyLen > length {
      return Overread;
    }
    r := Decoded(Record(GetU64(buf, 8), ToSigned(GetU64(buf, 16)), buf[28..28 + keyLen], buf[28 + keyLen..4 + length]));
  }
}
