/** Framing of one cached node output: header (checksum, payload length) and payload
    (archive length, archive, state JSON).  SHA-256 and the JSON form of the state are
    parameters. */
module EntryCodec {
  import opened Wrappers
  import opened Models

  datatype CacheEntry = CacheEntry(archive: Bytes, state: Answers)

  datatype Codec = Codec(sha256: Bytes -> Bytes, toJson: Answers -> Bytes, fromJson: Bytes -> Option<Answers>) {
    ghost predicate Valid() {
      && (forall b: Bytes {:trigger sha256(b)} :: |sha256(b)| == CHECKSUM_LEN)
      && (forall s: Answers {:trigger toJson(s)} :: fromJson(toJson(s)) == Some(s))
    }
  }

  const CHECKSUM_LEN := 32
  const LEN_FIELD := 8
  const HEADER_LEN := CHECKSUM_LEN + LEN_FIELD
  const U64: nat := 0x1_0000_0000_0000_0000

  // ----------------------------------------------- little-endian integers

  /** The low `width` bytes of `n`, least significant first. */
  function ToLe(n: nat, width: nat): (r: Bytes)
    ensures |r| == width
  {
    if width == 0 then [] else [n % 256] + ToLe(n / 256, width - 1)
  }

  function FromLe(b: Bytes): nat {
    if b == [] then 0 else b[0] + 256 * FromLe(b[1..])
  }

  function Pow256(width: nat): (r: nat)
    ensures r > 0
  {
    if width == 0 then 1 else 256 * Pow256(width - 1)
  }

  lemma {:induction false} LeRoundTrip(n: nat, width: nat)
    requires n < Pow256(width)
    ensures FromLe(ToLe(n, width)) == n
  {
    if width > 0 {
      LeRoundTrip(n / 256, width - 1);
    }
  }

  lemma {:induction false} LeInjective(a: Bytes, b: Bytes)
    requires |a| == |b| && FromLe(a) == FromLe(b)
    ensures a == b
  {
    if a != [] {
      assert a[0] == b[0] && FromLe(a[1..]) == FromLe(b[1..]);
      LeInjective(a[1..], b[1..]);
      assert a == [a[0]] + a[1..] && b == [b[0]] + b[1..];
    }
  }

  /** The digits to base 256, least significant first. */
  lemma {:induction false} LeDigits(n: nat, width: nat, i: nat)
    requires i < width
    ensures ToLe(n, width)[i] == n / Pow256(i) % 256
  {
    if i > 0 {
      LeDigits(n / 256, width - 1, i - 1);
      NestedDivision(n, Pow256(i - 1));
    }
  }

  lemma NestedDivision(n: nat, d: nat)
    requires d > 0
    ensures n / 256 / d == n / (256 * d)
  {
    var q := n / 256 / d;
    var r := n / 256 % d;
    assert n == 256 * (q * d + r) + n % 256;
    assert n == q * (256 * d) + (256 * r + n % 256);
    assert 256 * r + n % 256 < 256 * d;
    QuotientUnique(n, 256 * d, q, 256 * r + n % 256);
  }

  lemma QuotientUnique(n: nat, d: nat, q: nat, r: nat)
    requires d > 0 && n == q * d + r && r < d
    ensures n / d == q
  {
    var q' := n / d;
    assert n == q' * d + n % d;
    if q' < q { TimesKeepsOrder(q' + 1, q, d); }
    if q < q' { TimesKeepsOrder(q + 1, q', d); }
  }

  lemma TimesKeepsOrder(a: nat, b: nat, d: nat)
    requires a <= b
    ensures a * d <= b * d
  {
  }

  lemma {:induction false} U64RoundTrip(n: nat)
    requires n < U64
    ensures FromLe(ToLe(n, LEN_FIELD)) == n
  {
    assert Pow256(8) == U64 by {
      assert Pow256(4) == 0x1_0000_0000;
    }
    LeRoundTrip(n, LEN_FIELD);
  }

  // ------------------------------------------------------------- framing

  function Payload(archive: Bytes, stateBytes: Bytes): Bytes {
    ToLe(|archive|, LEN_FIELD) + archive + stateBytes
  }

  function Header(codec: Codec, payload: Bytes): Bytes {
    codec.sha256(payload) + ToLe(|payload|, LEN_FIELD)
  }

  function Frame(codec: Codec, archive: Bytes, stateBytes: Bytes): Bytes {
    Header(codec, Payload(archive, stateBytes)) + Payload(archive, stateBytes)
  }

  function Encoded(codec: Codec, entry: CacheEntry): Bytes {
    Frame(codec, entry.archive, codec.toJson(entry.state))
  }

  /** A byte vector never exceeds `isize::MAX` bytes, so its length fits 64 bits. */
  predicate Fits(bytes: Bytes) { |bytes| < 0x8000_0000_0000_0000 }

  method Encode(codec: Codec, entry: CacheEntry) returns (out: Bytes)
    ensures out == Encoded(codec, entry)
  {
    var stateJson := codec.toJson(entry.state);
    var payload := [];
    payload := payload + ToLe(|entry.archive|, LEN_FIELD);
    payload := payload + entry.archive;
    payload := payload + stateJson;
    assert payload == Payload(entry.archive, stateJson);
    var checksum := codec.sha256(payload);
    out := [];
    out := out + checksum;
    out := out + ToLe(|payload|, LEN_FIELD);
    out := out + payload;
    assert out == Header(codec, payload) + payload;
  }

  function DecodePayload(codec: Codec, payload: Bytes): Option<CacheEntry> {
    if |payload| < LEN_FIELD then None
    else
      var archiveLen := FromLe(payload[..LEN_FIELD]);
      var archiveEnd := LEN_FIELD + archiveLen;
      if archiveEnd >= U64 then None        // checked_add
      else if archiveEnd > |payload| then None
      else match codec.fromJson(payload[archiveEnd..])
        case None => None
        case Some(state) => Some(CacheEntry(payload[LEN_FIELD..archiveEnd], state))
  }

  function Decode(codec: Codec, bytes: Bytes): Option<CacheEntry> {
    if |bytes| < HEADER_LEN then None
    else
      var checksum := bytes[..CHECKSUM_LEN];
      var payloadLen := FromLe(bytes[CHECKSUM_LEN..HEADER_LEN]);
      var payload := bytes[HEADER_LEN..];
      if |payload| != payloadLen then None
      else if codec.sha256(payload) != checksum then None
      else DecodePayload(codec, payload)
  }

  // ----------------------------------------------------------- properties

  lemma PayloadParts(codec: Codec, archive: Bytes, stateBytes: Bytes)
    requires Fits(Payload(archive, stateBytes))
    ensures DecodePayload(codec, Payload(archive, stateBytes)) ==
            match codec.fromJson(stateBytes)
            case None => None
            case Some(state) => Some(CacheEntry(archive, state))
  {
    var payload := Payload(archive, stateBytes);
    U64RoundTrip(|archive|);
    assert payload[..LEN_FIELD] == ToLe(|archive|, LEN_FIELD);
    assert payload[LEN_FIELD..LEN_FIELD + |archive|] == archive;
    assert payload[LEN_FIELD + |archive|..] == stateBytes;
  }

  /** What a well-formed header admits, for any 40 header bytes and any payload. */
  lemma DecodeHeader(codec: Codec, header: Bytes, payload: Bytes)
    requires codec.Valid() && |header| == HEADER_LEN && Fits(payload)
    ensures Decode(codec, header + payload) ==
            if header == Header(codec, payload) then DecodePayload(codec, payload) else None
  {
    var bytes := header + payload;
    assert bytes[HEADER_LEN..] == payload;
    assert bytes[..CHECKSUM_LEN] == header[..CHECKSUM_LEN];
    assert bytes[CHECKSUM_LEN..HEADER_LEN] == header[CHECKSUM_LEN..];
    assert header == header[..CHECKSUM_LEN] + header[CHECKSUM_LEN..];
    var good := Header(codec, payload);
    assert good[..CHECKSUM_LEN] == codec.sha256(payload);
    assert good[CHECKSUM_LEN..] == ToLe(|payload|, LEN_FIELD);
    U64RoundTrip(|payload|);
    if |payload| == FromLe(header[CHECKSUM_LEN..]) {
      LeInjective(header[CHECKSUM_LEN..], ToLe(|payload|, LEN_FIELD));
    }
  }

  /** Round trip. */
  lemma DecodeEncode(codec: Codec, entry: CacheEntry)
    requires codec.Valid() && Fits(Encoded(codec, entry))
    ensures Decode(codec, Encoded(codec, entry)) == Some(entry)
  {
    var payload := Payload(entry.archive, codec.toJson(entry.state));
    DecodeHeader(codec, Header(codec, payload), payload);
    PayloadParts(codec, entry.archive, codec.toJson(entry.state));
  }

  /** Exactly the framed byte strings decode, and to what they frame. */
  lemma DecodeExact(codec: Codec, bytes: Bytes, entry: CacheEntry)
    requires codec.Valid() && Fits(bytes)
    ensures Decode(codec, bytes) == Some(entry) <==>
            exists stateBytes ::
                codec.fromJson(stateBytes) == Some(entry.state) && bytes == Frame(codec, entry.archive, stateBytes)
  {
    if Decode(codec, bytes) == Some(entry) {
      var payload := bytes[HEADER_LEN..];
      assert bytes == bytes[..HEADER_LEN] + payload;
      DecodeHeader(codec, bytes[..HEADER_LEN], payload);
      var archiveEnd := LEN_FIELD + FromLe(payload[..LEN_FIELD]);
      var stateBytes := payload[archiveEnd..];
      assert |entry.archive| == FromLe(payload[..LEN_FIELD]);
      U64RoundTrip(|entry.archive|);
      LeInjective(payload[..LEN_FIELD], ToLe(|entry.archive|, LEN_FIELD));
      assert payload == payload[..LEN_FIELD] + payload[LEN_FIELD..archiveEnd] + stateBytes;
      assert bytes == Frame(codec, entry.archive, stateBytes);
    }
    if stateBytes :|
         codec.fromJson(stateBytes) == Some(entry.state) && bytes == Frame(codec, entry.archive, stateBytes) {
      var payload := Payload(entry.archive, stateBytes);
      DecodeHeader(codec, Header(codec, payload), payload);
      PayloadParts(codec, entry.archive, stateBytes);
    }
  }

  /** A truncated entry is a miss, at whatever point it was cut. */
  lemma TruncationIsMiss(codec: Codec, entry: CacheEntry, n: nat)
    requires codec.Valid() && Fits(Encoded(codec, entry)) && n < |Encoded(codec, entry)|
    ensures Decode(codec, Encoded(codec, entry)[..n]).None?
  {
    var bytes := Encoded(codec, entry);
    var payload := Payload(entry.archive, codec.toJson(entry.state));
    if n >= HEADER_LEN {
      assert bytes[..n] == Header(codec, payload) + payload[..n - HEADER_LEN];
      DifferentLengthIsMiss(codec, payload, payload[..n - HEADER_LEN]);
    }
  }

  /** So is an entry with anything appended. */
  lemma ExtensionIsMiss(codec: Codec, entry: CacheEntry, extra: Bytes)
    requires codec.Valid() && Fits(Encoded(codec, entry) + extra) && extra != []
    ensures Decode(codec, Encoded(codec, entry) + extra).None?
  {
    var payload := Payload(entry.archive, codec.toJson(entry.state));
    assert Encoded(codec, entry) + extra == Header(codec, payload) + (payload + extra);
    DifferentLengthIsMiss(codec, payload, payload + extra);
  }

  lemma DifferentLengthIsMiss(codec: Codec, payload: Bytes, other: Bytes)
    requires codec.Valid() && Fits(payload) && Fits(other) && |payload| != |other|
    ensures Decode(codec, Header(codec, payload) + other).None?
  {
    DecodeHeader(codec, Header(codec, payload), other);
    U64RoundTrip(|payload|);
    U64RoundTrip(|other|);
    assert Header(codec, payload)[CHECKSUM_LEN..] == ToLe(|payload|, LEN_FIELD);
    assert Header(codec, other)[CHECKSUM_LEN..] == ToLe(|other|, LEN_FIELD);
  }

  /** Any change confined to the 40-byte header is a miss; a changed payload under the same
      header is served only on a SHA-256 collision. */
  lemma CorruptionIsMiss(codec: Codec, entry: CacheEntry, header: Bytes, payload: Bytes)
    requires codec.Valid() && Fits(Encoded(codec, entry)) && Fits(payload) && |header| == HEADER_LEN
    ensures var good := Encoded(codec, entry);
            && (payload == good[HEADER_LEN..] && header != good[..HEADER_LEN] ==>
                  Decode(codec, header + payload).None?)
            && (payload != good[HEADER_LEN..] && header == good[..HEADER_LEN]
                && Decode(codec, header + payload).Some? ==>
                  codec.sha256(payload) == codec.sha256(good[HEADER_LEN..]))
  {
    var good := Encoded(codec, entry);
    var goodPayload := Payload(entry.archive, codec.toJson(entry.state));
    assert good[HEADER_LEN..] == goodPayload && good[..HEADER_LEN] == Header(codec, goodPayload);
    DecodeHeader(codec, header, payload);
    assert Header(codec, payload)[..CHECKSUM_LEN] == codec.sha256(payload);
    assert Header(codec, goodPayload)[..CHECKSUM_LEN] == codec.sha256(goodPayload);
  }

  /** Where things lie in an entry: the checksum of all behind the header, the length of that,
      the length of the archive, the archive, and the state. */
  lemma EntryLayout(codec: Codec, entry: CacheEntry)
    requires codec.Valid() && Fits(Encoded(codec, entry))
    ensures var bytes, n := Encoded(codec, entry), |entry.archive|;
            && |bytes| == 48 + n + |codec.toJson(entry.state)|
            && bytes[..32] == codec.sha256(bytes[40..])
            && FromLe(bytes[32..40]) == |bytes| - 40
            && FromLe(bytes[40..48]) == n
            && bytes[48..48 + n] == entry.archive
            && bytes[48 + n..] == codec.toJson(entry.state)
  {
    var bytes, payload := Encoded(codec, entry), Payload(entry.archive, codec.toJson(entry.state));
    assert bytes[40..] == payload && bytes[..32] == codec.sha256(payload);
    assert bytes[32..40] == ToLe(|payload|, LEN_FIELD);
    assert bytes[40..48] == payload[..8] == ToLe(|entry.archive|, LEN_FIELD);
    assert bytes[48..48 + |entry.archive|] == payload[8..8 + |entry.archive|] == entry.archive;
    assert bytes[48 + |entry.archive|..] == payload[8 + |entry.archive|..] == codec.toJson(entry.state);
    U64RoundTrip(|payload|);
    U64RoundTrip(|entry.archive|);
  }
}
