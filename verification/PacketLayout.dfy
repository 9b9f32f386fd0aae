/**
  Where every byte of a packet is and what it says, and what a receiver makes of any
  datagram, by fixed offsets.

  Printer and parser build and take apart packets piece by piece. Here they are compared
  with the table in the format's own documentation, in numbers.
 */
module PacketLayout {
  import opened Numbers
  import opened Wrappers
  import opened Utf8
  import opened Wire
  import T = WireTheorems

  // ---------------------------------------------------------------- integers by value

  predicate Holds16(s: Bytes, at: nat, v: int) {
    at + 2 <= |s| && s[at] == v / 0x100 && s[at + 1] == v % 0x100
  }

  predicate Holds32(s: Bytes, at: nat, v: int) {
    && at + 4 <= |s|
    && s[at] == v / 0x100_0000 && s[at + 1] == v / 0x1_0000 % 0x100
    && s[at + 2] == v / 0x100 % 0x100 && s[at + 3] == v % 0x100
  }

  predicate Holds64(s: Bytes, at: nat, v: int) {
    Holds32(s, at, v / 0x1_0000_0000) && Holds32(s, at + 4, v % 0x1_0000_0000)
  }

  lemma Bytes16(v: U16)
    ensures Be16(v) == [v / 0x100, v % 0x100]
  {
    assert BigEndian(v / 0x100, 1) == [v / 0x100];
  }

  lemma Quotients(v: nat)
    ensures v / 0x100 / 0x100 == v / 0x1_0000
    ensures v / 0x100 / 0x100 / 0x100 == v / 0x100_0000
    ensures v / 0x1_0000_0000 == v / 0x1_0000 / 0x1_0000
  {
  }

  lemma Bytes32(v: U32)
    ensures Be32(v) == [v / 0x100_0000, v / 0x1_0000 % 0x100, v / 0x100 % 0x100, v % 0x100]
  {
    Quotients(v);
    Radixes();
    var a, b, c := v / 0x100, v / 0x1_0000, v / 0x100_0000;
    assert BigEndian(c, 1) == [c];
    assert BigEndian(b, 2) == [c] + [b % 0x100];
    assert BigEndian(a, 3) == [c] + [b % 0x100] + [a % 0x100];
  }

  lemma Bytes64(v: U64)
    ensures Be64(v) == Be32(v / 0x1_0000_0000) + Be32(v % 0x1_0000_0000)
  {
    Radixes();
    Bytes32(v % 0x1_0000_0000);
    FourMore(v, v / 0x100, v / 0x1_0000, v / 0x100_0000, v / 0x1_0000_0000);
    LowBytes(v);
  }

  lemma NextByte(v: nat, k: nat)
    requires v < Radix(k + 1)
    ensures v / 0x100 < Radix(k) && BigEndian(v, k + 1) == BigEndian(v / 0x100, k) + [v % 0x100]
  {
  }

  lemma FourMore(v: U64, a: nat, b: nat, c: nat, d: nat)
    requires a == v / 0x100 && b == v / 0x1_0000 && c == v / 0x100_0000 && d == v / 0x1_0000_0000
    ensures v < Radix(8) && d < Radix(4)
    ensures BigEndian(v, 8) == BigEndian(d, 4) + [c % 0x100, b % 0x100, a % 0x100, v % 0x100]
  {
    Radixes();
    Divided(v, 0x100, b);
    Divided(v, 0x1_0000, c);
    Divided(v, 0x100_0000, d);
    FourBytes(v, a, b, c, d);
  }

  lemma FourBytes(v: nat, a: nat, b: nat, c: nat, d: nat)
    requires v < Radix(8) && a == v / 0x100 && b == a / 0x100 && c == b / 0x100 && d == c / 0x100
    ensures d < Radix(4)
    ensures BigEndian(v, 8) == BigEndian(d, 4) + [c % 0x100, b % 0x100, a % 0x100, v % 0x100]
  {
    NextByte(v, 7);
    NextByte(a, 6);
    NextByte(b, 5);
    NextByte(c, 4);
  }

  /** Dividing twice is dividing by the product. */
  lemma Divided(v: nat, unit: nat, q: nat)
    requires unit > 0 && q == v / (0x100 * unit)
    ensures v / unit / 0x100 == q
  {
    var r := v % (0x100 * unit);
    assert v == q * (0x100 * unit) + r;
    var m, l := r / unit, r % unit;
    assert q * (0x100 * unit) == q * 0x100 * unit;
    assert v == (q * 0x100 + m) * unit + l;
    DivisionIsUnique(v, unit, q * 0x100 + m, l);
    LeastProduct(m - 0x100, unit);
    assert (m - 0x100) * unit == m * unit - 0x100 * unit;
    DivisionIsUnique(v / unit, 0x100, q, m);
  }

  lemma LowBytes(v: nat)
    ensures var lo := v % 0x1_0000_0000;
            && lo / 0x100_0000 == v / 0x100_0000 % 0x100 && lo / 0x1_0000 % 0x100 == v / 0x1_0000 % 0x100
            && lo / 0x100 % 0x100 == v / 0x100 % 0x100 && lo % 0x100 == v % 0x100
  {
    var hi, lo := v / 0x1_0000_0000, v % 0x1_0000_0000;
    Middle(hi, lo, 1, 0x100_0000);
    Middle(hi, lo, 0x100, 0x1_0000);
    Middle(hi, lo, 0x1_0000, 0x100);
    Middle(hi, lo, 0x100_0000, 1);
  }

  /** Whole turns do not show in a lower byte. */
  lemma Middle(hi: nat, lo: nat, turns: nat, unit: nat)
    requires unit > 0 && 0x100 * turns * unit == 0x1_0000_0000
    ensures (hi * 0x1_0000_0000 + lo) / unit % 0x100 == lo / unit % 0x100
  {
    var v, q, r := hi * 0x1_0000_0000 + lo, lo / unit, lo % unit;
    var h := hi * turns;
    assert hi * 0x1_0000_0000 == h * 0x100 * unit;
    assert v == (h * 0x100 + q) * unit + r;
    DivisionIsUnique(v, unit, h * 0x100 + q, r);
    DivisionIsUnique(h * 0x100 + q, 0x100, h + q / 0x100, q % 0x100);
  }

  // ---------------------------------------------------------------- pieces of a packet

  /** The bytes `x` are at offset `at`. */
  predicate HasAt(s: Bytes, at: nat, x: Bytes) {
    at + |x| <= |s| && s[at..at + |x|] == x
  }

  lemma HasBoth(s: Bytes, at: nat, x: Bytes, y: Bytes)
    ensures HasAt(s, at, x + y) <==> HasAt(s, at, x) && HasAt(s, at + |x|, y)
  {
    if HasAt(s, at, x) && HasAt(s, at + |x|, y) {
      assert s[at..at + |x| + |y|] == s[at..at + |x|] + s[at + |x|..at + |x| + |y|];
    }
    if HasAt(s, at, x + y) {
      assert s[at..at + |x|] == s[at..at + |x + y|][..|x|];
      assert s[at + |x|..at + |x| + |y|] == s[at..at + |x + y|][|x|..];
    }
  }

  lemma HasByte(s: Bytes, at: nat, b: U8)
    ensures HasAt(s, at, [b]) <==> at < |s| && s[at] == b
  {
  }

  lemma Has16(s: Bytes, at: nat, v: U16)
    ensures |Be16(v)| == 2 && (HasAt(s, at, Be16(v)) <==> Holds16(s, at, v))
  {
    Bytes16(v);
    if at + 2 <= |s| {
      assert s[at..at + 2] == [s[at], s[at + 1]];
    }
  }

  lemma HasFour(s: Bytes, at: nat, a: U8, b: U8, c: U8, d: U8)
    ensures HasAt(s, at, [a, b, c, d])
            <==> at + 4 <= |s| && s[at] == a && s[at + 1] == b && s[at + 2] == c && s[at + 3] == d
  {
    if at + 4 <= |s| {
      assert s[at..at + 4] == [s[at], s[at + 1], s[at + 2], s[at + 3]];
    }
  }

  lemma Has32(s: Bytes, at: nat, v: U32)
    ensures |Be32(v)| == 4 && (HasAt(s, at, Be32(v)) <==> Holds32(s, at, v))
  {
    Bytes32(v);
    HasFour(s, at, v / 0x100_0000, v / 0x1_0000 % 0x100, v / 0x100 % 0x100, v % 0x100);
  }

  lemma Has64(s: Bytes, at: nat, v: U64)
    ensures |Be64(v)| == 8 && (HasAt(s, at, Be64(v)) <==> Holds64(s, at, v))
  {
    Bytes64(v);
    Has32(s, at, v / 0x1_0000_0000);
    Has32(s, at + 4, v % 0x1_0000_0000);
    HasBoth(s, at, Be32(v / 0x1_0000_0000), Be32(v % 0x1_0000_0000));
  }

  /** Seven bytes: the rate, the channels, the codec 0 and the packet duration. */
  predicate HoldsFormat(s: Bytes, at: nat, f: Format) {
    && at + 7 <= |s|
    && Holds32(s, at, f.rate) && s[at + 4] == f.channels && s[at + 5] == 0 && s[at + 6] == f.frameMs
  }

  lemma HasFormat(s: Bytes, at: nat, f: Format, rest: Bytes)
    ensures HasAt(s, at, PutFormat(f, rest)) <==> HoldsFormat(s, at, f) && HasAt(s, at + 7, rest)
  {
    var tail := [f.frameMs] + rest;
    HasBoth(s, at, Be32(f.rate), [f.channels] + ([CodecCode(f.codec)] + tail));
    Has32(s, at, f.rate);
    HasBoth(s, at + 4, [f.channels], [CodecCode(f.codec)] + tail);
    HasBoth(s, at + 5, [CodecCode(f.codec)], tail);
    HasBoth(s, at + 6, [f.frameMs], rest);
    HasByte(s, at + 4, f.channels);
    HasByte(s, at + 5, CodecCode(f.codec));
    HasByte(s, at + 6, f.frameMs);
  }

  function Least(a: nat, b: nat): nat {
    if a < b then a else b
  }

  /** A length byte and that many bytes, at most 255 of them. */
  predicate HoldsField(s: Bytes, at: nat, x: Bytes) {
    var n := Least(|x|, 255);
    at + 1 + n <= |s| && s[at] == n && s[at + 1..at + 1 + n] == x[..n]
  }

  lemma HasField(s: Bytes, at: nat, x: Bytes, rest: Bytes)
    ensures HasAt(s, at, PutField(x, rest)) <==> HoldsField(s, at, x) && HasAt(s, at + 1 + Least(|x|, 255), rest)
  {
    var n := Least(|x|, 255);
    assert Cut(x) == x[..n];
    HasBoth(s, at, [n], Cut(x) + rest);
    HasBoth(s, at + 1, Cut(x), rest);
    HasByte(s, at, n);
  }

  // ---------------------------------------------------------------- control packets

  /** The six bytes that every packet of the kind starts with: the letters ABRG, version 1, and the kind. */
  predicate HoldsHeader(s: Bytes, kind: U8) {
    |s| >= 6 && s[..6] == [0x41, 0x42, 0x52, 0x47, 1, kind]
  }

  lemma HasHeader(s: Bytes, t: PacketType)
    ensures |Header(t)| == 6 && (HasAt(s, 0, Header(t)) <==> HoldsHeader(s, TypeCode(t)))
  {
    assert Header(t) == [0x41, 0x42, 0x52, 0x47, 1, TypeCode(t)];
  }

  function StatusNumber(s: Status): int {
    match s
    case StatusOk => 0
    case AuthFailed => 1
    case UnsupportedFormat => 2
    case BadRequest => 3
    case Busy => 4
    case ServerError => 5
  }

  /** The packet is at the front of the buffer, byte by byte. */
  predicate Shows(s: Bytes, p: Packet) {
    match p
    case Hello(token, session, mic, speaker) =>
      var n := Least(|token|, 255);
      && HoldsHeader(s, 1) && HoldsField(s, 6, token)
      && Holds32(s, 7 + n, session) && HoldsFormat(s, 11 + n, mic) && HoldsFormat(s, 18 + n, speaker)
    case HelloAck(status, session, mic, speaker, message) =>
      && HoldsHeader(s, 2) && |s| > 6 && s[6] == StatusNumber(status)
      && Holds32(s, 7, session) && HoldsFormat(s, 11, mic) && HoldsFormat(s, 18, speaker)
      && HoldsField(s, 25, message)
    case Bye(session) => HoldsHeader(s, 4) && Holds32(s, 6, session)
    case Ping(session, nonce) => HoldsHeader(s, 5) && Holds32(s, 6, session) && Holds64(s, 10, nonce)
    case Pong(session, nonce) => HoldsHeader(s, 6) && Holds32(s, 6, session) && Holds64(s, 10, nonce)
  }

  lemma FormatsShow(s: Bytes, at: nat, mic: Format, speaker: Format, rest: Bytes)
    ensures HasAt(s, at, PutFormat(mic, PutFormat(speaker, rest)))
            <==> HoldsFormat(s, at, mic) && HoldsFormat(s, at + 7, speaker) && HasAt(s, at + 14, rest)
  {
    HasFormat(s, at, mic, PutFormat(speaker, rest));
    HasFormat(s, at + 7, speaker, rest);
  }

  lemma StreamsShow(s: Bytes, at: nat, session: U32, mic: Format, speaker: Format, rest: Bytes)
    ensures HasAt(s, at, Be32(session) + PutFormat(mic, PutFormat(speaker, rest)))
            <==> && Holds32(s, at, session) && HoldsFormat(s, at + 4, mic) && HoldsFormat(s, at + 11, speaker)
                 && HasAt(s, at + 18, rest)
  {
    HasBoth(s, at, Be32(session), PutFormat(mic, PutFormat(speaker, rest)));
    Has32(s, at, session);
    FormatsShow(s, at + 4, mic, speaker, rest);
  }

  lemma LastStreams(s: Bytes, at: nat, session: U32, mic: Format, speaker: Format)
    ensures HasAt(s, at, Be32(session) + PutFormat(mic, PutFormat(speaker, [])))
            <==> Holds32(s, at, session) && HoldsFormat(s, at + 4, mic) && HoldsFormat(s, at + 11, speaker)
  {
    StreamsShow(s, at, session, mic, speaker, []);
  }

  lemma HelloShows(s: Bytes, token: Bytes, session: U32, mic: Format, speaker: Format, n: nat)
    requires n == Least(|token|, 255)
    ensures HasAt(s, 6, PutField(token, Be32(session) + PutFormat(mic, PutFormat(speaker, []))))
            <==> && HoldsField(s, 6, token) && Holds32(s, 7 + n, session)
                 && HoldsFormat(s, 11 + n, mic) && HoldsFormat(s, 18 + n, speaker)
  {
    HasField(s, 6, token, Be32(session) + PutFormat(mic, PutFormat(speaker, [])));
    LastStreams(s, 7 + n, session, mic, speaker);
  }

  lemma AckShows(s: Bytes, code: U8, session: U32, mic: Format, speaker: Format, message: Bytes)
    ensures HasAt(s, 6, [code] + (Be32(session) + PutFormat(mic, PutFormat(speaker, PutField(message, [])))))
            <==> && |s| > 6 && s[6] == code && Holds32(s, 7, session)
                 && HoldsFormat(s, 11, mic) && HoldsFormat(s, 18, speaker) && HoldsField(s, 25, message)
  {
    HasBoth(s, 6, [code], Be32(session) + PutFormat(mic, PutFormat(speaker, PutField(message, []))));
    HasByte(s, 6, code);
    StreamsShow(s, 7, session, mic, speaker, PutField(message, []));
    HasField(s, 25, message, []);
  }

  lemma HelloAckShows(s: Bytes, status: Status, session: U32, mic: Format, speaker: Format, message: Text)
    ensures HasAt(s, 6, PutBody(HelloAck(status, session, mic, speaker, message), []))
            <==> && |s| > 6 && s[6] == StatusNumber(status) && Holds32(s, 7, session)
                 && HoldsFormat(s, 11, mic) && HoldsFormat(s, 18, speaker) && HoldsField(s, 25, message)
  {
    AckShows(s, StatusCode(status), session, mic, speaker, message);
  }

  lemma EchoShows(s: Bytes, session: U32, nonce: U64)
    ensures HasAt(s, 6, Be32(session) + (Be64(nonce) + [])) <==> Holds32(s, 6, session) && Holds64(s, 10, nonce)
  {
    HasBoth(s, 6, Be32(session), Be64(nonce) + []);
    assert Be64(nonce) + [] == Be64(nonce);
    Has32(s, 6, session);
    Has64(s, 10, nonce);
  }

  lemma BodyShows(s: Bytes, p: Packet)
    ensures HoldsHeader(s, TypeCode(KindOf(p))) && HasAt(s, 6, PutBody(p, [])) <==> Shows(s, p)
  {
    match p
    case Hello(token, session, mic, speaker) => HelloShows(s, token, session, mic, speaker, Least(|token|, 255));
    case HelloAck(status, session, mic, speaker, message) => HelloAckShows(s, status, session, mic, speaker, message);
    case Bye(session) =>
      assert Be32(session) + [] == Be32(session);
      Has32(s, 6, session);
    case Ping(session, nonce) => EchoShows(s, session, nonce);
    case Pong(session, nonce) => EchoShows(s, session, nonce);
  }

  /** A buffer starts with the encoding of a packet exactly when it shows the packet byte by byte. */
  lemma EncodedIff(s: Bytes, p: Packet)
    ensures Encode(p) <= s <==> Shows(s, p)
  {
    HasHeader(s, KindOf(p));
    HasBoth(s, 0, Header(KindOf(p)), PutBody(p, []));
    BodyShows(s, p);
    assert Encode(p) <= s <==> HasAt(s, 0, Encode(p));
  }

  /** How long a control packet is. */
  function LengthOf(p: Packet): nat {
    match p
    case Hello(token, _, _, _) => 25 + Least(|token|, 255)
    case HelloAck(_, _, _, _, message) => 26 + Least(|message|, 255)
    case Bye(_) => 10
    case Ping(_, _) => 18
    case Pong(_, _) => 18
  }

  /** Printing gives these bytes and no more. */
  lemma PrintsShown(p: Packet)
    ensures Shows(Encode(p), p) && |Encode(p)| == LengthOf(p)
  {
    EncodedIff(Encode(p), p);
    match p
    case Hello(_, _, mic, speaker) =>
      T.FormatLength(speaker, []);
      T.FormatLength(mic, PutFormat(speaker, []));
    case HelloAck(_, _, mic, speaker, message) =>
      T.FormatLength(speaker, PutField(message, []));
      T.FormatLength(mic, PutFormat(speaker, PutField(message, [])));
    case _ =>
  }

  /** A receiver takes a datagram for a control packet exactly when it shows that packet, uncut. */
  lemma ReadsShown(s: Bytes, p: Packet)
    ensures Decode(s) == Ok(Control(p))
            <==> Shows(s, p) && (p.Hello? ==> |p.token| <= 255) && (p.HelloAck? ==> |p.message| <= 255)
  {
    EncodedIff(s, p);
    T.DecodesIff(s, p);
  }

  // ---------------------------------------------------------------- audio packets

  function DirectionNumber(d: Direction): int {
    match d
    case Mic => 1
    case Speaker => 2
  }

  /** The 17 bytes in front of the samples. */
  predicate ShowsAudio(s: Bytes, h: AudioHeader) {
    && HoldsHeader(s, 3) && Holds32(s, 6, h.session) && |s| >= 17 && s[10] == DirectionNumber(h.direction)
    && Holds32(s, 11, h.number) && Holds16(s, 15, h.frames)
  }

  lemma PrefixShows(s: Bytes, h: AudioHeader)
    ensures HasAt(s, 0, AudioPrefix(h.session, h.direction, h.number, h.frames)) <==> ShowsAudio(s, h)
  {
    var tail := Be32(h.number) + Be16(h.frames);
    HasHeader(s, TAudio);
    HasBoth(s, 0, Header(TAudio), Be32(h.session) + ([DirectionCode(h.direction)] + tail));
    Has32(s, 6, h.session);
    HasBoth(s, 6, Be32(h.session), [DirectionCode(h.direction)] + tail);
    HasBoth(s, 10, [DirectionCode(h.direction)], tail);
    HasByte(s, 10, DirectionCode(h.direction));
    HasBoth(s, 11, Be32(h.number), Be16(h.frames));
    Has32(s, 11, h.number);
    Has16(s, 15, h.frames);
  }

  /** Sample `v` in two bytes, the low one first, negative values in two's complement. */
  predicate HoldsSample(s: Bytes, at: nat, v: int) {
    at + 2 <= |s| && s[at] == v % 0x100 && s[at + 1] == v / 0x100 % 0x100
  }

  lemma SampleBytes(v: Sample)
    ensures LittleEndian16(v) == [v % 0x100, v / 0x100 % 0x100]
  {
  }

  lemma {:induction false} SamplesShow(samples: seq<Sample>, i: nat)
    requires i < |samples|
    ensures |PutSamples(samples)| == 2 * |samples|
    ensures HoldsSample(PutSamples(samples), 2 * i, samples[i])
  {
    T.PutSamplesLength(samples);
    SampleBytes(samples[0]);
    if i > 0 {
      SamplesShow(samples[1..], i - 1);
    }
  }

  /**
    An audio packet: the header, a frame count cut to 16 bits, and sample `i` in bytes
    `17 + 2 i` and `18 + 2 i`.
   */
  lemma PrintsAudio(session: U32, direction: Direction, number: U32, channels: U8, samples: seq<Sample>, frames: U16)
    requires frames == |samples| / (if channels < 1 then 1 else channels) % 0x1_0000
    ensures var s := EncodeAudio(session, direction, number, channels, samples);
            && |s| == 17 + 2 * |samples|
            && ShowsAudio(s, AudioHeader(session, direction, number, frames))
            && forall i :: 0 <= i < |samples| ==> HoldsSample(s, 17 + 2 * i, samples[i])
  {
    var prefix := AudioPrefix(session, direction, number, frames);
    var s := prefix + PutSamples(samples);
    assert s == EncodeAudio(session, direction, number, channels, samples);
    T.AudioHeaderBack(session, direction, number, frames, []);
    T.PutSamplesLength(samples);
    assert s[0..|prefix|] == prefix;
    PrefixShows(s, AudioHeader(session, direction, number, frames));
    forall i | 0 <= i < |samples| ensures HoldsSample(s, 17 + 2 * i, samples[i]) {
      SamplesShow(samples, i);
    }
  }

  /** The samples of a payload, by value. */
  lemma {:induction false} ReadsSamples(payload: Bytes, i: nat)
    requires 2 * i + 1 < |payload|
    ensures |DecodeSamples(payload)| == |payload| / 2
    ensures var lo: int, hi: int := payload[2 * i], payload[2 * i + 1];
            DecodeSamples(payload)[i] == lo + 0x100 * (if hi < 0x80 then hi else hi - 0x100)
  {
    SampleCount(payload);
    if i > 0 {
      ReadsSamples(payload[2..], i - 1);
    }
  }

  lemma {:induction false} SampleCount(payload: Bytes)
    ensures |DecodeSamples(payload)| == |payload| / 2
  {
    if |payload| >= 2 {
      SampleCount(payload[2..]);
    }
  }

  // ---------------------------------------------------------------- any datagram

  /** What keeps a format at the offset from being read: a codec other than 0, or too few bytes. */
  function FormatFault(s: Bytes, at: nat): Option<DecodeError> {
    if |s| <= at + 5 then Some(TooShort)
    else if s[at + 5] != 0 then Some(UnknownCodec)
    else if |s| <= at + 6 then Some(TooShort)
    else None
  }

  function FormatsFault(s: Bytes, at: nat): Option<DecodeError> {
    if FormatFault(s, at).Some? then FormatFault(s, at) else FormatFault(s, at + 7)
  }

  function FieldLength(s: Bytes, at: nat): nat
    requires at < |s|
  {
    s[at]
  }

  function HelloFault(s: Bytes): Option<DecodeError> {
    if |s| <= 6 || |s| < 11 + FieldLength(s, 6) then Some(TooShort) else FormatsFault(s, 11 + FieldLength(s, 6))
  }

  function HelloAckFault(s: Bytes): Option<DecodeError> {
    if |s| <= 6 then Some(TooShort)
    else if s[6] > 5 then Some(UnknownStatus(s[6]))
    else if FormatsFault(s, 11).Some? then FormatsFault(s, 11)
    else if |s| <= 25 || |s| < 26 + FieldLength(s, 25) then Some(TooShort)
    else if !IsUtf8(s[26..26 + FieldLength(s, 25)]) then Some(NotUtf8)
    else None
  }

  function AudioFault(s: Bytes): Option<DecodeError> {
    if |s| <= 10 then Some(TooShort)
    else if s[10] != 1 && s[10] != 2 then Some(UnknownDirection(s[10]))
    else if |s| < 17 then Some(TooShort)
    else if |s| == 17 || |s| % 2 == 0 then Some(PayloadMismatch)
    else None
  }

  function KindFault(s: Bytes): Option<DecodeError>
    requires |s| >= 6
  {
    match s[5]
    case 1 => HelloFault(s)
    case 2 => HelloAckFault(s)
    case 3 => AudioFault(s)
    case 4 => if |s| < 10 then Some(TooShort) else None
    case 5 => if |s| < 18 then Some(TooShort) else None
    case 6 => if |s| < 18 then Some(TooShort) else None
    case _ => Some(UnknownType(s[5]))
  }

  /** Why a datagram is refused, if it is. */
  function Fault(s: Bytes): Option<DecodeError> {
    if |s| < 4 then Some(TooShort)
    else if s[0] != 0x41 || s[1] != 0x42 || s[2] != 0x52 || s[3] != 0x47 then Some(BadMagic)
    else if |s| == 4 then Some(TooShort)
    else if s[4] != 1 then Some(BadVersion(s[4]))
    else if |s| == 5 then Some(TooShort)
    else KindFault(s)
  }

  predicate Fails<T>(r: Result<T, DecodeError>, fault: Option<DecodeError>) {
    match fault
    case Some(e) => r == Err(e)
    case None => r.Ok?
  }

  lemma TakeAt(s: Bytes, at: nat, n: nat)
    requires at <= |s|
    ensures Take(s[at..], n) == if at + n <= |s| then Ok((s[at..at + n], s[at + n..])) else Err(TooShort)
  {
    if at + n <= |s| {
      assert s[at..][..n] == s[at..at + n] && s[at..][n..] == s[at + n..];
    }
  }

  lemma U8At(s: Bytes, at: nat)
    requires at <= |s|
    ensures GetU8(s[at..]) == if at < |s| then Ok((s[at], s[at + 1..])) else Err(TooShort)
  {
    if at < |s| {
      assert s[at..][1..] == s[at + 1..];
    }
  }

  lemma U32At(s: Bytes, at: nat)
    requires at <= |s|
    ensures at + 4 <= |s| ==> GetU32(s[at..]).Ok? && GetU32(s[at..]).value.1 == s[at + 4..]
    ensures |s| < at + 4 ==> GetU32(s[at..]) == Err(TooShort)
  {
    TakeAt(s, at, 4);
  }

  lemma U64At(s: Bytes, at: nat)
    requires at <= |s|
    ensures at + 8 <= |s| ==> GetU64(s[at..]).Ok? && GetU64(s[at..]).value.1 == s[at + 8..]
    ensures |s| < at + 8 ==> GetU64(s[at..]) == Err(TooShort)
  {
    TakeAt(s, at, 8);
  }

  lemma FormatAt(s: Bytes, at: nat)
    requires at <= |s|
    ensures Fails(GetFormat(s[at..]), FormatFault(s, at))
    ensures GetFormat(s[at..]).Ok? ==> at + 7 <= |s| && GetFormat(s[at..]).value.1 == s[at + 7..]
  {
    U32At(s, at);
    if at + 4 <= |s| {
      U8At(s, at + 4);
    }
    if at + 5 <= |s| {
      U8At(s, at + 5);
    }
    if at + 6 <= |s| {
      U8At(s, at + 6);
    }
  }

  /** Two formats in a row. */
  lemma FormatsAt(s: Bytes, at: nat)
    requires at <= |s|
    ensures FormatsFault(s, at) == None ==>
              && at + 14 <= |s|
              && GetFormat(s[at..]).Ok? && GetFormat(s[at..]).value.1 == s[at + 7..]
              && GetFormat(s[at + 7..]).Ok? && GetFormat(s[at + 7..]).value.1 == s[at + 14..]
    ensures FormatsFault(s, at).Some? ==>
              || GetFormat(s[at..]) == Err(FormatsFault(s, at).value)
              || (at + 7 <= |s| && GetFormat(s[at..]).Ok? && GetFormat(s[at..]).value.1 == s[at + 7..]
                  && GetFormat(s[at + 7..]) == Err(FormatsFault(s, at).value))
  {
    FormatAt(s, at);
    if at + 7 <= |s| {
      FormatAt(s, at + 7);
    }
  }

  lemma HelloAt(s: Bytes)
    requires |s| >= 6
    ensures Fails(GetHello(s[6..]), HelloFault(s))
  {
    U8At(s, 6);
    if |s| > 6 {
      var n := FieldLength(s, 6);
      TakeAt(s, 7, n);
      if 7 + n <= |s| {
        U32At(s, 7 + n);
      }
      if 11 + n <= |s| {
        FormatsAt(s, 11 + n);
      }
    }
  }

  lemma MessageAt(s: Bytes)
    requires |s| >= 25
    ensures GetField(s[25..]).Ok? <==> 25 < |s| && 26 + FieldLength(s, 25) <= |s|
    ensures GetField(s[25..]).Ok? ==> GetField(s[25..]).value.0 == s[26..26 + FieldLength(s, 25)]
    ensures GetField(s[25..]).Err? ==> GetField(s[25..]) == Err(TooShort)
  {
    U8At(s, 25);
    if 26 <= |s| {
      TakeAt(s, 26, s[25]);
    }
  }

  lemma AckFieldsAt(s: Bytes, status: Status)
    requires |s| >= 7 && s[6] <= 5
    ensures Fails(GetAckFields(status, s[7..]), HelloAckFault(s))
  {
    U32At(s, 7);
    if 11 <= |s| {
      FormatsAt(s, 11);
    }
    if 25 <= |s| {
      MessageAt(s);
    }
  }

  lemma HelloAckAt(s: Bytes)
    requires |s| >= 6
    ensures Fails(GetHelloAck(s[6..]), HelloAckFault(s))
  {
    U8At(s, 6);
    if |s| > 6 && s[6] <= 5 {
      AckFieldsAt(s, StatusOf(s[6]).value);
    }
  }

  lemma AudioAt(s: Bytes)
    requires |s| >= 6
    ensures GetAudioHeader(s[6..]).Ok? <==> |s| >= 17 && (s[10] == 1 || s[10] == 2)
    ensures GetAudioHeader(s[6..]).Err? ==> GetAudioHeader(s[6..]) == Err(if |s| <= 10 || s[10] == 1 || s[10] == 2
                                                                          then TooShort else UnknownDirection(s[10]))
    ensures GetAudioHeader(s[6..]).Ok? ==> GetAudioHeader(s[6..]).value.1 == s[17..]
  {
    U32At(s, 6);
    if 10 <= |s| {
      U8At(s, 10);
    }
    if 11 <= |s| {
      U32At(s, 11);
    }
    if 15 <= |s| {
      TakeAt(s, 15, 2);
    }
  }

  lemma HeaderAt(s: Bytes)
    ensures GetHeader(s).Ok? <==> |s| >= 6 && HoldsHeader(s, s[5]) && 1 <= s[5] <= 6
    ensures GetHeader(s).Ok? ==> GetHeader(s).value == (TypeOf(s[5]).value, s[6..])
    ensures GetHeader(s).Err? ==> Fault(s) == Some(GetHeader(s).error)
  {
    if |s| >= 4 {
      assert s[..4] == [s[0], s[1], s[2], s[3]];
    }
    if |s| >= 6 {
      assert s[..6] == [s[0], s[1], s[2], s[3], s[4], s[5]];
      assert s[4..][1..][1..] == s[6..];
    }
  }

  lemma EchoAt(s: Bytes)
    requires |s| >= 6
    ensures Fails(GetPing(s[6..]), if |s| < 18 then Some(TooShort) else None)
    ensures Fails(GetPong(s[6..]), if |s| < 18 then Some(TooShort) else None)
    ensures Fails(GetBye(s[6..]), if |s| < 10 then Some(TooShort) else None)
  {
    U32At(s, 6);
    if 10 <= |s| {
      U64At(s, 10);
    }
  }

  lemma ControlAt(s: Bytes, kind: PacketType)
    requires |s| >= 6 && kind != TAudio && s[5] == TypeCode(kind)
    ensures Fails(GetBody(kind, s[6..]), KindFault(s))
  {
    match kind
    case THello => HelloAt(s);
    case THelloAck => HelloAckAt(s);
    case _ => EchoAt(s);
  }

  lemma KindAt(s: Bytes)
    requires GetHeader(s).Ok? && |s| >= 6 && GetHeader(s).value == (TypeOf(s[5]).value, s[6..]) && 1 <= s[5] <= 6
    ensures Fails(Decode(s), KindFault(s))
  {
    if s[5] == 3 {
      AudioAt(s);
    } else {
      ControlAt(s, TypeOf(s[5]).value);
    }
  }

  /** Every datagram: exactly why it is refused, or that it is not. */
  lemma RefusedIff(s: Bytes)
    ensures Fails(Decode(s), Fault(s))
  {
    HeaderAt(s);
    if GetHeader(s).Ok? {
      KindAt(s);
    }
  }

  lemma ReadsPrefix(s: Bytes, h: AudioHeader)
    ensures ShowsAudio(s, h) && |s| > 17 && |s| % 2 == 1 ==> Decode(s) == Ok(Audio(h, s[17..]))
  {
    if ShowsAudio(s, h) && |s| > 17 && |s| % 2 == 1 {
      PrefixShows(s, h);
      var prefix := AudioPrefix(h.session, h.direction, h.number, h.frames);
      T.AudioHeaderBack(h.session, h.direction, h.number, h.frames, s[17..]);
      assert s == prefix + s[17..];
    }
  }

  /** A receiver takes a datagram for audio exactly when it shows the header and whole samples, at least one. */
  lemma ReadsAudio(s: Bytes, h: AudioHeader, payload: Bytes)
    ensures Decode(s) == Ok(Audio(h, payload))
            <==> ShowsAudio(s, h) && |s| > 17 && |s| % 2 == 1 && payload == s[17..]
  {
    RefusedIff(s);
    ReadsPrefix(s, h);
    if Decode(s) == Ok(Audio(h, payload)) {
      HeaderAt(s);
      AudioAt(s);
      AudioShown(s, h);
    }
  }

  lemma AudioShown(s: Bytes, h: AudioHeader)
    requires |s| >= 17 && HoldsHeader(s, 3) && GetAudioHeader(s[6..]).Ok? && GetAudioHeader(s[6..]).value.0 == h
    ensures ShowsAudio(s, h)
  {
    GotAt32(s, 6);
    U8At(s, 10);
    GotAt32(s, 11);
    TakeAt(s, 15, 2);
    FromBigEndianInverse(s[15..17]);
    Radixes();
    Has16(s, 15, h.frames);
  }

  lemma GotAt32(s: Bytes, at: nat)
    requires at + 4 <= |s|
    ensures GetU32(s[at..]).Ok? && GetU32(s[at..]).value.1 == s[at + 4..]
    ensures Holds32(s, at, GetU32(s[at..]).value.0)
  {
    TakeAt(s, at, 4);
    FromBigEndianInverse(s[at..at + 4]);
    Radixes();
    Has32(s, at, GetU32(s[at..]).value.0);
  }
}
