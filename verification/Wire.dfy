/**
  The wire format: what every packet looks like in bytes, and what a receiver makes of
  arbitrary bytes. Readers take a buffer and give back a value and the bytes after it.
 */
module Wire {
  import opened Numbers
  import opened Wrappers
  import opened Utf8

  const MAGIC: Bytes := [0x41, 0x42, 0x52, 0x47]
  const VERSION: U8 := 1
  const MAX_PACKET := 4096
  const MAX_FIELD := 255

  datatype PacketType = THello | THelloAck | TAudio | TBye | TPing | TPong
  datatype Direction = Mic | Speaker
  datatype Codec = PcmS16Le
  datatype Status = StatusOk | AuthFailed | UnsupportedFormat | BadRequest | Busy | ServerError

  datatype Format = Format(rate: U32, channels: U8, codec: Codec, frameMs: U8)

  datatype Packet =
    | Hello(token: Bytes, session: U32, mic: Format, speaker: Format)
    | HelloAck(status: Status, session: U32, mic: Format, speaker: Format, message: Text)
    | Bye(session: U32)
    | Ping(session: U32, nonce: U64)
    | Pong(session: U32, nonce: U64)

  datatype AudioHeader = AudioHeader(session: U32, direction: Direction, number: U32, frames: U16)

  datatype Incoming =
    | Control(packet: Packet)
    | Audio(header: AudioHeader, payload: Bytes)

  datatype DecodeError =
    | TooShort
    | BadMagic
    | BadVersion(version: U8)
    | UnknownType(kind: U8)
    | UnknownDirection(direction: U8)
    | UnknownCodec
    | UnknownStatus(status: U8)
    | PayloadMismatch
    | NotUtf8

  /** A value read from the front of a buffer, and the rest of the buffer. */
  type Read<T> = Result<(T, Bytes), DecodeError>

  // ---------------------------------------------------------------- codes

  function TypeCode(t: PacketType): U8 {
    match t
    case THello => 1
    case THelloAck => 2
    case TAudio => 3
    case TBye => 4
    case TPing => 5
    case TPong => 6
  }

  function TypeOf(b: U8): Result<PacketType, DecodeError> {
    match b
    case 1 => Ok(THello)
    case 2 => Ok(THelloAck)
    case 3 => Ok(TAudio)
    case 4 => Ok(TBye)
    case 5 => Ok(TPing)
    case 6 => Ok(TPong)
    case _ => Err(UnknownType(b))
  }

  function DirectionCode(d: Direction): U8 {
    match d
    case Mic => 1
    case Speaker => 2
  }

  function DirectionOf(b: U8): Result<Direction, DecodeError> {
    match b
    case 1 => Ok(Mic)
    case 2 => Ok(Speaker)
    case _ => Err(UnknownDirection(b))
  }

  function CodecCode(c: Codec): U8 {
    0
  }

  function CodecOf(b: U8): Result<Codec, DecodeError> {
    if b == 0 then Ok(PcmS16Le) else Err(UnknownCodec)
  }

  function StatusCode(s: Status): U8 {
    match s
    case StatusOk => 0
    case AuthFailed => 1
    case UnsupportedFormat => 2
    case BadRequest => 3
    case Busy => 4
    case ServerError => 5
  }

  function StatusOf(b: U8): Result<Status, DecodeError> {
    match b
    case 0 => Ok(StatusOk)
    case 1 => Ok(AuthFailed)
    case 2 => Ok(UnsupportedFormat)
    case 3 => Ok(BadRequest)
    case 4 => Ok(Busy)
    case 5 => Ok(ServerError)
    case _ => Err(UnknownStatus(b))
  }

  // ---------------------------------------------------------------- integers

  function Radix(k: nat): nat {
    if k == 0 then 1 else 256 * Radix(k - 1)
  }

  /** `k` bytes, most significant first. */
  function BigEndian(v: nat, k: nat): (s: Bytes)
    requires v < Radix(k)
    ensures |s| == k
  {
    if k == 0 then [] else BigEndian(v / 256, k - 1) + [v % 256]
  }

  function FromBigEndian(s: Bytes): (v: nat)
    ensures v < Radix(|s|)
  {
    if s == [] then 0 else 256 * FromBigEndian(s[..|s| - 1]) + s[|s| - 1]
  }

  lemma {:induction false} BigEndianInverse(v: nat, k: nat)
    requires v < Radix(k)
    ensures FromBigEndian(BigEndian(v, k)) == v
  {
    if k > 0 {
      BigEndianInverse(v / 256, k - 1);
      assert BigEndian(v, k)[..k - 1] == BigEndian(v / 256, k - 1);
    }
  }

  lemma {:induction false} FromBigEndianInverse(s: Bytes)
    ensures BigEndian(FromBigEndian(s), |s|) == s
  {
    if s != [] {
      FromBigEndianInverse(s[..|s| - 1]);
    }
  }

  lemma Radixes()
    ensures Radix(1) == 0x100 && Radix(2) == 0x1_0000
    ensures Radix(4) == 0x1_0000_0000 && Radix(8) == 0x1_0000_0000_0000_0000
  {
    assert Radix(3) == 0x100_0000;
    assert Radix(5) == 0x100_0000_0000;
    assert Radix(6) == 0x1_0000_0000_0000;
    assert Radix(7) == 0x100_0000_0000_0000;
  }

  function Be16(v: U16): Bytes {
    Radixes();
    BigEndian(v, 2)
  }

  function Be32(v: U32): Bytes {
    Radixes();
    BigEndian(v, 4)
  }

  function Be64(v: U64): Bytes {
    Radixes();
    BigEndian(v, 8)
  }

  // ---------------------------------------------------------------- writing

  function Cut(s: Bytes): Bytes {
    if |s| <= MAX_FIELD then s else s[..MAX_FIELD]
  }

  /** A field with its length in front, cut at 255 bytes. */
  function PutField(s: Bytes, rest: Bytes): Bytes {
    [|Cut(s)|] + (Cut(s) + rest)
  }

  function PutFormat(f: Format, rest: Bytes): Bytes {
    Be32(f.rate) + ([f.channels] + ([CodecCode(f.codec)] + ([f.frameMs] + rest)))
  }

  function Header(t: PacketType): Bytes {
    MAGIC + [VERSION, TypeCode(t)]
  }

  function KindOf(p: Packet): PacketType {
    match p
    case Hello(_, _, _, _) => THello
    case HelloAck(_, _, _, _, _) => THelloAck
    case Bye(_) => TBye
    case Ping(_, _) => TPing
    case Pong(_, _) => TPong
  }

  function PutBody(p: Packet, rest: Bytes): Bytes {
    match p
    case Hello(token, session, mic, speaker) =>
      PutField(token, Be32(session) + PutFormat(mic, PutFormat(speaker, rest)))
    case HelloAck(status, session, mic, speaker, message) =>
      [StatusCode(status)] + (Be32(session) + PutFormat(mic, PutFormat(speaker, PutField(message, rest))))
    case Bye(session) => Be32(session) + rest
    case Ping(session, nonce) => Be32(session) + (Be64(nonce) + rest)
    case Pong(session, nonce) => Be32(session) + (Be64(nonce) + rest)
  }

  /** A control packet on the wire. */
  function Encode(p: Packet): Bytes {
    Header(KindOf(p)) + PutBody(p, [])
  }

  function LittleEndian16(s: Sample): Bytes {
    var w := if s < 0 then s + 0x1_0000 else s;
    [w % 256, w / 256]
  }

  function PutSamples(samples: seq<Sample>): Bytes {
    if samples == [] then [] else LittleEndian16(samples[0]) + PutSamples(samples[1..])
  }

  function AudioPrefix(session: U32, direction: Direction, number: U32, frames: U16): Bytes {
    Header(TAudio) + (Be32(session) + ([DirectionCode(direction)] + (Be32(number) + Be16(frames))))
  }

  /** The frame count that goes into the header: a 16-bit cast. */
  function FrameField(samples: nat, channels: U8): U16 {
    samples / (if channels < 1 then 1 else channels) % 0x1_0000
  }

  /** An audio packet on the wire. */
  function EncodeAudio(session: U32, direction: Direction, number: U32, channels: U8, samples: seq<Sample>): Bytes {
    AudioPrefix(session, direction, number, FrameField(|samples|, channels)) + PutSamples(samples)
  }

  // ---------------------------------------------------------------- reading

  function Take(s: Bytes, n: nat): Read<Bytes> {
    if n <= |s| then Ok((s[..n], s[n..])) else Err(TooShort)
  }

  function GetU8(s: Bytes): Read<U8> {
    if s == [] then Err(TooShort) else Ok((s[0], s[1..]))
  }

  function GetU16(s: Bytes): Read<U16> {
    var (b, rest) :- Take(s, 2);
    Radixes();
    Ok((FromBigEndian(b), rest))
  }

  function GetU32(s: Bytes): Read<U32> {
    var (b, rest) :- Take(s, 4);
    Radixes();
    Ok((FromBigEndian(b), rest))
  }

  function GetU64(s: Bytes): Read<U64> {
    var (b, rest) :- Take(s, 8);
    Radixes();
    Ok((FromBigEndian(b), rest))
  }

  function GetField(s: Bytes): Read<Bytes> {
    var (n, s1) :- GetU8(s);
    Take(s1, n)
  }

  function GetFormat(s: Bytes): Read<Format> {
    var (rate, s1) :- GetU32(s);
    var (channels, s2) :- GetU8(s1);
    var (code, s3) :- GetU8(s2);
    var codec :- CodecOf(code);
    var (frameMs, s4) :- GetU8(s3);
    Ok((Format(rate, channels, codec, frameMs), s4))
  }

  function GetHeader(s: Bytes): Read<PacketType> {
    var (magic, s1) :- Take(s, 4);
    if magic != MAGIC then Err(BadMagic)
    else
      var (version, s2) :- GetU8(s1);
      if version != VERSION then Err(BadVersion(version))
      else
        var (code, s3) :- GetU8(s2);
        var kind :- TypeOf(code);
        Ok((kind, s3))
  }

  function GetHello(s: Bytes): Read<Packet> {
    var (token, s1) :- GetField(s);
    var (session, s2) :- GetU32(s1);
    var (mic, s3) :- GetFormat(s2);
    var (speaker, s4) :- GetFormat(s3);
    Ok((Hello(token, session, mic, speaker), s4))
  }

  function GetHelloAck(s: Bytes): Read<Packet> {
    var (code, s1) :- GetU8(s);
    var status :- StatusOf(code);
    GetAckFields(status, s1)
  }

  function GetAckFields(status: Status, s: Bytes): Read<Packet> {
    var (session, s1) :- GetU32(s);
    var (mic, s2) :- GetFormat(s1);
    var (speaker, s3) :- GetFormat(s2);
    var (message, s4) :- GetField(s3);
    if IsUtf8(message) then Ok((HelloAck(status, session, mic, speaker, message), s4)) else Err(NotUtf8)
  }

  function GetBye(s: Bytes): Read<Packet> {
    var (session, s1) :- GetU32(s);
    Ok((Bye(session), s1))
  }

  function GetPing(s: Bytes): Read<Packet> {
    var (session, s1) :- GetU32(s);
    var (nonce, s2) :- GetU64(s1);
    Ok((Ping(session, nonce), s2))
  }

  function GetPong(s: Bytes): Read<Packet> {
    var (session, s1) :- GetU32(s);
    var (nonce, s2) :- GetU64(s1);
    Ok((Pong(session, nonce), s2))
  }

  function GetAudioHeader(s: Bytes): Read<AudioHeader> {
    var (session, s1) :- GetU32(s);
    var (code, s2) :- GetU8(s1);
    var direction :- DirectionOf(code);
    var (number, s3) :- GetU32(s2);
    var (frames, s4) :- GetU16(s3);
    Ok((AudioHeader(session, direction, number, frames), s4))
  }

  /** The body of a control packet of the given type. */
  function GetBody(kind: PacketType, s: Bytes): Read<Packet>
    requires kind != TAudio
  {
    match kind
    case THello => GetHello(s)
    case THelloAck => GetHelloAck(s)
    case TBye => GetBye(s)
    case TPing => GetPing(s)
    case TPong => GetPong(s)
  }

  /** A whole datagram. Bytes after a control packet are ignored; all bytes after an audio header are its payload. */
  function Decode(s: Bytes): Result<Incoming, DecodeError> {
    var (kind, body) :- GetHeader(s);
    if kind == TAudio then
      var (header, payload) :- GetAudioHeader(body);
      if |payload| % 2 != 0 || payload == [] then Err(PayloadMismatch) else Ok(Audio(header, payload))
    else
      var (packet, _) :- GetBody(kind, body);
      Ok(Control(packet))
  }

  function SampleOf(lo: U8, hi: U8): Sample {
    var w := lo + 256 * hi;
    if w < 0x8000 then w else w - 0x1_0000
  }

  /** The samples of a payload; an odd trailing byte is ignored. */
  function DecodeSamples(payload: Bytes): seq<Sample> {
    if |payload| < 2 then [] else [SampleOf(payload[0], payload[1])] + DecodeSamples(payload[2..])
  }

  // ---------------------------------------------------------------- formats

  function FramesPerPacket(f: Format): nat {
    var perSecond: nat := f.rate;
    var millis: nat := f.frameMs;
    SpanIsProduct(perSecond, millis);
    perSecond * millis / 1000
  }

  function SamplesPerPacket(f: Format): nat {
    FramesPerPacket(f) * f.channels
  }

  predicate ValidFormat(f: Format) {
    && f.rate in {8000, 16000, 22050, 24000, 32000, 44100, 48000, 96000}
    && 1 <= f.channels <= 2
    && f.frameMs in {5, 10, 20}
    && FramesPerPacket(f) != 0
  }
}
