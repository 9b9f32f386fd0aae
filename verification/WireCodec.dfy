/**
  The codec as the program runs it: a reader that moves through a buffer, and printers that
  append to a vector. Each method is proved to compute what `Wire` gives for it.
 */
module WireCodec {
  import opened Numbers
  import opened Wrappers
  import opened Utf8
  import opened Wire
  import T = WireTheorems

  /** A growable vector that callees append to. */
  class Vec<Item> {
    var data: seq<Item>

    constructor ()
      ensures data == []
    {
      data := [];
    }

    method Clear()
      modifies this
      ensures data == []
    {
      data := [];
    }

    method Push(x: Item)
      modifies this
      ensures data == old(data) + [x]
    {
      data := data + [x];
    }

    method Extend(xs: seq<Item>)
      modifies this
      ensures data == old(data) + xs
    {
      data := data + xs;
    }
  }

  /** A cursor over a received buffer. */
  class Reader {
    const buf: Bytes
    var pos: nat

    ghost predicate Valid()
      reads this
    {
      pos <= |buf|
    }

    /** What has not been read yet. */
    ghost function Left(): Bytes
      reads this
      requires Valid()
    {
      buf[pos..]
    }

    constructor (buf: Bytes)
      ensures Valid() && Left() == buf && fresh(this)
    {
      this.buf := buf;
      pos := 0;
    }

    /** The cursor has read `r` and stands where the pure reader leaves off. */
    ghost predicate Did<X>(spec: Read<X>, r: Result<X, DecodeError>)
      reads this
    {
      && Valid()
      && match spec
         case Ok((v, rest)) => r == Ok(v) && Left() == rest
         case Err(e) => r == Err(e)
    }

    method Take(n: nat) returns (r: Result<Bytes, DecodeError>)
      requires Valid()
      modifies this
      ensures Did(Wire.Take(old(Left()), n), r)
    {
      var end := pos + n;
      if end > |buf| {
        return Err(TooShort);
      }
      var slice := buf[pos..end];
      assert slice == Left()[..n] && buf[end..] == Left()[n..];
      pos := end;
      return Ok(slice);
    }

    method U8() returns (r: Result<U8, DecodeError>)
      requires Valid()
      modifies this
      ensures Did(GetU8(old(Left())), r)
    {
      var b :- Take(1);
      r := Ok(b[0]);
    }

    method U16() returns (r: Result<U16, DecodeError>)
      requires Valid()
      modifies this
      ensures Did(GetU16(old(Left())), r)
    {
      var b :- Take(2);
      Radixes();
      r := Ok(FromBigEndian(b));
    }

    method U32() returns (r: Result<U32, DecodeError>)
      requires Valid()
      modifies this
      ensures Did(GetU32(old(Left())), r)
    {
      var b :- Take(4);
      Radixes();
      r := Ok(FromBigEndian(b));
    }

    method U64() returns (r: Result<U64, DecodeError>)
      requires Valid()
      modifies this
      ensures Did(GetU64(old(Left())), r)
    {
      var b :- Take(8);
      Radixes();
      r := Ok(FromBigEndian(b));
    }

    function Rest(): (rest: Bytes)
      reads this
      requires Valid()
      ensures rest == Left()
    {
      buf[pos..]
    }
  }

  method DecodeFormat(r: Reader) returns (f: Result<Format, DecodeError>)
    requires r.Valid()
    modifies r
    ensures r.Did(GetFormat(old(r.Left())), f)
  {
    var rate :- r.U32();
    var channels :- r.U8();
    var code :- r.U8();
    var codec :- CodecOf(code);
    var frameMs :- r.U8();
    f := Ok(Format(rate, channels, codec, frameMs));
  }

  /** Reads the magic, the version and the packet type. */
  method DecodeHeader(r: Reader) returns (t: Result<PacketType, DecodeError>)
    requires r.Valid()
    modifies r
    ensures r.Did(GetHeader(old(r.Left())), t)
  {
    var magic :- r.Take(4);
    if magic != MAGIC {
      return Err(BadMagic);
    }
    var version :- r.U8();
    if version != VERSION {
      return Err(BadVersion(version));
    }
    var code :- r.U8();
    t := TypeOf(code);
  }

  method DecodeHello(r: Reader) returns (p: Result<Packet, DecodeError>)
    requires r.Valid()
    modifies r
    ensures r.Did(GetHello(old(r.Left())), p)
  {
    var n :- r.U8();
    var token :- r.Take(n);
    var session :- r.U32();
    var mic :- DecodeFormat(r);
    var speaker :- DecodeFormat(r);
    p := Ok(Hello(token, session, mic, speaker));
  }

  method DecodeHelloAck(r: Reader) returns (p: Result<Packet, DecodeError>)
    requires r.Valid()
    modifies r
    ensures r.Did(GetHelloAck(old(r.Left())), p)
  {
    var code :- r.U8();
    var status :- StatusOf(code);
    var session :- r.U32();
    var mic :- DecodeFormat(r);
    var speaker :- DecodeFormat(r);
    var n :- r.U8();
    var message :- r.Take(n);
    if !IsUtf8(message) {
      return Err(NotUtf8);
    }
    p := Ok(HelloAck(status, session, mic, speaker, message));
  }

  method DecodeAudio(r: Reader) returns (a: Result<AudioHeader, DecodeError>)
    requires r.Valid()
    modifies r
    ensures r.Did(GetAudioHeader(old(r.Left())), a)
  {
    var session :- r.U32();
    var code :- r.U8();
    var direction :- DirectionOf(code);
    var number :- r.U32();
    var frames :- r.U16();
    a := Ok(AudioHeader(session, direction, number, frames));
  }

  /** Whatever arrives is judged as `Wire.Decode` judges it. */
  method DecodeDatagram(buf: Bytes) returns (d: Result<Incoming, DecodeError>)
    ensures d == Decode(buf)
    ensures forall p :: d == Ok(Control(p)) <==> T.Fits(p) && Encode(p) <= buf
  {
    forall p ensures Decode(buf) == Ok(Control(p)) <==> T.Fits(p) && Encode(p) <= buf {
      T.DecodesIff(buf, p);
    }
    d := Parse(buf);
  }

  method Parse(buf: Bytes) returns (d: Result<Incoming, DecodeError>)
    ensures d == Decode(buf)
  {
    var r := new Reader(buf);
    var kind :- DecodeHeader(r);
    match kind {
      case THello =>
        var p :- DecodeHello(r);
        return Ok(Control(p));
      case THelloAck =>
        var p :- DecodeHelloAck(r);
        return Ok(Control(p));
      case TAudio =>
        var header :- DecodeAudio(r);
        var payload := r.Rest();
        if |payload| % 2 != 0 || payload == [] {
          return Err(PayloadMismatch);
        }
        return Ok(Audio(header, payload));
      case TBye =>
        var session :- r.U32();
        return Ok(Control(Bye(session)));
      case TPing =>
        var session :- r.U32();
        var nonce :- r.U64();
        return Ok(Control(Ping(session, nonce)));
      case TPong =>
        var session :- r.U32();
        var nonce :- r.U64();
        return Ok(Control(Pong(session, nonce)));
    }
  }

  // ---------------------------------------------------------------- printing

  method EncodeHeader(out: Vec<U8>, t: PacketType)
    modifies out
    ensures out.data == old(out.data) + Header(t)
  {
    out.Extend(MAGIC);
    out.Push(VERSION);
    out.Push(TypeCode(t));
  }

  method EncodeFormat(out: Vec<U8>, f: Format)
    modifies out
    ensures out.data == old(out.data) + PutFormat(f, [])
  {
    out.Extend(Be32(f.rate));
    out.Push(f.channels);
    out.Push(CodecCode(f.codec));
    out.Push(f.frameMs);
    assert PutFormat(f, []) == Be32(f.rate) + [f.channels] + [CodecCode(f.codec)] + [f.frameMs];
  }

  method EncodeField(out: Vec<U8>, s: Bytes)
    modifies out
    ensures out.data == old(out.data) + PutField(s, [])
  {
    var n := if |s| < MAX_FIELD then |s| else MAX_FIELD;
    assert Cut(s) == s[..n];
    out.Push(n);
    out.Extend(s[..n]);
    assert PutField(s, []) == [n] + s[..n];
  }

  method EncodeFormats(out: Vec<U8>, mic: Format, speaker: Format)
    modifies out
    ensures out.data == old(out.data) + (PutFormat(mic, []) + PutFormat(speaker, []))
  {
    EncodeFormat(out, mic);
    EncodeFormat(out, speaker);
    T.Regroup(old(out.data), PutFormat(mic, []), PutFormat(speaker, []));
  }

  method EncodeHello(out: Vec<U8>, token: Bytes, session: U32, mic: Format, speaker: Format)
    modifies out
    ensures out.data == old(out.data) + PutBody(Hello(token, session, mic, speaker), [])
  {
    EncodeField(out, token);
    out.Extend(Be32(session));
    EncodeFormats(out, mic, speaker);
    HelloBody(token, session, mic, speaker);
    JoinFour(old(out.data), PutField(token, []), Be32(session), PutFormat(mic, []) + PutFormat(speaker, []));
  }

  method EncodeHelloAck(out: Vec<U8>, status: Status, session: U32, mic: Format, speaker: Format, message: Text)
    modifies out
    ensures out.data == old(out.data) + PutBody(HelloAck(status, session, mic, speaker, message), [])
  {
    EncodeStatus(out, status, session);
    EncodeFormats(out, mic, speaker);
    EncodeField(out, message);
    HelloAckBody(status, session, mic, speaker, message);
    JoinFour(old(out.data), [StatusCode(status)] + Be32(session), PutFormat(mic, []) + PutFormat(speaker, []),
             PutField(message, []));
  }

  method EncodeStatus(out: Vec<U8>, status: Status, session: U32)
    modifies out
    ensures out.data == old(out.data) + ([StatusCode(status)] + Be32(session))
  {
    out.Push(StatusCode(status));
    out.Extend(Be32(session));
    T.Regroup(old(out.data), [StatusCode(status)], Be32(session));
  }

  lemma JoinFour(a: Bytes, b: Bytes, c: Bytes, d: Bytes)
    ensures a + b + c + d == a + (b + c + d)
  {
  }

  method EncodeEcho(out: Vec<U8>, session: U32, nonce: U64)
    modifies out
    ensures out.data == old(out.data) + (Be32(session) + (Be64(nonce) + []))
  {
    out.Extend(Be32(session));
    out.Extend(Be64(nonce));
    T.Regroup(old(out.data), Be32(session), Be64(nonce) + []);
    assert Be64(nonce) + [] == Be64(nonce);
  }

  method EncodeSession(out: Vec<U8>, session: U32)
    modifies out
    ensures out.data == old(out.data) + (Be32(session) + [])
  {
    out.Extend(Be32(session));
    assert Be32(session) + [] == Be32(session);
  }

  method EncodeBody(out: Vec<U8>, p: Packet)
    modifies out
    ensures out.data == old(out.data) + PutBody(p, [])
  {
    match p {
      case Hello(token, session, mic, speaker) => EncodeHello(out, token, session, mic, speaker);
      case HelloAck(status, session, mic, speaker, message) =>
        EncodeHelloAck(out, status, session, mic, speaker, message);
      case Bye(session) => EncodeSession(out, session);
      case Ping(session, nonce) => EncodeEcho(out, session, nonce);
      case Pong(session, nonce) => EncodeEcho(out, session, nonce);
    }
  }

  /** Prints a control packet. */
  method EncodePacket(p: Packet) returns (bytes: Bytes)
    ensures bytes == Encode(p)
  {
    var out := new Vec<U8>();
    EncodeHeader(out, KindOf(p));
    assert out.data == Header(KindOf(p));
    EncodeBody(out, p);
    bytes := out.data;
  }

  lemma HelloBody(token: Bytes, session: U32, mic: Format, speaker: Format)
    ensures PutBody(Hello(token, session, mic, speaker), [])
         == PutField(token, []) + Be32(session) + (PutFormat(mic, []) + PutFormat(speaker, []))
  {
    T.PutFormatRest(mic, PutFormat(speaker, []));
    assert Cut(token) + [] == Cut(token);
  }

  lemma HelloAckBody(status: Status, session: U32, mic: Format, speaker: Format, message: Text)
    ensures PutBody(HelloAck(status, session, mic, speaker, message), [])
         == ([StatusCode(status)] + Be32(session)) + (PutFormat(mic, []) + PutFormat(speaker, [])) + PutField(message, [])
  {
    T.PutFormatRest(speaker, PutField(message, []));
    T.PutFormatRest(mic, PutFormat(speaker, PutField(message, [])));
  }

  /** Prints an audio packet over whatever `out` held. */
  method EncodeAudioPacket(out: Vec<U8>, session: U32, direction: Direction, number: U32, channels: U8, samples: seq<Sample>)
    modifies out
    ensures out.data == EncodeAudio(session, direction, number, channels, samples)
  {
    out.Clear();
    EncodeHeader(out, TAudio);
    out.Extend(Be32(session));
    out.Push(DirectionCode(direction));
    out.Extend(Be32(number));
    out.Extend(Be16(FrameField(|samples|, channels)));
    ghost var prefix := AudioPrefix(session, direction, number, FrameField(|samples|, channels));
    assert out.data == prefix;
    for i := 0 to |samples|
      invariant out.data == prefix + PutSamples(samples[..i])
    {
      out.Extend(LittleEndian16(samples[i]));
      PutSamplesGrow(samples[..i], samples[i]);
      assert samples[..i + 1] == samples[..i] + [samples[i]];
    }
    assert samples[..|samples|] == samples;
  }

  lemma {:induction false} PutSamplesGrow(samples: seq<Sample>, last: Sample)
    ensures PutSamples(samples + [last]) == PutSamples(samples) + LittleEndian16(last)
  {
    if samples != [] {
      PutSamplesGrow(samples[1..], last);
      assert (samples + [last])[1..] == samples[1..] + [last];
    } else {
      assert (samples + [last])[1..] == [];
    }
  }

  /** Unpacks a payload over whatever `out` held. */
  method DecodePayload(payload: Bytes, out: Vec<Sample>)
    modifies out
    ensures out.data == DecodeSamples(payload)
  {
    out.Clear();
    var i := 0;
    while i + 2 <= |payload|
      invariant i <= |payload|
      invariant out.data + DecodeSamples(payload[i..]) == DecodeSamples(payload)
    {
      ghost var left := payload[i..];
      assert left[2..] == payload[i + 2..];
      out.Push(SampleOf(payload[i], payload[i + 1]));
      i := i + 2;
    }
  }
}
