/**
  The printer and the parser of the wire format are inverse to each other, prefixes are
  recognised as such, and audio survives the trip.
 */
module WireTheorems {
  import opened Numbers
  import opened Wrappers
  import opened Utf8
  import opened Wire

  // ---------------------------------------------------------------- one reader at a time
  //
  // For each reader: reading back what was put gives the value and the rest; whatever is
  // read was put there; and an error other than a short buffer survives more bytes.

  lemma TakeBack(a: Bytes, rest: Bytes)
    ensures Take(a + rest, |a|) == Ok((a, rest))
  {
  }

  lemma TookIt(s: Bytes, n: nat)
    ensures Take(s, n).Ok? ==> |Take(s, n).value.0| == n && s == Take(s, n).value.0 + Take(s, n).value.1
  {
  }

  lemma U8Back(b: U8, rest: Bytes)
    ensures GetU8([b] + rest) == Ok((b, rest))
  {
  }

  lemma GotU8(s: Bytes)
    ensures GetU8(s).Ok? ==> s == [GetU8(s).value.0] + GetU8(s).value.1
  {
  }

  lemma U16Back(v: U16, rest: Bytes)
    ensures GetU16(Be16(v) + rest) == Ok((v, rest))
  {
    Radixes();
    TakeBack(Be16(v), rest);
    BigEndianInverse(v, 2);
  }

  lemma U32Back(v: U32, rest: Bytes)
    ensures GetU32(Be32(v) + rest) == Ok((v, rest))
  {
    Radixes();
    TakeBack(Be32(v), rest);
    BigEndianInverse(v, 4);
  }

  lemma GotU32(s: Bytes)
    ensures GetU32(s).Ok? ==> s == Be32(GetU32(s).value.0) + GetU32(s).value.1
  {
    TookIt(s, 4);
    if |s| >= 4 {
      FromBigEndianInverse(s[..4]);
    }
  }

  lemma U64Back(v: U64, rest: Bytes)
    ensures GetU64(Be64(v) + rest) == Ok((v, rest))
  {
    Radixes();
    TakeBack(Be64(v), rest);
    BigEndianInverse(v, 8);
  }

  lemma GotU64(s: Bytes)
    ensures GetU64(s).Ok? ==> s == Be64(GetU64(s).value.0) + GetU64(s).value.1
  {
    TookIt(s, 8);
    if |s| >= 8 {
      FromBigEndianInverse(s[..8]);
    }
  }

  lemma FieldBack(f: Bytes, rest: Bytes)
    ensures GetField(PutField(f, rest)) == Ok((Cut(f), rest))
  {
    U8Back(|Cut(f)|, Cut(f) + rest);
    TakeBack(Cut(f), rest);
  }

  lemma GotField(s: Bytes)
    ensures GetField(s).Ok? ==> var (f, rest) := GetField(s).value; |f| <= MAX_FIELD && s == PutField(f, rest)
  {
    GotU8(s);
    if s != [] {
      TookIt(s[1..], s[0]);
    }
  }

  lemma FormatBack(f: Format, rest: Bytes)
    ensures GetFormat(PutFormat(f, rest)) == Ok((f, rest))
  {
    U32Back(f.rate, [f.channels] + ([CodecCode(f.codec)] + ([f.frameMs] + rest)));
    U8Back(f.channels, [CodecCode(f.codec)] + ([f.frameMs] + rest));
    U8Back(CodecCode(f.codec), [f.frameMs] + rest);
    U8Back(f.frameMs, rest);
    assert f.codec == PcmS16Le;
  }

  lemma FormatFields(s: Bytes)
    requires GetFormat(s).Ok?
    ensures GetU32(s).Ok? && |GetU32(s).value.1| >= 3
    ensures var (rate, t) := GetU32(s).value;
            t[1] == 0 && GetFormat(s).value == (Format(rate, t[0], PcmS16Le, t[2]), t[3..])
  {
    var t := GetU32(s).value.1;
    assert |t| >= 1;
    assert |t[1..]| >= 1 && t[1..][0] == t[1];
    assert t[1..][1..] == t[2..];
    assert |t[2..]| >= 1 && t[2..][0] == t[2];
    assert t[2..][1..] == t[3..];
  }

  lemma GotFormat(s: Bytes)
    ensures GetFormat(s).Ok? ==> s == PutFormat(GetFormat(s).value.0, GetFormat(s).value.1)
  {
    if GetFormat(s).Ok? {
      FormatFields(s);
      GotU32(s);
      var (rate, t) := GetU32(s).value;
      assert t == [t[0]] + ([t[1]] + ([t[2]] + t[3..]));
    }
  }

  lemma HeaderBack(t: PacketType, rest: Bytes)
    ensures GetHeader(Header(t) + rest) == Ok((t, rest))
  {
    var s := Header(t) + rest;
    assert s[..4] == MAGIC;
    assert s[4..] == [VERSION] + ([TypeCode(t)] + rest);
    U8Back(VERSION, [TypeCode(t)] + rest);
    U8Back(TypeCode(t), rest);
  }

  lemma HeaderFields(s: Bytes)
    requires GetHeader(s).Ok?
    ensures |s| >= 6 && s[..4] == MAGIC && s[4] == VERSION
    ensures TypeOf(s[5]).Ok? && GetHeader(s).value == (TypeOf(s[5]).value, s[6..])
  {
    var t := s[4..];
    assert |t| >= 1 && t[0] == s[4] && t[1..] == s[5..];
    assert |s[5..]| >= 1 && s[5..][0] == s[5] && s[5..][1..] == s[6..];
  }

  lemma GotHeader(s: Bytes)
    ensures GetHeader(s).Ok? ==> s == Header(GetHeader(s).value.0) + GetHeader(s).value.1
  {
    if GetHeader(s).Ok? {
      HeaderFields(s);
      assert TypeCode(TypeOf(s[5]).value) == s[5];
      assert s == s[..4] + [s[4], s[5]] + s[6..];
    }
  }

  // ---------------------------------------------------------------- control packets

  /** The fields fit their one-byte lengths. */
  predicate Fits(p: Packet) {
    match p
    case Hello(token, _, _, _) => |token| <= MAX_FIELD
    case HelloAck(_, _, _, _, message) => |message| <= MAX_FIELD
    case _ => true
  }

  lemma BodyBack(p: Packet, rest: Bytes)
    requires Fits(p)
    ensures GetBody(KindOf(p), PutBody(p, rest)) == Ok((p, rest))
  {
    match p
    case Hello(token, session, mic, speaker) =>
      FieldBack(token, Be32(session) + PutFormat(mic, PutFormat(speaker, rest)));
      U32Back(session, PutFormat(mic, PutFormat(speaker, rest)));
      FormatBack(mic, PutFormat(speaker, rest));
      FormatBack(speaker, rest);
    case HelloAck(status, session, mic, speaker, message) =>
      AckBack(status, session, mic, speaker, message, rest);
    case Bye(session) =>
      U32Back(session, rest);
    case Ping(session, nonce) =>
      U32Back(session, Be64(nonce) + rest);
      U64Back(nonce, rest);
    case Pong(session, nonce) =>
      U32Back(session, Be64(nonce) + rest);
      U64Back(nonce, rest);
  }

  lemma AckFieldsBack(status: Status, session: U32, mic: Format, speaker: Format, message: Text, rest: Bytes)
    ensures GetAckFields(status, Be32(session) + PutFormat(mic, PutFormat(speaker, PutField(message, rest))))
         == if IsUtf8(Cut(message)) then Ok((HelloAck(status, session, mic, speaker, Cut(message)), rest))
            else Err(NotUtf8)
  {
    var s4 := PutField(message, rest);
    var s3 := PutFormat(speaker, s4);
    U32Back(session, PutFormat(mic, s3));
    FormatBack(mic, s3);
    FormatBack(speaker, s4);
    FieldBack(message, rest);
  }

  lemma StatusBack(status: Status)
    ensures StatusOf(StatusCode(status)) == Ok(status)
  {
  }

  /** A HelloAck with text of any length comes back cut to 255 bytes, if the cut is text. */
  lemma AckBack(status: Status, session: U32, mic: Format, speaker: Format, message: Text, rest: Bytes)
    ensures var p := HelloAck(status, session, mic, speaker, message);
            GetHelloAck(PutBody(p, rest))
            == if IsUtf8(Cut(message)) then Ok((HelloAck(status, session, mic, speaker, Cut(message)), rest))
               else Err(NotUtf8)
  {
    U8Back(StatusCode(status), Be32(session) + PutFormat(mic, PutFormat(speaker, PutField(message, rest))));
    StatusBack(status);
    AckFieldsBack(status, session, mic, speaker, message, rest);
  }

  lemma GotHello(s: Bytes)
    ensures GetHello(s).Ok? ==> Fits(GetHello(s).value.0) && s == PutBody(GetHello(s).value.0, GetHello(s).value.1)
  {
    if GetHello(s).Ok? {
      GotField(s);
      var s1 := GetField(s).value.1;
      GotU32(s1);
      var s2 := GetU32(s1).value.1;
      GotFormat(s2);
      GotFormat(GetFormat(s2).value.1);
    }
  }

  lemma GotAckFields(status: Status, s: Bytes)
    ensures GetAckFields(status, s).Ok? ==>
              var (p, rest) := GetAckFields(status, s).value;
              Fits(p) && p.HelloAck? && [StatusCode(status)] + s == PutBody(p, rest)
  {
    if GetAckFields(status, s).Ok? {
      GotU32(s);
      var s1 := GetU32(s).value.1;
      GotFormat(s1);
      var s2 := GetFormat(s1).value.1;
      GotFormat(s2);
      GotField(GetFormat(s2).value.1);
    }
  }

  lemma GotHelloAck(s: Bytes)
    ensures GetHelloAck(s).Ok? ==>
              var (p, rest) := GetHelloAck(s).value; Fits(p) && p.HelloAck? && s == PutBody(p, rest)
  {
    if GetHelloAck(s).Ok? {
      GotU8(s);
      var status := StatusOf(s[0]).value;
      assert StatusCode(status) == s[0];
      GotAckFields(status, s[1..]);
    }
  }

  lemma GotBody(kind: PacketType, s: Bytes)
    requires kind != TAudio
    ensures GetBody(kind, s).Ok? ==>
              var (p, rest) := GetBody(kind, s).value; Fits(p) && KindOf(p) == kind && s == PutBody(p, rest)
  {
    match kind
    case THello => GotHello(s);
    case THelloAck => GotHelloAck(s);
    case TBye => GotU32(s);
    case TPing =>
      GotU32(s);
      if |s| >= 4 { GotU64(s[4..]); }
    case TPong =>
      GotU32(s);
      if |s| >= 4 { GotU64(s[4..]); }
  }

  lemma PutFormatRest(f: Format, rest: Bytes)
    ensures PutFormat(f, rest) == PutFormat(f, []) + rest
  {
    var mid := [f.channels] + ([CodecCode(f.codec)] + ([f.frameMs] + []));
    assert [f.channels] + ([CodecCode(f.codec)] + ([f.frameMs] + rest)) == mid + rest;
    Regroup(Be32(f.rate), mid, rest);
  }

  lemma PutFormatsRest(f: Format, g: Format, rest: Bytes)
    ensures PutFormat(f, PutFormat(g, rest)) == PutFormat(f, PutFormat(g, [])) + rest
  {
    PutFormatRest(g, rest);
    PutFormatRest(f, PutFormat(g, rest));
    PutFormatRest(f, PutFormat(g, []));
    Regroup(PutFormat(f, []), PutFormat(g, []), rest);
  }

  lemma Regroup(a: Bytes, b: Bytes, c: Bytes)
    ensures a + (b + c) == (a + b) + c
  {
  }

  /** What follows a packet is simply appended. */
  lemma PutBodyRest(p: Packet, rest: Bytes)
    ensures PutBody(p, rest) == PutBody(p, []) + rest
  {
    match p
    case Hello(token, session, mic, speaker) =>
      var formats := PutFormat(mic, PutFormat(speaker, []));
      PutFormatsRest(mic, speaker, rest);
      Regroup(Be32(session), formats, rest);
      Regroup(Cut(token), Be32(session) + formats, rest);
      Regroup([|Cut(token)|], Cut(token) + (Be32(session) + formats), rest);
    case HelloAck(status, session, mic, speaker, message) =>
      var field := PutField(message, []);
      assert Cut(message) + [] == Cut(message);
      Regroup([|Cut(message)|], Cut(message), rest);
      assert PutField(message, rest) == field + rest;
      var formats := PutFormat(mic, PutFormat(speaker, []));
      PutFormatsRest(mic, speaker, field);
      PutFormatsRest(mic, speaker, field + rest);
      Regroup(formats, field, rest);
      Regroup(Be32(session), formats + field, rest);
      Regroup([StatusCode(status)], Be32(session) + (formats + field), rest);
    case Bye(session) =>
      assert Be32(session) + [] == Be32(session);
    case Ping(session, nonce) =>
      assert Be64(nonce) + [] == Be64(nonce);
      Regroup(Be32(session), Be64(nonce), rest);
    case Pong(session, nonce) =>
      assert Be64(nonce) + [] == Be64(nonce);
      Regroup(Be32(session), Be64(nonce), rest);
  }

  lemma EncodeRest(p: Packet, rest: Bytes)
    ensures Encode(p) + rest == Header(KindOf(p)) + PutBody(p, rest)
  {
    PutBodyRest(p, rest);
    Regroup(Header(KindOf(p)), PutBody(p, []), rest);
  }

  lemma DecodesBack(p: Packet, rest: Bytes)
    requires Fits(p)
    ensures Decode(Encode(p) + rest) == Ok(Control(p))
  {
    EncodeRest(p, rest);
    HeaderBack(KindOf(p), PutBody(p, rest));
    BodyBack(p, rest);
  }

  lemma DecodedWasEncoded(s: Bytes)
    ensures Decode(s).Ok? && Decode(s).value.Control? ==>
              Fits(Decode(s).value.packet) && Encode(Decode(s).value.packet) <= s
  {
    if Decode(s).Ok? && Decode(s).value.Control? {
      GotHeader(s);
      var (kind, body) := GetHeader(s).value;
      GotBody(kind, body);
      var (p, rest) := GetBody(kind, body).value;
      EncodeRest(p, rest);
    }
  }

  /** The printer and the parser agree on every buffer: a control packet is read exactly where it was written. */
  lemma DecodesIff(s: Bytes, p: Packet)
    ensures Decode(s) == Ok(Control(p)) <==> Fits(p) && Encode(p) <= s
  {
    DecodedWasEncoded(s);
    if Fits(p) && Encode(p) <= s {
      DecodesBack(p, s[|Encode(p)|..]);
      assert s == Encode(p) + s[|Encode(p)|..];
    }
  }

  /** Round trip. */
  lemma DecodesWhatWasEncoded(p: Packet)
    requires Fits(p)
    ensures Decode(Encode(p)) == Ok(Control(p))
  {
    DecodesIff(Encode(p), p);
  }

  /** Whatever the lengths, a Hello comes back with its token cut to 255 bytes. */
  lemma HelloDecodes(token: Bytes, session: U32, mic: Format, speaker: Format)
    ensures Decode(Encode(Hello(token, session, mic, speaker))) == Ok(Control(Hello(Cut(token), session, mic, speaker)))
  {
    assert Cut(Cut(token)) == Cut(token);
    assert Encode(Hello(token, session, mic, speaker)) == Encode(Hello(Cut(token), session, mic, speaker));
    DecodesWhatWasEncoded(Hello(Cut(token), session, mic, speaker));
  }

  /**
    A HelloAck with a message of any length comes back with the message cut at 255 bytes
    when the cut falls between characters, and is refused as bad UTF-8 otherwise.
   */
  lemma HelloAckDecodes(status: Status, session: U32, mic: Format, speaker: Format, message: Text)
    ensures IsUtf8(Cut(message)) <==> |message| <= MAX_FIELD || IsCharBoundary(message, MAX_FIELD)
    ensures Decode(Encode(HelloAck(status, session, mic, speaker, message)))
         == if IsUtf8(Cut(message)) then Ok(Control(HelloAck(status, session, mic, speaker, Cut(message))))
            else Err(NotUtf8)
  {
    if |message| > MAX_FIELD {
      CutIsUtf8(message, MAX_FIELD);
    }
    var p := HelloAck(status, session, mic, speaker, message);
    HeaderBack(THelloAck, PutBody(p, []));
    AckBack(status, session, mic, speaker, message, []);
  }

  // ---------------------------------------------------------------- prefixes

  /** A reader that has decided is not changed by more bytes. */
  ghost predicate Stands<T>(before: Read<T>, after: Read<T>, more: Bytes) {
    match before
    case Ok((v, rest)) => after == Ok((v, rest + more))
    case Err(e) => e == TooShort || after == Err(e)
  }

  lemma TakeStands(s: Bytes, n: nat, more: Bytes)
    ensures Stands(Take(s, n), Take(s + more, n), more)
  {
    if n <= |s| {
      assert (s + more)[..n] == s[..n];
      assert (s + more)[n..] == s[n..] + more;
    }
  }

  lemma U8Stands(s: Bytes, more: Bytes)
    ensures Stands(GetU8(s), GetU8(s + more), more)
  {
    if s != [] {
      assert (s + more)[1..] == s[1..] + more;
    }
  }

  lemma U32Stands(s: Bytes, more: Bytes)
    ensures Stands(GetU32(s), GetU32(s + more), more)
  {
    TakeStands(s, 4, more);
  }

  lemma U64Stands(s: Bytes, more: Bytes)
    ensures Stands(GetU64(s), GetU64(s + more), more)
  {
    TakeStands(s, 8, more);
  }

  lemma FieldStands(s: Bytes, more: Bytes)
    ensures Stands(GetField(s), GetField(s + more), more)
  {
    U8Stands(s, more);
    if s != [] {
      TakeStands(s[1..], s[0], more);
    }
  }

  lemma FormatStands(s: Bytes, more: Bytes)
    ensures Stands(GetFormat(s), GetFormat(s + more), more)
  {
    U32Stands(s, more);
    if GetU32(s).Ok? {
      var s1 := GetU32(s).value.1;
      U8Stands(s1, more);
      if |s1| >= 1 {
        U8Stands(s1[1..], more);
        if |s1| >= 2 {
          U8Stands(s1[2..], more);
        }
      }
    }
  }

  lemma HeaderStands(s: Bytes, more: Bytes)
    ensures Stands(GetHeader(s), GetHeader(s + more), more)
  {
    TakeStands(s, 4, more);
    if |s| >= 4 {
      U8Stands(s[4..], more);
      if |s| >= 5 {
        U8Stands(s[5..], more);
      }
    }
  }

  lemma HelloStands(s: Bytes, more: Bytes)
    ensures Stands(GetHello(s), GetHello(s + more), more)
  {
    FieldStands(s, more);
    if GetField(s).Ok? {
      var s1 := GetField(s).value.1;
      U32Stands(s1, more);
      if GetU32(s1).Ok? {
        var s2 := GetU32(s1).value.1;
        FormatStands(s2, more);
        if GetFormat(s2).Ok? {
          FormatStands(GetFormat(s2).value.1, more);
        }
      }
    }
  }

  lemma AckFieldsStand(status: Status, s: Bytes, more: Bytes)
    ensures Stands(GetAckFields(status, s), GetAckFields(status, s + more), more)
  {
    U32Stands(s, more);
    if GetU32(s).Ok? {
      var s1 := GetU32(s).value.1;
      FormatStands(s1, more);
      if GetFormat(s1).Ok? {
        var s2 := GetFormat(s1).value.1;
        FormatStands(s2, more);
        if GetFormat(s2).Ok? {
          FieldStands(GetFormat(s2).value.1, more);
        }
      }
    }
  }

  lemma HelloAckStands(s: Bytes, more: Bytes)
    ensures Stands(GetHelloAck(s), GetHelloAck(s + more), more)
  {
    U8Stands(s, more);
    if s != [] && StatusOf(s[0]).Ok? {
      AckFieldsStand(StatusOf(s[0]).value, s[1..], more);
    }
  }

  lemma BodyStands(kind: PacketType, s: Bytes, more: Bytes)
    requires kind != TAudio
    ensures Stands(GetBody(kind, s), GetBody(kind, s + more), more)
  {
    match kind
    case THello => HelloStands(s, more);
    case THelloAck => HelloAckStands(s, more);
    case TBye => U32Stands(s, more);
    case TPing =>
      U32Stands(s, more);
      if |s| >= 4 { U64Stands(s[4..], more); }
    case TPong =>
      U32Stands(s, more);
      if |s| >= 4 { U64Stands(s[4..], more); }
  }

  /** Except for audio, whose payload is all that is left, a verdict other than `TooShort` is final. */
  lemma VerdictIsFinal(s: Bytes, more: Bytes)
    requires Decode(s) != Err(TooShort)
    requires GetHeader(s).Ok? ==> GetHeader(s).value.0 != TAudio
    ensures Decode(s + more) == Decode(s)
  {
    HeaderStands(s, more);
    if GetHeader(s).Ok? {
      var (kind, body) := GetHeader(s).value;
      BodyStands(kind, body, more);
    }
  }

  /** Every strict prefix of a control packet is too short, and nothing else. */
  lemma PrefixIsTooShort(p: Packet, n: nat)
    requires Fits(p) && n < |Encode(p)|
    ensures Decode(Encode(p)[..n]) == Err(TooShort)
  {
    var s, more := Encode(p)[..n], Encode(p)[n..];
    assert s + more == Encode(p);
    DecodesWhatWasEncoded(p);
    PutBodyRest(p, []);
    HeaderBack(KindOf(p), PutBody(p, []));
    HeaderStands(s, more);
    if Decode(s) != Err(TooShort) {
      VerdictIsFinal(s, more);
      DecodesIff(s, p);
    }
  }

  // ---------------------------------------------------------------- audio

  lemma SampleBack(s: Sample)
    ensures SampleOf(LittleEndian16(s)[0], LittleEndian16(s)[1]) == s
  {
  }

  lemma {:induction false} PutSamplesLength(samples: seq<Sample>)
    ensures |PutSamples(samples)| == 2 * |samples|
  {
    if samples != [] {
      PutSamplesLength(samples[1..]);
    }
  }

  /** A prefix of the encoded samples decodes to a prefix of the samples. */
  lemma {:induction false} SamplesBack(samples: seq<Sample>, n: nat)
    requires n <= 2 * |samples|
    ensures n <= |PutSamples(samples)|
    ensures DecodeSamples(PutSamples(samples)[..n]) == samples[..n / 2]
  {
    PutSamplesLength(samples);
    if n >= 2 {
      var all := PutSamples(samples);
      SamplesBack(samples[1..], n - 2);
      SampleBack(samples[0]);
      assert all[..n][2..] == PutSamples(samples[1..])[..n - 2];
      assert samples[..n / 2] == [samples[0]] + samples[1..][..(n - 2) / 2];
    }
  }

  /** Every payload of whole samples is the encoding of what it decodes to. */
  lemma {:induction false} PayloadIsSamples(payload: Bytes)
    requires |payload| % 2 == 0
    ensures PutSamples(DecodeSamples(payload)) == payload
  {
    if payload != [] {
      PayloadIsSamples(payload[2..]);
      assert payload == [payload[0], payload[1]] + payload[2..];
    }
  }

  lemma AudioHeaderBack(session: U32, direction: Direction, number: U32, frames: U16, payload: Bytes)
    ensures |AudioPrefix(session, direction, number, frames)| == 17
    ensures GetHeader(AudioPrefix(session, direction, number, frames) + payload).Ok?
    ensures var (kind, body) := GetHeader(AudioPrefix(session, direction, number, frames) + payload).value;
            kind == TAudio && GetAudioHeader(body) == Ok((AudioHeader(session, direction, number, frames), payload))
  {
    var a, b, c, d := Be32(session), [DirectionCode(direction)], Be32(number), Be16(frames);
    Regroup(Header(TAudio), a + (b + (c + d)), payload);
    Regroup(a, b + (c + d), payload);
    Regroup(b, c + d, payload);
    Regroup(c, d, payload);
    HeaderBack(TAudio, a + (b + (c + (d + payload))));
    U32Back(session, b + (c + (d + payload)));
    U8Back(DirectionCode(direction), c + (d + payload));
    U32Back(number, d + payload);
    U16Back(frames, payload);
  }

  /** What a receiver makes of an audio header with any payload. */
  lemma AudioDecodes(session: U32, direction: Direction, number: U32, frames: U16, payload: Bytes)
    ensures Decode(AudioPrefix(session, direction, number, frames) + payload)
         == if |payload| % 2 != 0 || payload == [] then Err(PayloadMismatch)
            else Ok(Audio(AudioHeader(session, direction, number, frames), payload))
  {
    AudioHeaderBack(session, direction, number, frames, payload);
  }

  lemma FrameFieldExact(samples: nat, channels: U8)
    requires channels >= 1
    ensures FrameField(samples, channels) == samples / channels <==> samples / channels <= 0xFFFF
  {
  }

  /** Audio end to end: header fields and samples come back; the frame count does exactly when it fits 16 bits. */
  lemma AudioRoundTrip(session: U32, direction: Direction, number: U32, channels: U8, samples: seq<Sample>)
    requires samples != []
    ensures var d := Decode(EncodeAudio(session, direction, number, channels, samples));
            && d.Ok? && d.value.Audio?
            && d.value.header == AudioHeader(session, direction, number, FrameField(|samples|, channels))
            && DecodeSamples(d.value.payload) == samples
    ensures channels >= 1 ==>
              (FrameField(|samples|, channels) == |samples| / channels <==> |samples| / channels <= 0xFFFF)
  {
    if channels >= 1 {
      FrameFieldExact(|samples|, channels);
    }
    PutSamplesLength(samples);
    AudioDecodes(session, direction, number, FrameField(|samples|, channels), PutSamples(samples));
    SamplesBack(samples, 2 * |samples|);
    assert PutSamples(samples)[..2 * |samples|] == PutSamples(samples);
  }

  lemma CutPayloadDecodes(session: U32, direction: Direction, number: U32, frames: U16, samples: seq<Sample>, k: nat)
    requires k <= 2 * |samples|
    ensures k <= |PutSamples(samples)|
    ensures var d := Decode(AudioPrefix(session, direction, number, frames) + PutSamples(samples)[..k]);
            if k % 2 == 0 && k > 0
            then d.Ok? && d.value.Audio? && DecodeSamples(d.value.payload) == samples[..k / 2]
                 && d.value.header == AudioHeader(session, direction, number, frames)
            else d == Err(PayloadMismatch)
  {
    SamplesBack(samples, k);
    AudioDecodes(session, direction, number, frames, PutSamples(samples)[..k]);
  }

  lemma CutOfTwo(head: Bytes, tail: Bytes, n: nat)
    requires n <= |head| + |tail|
    ensures n <= |head| ==> (head + tail)[..n] == head[..n]
    ensures n >= |head| ==> (head + tail)[..n] == head + tail[..n - |head|]
  {
  }

  lemma AudioCutShort(session: U32, direction: Direction, number: U32, frames: U16, payload: Bytes, n: nat)
    requires n < 17
    ensures n <= |AudioPrefix(session, direction, number, frames) + payload|
    ensures Decode((AudioPrefix(session, direction, number, frames) + payload)[..n]) == Err(TooShort)
  {
    HeaderIsTooShort(session, direction, number, frames, n);
    CutOfTwo(AudioPrefix(session, direction, number, frames), payload, n);
  }

  lemma AudioCutLong(session: U32, direction: Direction, number: U32, frames: U16, samples: seq<Sample>, k: nat)
    requires k <= 2 * |samples|
    ensures k + 17 <= |AudioPrefix(session, direction, number, frames) + PutSamples(samples)|
    ensures var d := Decode((AudioPrefix(session, direction, number, frames) + PutSamples(samples))[..k + 17]);
            if k % 2 == 0 && k > 0
            then d.Ok? && d.value.Audio? && DecodeSamples(d.value.payload) == samples[..k / 2]
                 && d.value.header == AudioHeader(session, direction, number, frames)
            else d == Err(PayloadMismatch)
  {
    PutSamplesLength(samples);
    AudioHeaderBack(session, direction, number, frames, []);
    CutOfTwo(AudioPrefix(session, direction, number, frames), PutSamples(samples), k + 17);
    CutPayloadDecodes(session, direction, number, frames, samples, k);
  }

  /** What a cut audio packet decodes to. */
  ghost predicate CutDecodes(d: Result<Incoming, DecodeError>, header: AudioHeader, samples: seq<Sample>, n: nat)
    requires n <= 17 + 2 * |samples|
  {
    if n < 17 then d == Err(TooShort)
    else if n == 17 || n % 2 == 0 then d == Err(PayloadMismatch)
    else d.Ok? && d.value.Audio? && d.value.header == header && DecodeSamples(d.value.payload) == samples[..(n - 17) / 2]
  }

  lemma ParityOfCut(n: nat)
    requires n >= 17
    ensures (n - 17) % 2 == 0 <==> n % 2 != 0
  {
  }

  lemma AudioCut(session: U32, direction: Direction, number: U32, frames: U16, samples: seq<Sample>, n: nat)
    requires n <= 17 + 2 * |samples|
    ensures n <= |AudioPrefix(session, direction, number, frames) + PutSamples(samples)|
    ensures CutDecodes(Decode((AudioPrefix(session, direction, number, frames) + PutSamples(samples))[..n]),
                       AudioHeader(session, direction, number, frames), samples, n)
  {
    if n < 17 {
      AudioCutShort(session, direction, number, frames, PutSamples(samples), n);
    } else {
      AudioCutLong(session, direction, number, frames, samples, n - 17);
      ParityOfCut(n);
    }
  }

  /** Every prefix of an audio packet: too short without a whole header, refused without whole samples, else a prefix of the audio. */
  lemma AudioPrefixDecodes(session: U32, direction: Direction, number: U32, channels: U8, samples: seq<Sample>, n: nat)
    requires n <= 17 + 2 * |samples|
    ensures n <= |EncodeAudio(session, direction, number, channels, samples)|
    ensures CutDecodes(Decode(EncodeAudio(session, direction, number, channels, samples)[..n]),
                       AudioHeader(session, direction, number, FrameField(|samples|, channels)), samples, n)
  {
    PutSamplesLength(samples);
    AudioCut(session, direction, number, FrameField(|samples|, channels), samples, n);
  }

  lemma CutHeader(t: PacketType, rest: Bytes, n: nat)
    requires n < 6
    ensures |Header(t)| == 6 && GetHeader((Header(t) + rest)[..n]) == Err(TooShort)
  {
    var s := (Header(t) + rest)[..n];
    assert s == Header(t)[..n];
    assert n >= 4 ==> s[..4] == MAGIC;
  }

  lemma HeaderIsTooShort(session: U32, direction: Direction, number: U32, frames: U16, n: nat)
    requires n < 17
    ensures |AudioPrefix(session, direction, number, frames)| == 17
    ensures Decode(AudioPrefix(session, direction, number, frames)[..n]) == Err(TooShort)
  {
    var head := AudioPrefix(session, direction, number, frames);
    var body := Be32(session) + ([DirectionCode(direction)] + (Be32(number) + Be16(frames)));
    CutHeader(TAudio, body, 0);
    assert |body| == 11;
    if n < 6 {
      CutHeader(TAudio, body, n);
    } else {
      assert head[..n] == Header(TAudio) + body[..n - 6];
      HeaderBack(TAudio, body[..n - 6]);
      AudioFieldsTooShort(session, direction, number, frames, n - 6);
    }
  }

  lemma AudioFieldsTooShort(session: U32, direction: Direction, number: U32, frames: U16, n: nat)
    requires n < 11
    ensures var body := Be32(session) + ([DirectionCode(direction)] + (Be32(number) + Be16(frames)));
            |body| == 11 && GetAudioHeader(body[..n]) == Err(TooShort)
  {
    var body := Be32(session) + ([DirectionCode(direction)] + (Be32(number) + Be16(frames)));
    assert n > 4 ==> body[..n][4..][0] == DirectionCode(direction);
  }

  /**
    A packet longer than the 4096-byte receive buffer is cut to 4096 bytes and always refused,
    so audio of a format gets through exactly when its packet fits.
   */
  lemma ReceivedIff(session: U32, direction: Direction, number: U32, channels: U8, samples: seq<Sample>)
    requires samples != []
    ensures var s := EncodeAudio(session, direction, number, channels, samples);
            && (Decode(Received(s)).Ok? <==> 17 + 2 * |samples| <= MAX_PACKET)
            && (Decode(Received(s)).Ok? ==> Received(s) == s)
  {
    PutSamplesLength(samples);
    AudioHeaderBack(session, direction, number, FrameField(|samples|, channels), []);
    var s := EncodeAudio(session, direction, number, channels, samples);
    if |s| <= MAX_PACKET {
      AudioRoundTrip(session, direction, number, channels, samples);
    } else {
      AudioPrefixDecodes(session, direction, number, channels, samples, MAX_PACKET);
    }
  }

  /** A datagram as it lands in the receive buffer. */
  function Received(s: Bytes): Bytes {
    if |s| <= MAX_PACKET then s else s[..MAX_PACKET]
  }

  lemma FormatLength(f: Format, rest: Bytes)
    ensures |PutFormat(f, rest)| == 7 + |rest|
  {
  }

  /** Control packets are far smaller than the receive buffer. */
  lemma ControlFits(p: Packet)
    ensures |Encode(p)| <= 300
    ensures Received(Encode(p)) == Encode(p)
  {
    match p
    case Hello(_, _, mic, speaker) =>
      FormatLength(speaker, []);
      FormatLength(mic, PutFormat(speaker, []));
    case HelloAck(_, _, mic, speaker, message) =>
      FormatLength(speaker, PutField(message, []));
      FormatLength(mic, PutFormat(speaker, PutField(message, [])));
    case _ =>
  }

  lemma ControlArrives(p: Packet)
    requires Fits(p)
    ensures Decode(Received(Encode(p))) == Ok(Control(p))
  {
    ControlFits(p);
    DecodesWhatWasEncoded(p);
  }

  /** Of the valid formats exactly one is too big for the receive buffer: 96 kHz stereo in 20 ms packets. */
  lemma OnlyOneFormatTooBig(f: Format)
    requires ValidFormat(f)
    ensures 17 + 2 * SamplesPerPacket(f) > MAX_PACKET <==> f.rate == 96000 && f.channels == 2 && f.frameMs == 20
  {
  }

  // ---------------------------------------------------------------- tokens

  /** The formats that are accepted: eight rates, one or two channels, three durations. The last of the checks never fires. */
  lemma ValidFormatIff(f: Format)
    ensures ValidFormat(f)
            <==> && (f.rate == 8000 || f.rate == 16000 || f.rate == 22050 || f.rate == 24000
                     || f.rate == 32000 || f.rate == 44100 || f.rate == 48000 || f.rate == 96000)
                 && (f.channels == 1 || f.channels == 2)
                 && (f.frameMs == 5 || f.frameMs == 10 || f.frameMs == 20)
  {
  }

  /** The sizes of a packet: whole frames in its duration, and a sample for each channel of each. */
  lemma PacketSize(f: Format)
    requires ValidFormat(f)
    ensures 1000 * FramesPerPacket(f) <= f.rate * f.frameMs < 1000 * FramesPerPacket(f) + 1000
    ensures SamplesPerPacket(f) == if f.channels == 1 then FramesPerPacket(f) else FramesPerPacket(f) + FramesPerPacket(f)
  {
  }

  /** Exclusive or, bit by bit. */
  function Xor(a: nat, b: nat): nat {
    if a == 0 && b == 0 then 0 else (a + b) % 2 + 2 * Xor(a / 2, b / 2)
  }

  /** Inclusive or, bit by bit. */
  function BitOr(a: nat, b: nat): nat {
    if a == 0 && b == 0 then 0 else (if a % 2 + b % 2 > 0 then 1 else 0) + 2 * BitOr(a / 2, b / 2)
  }

  lemma {:induction false} XorZeroIff(a: nat, b: nat)
    ensures Xor(a, b) == 0 <==> a == b
  {
    if a != 0 || b != 0 {
      XorZeroIff(a / 2, b / 2);
    }
  }

  lemma {:induction false} OrZeroIff(a: nat, b: nat)
    ensures BitOr(a, b) == 0 <==> a == 0 && b == 0
  {
    if a != 0 || b != 0 {
      OrZeroIff(a / 2, b / 2);
    }
  }

  /** The differences found between two tokens so far. */
  function Differences(expected: Bytes, got: Bytes, n: nat): nat
    requires n <= |expected| && n <= |got|
  {
    if n == 0 then 0 else BitOr(Differences(expected, got, n - 1), Xor(expected[n - 1], got[n - 1]))
  }

  function TokenMatches(expected: Bytes, got: Bytes): bool {
    |expected| == |got| && Differences(expected, got, |expected|) == 0
  }

  lemma {:induction false} NoDifference(expected: Bytes, got: Bytes, n: nat)
    requires n <= |expected| && n <= |got|
    ensures Differences(expected, got, n) == 0 <==> expected[..n] == got[..n]
  {
    if n > 0 {
      NoDifference(expected, got, n - 1);
      OrZeroIff(Differences(expected, got, n - 1), Xor(expected[n - 1], got[n - 1]));
      XorZeroIff(expected[n - 1], got[n - 1]);
      assert expected[..n] == expected[..n - 1] + [expected[n - 1]];
      assert got[..n] == got[..n - 1] + [got[n - 1]];
    }
  }

  /** The constant-time comparison is equality. */
  lemma TokenMatchesIff(expected: Bytes, got: Bytes)
    ensures TokenMatches(expected, got) <==> expected == got
  {
    if |expected| == |got| {
      NoDifference(expected, got, |expected|);
      assert expected[..|expected|] == expected && got[..|got|] == got;
    }
  }

  /** A host that sends the VM's own token is let in exactly when the token is at most 255 bytes long. */
  lemma OwnTokenPassesIff(token: Bytes, session: U32, mic: Format, speaker: Format)
    ensures var d := Decode(Encode(Hello(token, session, mic, speaker)));
            && d.Ok? && d.value.Control? && d.value.packet.Hello?
            && (TokenMatches(token, d.value.packet.token) <==> |token| <= MAX_FIELD)
  {
    HelloDecodes(token, session, mic, speaker);
    TokenMatchesIff(token, Cut(token));
  }
}
