/** Streams of audio packets on the wire, as a receiver reads them. */
module AudioStreams {
  import opened Numbers
  import opened Utf8
  import opened Wire
  import opened Wrappers
  import Frames
  import T = WireTheorems
  import L = PacketLayout

  /** The datagrams of audio type, the sixth byte being 3. */
  function AudioIn(sent: seq<Bytes>): seq<Bytes> {
    if sent == [] then [] else IfAudio(sent[0]) + AudioIn(sent[1..])
  }

  function IfAudio(b: Bytes): seq<Bytes> {
    if |b| > 5 && b[5] == 3 then [b] else []
  }

  lemma {:induction false} AudioInConcat(a: seq<Bytes>, b: seq<Bytes>)
    ensures AudioIn(a + b) == AudioIn(a) + AudioIn(b)
  {
    if a == [] {
      assert a + b == b;
    } else {
      AudioInConcat(a[1..], b);
      assert (a + b)[0] == a[0] && (a + b)[1..] == a[1..] + b;
      Frames.ConcatAssociates(IfAudio(a[0]), AudioIn(a[1..]), AudioIn(b));
    }
  }

  lemma NotAudio(p: Packet)
    ensures AudioIn([Encode(p)]) == []
  {
    L.PrintsShown(p);
  }

  /** The bytes are audio of the session and direction, under the number, with the samples. */
  predicate IsSpeech(b: Bytes, session: U32, direction: Direction, number: int, pcm: seq<Sample>) {
    pcm != [] ==>
      var d := Decode(b);
      && d.Ok? && d.value.Audio?
      && d.value.header.session == session && d.value.header.direction == direction && d.value.header.number == number
      && DecodeSamples(d.value.payload) == pcm
  }

  lemma SpeechIs(session: U32, direction: Direction, number: U32, channels: U8, pcm: seq<Sample>)
    ensures var b := EncodeAudio(session, direction, number, channels, pcm);
            IsSpeech(b, session, direction, number, pcm) && AudioIn([b]) == [b]
  {
    L.PrintsAudio(session, direction, number, channels, pcm, FrameField(|pcm|, channels));
    if pcm != [] {
      T.AudioRoundTrip(session, direction, number, channels, pcm);
    }
  }

  /** One after the other, the datagrams are audio under successive numbers. */
  predicate Speeches(heard: seq<Bytes>, session: U32, direction: Direction, first: nat, pcms: seq<seq<Sample>>)
    decreases |pcms|
  {
    if pcms == [] then heard == []
    else
      && heard != [] && IsSpeech(heard[0], session, direction, Wrap32(first), pcms[0])
      && Speeches(heard[1..], session, direction, first + 1, pcms[1..])
  }

  lemma OneMore(b: Bytes, rest: seq<Bytes>, session: U32, direction: Direction, first: nat, pcm: seq<Sample>,
                pcms: seq<seq<Sample>>)
    requires IsSpeech(b, session, direction, Wrap32(first), pcm) && Speeches(rest, session, direction, first + 1, pcms)
    ensures Speeches([b] + rest, session, direction, first, [pcm] + pcms)
  {
    assert ([b] + rest)[1..] == rest && ([pcm] + pcms)[1..] == pcms;
  }

  lemma {:induction false} SpeechCount(heard: seq<Bytes>, session: U32, direction: Direction, first: nat,
                                       pcms: seq<seq<Sample>>)
    requires Speeches(heard, session, direction, first, pcms)
    ensures |heard| == |pcms|
    decreases |pcms|
  {
    if pcms != [] {
      SpeechCount(heard[1..], session, direction, first + 1, pcms[1..]);
    }
  }

  lemma {:induction false} SpeechAt(heard: seq<Bytes>, session: U32, direction: Direction, first: nat,
                                    pcms: seq<seq<Sample>>, i: nat, number: nat)
    requires Speeches(heard, session, direction, first, pcms) && i < |heard| == |pcms| && number == first + i
    ensures IsSpeech(heard[i], session, direction, Wrap32(number), pcms[i])
    decreases i
  {
    if i > 0 {
      var later, rest := heard[1..], pcms[1..];
      assert later[i - 1] == heard[i] && rest[i - 1] == pcms[i];
      SpeechAt(later, session, direction, first + 1, rest, i - 1, number);
    }
  }

  /** Exactly these packets, the `i`-th under number `first + i`, wrapped at 2^32. */
  predicate IsStream(heard: seq<Bytes>, session: U32, direction: Direction, first: nat, pcms: seq<seq<Sample>>) {
    && |heard| == |pcms|
    && forall i :: 0 <= i < |heard| ==> IsSpeech(heard[i], session, direction, (first + i) % 0x1_0000_0000, pcms[i])
  }

  lemma SpeechesAreStream(heard: seq<Bytes>, session: U32, direction: Direction, first: nat, pcms: seq<seq<Sample>>)
    requires Speeches(heard, session, direction, first, pcms)
    ensures IsStream(heard, session, direction, first, pcms)
  {
    SpeechCount(heard, session, direction, first, pcms);
    forall i | 0 <= i < |heard|
      ensures IsSpeech(heard[i], session, direction, (first + i) % 0x1_0000_0000, pcms[i])
    {
      SpeechAt(heard, session, direction, first, pcms, i, first + i);
    }
  }
}
