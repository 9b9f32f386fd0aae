/**
  What the host does with every event, and what it sends, both ways: under which condition
  something happens, and that nothing happens otherwise. Bytes are told by what a receiver
  reads in them.
 */
module HostAnswers {
  import opened Numbers
  import opened Wrappers
  import opened Utf8
  import opened Wire
  import opened AudioStreams
  import opened HostSession
  import T = WireTheorems
  import J = JitterModel

  // ---------------------------------------------------------------- the connection

  /** The guest's Ok, or its refusal, for the host's session. */
  predicate IsAck(cfg: HostConfig, d: Result<Incoming, DecodeError>, ok: bool) {
    d.Ok? && d.value.Control? && d.value.packet.HelloAck?
    && d.value.packet.session == cfg.session && (d.value.packet.status == StatusOk <==> ok)
  }

  predicate IsBye(cfg: HostConfig, d: Result<Incoming, DecodeError>) {
    d == Ok(Control(Bye(cfg.session)))
  }

  predicate GivesUp(h: Host, cfg: HostConfig, e: Event) {
    e.PingTick? && h.established && e.now - h.lastRx > cfg.idleTimeout
  }

  lemma MessageConnects(h: Host, cfg: HostConfig, now: int, d: Result<Incoming, DecodeError>)
    requires Sound(h)
    ensures HandleIncoming(h, cfg, now, d).host.established
            <==> IsAck(cfg, d, true) || (h.established && !IsAck(cfg, d, false) && !IsBye(cfg, d))
  {
  }

  /** The host is connected after an Ok, and for as long as there is no refusal, no goodbye and no silence beyond the timeout. */
  lemma ConnectedIff(h: Host, cfg: HostConfig, e: Event)
    requires Sound(h)
    ensures Step(h, cfg, e).host.established
            <==> || (e.Arrived? && IsAck(cfg, Message(e), true))
                 || (&& h.established && !GivesUp(h, cfg, e)
                     && !(e.Arrived? && (IsAck(cfg, Message(e), false) || IsBye(cfg, Message(e)))))
  {
    if e.Arrived? {
      MessageConnects(h.(lastRx := e.now), cfg, e.now, Message(e));
    }
  }

  /** The audio is for the speaker, of the host's session. */
  predicate ForSpeaker(cfg: HostConfig, d: Result<Incoming, DecodeError>) {
    d.Ok? && d.value.Audio? && d.value.header.session == cfg.session && d.value.header.direction == Speaker
  }

  lemma MessageReaches(h: Host, cfg: HostConfig, now: int, d: Result<Incoming, DecodeError>)
    requires Sound(h) && h.speaker.Some?
    ensures HandleIncoming(h, cfg, now, d).host.speaker
         == Some(if ForSpeaker(cfg, d) then J.Push(h.speaker.value, d.value.header.number, DecodeSamples(d.value.payload))
                 else if IsBye(cfg, d) || (IsAck(cfg, d, true) && !h.established) then J.Reset(h.speaker.value)
                 else h.speaker.value)
  {
  }

  /** What reaches the speaker's buffer: the session's speaker audio, the playback thread, and a reset whenever a connection starts, is ended by the guest, or is given up. */
  lemma SpeakerAfter(h: Host, cfg: HostConfig, e: Event)
    requires Sound(h)
    ensures var after := Step(h, cfg, e).host.speaker;
            if h.speaker.None? then after == None
            else if e.Arrived? && ForSpeaker(cfg, Message(e)) then
              after == Some(J.Push(h.speaker.value, Message(e).value.header.number, DecodeSamples(Message(e).value.payload)))
            else if e.Played? then after == Some(J.Pull(h.speaker.value, e.n).after)
            else if || e.PlaybackFailed? || GivesUp(h, cfg, e)
                    || (e.Arrived? && (IsBye(cfg, Message(e)) || (IsAck(cfg, Message(e), true) && !h.established)))
            then after == Some(J.Reset(h.speaker.value))
            else after == h.speaker
  {
    if e.Arrived? {
      if h.speaker.Some? {
        MessageReaches(h.(lastRx := e.now), cfg, e.now, Message(e));
      } else {
        StaysSilent(h.(lastRx := e.now), cfg, e.now, Message(e));
      }
    }
  }

  lemma StaysSilent(h: Host, cfg: HostConfig, now: int, d: Result<Incoming, DecodeError>)
    requires Sound(h) && h.speaker.None?
    ensures HandleIncoming(h, cfg, now, d).host.speaker == None
  {
  }

  // ---------------------------------------------------------------- clocks

  /** The guest's echo of the outstanding ping. */
  predicate IsEcho(ping: Option<Ping>, cfg: HostConfig, d: Result<Incoming, DecodeError>) {
    && ping.Some? && d.Ok? && d.value.Control? && d.value.packet.Pong?
    && d.value.packet.session == cfg.session && d.value.packet.nonce == ping.value.nonce
  }

  /** The clocks after a datagram: it counts as word from the guest, and only the echo of the last ping measures a round trip. */
  predicate MessageClocks(before: Host, cfg: HostConfig, now: int, d: Result<Incoming, DecodeError>, a: Host) {
    && a.lastRx == now
    && if IsEcho(before.ping, cfg, d) then a.ping == None && a.rtt == Some(now - before.ping.value.at)
       else a.ping == before.ping && a.rtt == before.rtt
  }

  lemma MessageTimes(h: Host, cfg: HostConfig, now: int, d: Result<Incoming, DecodeError>)
    requires Sound(h)
    ensures MessageClocks(h, cfg, now, d, HandleIncoming(h.(lastRx := now), cfg, now, d).host)
  {
  }

  /** The clocks after anything else: a tick pings a live connection and forgets one that is given up. */
  predicate OtherClocks(h: Host, cfg: HostConfig, e: Event, a: Host) {
    && a.lastRx == h.lastRx
    && if GivesUp(h, cfg, e) then a.ping == None && a.rtt == None
       else a.rtt == h.rtt && a.ping == if e.PingTick? && h.established then Some(Outstanding(e.nonce, e.now)) else h.ping
  }

  lemma ClocksAfter(h: Host, cfg: HostConfig, e: Event)
    requires Sound(h)
    ensures e.Arrived? ==> MessageClocks(h, cfg, e.now, Message(e), Step(h, cfg, e).host)
    ensures !e.Arrived? ==> OtherClocks(h, cfg, e, Step(h, cfg, e).host)
  {
    if e.Arrived? {
      MessageTimes(h, cfg, e.now, Message(e));
    }
  }

  // ---------------------------------------------------------------- what is sent

  /** The one datagram sent is the control packet. */
  predicate SendsOne(sent: seq<Bytes>, p: Packet) {
    |sent| == 1 && Decode(sent[0]) == Ok(Control(p))
  }

  predicate IsPing(cfg: HostConfig, d: Result<Incoming, DecodeError>) {
    d.Ok? && d.value.Control? && d.value.packet.Ping? && d.value.packet.session == cfg.session
  }

  lemma MessageAnswered(h: Host, cfg: HostConfig, now: int, d: Result<Incoming, DecodeError>)
    requires Sound(h)
    ensures var sent := HandleIncoming(h, cfg, now, d).sent;
            if IsPing(cfg, d) then SendsOne(sent, Pong(cfg.session, d.value.packet.nonce)) else sent == []
  {
    if IsPing(cfg, d) {
      T.DecodesWhatWasEncoded(Pong(cfg.session, d.value.packet.nonce));
    }
  }

  /**
    Everything the host sends: a Hello while it is not connected, a ping while it is and is
    not giving up, the echo of the guest's pings, its microphone, and a goodbye at the end.
   */
  lemma SendsOnly(h: Host, cfg: HostConfig, e: Event)
    requires Sound(h)
    ensures var sent := Step(h, cfg, e).sent;
            if e.Arrived? && IsPing(cfg, Message(e)) then SendsOne(sent, Pong(cfg.session, Message(e).value.packet.nonce))
            else if e.HelloTick? && !h.established then SendsOne(sent, Hello(Cut(cfg.token), cfg.session, cfg.mic, cfg.speaker))
            else if e.PingTick? && h.established && !GivesUp(h, cfg, e) then SendsOne(sent, Wire.Ping(cfg.session, e.nonce))
            else if e.Interrupted? && h.established then SendsOne(sent, Bye(cfg.session))
            else if e.MicReady? && h.established then |sent| == 1
            else sent == []
  {
    match e
    case Arrived(now, bytes) => MessageAnswered(h.(lastRx := now), cfg, now, Message(e));
    case HelloTick => T.HelloDecodes(cfg.token, cfg.session, cfg.mic, cfg.speaker);
    case PingTick(now, nonce) => T.DecodesWhatWasEncoded(Wire.Ping(cfg.session, nonce));
    case Interrupted => T.DecodesWhatWasEncoded(Bye(cfg.session));
    case _ =>
  }

  // ---------------------------------------------------------------- the microphone stream

  /** The packets that the microphone hands over. */
  function SpokenIn(es: seq<Event>): seq<seq<Sample>> {
    if es == [] then [] else (if es[0].MicReady? then [es[0].pcm] else []) + SpokenIn(es[1..])
  }

  /** Nothing but a microphone packet makes the host send audio. */
  lemma SilentStep(h: Host, cfg: HostConfig, e: Event)
    requires Sound(h) && !e.MicReady?
    ensures AudioIn(Step(h, cfg, e).sent) == []
  {
    match e
    case Arrived(now, bytes) => SilentMessage(h.(lastRx := now), cfg, now, Message(e));
    case HelloTick => NotAudio(Hello(cfg.token, cfg.session, cfg.mic, cfg.speaker));
    case PingTick(now, nonce) => NotAudio(Wire.Ping(cfg.session, nonce));
    case Interrupted => NotAudio(Bye(cfg.session));
    case _ =>
  }

  lemma SilentMessage(h: Host, cfg: HostConfig, now: int, d: Result<Incoming, DecodeError>)
    requires Sound(h)
    ensures AudioIn(HandleIncoming(h, cfg, now, d).sent) == []
  {
    if IsPing(cfg, d) {
      NotAudio(Pong(cfg.session, d.value.packet.nonce));
    }
  }

  lemma {:induction false} SpokenSpeeches(h: Host, cfg: HostConfig, es: seq<Event>, first: nat)
    requires Sound(h) && StaysUp(h, cfg, es) && h.number == Wrap32(first)
    ensures Speeches(AudioIn(Sent(h, cfg, es)), cfg.session, Mic, first, SpokenIn(es))
    decreases |es|
  {
    if es != [] {
      var e, rest := es[0], es[1..];
      StaysUpStep(h, cfg, es);
      var o := Step(h, cfg, e);
      StepCounts(h, cfg, e, first);
      SpokenSpeeches(o.host, cfg, rest, if e.MicReady? then first + 1 else first);
      AudioInConcat(o.sent, Sent(o.host, cfg, rest));
      if e.MicReady? {
        SpeechIs(cfg.session, Mic, h.number, cfg.mic.channels, e.pcm);
        OneMore(o.sent[0], AudioIn(Sent(o.host, cfg, rest)), cfg.session, Mic, first, e.pcm, SpokenIn(rest));
      } else {
        SilentStep(h, cfg, e);
        assert [] + AudioIn(Sent(o.host, cfg, rest)) == AudioIn(Sent(o.host, cfg, rest));
        assert [] + SpokenIn(rest) == SpokenIn(rest);
      }
    }
  }

  /**
    The host's own stream: while it is connected, everything its microphone hands over and
    nothing else is sent as microphone audio, packet by packet, under successive numbers that
    wrap at 2^32. A connection starts with number 0.
   */
  lemma SpokenStream(h: Host, cfg: HostConfig, es: seq<Event>, first: nat)
    requires Sound(h) && StaysUp(h, cfg, es) && h.number == first % 0x1_0000_0000
    ensures IsStream(AudioIn(Sent(h, cfg, es)), cfg.session, Mic, first, SpokenIn(es))
  {
    SpokenSpeeches(h, cfg, es, first);
    SpeechesAreStream(AudioIn(Sent(h, cfg, es)), cfg.session, Mic, first, SpokenIn(es));
  }
}
