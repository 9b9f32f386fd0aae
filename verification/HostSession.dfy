/**
  The host's end of the session: the branches of its event loop as functions on its state,
  and the loop as an object updated in place.
 */
module HostSession {
  import opened Numbers
  import opened Wrappers
  import opened Utf8
  import opened Wire
  import T = WireTheorems
  import J = JitterModel

  /** `session` is the identifier the host picked when it started. */
  datatype HostConfig = HostConfig(token: Bytes, session: U32, mic: Format, speaker: Format, idleTimeout: nat)

  datatype Ping = Outstanding(nonce: U64, at: int)

  /** `speaker` is absent when playback is disabled. */
  datatype Host = Host(
    established: bool,
    lastRx: int,
    number: U32,
    ping: Option<Ping>,
    rtt: Option<int>,
    speaker: Option<J.Buffer>)

  datatype Outcome = Outcome(host: Host, sent: seq<Bytes>)

  predicate Sound(h: Host) {
    h.speaker.Some? ==> J.Valid(h.speaker.value)
  }

  function ResetSpeaker(h: Host): Host {
    if h.speaker.Some? then h.(speaker := Some(J.Reset(h.speaker.value))) else h
  }

  function HelloBytes(cfg: HostConfig): Bytes {
    Encode(Hello(cfg.token, cfg.session, cfg.mic, cfg.speaker))
  }

  /** Only the first Ok starts the stream: from sequence number 0, with an empty speaker buffer. */
  function HandleAck(h: Host, status: Status): Host {
    if status != StatusOk then h.(established := false)
    else if !h.established then ResetSpeaker(h.(established := true, number := 0))
    else h
  }

  function HandlePong(h: Host, now: int, nonce: U64): Host {
    if h.ping.Some? && h.ping.value.nonce == nonce
    then h.(rtt := Some(now - h.ping.value.at), ping := None) else h
  }

  function HandleAudio(h: Host, cfg: HostConfig, header: AudioHeader, payload: Bytes): Host
    requires Sound(h)
  {
    if header.session != cfg.session || header.direction != Speaker || h.speaker.None? then h
    else h.(speaker := Some(J.Push(h.speaker.value, header.number, DecodeSamples(payload))))
  }

  function HandleIncoming(h: Host, cfg: HostConfig, now: int, d: Result<Incoming, DecodeError>): Outcome
    requires Sound(h)
  {
    match d
    case Err(_) => Outcome(h, [])
    case Ok(Audio(header, payload)) => Outcome(HandleAudio(h, cfg, header, payload), [])
    case Ok(Control(HelloAck(status, id, _, _, _))) => Outcome(if id == cfg.session then HandleAck(h, status) else h, [])
    case Ok(Control(Ping(id, nonce))) =>
      Outcome(h, if id == cfg.session then [Encode(Pong(cfg.session, nonce))] else [])
    case Ok(Control(Pong(id, nonce))) => Outcome(if id == cfg.session then HandlePong(h, now, nonce) else h, [])
    case Ok(Control(Bye(id))) =>
      Outcome(if id == cfg.session then ResetSpeaker(h.(established := false)) else h, [])
    case Ok(Control(Hello(_, _, _, _))) => Outcome(h, [])
  }

  /** A branch of the loop, or a call of the playback thread into the shared buffer. */
  datatype Event =
    | Arrived(now: int, bytes: Bytes)
    | MicReady(pcm: seq<Sample>)
    | HelloTick
    | PingTick(now: int, nonce: U64)
    | Interrupted
    | Played(n: nat)
    | PlaybackFailed

  function Step(h: Host, cfg: HostConfig, e: Event): Outcome
    requires Sound(h)
  {
    match e
    case Arrived(now, bytes) =>
      HandleIncoming(h.(lastRx := now), cfg, now, Decode(T.Received(bytes)))
    case MicReady(pcm) =>
      if !h.established then Outcome(h, [])
      else Outcome(h.(number := Wrap32(h.number + 1)),
                   [EncodeAudio(cfg.session, Mic, h.number, cfg.mic.channels, pcm)])
    case HelloTick => Outcome(h, if h.established then [] else [HelloBytes(cfg)])
    case PingTick(now, nonce) =>
      if !h.established then Outcome(h, [])
      else if now - h.lastRx > cfg.idleTimeout then
        Outcome(ResetSpeaker(h.(established := false, ping := None, rtt := None)), [])
      else Outcome(h.(ping := Some(Outstanding(nonce, now))), [Encode(Wire.Ping(cfg.session, nonce))])
    case Interrupted => Outcome(h, if h.established then [Encode(Bye(cfg.session))] else [])
    case Played(n) =>
      Outcome(if h.speaker.Some? then h.(speaker := Some(J.Pull(h.speaker.value, n).after)) else h, [])
    case PlaybackFailed => Outcome(ResetSpeaker(h), [])
  }

  lemma IncomingSound(h: Host, cfg: HostConfig, now: int, d: Result<Incoming, DecodeError>)
    requires Sound(h)
    ensures Sound(HandleIncoming(h, cfg, now, d).host)
  {
    if d.Ok? && d.value.Audio? && h.speaker.Some? {
      J.PushValid(h.speaker.value, d.value.header.number, DecodeSamples(d.value.payload));
    }
  }

  lemma StepSound(h: Host, cfg: HostConfig, e: Event)
    requires Sound(h)
    ensures Sound(Step(h, cfg, e).host)
  {
    match e
    case Arrived(now, bytes) => IncomingSound(h.(lastRx := now), cfg, now, Decode(T.Received(bytes)));
    case Played(n) =>
      if h.speaker.Some? {
        J.PullValid(h.speaker.value, n);
      }
    case _ =>
  }

  function Run(h: Host, cfg: HostConfig, es: seq<Event>): (after: Host)
    requires Sound(h)
    ensures Sound(after)
    decreases |es|
  {
    if es == [] then h
    else
      StepSound(h, cfg, es[0]);
      Run(Step(h, cfg, es[0]).host, cfg, es[1..])
  }

  function Sent(h: Host, cfg: HostConfig, es: seq<Event>): seq<Bytes>
    requires Sound(h)
    decreases |es|
  {
    if es == [] then []
    else
      StepSound(h, cfg, es[0]);
      Step(h, cfg, es[0]).sent + Sent(Step(h, cfg, es[0]).host, cfg, es[1..])
  }

  // ---------------------------------------------------------------- numbering

  /** The next number starts again at 0 with every establishment and moves only with a microphone packet. */
  predicate Numbered(before: Host, after: Host, mic: bool) {
    && (!before.established && after.established ==> after.number == 0)
    && (before.established == after.established ==>
          after.number == if before.established && mic then Wrap32(before.number + 1) else before.number)
  }

  lemma IncomingNumbers(h: Host, cfg: HostConfig, now: int, d: Result<Incoming, DecodeError>)
    requires Sound(h)
    ensures Numbered(h, HandleIncoming(h, cfg, now, d).host, false)
  {
  }

  lemma StepNumbers(h: Host, cfg: HostConfig, e: Event)
    requires Sound(h)
    ensures Numbered(h, Step(h, cfg, e).host, e.MicReady?)
  {
    if e.Arrived? {
      IncomingNumbers(h.(lastRx := e.now), cfg, e.now, Decode(T.Received(e.bytes)));
    }
  }

  /** Microphone packets taken while established and without a break. */
  function MicCount(es: seq<Event>): nat {
    if es == [] then 0 else (if es[0].MicReady? then 1 else 0) + MicCount(es[1..])
  }

  predicate StaysUp(h: Host, cfg: HostConfig, es: seq<Event>)
    requires Sound(h)
    decreases |es|
  {
    h.established && (es == [] || (StepSound(h, cfg, es[0]); StaysUp(Step(h, cfg, es[0]).host, cfg, es[1..])))
  }

  lemma StepCounts(h: Host, cfg: HostConfig, e: Event, sent: nat)
    requires Sound(h) && h.established && Step(h, cfg, e).host.established && h.number == Wrap32(sent)
    ensures Step(h, cfg, e).host.number == Wrap32(if e.MicReady? then sent + 1 else sent)
  {
    StepNumbers(h, cfg, e);
    WrapNext(sent);
  }

  lemma StaysUpStep(h: Host, cfg: HostConfig, es: seq<Event>)
    requires Sound(h) && es != [] && StaysUp(h, cfg, es)
    ensures var next := Step(h, cfg, es[0]).host;
            h.established && next.established && Sound(next) && StaysUp(next, cfg, es[1..])
            && Run(h, cfg, es) == Run(next, cfg, es[1..])
  {
    StepSound(h, cfg, es[0]);
  }

  /** Within an establishment the next number counts the microphone packets: those sent before, and those of the run. */
  lemma {:induction false} NumbersCountPackets(h: Host, cfg: HostConfig, es: seq<Event>, sent: nat, total: nat)
    requires Sound(h) && StaysUp(h, cfg, es) && h.number == Wrap32(sent) && total == sent + MicCount(es)
    ensures Run(h, cfg, es).number == Wrap32(total)
    decreases |es|
  {
    if es != [] {
      StaysUpStep(h, cfg, es);
      StepCounts(h, cfg, es[0], sent);
      NumbersCountPackets(Step(h, cfg, es[0]).host, cfg, es[1..], if es[0].MicReady? then sent + 1 else sent, total);
    }
  }

  // ---------------------------------------------------------------- what changes the host's mind

  /** What the host makes of an arriving datagram. */
  function Message(e: Event): Result<Incoming, DecodeError>
    requires e.Arrived?
  {
    Decode(T.Received(e.bytes))
  }

  /** A refusal of the host's session. */
  predicate IsRefusal(cfg: HostConfig, d: Result<Incoming, DecodeError>) {
    d.Ok? && d.value.Control? && d.value.packet.HelloAck?
    && d.value.packet.session == cfg.session && d.value.packet.status != StatusOk
  }

  lemma IncomingDisconnects(h: Host, cfg: HostConfig, now: int, d: Result<Incoming, DecodeError>)
    requires Sound(h) && h.established && !HandleIncoming(h, cfg, now, d).host.established
    ensures IsRefusal(cfg, d) || d == Ok(Control(Bye(cfg.session)))
  {
  }

  /** A connected host disconnects only on the guest's word or on its silence. */
  lemma DisconnectsOnly(h: Host, cfg: HostConfig, e: Event)
    requires Sound(h) && h.established && !Step(h, cfg, e).host.established
    ensures || (e.Arrived? && (IsRefusal(cfg, Message(e)) || Message(e) == Ok(Control(Bye(cfg.session)))))
            || (e.PingTick? && e.now - h.lastRx > cfg.idleTimeout)
  {
    if e.Arrived? {
      IncomingDisconnects(h.(lastRx := e.now), cfg, e.now, Message(e));
    }
  }

  /** The message is speaker audio of the host's session, and pushing it gives `b`. */
  predicate IsSpeakerAudio(h: Host, cfg: HostConfig, d: Result<Incoming, DecodeError>, b: J.Buffer)
    requires Sound(h)
  {
    && h.speaker.Some? && d.Ok? && d.value.Audio?
    && d.value.header.session == cfg.session
    && d.value.header.direction == Speaker
    && b == J.Push(h.speaker.value, d.value.header.number, DecodeSamples(d.value.payload))
  }

  lemma IncomingSpeaker(h: Host, cfg: HostConfig, now: int, d: Result<Incoming, DecodeError>)
    requires Sound(h)
    ensures var after := HandleIncoming(h, cfg, now, d).host.speaker;
            after != h.speaker ==>
              h.speaker.Some? && after.Some?
              && (IsSpeakerAudio(h, cfg, d, after.value) || after.value == J.Reset(h.speaker.value))
  {
  }

  /** Only speaker audio of its own session, resets and the playback thread reach the host's buffer. */
  lemma SpeakerChangesOnly(h: Host, cfg: HostConfig, e: Event)
    requires Sound(h) && Step(h, cfg, e).host.speaker != h.speaker
    ensures h.speaker.Some? && Step(h, cfg, e).host.speaker.Some?
    ensures var b := Step(h, cfg, e).host.speaker.value;
            || (e.Arrived? && IsSpeakerAudio(h, cfg, Message(e), b))
            || b == J.Reset(h.speaker.value)
            || (e.Played? && b == J.Pull(h.speaker.value, e.n).after)
  {
    if e.Arrived? {
      IncomingSpeaker(h.(lastRx := e.now), cfg, e.now, Message(e));
    }
  }

  predicate Fresh(h: Host) {
    h.number == 0 && (h.speaker.Some? ==> h.speaker.value.queue == [] && h.speaker.value.expected == None)
  }

  lemma IncomingConnects(h: Host, cfg: HostConfig, now: int, d: Result<Incoming, DecodeError>)
    requires Sound(h) && !h.established && HandleIncoming(h, cfg, now, d).host.established
    ensures Fresh(HandleIncoming(h, cfg, now, d).host)
  {
  }

  /** Every new connection counts from 0 and has an empty buffer that will take up the guest's numbering wherever it is. */
  lemma ConnectsFresh(h: Host, cfg: HostConfig, e: Event)
    requires Sound(h) && !h.established && Step(h, cfg, e).host.established
    ensures Fresh(Step(h, cfg, e).host)
  {
    if e.Arrived? {
      IncomingConnects(h.(lastRx := e.now), cfg, e.now, Message(e));
    }
  }
}
