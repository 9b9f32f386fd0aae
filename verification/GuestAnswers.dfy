/**
  What the guest does with every event, and what it sends, both ways: under which condition
  something happens, and that nothing happens otherwise. Bytes are told by what a receiver
  reads in them.
 */
module GuestAnswers {
  import opened Numbers
  import opened Wrappers
  import opened Utf8
  import opened Wire
  import opened AudioStreams
  import opened VmSession
  import opened VmTheorems
  import T = WireTheorems
  import L = PacketLayout
  import J = JitterModel

  // ---------------------------------------------------------------- a Hello

  /** The status a Hello is answered with. */
  function Verdict(vm: Vm, cfg: VmConfig, now: int, peer: Addr, token: Bytes, id: U32, mic: Format, speaker: Format,
                   env: Surroundings): Status
  {
    if token != cfg.token then AuthFailed
    else if !ValidFormat(mic) || !ValidFormat(speaker) then UnsupportedFormat
    else if !Available(vm, cfg, now, peer) then Busy
    else if Granted(vm, peer, id, mic, speaker) || ((cfg.mic ==> env.renderStarts) && (cfg.speaker ==> env.captureStarts))
    then StatusOk
    else ServerError
  }

  function VerdictText(vm: Vm, peer: Addr, id: U32, mic: Format, speaker: Format, env: Surroundings, status: Status): Text {
    match status
    case UnsupportedFormat => env.unsupported
    case Busy => env.busy
    case StatusOk => if vm.session.Some? && Granted(vm, peer, id, mic, speaker) then vm.session.value.summary else env.summary
    case ServerError => env.error
    case _ => []
  }

  /** A Hello has one answer, to its sender, with the verdict and what was asked for. */
  lemma HelloAnswered(vm: Vm, cfg: VmConfig, now: int, peer: Addr, token: Bytes, id: U32, mic: Format, speaker: Format,
                      env: Surroundings, status: Status)
    requires status == Verdict(vm, cfg, now, peer, token, id, mic, speaker, env)
    ensures var sent := HandleHello(vm, cfg, now, peer, token, id, mic, speaker, env).sent;
            |sent| == 1 && sent[0].peer == peer
            && L.Shows(sent[0].bytes,
                       HelloAck(status, id, mic, speaker, VerdictText(vm, peer, id, mic, speaker, env, status)))
  {
    T.TokenMatchesIff(cfg.token, token);
    var text := VerdictText(vm, peer, id, mic, speaker, env, status);
    AnswerIs(vm, cfg, now, peer, token, id, mic, speaker, env, status);
    L.PrintsShown(HelloAck(status, id, mic, speaker, text));
  }

  lemma AnswerIs(vm: Vm, cfg: VmConfig, now: int, peer: Addr, token: Bytes, id: U32, mic: Format, speaker: Format,
                 env: Surroundings, status: Status)
    requires status == Verdict(vm, cfg, now, peer, token, id, mic, speaker, env)
    ensures HandleHello(vm, cfg, now, peer, token, id, mic, speaker, env).sent
         == [Datagram(peer, Encode(HelloAck(status, id, mic, speaker,
                                            VerdictText(vm, peer, id, mic, speaker, env, status))))]
  {
    T.TokenMatchesIff(cfg.token, token);
  }

  /** A session that has just been built. */
  predicate IsNew(s: Session, cfg: VmConfig, now: int, peer: Addr, id: U32, mic: Format, speaker: Format, env: Surroundings) {
    && s.id == id && s.peer == peer && s.micFormat == mic && s.speakerFormat == speaker
    && s.lastRx == now && s.number == 0 && s.summary == env.summary
    && s.render == cfg.mic && s.capture == cfg.speaker
    && (s.jitter.Some? <==> cfg.mic)
    && (cfg.mic ==>
          var b := s.jitter.value;
          && b.cfg == J.NewConfig(mic.channels, mic.rate, mic.frameMs, cfg.bufferMs)
          && b.queue == [] && b.frac == 0.0 && b.rate == 1.0 && b.warming && b.expected == None
          && b.stats == J.Stats(0, 0, 0, 0, 0, 0)
          && |b.prev| == mic.channels && forall c :: 0 <= c < mic.channels ==> b.prev[c] == 0)
  }

  /** A refusal leaves everything as it was; an Ok keeps a session that is the one asked for, and otherwise builds it; a failure leaves none. */
  lemma HelloLeaves(vm: Vm, cfg: VmConfig, now: int, peer: Addr, token: Bytes, id: U32, mic: Format, speaker: Format,
                    env: Surroundings)
    ensures var after := HandleHello(vm, cfg, now, peer, token, id, mic, speaker, env).vm;
            match Verdict(vm, cfg, now, peer, token, id, mic, speaker, env)
            case StatusOk =>
              && after.session.Some?
              && if Granted(vm, peer, id, mic, speaker) then after == vm.(session := Some(vm.session.value.(lastRx := now)))
                 else IsNew(after.session.value, cfg, now, peer, id, mic, speaker, env)
            case ServerError => after.session == None
            case _ => after == vm
  {
    T.TokenMatchesIff(cfg.token, token);
  }

  // ---------------------------------------------------------------- any event

  predicate IsHello(d: Result<Incoming, DecodeError>) {
    d.Ok? && d.value.Control? && d.value.packet.Hello?
  }

  predicate OwnersPing(vm: Vm, peer: Addr, d: Result<Incoming, DecodeError>) {
    d.Ok? && d.value.Control? && d.value.packet.Ping? && FromOwner(vm, peer, d.value.packet.session)
  }

  lemma IncomingSends(vm: Vm, cfg: VmConfig, now: int, peer: Addr, d: Result<Incoming, DecodeError>, env: Surroundings)
    requires Sound(vm) && !IsHello(d)
    ensures var sent := HandleIncoming(vm, cfg, now, peer, d, env).sent;
            if OwnersPing(vm, peer, d) then
              |sent| == 1 && sent[0].peer == peer
              && Decode(sent[0].bytes) == Ok(Control(Pong(d.value.packet.session, d.value.packet.nonce)))
            else sent == []
  {
    if OwnersPing(vm, peer, d) {
      T.DecodesWhatWasEncoded(Pong(d.value.packet.session, d.value.packet.nonce));
    }
  }

  /** A ping from the owner is answered with its own nonce; a captured packet goes to the owner; an interrupt says goodbye. Hellos aside, nothing else is sent. */
  lemma SendsOnly(vm: Vm, cfg: VmConfig, e: Event)
    requires Sound(vm) && !(e.Arrived? && IsHello(Message(e)))
    ensures var sent := Step(vm, cfg, e).sent;
            if e.Arrived? && OwnersPing(vm, e.peer, Message(e)) then
              |sent| == 1 && sent[0].peer == e.peer
              && Decode(sent[0].bytes) == Ok(Control(Pong(Message(e).value.packet.session, Message(e).value.packet.nonce)))
            else if e.Interrupted? && vm.session.Some? then
              |sent| == 1 && sent[0].peer == vm.session.value.peer
              && Decode(sent[0].bytes) == Ok(Control(Bye(vm.session.value.id)))
            else if e.Captured? && vm.session.Some? then |sent| == 1 && sent[0].peer == vm.session.value.peer
            else sent == []
  {
    match e
    case Arrived(now, peer, bytes, env) => IncomingSends(vm, cfg, now, peer, Message(e), env);
    case Interrupted =>
      if vm.session.Some? {
        T.DecodesWhatWasEncoded(Bye(vm.session.value.id));
      }
    case _ =>
  }

  /** The Hello asks for another session than the live one and is admitted. */
  predicate Replaces(vm: Vm, cfg: VmConfig, now: int, peer: Addr, d: Result<Incoming, DecodeError>) {
    IsAdmitted(vm, cfg, now, peer, d)
    && !Granted(vm, peer, d.value.packet.session, d.value.packet.mic, d.value.packet.speaker)
  }

  lemma IncomingEndsIff(vm: Vm, cfg: VmConfig, now: int, peer: Addr, d: Result<Incoming, DecodeError>, env: Surroundings)
    requires Sound(vm) && vm.session.Some?
    ensures !SameSession(vm, HandleIncoming(vm, cfg, now, peer, d, env).vm)
            <==> || Replaces(vm, cfg, now, peer, d)
                 || (d == Ok(Control(Bye(vm.session.value.id))) && peer == vm.session.value.peer)
  {
    if IsHello(d) {
      T.TokenMatchesIff(cfg.token, d.value.packet.token);
    }
  }

  /** A session ends exactly with the program, by its owner's goodbye, by its silence at a sweep, or when an admitted Hello asks for another. */
  lemma SessionEndsIff(vm: Vm, cfg: VmConfig, e: Event)
    requires Sound(vm) && vm.session.Some?
    ensures !SameSession(vm, Step(vm, cfg, e).vm)
            <==> || e.Interrupted?
                 || OwnersBye(vm, e)
                 || (e.Sweep? && e.now - vm.session.value.lastRx > cfg.idleTimeout)
                 || (e.Arrived? && Replaces(vm, cfg, e.now, e.peer, Message(e)))
  {
    if e.Arrived? {
      IncomingEndsIff(vm, cfg, e.now, e.peer, Message(e), e.env);
    }
  }

  predicate OwnersMic(vm: Vm, peer: Addr, d: Result<Incoming, DecodeError>) {
    d.Ok? && d.value.Audio? && FromOwner(vm, peer, d.value.header.session) && d.value.header.direction == Mic
  }

  lemma IncomingReaches(vm: Vm, cfg: VmConfig, now: int, peer: Addr, d: Result<Incoming, DecodeError>, env: Surroundings)
    requires Sound(vm) && SameSession(vm, HandleIncoming(vm, cfg, now, peer, d, env).vm)
    ensures var after := BufferOf(HandleIncoming(vm, cfg, now, peer, d, env).vm);
            if OwnersMic(vm, peer, d) && BufferOf(vm).Some?
            then after == Some(J.Push(BufferOf(vm).value, d.value.header.number, DecodeSamples(d.value.payload)))
            else after == BufferOf(vm)
  {
  }

  /** What reaches the buffer of a session that lasts: the owner's microphone, the render thread's pulls, and its failures. */
  lemma BufferAfter(vm: Vm, cfg: VmConfig, e: Event)
    requires Sound(vm) && SameSession(vm, Step(vm, cfg, e).vm)
    ensures var after := BufferOf(Step(vm, cfg, e).vm);
            if BufferOf(vm).None? then after == None
            else if e.Arrived? && OwnersMic(vm, e.peer, Message(e)) then
              after == Some(J.Push(BufferOf(vm).value, Message(e).value.header.number,
                                   DecodeSamples(Message(e).value.payload)))
            else if e.Rendered? then after == Some(J.Pull(BufferOf(vm).value, e.n).after)
            else if e.RenderFailed? then after == Some(J.Reset(BufferOf(vm).value))
            else after == BufferOf(vm)
  {
    if e.Arrived? {
      IncomingReaches(vm, cfg, e.now, e.peer, Message(e), e.env);
    }
  }

  // ---------------------------------------------------------------- the captured stream

  /** The packets that the capture thread hands over. */
  function CapturedIn(es: seq<Event>): seq<seq<Sample>> {
    if es == [] then [] else (if es[0].Captured? then [es[0].pcm] else []) + CapturedIn(es[1..])
  }

  /** The same session through the whole run. */
  predicate Lasts(vm: Vm, cfg: VmConfig, es: seq<Event>)
    requires Sound(vm)
    decreases |es|
  {
    && vm.session.Some?
    && (es == [] ||
          (&& SameSession(vm, Step(vm, cfg, es[0]).vm)
           && (StepSound(vm, cfg, es[0]); Lasts(Step(vm, cfg, es[0]).vm, cfg, es[1..]))))
  }

  /** Nothing but a captured packet makes the guest send audio to anyone. */
  lemma SilentStep(vm: Vm, cfg: VmConfig, e: Event, to: Addr)
    requires Sound(vm) && !e.Captured?
    ensures AudioIn(ToPeer(Step(vm, cfg, e).sent, to)) == []
  {
    match e
    case Arrived(now, peer, bytes, env) => SilentMessage(vm, cfg, now, peer, Message(e), env, to);
    case Interrupted =>
      if vm.session.Some? {
        OnlyControl(vm.session.value.peer, Bye(vm.session.value.id), to);
      }
    case _ =>
  }

  lemma OnlyControl(peer: Addr, p: Packet, to: Addr)
    ensures AudioIn(ToPeer([Datagram(peer, Encode(p))], to)) == []
  {
    NotAudio(p);
    assert ToPeer([Datagram(peer, Encode(p))], to) == if peer == to then [Encode(p)] else [];
  }

  lemma SilentMessage(vm: Vm, cfg: VmConfig, now: int, peer: Addr, d: Result<Incoming, DecodeError>, env: Surroundings,
                      to: Addr)
    requires Sound(vm)
    ensures AudioIn(ToPeer(HandleIncoming(vm, cfg, now, peer, d, env).sent, to)) == []
  {
    if IsHello(d) {
      var p := d.value.packet;
      var status := Verdict(vm, cfg, now, peer, p.token, p.session, p.mic, p.speaker, env);
      AnswerIs(vm, cfg, now, peer, p.token, p.session, p.mic, p.speaker, env, status);
      OnlyControl(peer, HelloAck(status, p.session, p.mic, p.speaker,
                           VerdictText(vm, peer, p.session, p.mic, p.speaker, env, status)), to);
    } else if OwnersPing(vm, peer, d) {
      OnlyControl(peer, Pong(d.value.packet.session, d.value.packet.nonce), to);
    }
  }

  lemma MessageKeepsNumber(vm: Vm, cfg: VmConfig, now: int, peer: Addr, d: Result<Incoming, DecodeError>, env: Surroundings)
    requires Sound(vm) && SameSession(vm, HandleIncoming(vm, cfg, now, peer, d, env).vm)
    ensures HandleIncoming(vm, cfg, now, peer, d, env).vm.session.value.number == vm.session.value.number
  {
  }

  lemma StepNumbers(vm: Vm, cfg: VmConfig, e: Event, first: nat)
    requires Sound(vm) && SameSession(vm, Step(vm, cfg, e).vm) && vm.session.value.number == Wrap32(first)
    ensures Step(vm, cfg, e).vm.session.value.number == Wrap32(if e.Captured? then first + 1 else first)
  {
    if e.Arrived? {
      MessageKeepsNumber(vm, cfg, e.now, e.peer, Message(e), e.env);
    }
    WrapNext(first);
  }

  /** What a captured packet sends to the owner, and to nobody else. */
  lemma SpokenStep(vm: Vm, cfg: VmConfig, pcm: seq<Sample>, first: nat, to: Addr)
    requires Sound(vm) && vm.session.Some? && vm.session.value.number == Wrap32(first)
    ensures var heard := AudioIn(ToPeer(Step(vm, cfg, Captured(pcm)).sent, to));
            if to == vm.session.value.peer
            then |heard| == 1 && IsSpeech(heard[0], vm.session.value.id, Speaker, Wrap32(first), pcm)
            else heard == []
  {
    var s := vm.session.value;
    SpeechIs(s.id, Speaker, s.number, s.speakerFormat.channels, pcm);
    assert ToPeer(Step(vm, cfg, Captured(pcm)).sent, to)
        == if to == s.peer then [EncodeAudio(s.id, Speaker, s.number, s.speakerFormat.channels, pcm)] else [];
  }

  lemma {:induction false} CapturedSpeeches(vm: Vm, cfg: VmConfig, es: seq<Event>, first: nat, to: Addr)
    requires Sound(vm) && Lasts(vm, cfg, es) && vm.session.value.number == Wrap32(first)
    ensures var heard := AudioIn(ToPeer(Sent(vm, cfg, es), to));
            if to == vm.session.value.peer then Speeches(heard, vm.session.value.id, Speaker, first, CapturedIn(es))
            else heard == []
    decreases |es|
  {
    if es != [] {
      var e, rest := es[0], es[1..];
      StepSound(vm, cfg, e);
      var o := Step(vm, cfg, e);
      StepNumbers(vm, cfg, e, first);
      CapturedSpeeches(o.vm, cfg, rest, if e.Captured? then first + 1 else first, to);
      ToPeerConcat(o.sent, Sent(o.vm, cfg, rest), to);
      AudioInConcat(ToPeer(o.sent, to), ToPeer(Sent(o.vm, cfg, rest), to));
      var heard, later := AudioIn(ToPeer(o.sent, to)), AudioIn(ToPeer(Sent(o.vm, cfg, rest), to));
      if e.Captured? {
        SpokenStep(vm, cfg, e.pcm, first, to);
        if to == vm.session.value.peer {
          OneMore(heard[0], later, vm.session.value.id, Speaker, first, e.pcm, CapturedIn(rest));
          assert heard == [heard[0]];
        }
      } else {
        SilentStep(vm, cfg, e, to);
        assert [] + later == later;
        assert [] + CapturedIn(rest) == CapturedIn(rest);
      }
    }
  }

  /**
    The guest's own stream: while a session lasts, everything that is captured and nothing
    else goes to its owner as speaker audio, packet by packet, under successive numbers that
    wrap at 2^32, and nobody else gets any. A session is built with number 0.
   */
  lemma CapturedStream(vm: Vm, cfg: VmConfig, es: seq<Event>, first: nat, to: Addr)
    requires Sound(vm) && Lasts(vm, cfg, es) && vm.session.value.number == first % 0x1_0000_0000
    ensures var heard, s := AudioIn(ToPeer(Sent(vm, cfg, es), to)), vm.session.value;
            if to == s.peer then IsStream(heard, s.id, Speaker, first, CapturedIn(es)) else heard == []
  {
    CapturedSpeeches(vm, cfg, es, first, to);
    if to == vm.session.value.peer {
      SpeechesAreStream(AudioIn(ToPeer(Sent(vm, cfg, es), to)), vm.session.value.id, Speaker, first, CapturedIn(es));
    }
  }
}
