/** What the guest guarantees about who owns its session, over every run. */
module VmTheorems {
  import opened Numbers
  import opened Wrappers
  import opened Utf8
  import opened Wire
  import opened VmSession
  import T = WireTheorems
  import J = JitterModel

  // ---------------------------------------------------------------- one Hello

  /** Who may have the session now: its owner, or anyone once the owner has been silent for the timeout. */
  predicate Available(vm: Vm, cfg: VmConfig, now: int, peer: Addr) {
    vm.session.Some? && vm.session.value.peer != peer ==> now - vm.session.value.lastRx >= cfg.idleTimeout
  }

  /** A Hello that the guest acts upon. */
  predicate Admitted(vm: Vm, cfg: VmConfig, now: int, peer: Addr, token: Bytes, mic: Format, speaker: Format) {
    token == cfg.token && ValidFormat(mic) && ValidFormat(speaker) && Available(vm, cfg, now, peer)
  }

  /** The live session is the one asked for. */
  predicate Granted(vm: Vm, peer: Addr, id: U32, mic: Format, speaker: Format) {
    && vm.session.Some?
    && vm.session.value.id == id
    && vm.session.value.peer == peer
    && vm.session.value.micFormat == mic
    && vm.session.value.speakerFormat == speaker
  }

  /**
    A Hello is answered with Ok exactly when it is admitted and the session is already the
    one asked for or its threads start; and then that session is live and its owner just heard.
   */
  lemma OkIff(vm: Vm, cfg: VmConfig, now: int, peer: Addr, token: Bytes, id: U32, mic: Format, speaker: Format,
              env: Surroundings)
    ensures var o := HandleHello(vm, cfg, now, peer, token, id, mic, speaker, env);
            && |o.sent| == 1 && o.sent[0].peer == peer
            && (Admitted(vm, cfg, now, peer, token, mic, speaker)
                && (Granted(vm, peer, id, mic, speaker) || Starts(cfg, env))
                <==> exists m: Text :: o.sent == Reply(peer, StatusOk, id, mic, speaker, m))
            && (Admitted(vm, cfg, now, peer, token, mic, speaker)
                && (Granted(vm, peer, id, mic, speaker) || Starts(cfg, env))
                ==> Granted(o.vm, peer, id, mic, speaker) && o.vm.session.value.lastRx == now)
  {
    T.TokenMatchesIff(cfg.token, token);
    var o := HandleHello(vm, cfg, now, peer, token, id, mic, speaker, env);
    if Admitted(vm, cfg, now, peer, token, mic, speaker) && (Granted(vm, peer, id, mic, speaker) || Starts(cfg, env)) {
      var m := o.vm.session.value.summary;
      assert o.sent == Reply(peer, StatusOk, id, mic, speaker, m);
    } else {
      forall m: Text ensures o.sent != Reply(peer, StatusOk, id, mic, speaker, m) {
        NotOk(peer, id, mic, speaker, AuthFailed, [], m);
        NotOk(peer, id, mic, speaker, UnsupportedFormat, env.unsupported, m);
        NotOk(peer, id, mic, speaker, Busy, env.busy, m);
        NotOk(peer, id, mic, speaker, ServerError, env.error, m);
      }
    }
  }

  /** The status byte tells a refusal from an acceptance. */
  lemma NotOk(peer: Addr, id: U32, mic: Format, speaker: Format, status: Status, m: Text, n: Text)
    requires status != StatusOk
    ensures Reply(peer, status, id, mic, speaker, m) != Reply(peer, StatusOk, id, mic, speaker, n)
  {
    var a, b := HelloAck(status, id, mic, speaker, m), HelloAck(StatusOk, id, mic, speaker, n);
    assert Encode(a)[6] == StatusCode(status);
    assert Encode(b)[6] == 0;
  }

  /** A repeated Hello rebuilds nothing: the buffer and its expected number stay. */
  lemma RepeatKeepsBuffer(vm: Vm, cfg: VmConfig, now: int, peer: Addr, id: U32, mic: Format, speaker: Format,
                          env: Surroundings)
    requires Granted(vm, peer, id, mic, speaker) && ValidFormat(mic) && ValidFormat(speaker)
    ensures HandleHello(vm, cfg, now, peer, cfg.token, id, mic, speaker, env).vm == Touch(vm, now)
  {
    T.TokenMatchesIff(cfg.token, cfg.token);
  }

  // ---------------------------------------------------------------- ownership

  function Owner(vm: Vm): Option<Addr> {
    if vm.session.Some? then Some(vm.session.value.peer) else None
  }

  /** What the guest makes of an arriving datagram. */
  function Message(e: Event): Result<Incoming, DecodeError>
    requires e.Arrived?
  {
    Decode(T.Received(e.bytes))
  }

  predicate IsAdmitted(vm: Vm, cfg: VmConfig, now: int, peer: Addr, d: Result<Incoming, DecodeError>) {
    d.Ok? && d.value.Control? && d.value.packet.Hello?
    && Admitted(vm, cfg, now, peer, d.value.packet.token, d.value.packet.mic, d.value.packet.speaker)
  }

  /** The event is an admitted Hello from `peer`. */
  predicate AdmittedHello(vm: Vm, cfg: VmConfig, e: Event, peer: Addr) {
    e.Arrived? && e.peer == peer && IsAdmitted(vm, cfg, e.now, e.peer, Message(e))
  }

  /** The event is the owner's own farewell. */
  predicate OwnersBye(vm: Vm, e: Event) {
    && vm.session.Some? && e.Arrived? && e.peer == vm.session.value.peer
    && Message(e) == Ok(Control(Bye(vm.session.value.id)))
  }

  lemma HelloEndsOnly(vm: Vm, cfg: VmConfig, now: int, peer: Addr, token: Bytes, id: U32, mic: Format, speaker: Format,
                      env: Surroundings)
    ensures var o := HandleHello(vm, cfg, now, peer, token, id, mic, speaker, env);
            vm.session.Some? && !SameSession(vm, o.vm) ==> Admitted(vm, cfg, now, peer, token, mic, speaker)
  {
    T.TokenMatchesIff(cfg.token, token);
  }

  /** Both states have a session, with the same parties and formats. */
  predicate SameSession(vm: Vm, after: Vm) {
    && vm.session.Some?
    && var s := vm.session.value; Granted(after, s.peer, s.id, s.micFormat, s.speakerFormat)
  }

  lemma IncomingEndsOnly(vm: Vm, cfg: VmConfig, now: int, peer: Addr, d: Result<Incoming, DecodeError>, env: Surroundings)
    requires Sound(vm) && vm.session.Some?
    requires !SameSession(vm, HandleIncoming(vm, cfg, now, peer, d, env).vm)
    ensures d.Ok? && d.value.Control?
    ensures (d.value.packet == Bye(vm.session.value.id) && peer == vm.session.value.peer)
            || IsAdmitted(vm, cfg, now, peer, d)
  {
    if d.Ok? && d.value.Control? && d.value.packet.Hello? {
      var p := d.value.packet;
      T.TokenMatchesIff(cfg.token, p.token);
      HelloEndsOnly(vm, cfg, now, peer, p.token, p.session, p.mic, p.speaker, env);
    }
  }

  /** A session ends only by its owner's word, by its owner's silence, or with the program. */
  lemma SessionEndsOnly(vm: Vm, cfg: VmConfig, e: Event)
    requires Sound(vm) && vm.session.Some? && !SameSession(vm, Step(vm, cfg, e).vm)
    ensures var s := vm.session.value;
            || e.Interrupted?
            || OwnersBye(vm, e)
            || AdmittedHello(vm, cfg, e, s.peer)
            || (e.Sweep? && e.now - s.lastRx > cfg.idleTimeout)
            || (e.Arrived? && AdmittedHello(vm, cfg, e, e.peer) && e.now - s.lastRx >= cfg.idleTimeout)
  {
    if e.Arrived? {
      IncomingEndsOnly(vm, cfg, e.now, e.peer, Message(e), e.env);
    }
  }

  lemma IncomingOwner(vm: Vm, cfg: VmConfig, now: int, peer: Addr, d: Result<Incoming, DecodeError>, env: Surroundings)
    requires Sound(vm)
    ensures var after := HandleIncoming(vm, cfg, now, peer, d, env).vm;
            Owner(after).Some? && Owner(after) != Owner(vm) ==>
              Owner(after) == Some(peer) && IsAdmitted(vm, cfg, now, peer, d) && after.session.value.lastRx == now
  {
    if d.Ok? && d.value.Control? && d.value.packet.Hello? {
      T.TokenMatchesIff(cfg.token, d.value.packet.token);
    }
  }

  /** The owner changes only to the sender of an admitted Hello. */
  lemma NewOwnerWasAdmitted(vm: Vm, cfg: VmConfig, e: Event)
    requires Sound(vm)
    ensures var after := Step(vm, cfg, e).vm;
            Owner(after).Some? && Owner(after) != Owner(vm) ==>
              AdmittedHello(vm, cfg, e, Owner(after).value) && after.session.value.lastRx == e.now
  {
    if e.Arrived? {
      IncomingOwner(vm, cfg, e.now, e.peer, Message(e), e.env);
    }
  }

  /** The message is one that the guest takes as word from its owner. */
  predicate IsWord(vm: Vm, cfg: VmConfig, now: int, peer: Addr, d: Result<Incoming, DecodeError>, env: Surroundings) {
    d.Ok? &&
    match d.value
    case Audio(header, _) => FromOwner(vm, peer, header.session) && header.direction == Mic
    case Control(Ping(id, _)) => FromOwner(vm, peer, id)
    case Control(Pong(id, _)) => FromOwner(vm, peer, id)
    case Control(Hello(token, id, mic, speaker)) =>
      Admitted(vm, cfg, now, peer, token, mic, speaker) && (Granted(vm, peer, id, mic, speaker) || Starts(cfg, env))
    case Control(_) => false
  }

  predicate Counts(vm: Vm, cfg: VmConfig, e: Event) {
    e.Arrived? && IsWord(vm, cfg, e.now, e.peer, Message(e), e.env)
  }

  /** When the guest last took an event as word from whoever owned it then. */
  function LastHeard(vm: Vm, cfg: VmConfig, es: seq<Event>, before: int): int
    requires Sound(vm)
    decreases |es|
  {
    if es == [] then before
    else
      StepSound(vm, cfg, es[0]);
      LastHeard(Step(vm, cfg, es[0]).vm, cfg, es[1..], if Counts(vm, cfg, es[0]) then es[0].now else before)
  }

  lemma IncomingHears(vm: Vm, cfg: VmConfig, now: int, peer: Addr, d: Result<Incoming, DecodeError>, env: Surroundings)
    requires Sound(vm)
    ensures var after := HandleIncoming(vm, cfg, now, peer, d, env).vm;
            after.session.Some? ==>
              if IsWord(vm, cfg, now, peer, d, env) then after.session.value.lastRx == now
              else vm.session.Some? && after.session.value.lastRx == vm.session.value.lastRx
  {
    if d.Ok? && d.value.Control? && d.value.packet.Hello? {
      T.TokenMatchesIff(cfg.token, d.value.packet.token);
    }
  }

  lemma StepHears(vm: Vm, cfg: VmConfig, e: Event)
    requires Sound(vm)
    ensures var after := Step(vm, cfg, e).vm;
            after.session.Some? ==>
              if Counts(vm, cfg, e) then after.session.value.lastRx == e.now
              else vm.session.Some? && after.session.value.lastRx == vm.session.value.lastRx
  {
    if e.Arrived? {
      IncomingHears(vm, cfg, e.now, e.peer, Message(e), e.env);
    }
  }

  /** A live session's time stamp is always that of the last event that counted. */
  lemma {:induction false} StampIsLastHeard(vm: Vm, cfg: VmConfig, es: seq<Event>, before: int)
    requires Sound(vm) && (vm.session.Some? ==> vm.session.value.lastRx == before)
    ensures Run(vm, cfg, es).session.Some? ==>
              Run(vm, cfg, es).session.value.lastRx == LastHeard(vm, cfg, es, before)
    decreases |es|
  {
    if es != [] {
      StepSound(vm, cfg, es[0]);
      StepHears(vm, cfg, es[0]);
      StampIsLastHeard(Step(vm, cfg, es[0]).vm, cfg, es[1..], if Counts(vm, cfg, es[0]) then es[0].now else before);
    }
  }

  /**
    A takeover, after any run: the new owner sent a Hello with the right token and valid
    formats, and the old one had not been heard for the whole timeout.
   */
  lemma TakeoverNeedsSilence(cfg: VmConfig, es: seq<Event>, e: Event)
    ensures var before := Run(Vm(None, 0), cfg, es);
            var after := Step(before, cfg, e).vm;
            Owner(before).Some? && Owner(after).Some? && Owner(after) != Owner(before) ==>
              && AdmittedHello(before, cfg, e, Owner(after).value)
              && e.now - LastHeard(Vm(None, 0), cfg, es, 0) >= cfg.idleTimeout
  {
    StampIsLastHeard(Vm(None, 0), cfg, es, 0);
    NewOwnerWasAdmitted(Run(Vm(None, 0), cfg, es), cfg, e);
  }

  // ---------------------------------------------------------------- isolation

  /** The event comes from some host other than `peer`. */
  predicate Foreign(e: Event, peer: Addr) {
    e.Arrived? && e.peer != peer
  }

  /** The run as it would be if nobody else existed. */
  function Alone(es: seq<Event>, peer: Addr): seq<Event> {
    if es == [] then []
    else (if Foreign(es[0], peer) then [] else [es[0]]) + Alone(es[1..], peer)
  }

  /** In the run without the others, the peer owns the session and has been heard lately whenever one of them speaks up. */
  predicate Attended(vm: Vm, cfg: VmConfig, es: seq<Event>, peer: Addr)
    requires Sound(vm)
    decreases |es|
  {
    if es == [] then true
    else if Foreign(es[0], peer) then
      && Owner(vm) == Some(peer) && es[0].now - vm.session.value.lastRx < cfg.idleTimeout
      && Attended(vm, cfg, es[1..], peer)
    else
      StepSound(vm, cfg, es[0]);
      Attended(Step(vm, cfg, es[0]).vm, cfg, es[1..], peer)
  }

  lemma IncomingIgnored(vm: Vm, cfg: VmConfig, now: int, peer: Addr, d: Result<Incoming, DecodeError>, env: Surroundings)
    requires Sound(vm) && HeldByAnother(vm, cfg, now, peer)
    ensures HandleIncoming(vm, cfg, now, peer, d, env).vm == vm
    ensures ToPeer(HandleIncoming(vm, cfg, now, peer, d, env).sent, vm.session.value.peer) == []
  {
  }

  lemma ForeignIsIgnored(vm: Vm, cfg: VmConfig, e: Event, peer: Addr)
    requires Sound(vm) && Foreign(e, peer)
    requires Owner(vm) == Some(peer) && e.now - vm.session.value.lastRx < cfg.idleTimeout
    ensures Step(vm, cfg, e).vm == vm
    ensures ToPeer(Step(vm, cfg, e).sent, peer) == []
  {
    IncomingIgnored(vm, cfg, e.now, e.peer, Message(e), e.env);
  }

  function ToPeer(sent: seq<Datagram>, peer: Addr): seq<Bytes> {
    if sent == [] then []
    else (if sent[0].peer == peer then [sent[0].bytes] else []) + ToPeer(sent[1..], peer)
  }

  lemma {:induction false} ToPeerConcat(a: seq<Datagram>, b: seq<Datagram>, peer: Addr)
    ensures ToPeer(a + b, peer) == ToPeer(a, peer) + ToPeer(b, peer)
  {
    if a == [] {
      assert a + b == b;
    } else {
      ToPeerConcat(a[1..], b, peer);
      assert (a + b)[0] == a[0] && (a + b)[1..] == a[1..] + b;
    }
  }

  /**
    Isolation: while its owner is heard from in time, nothing any other host sends has any
    effect. The whole state, the audio in the buffer included, and every byte sent to the
    owner are as if the others did not exist.
   */
  lemma {:induction false} OthersHaveNoEffect(vm: Vm, cfg: VmConfig, es: seq<Event>, peer: Addr)
    requires Sound(vm) && Attended(vm, cfg, es, peer)
    ensures Run(vm, cfg, es) == Run(vm, cfg, Alone(es, peer))
    ensures ToPeer(Sent(vm, cfg, es), peer) == ToPeer(Sent(vm, cfg, Alone(es, peer)), peer)
    decreases |es|
  {
    if es != [] {
      var e, rest := es[0], es[1..];
      StepSound(vm, cfg, e);
      var o := Step(vm, cfg, e);
      if Foreign(e, peer) {
        ForeignIsIgnored(vm, cfg, e, peer);
        OthersHaveNoEffect(vm, cfg, rest, peer);
        ToPeerConcat(o.sent, Sent(vm, cfg, rest), peer);
        assert [] + Alone(rest, peer) == Alone(rest, peer);
      } else {
        OthersHaveNoEffect(o.vm, cfg, rest, peer);
        ToPeerConcat(o.sent, Sent(o.vm, cfg, rest), peer);
        ToPeerConcat(o.sent, Sent(o.vm, cfg, Alone(rest, peer)), peer);
        assert Alone(es, peer)[0] == e && Alone(es, peer)[1..] == Alone(rest, peer);
      }
    }
  }

  // ---------------------------------------------------------------- the buffer

  /** The buffer of the live session, if there is one. */
  function BufferOf(vm: Vm): Option<J.Buffer> {
    if vm.session.Some? then vm.session.value.jitter else None
  }

  /** The message is the owner's microphone audio, and pushing it gives `b`. */
  predicate IsOwnersAudio(vm: Vm, peer: Addr, d: Result<Incoming, DecodeError>, b: J.Buffer)
    requires Sound(vm)
  {
    && BufferOf(vm).Some? && d.Ok? && d.value.Audio?
    && FromOwner(vm, peer, d.value.header.session)
    && d.value.header.direction == Mic
    && b == J.Push(BufferOf(vm).value, d.value.header.number, DecodeSamples(d.value.payload))
  }

  /** The message is an admitted Hello, and `b` is the empty buffer of its session. */
  predicate IsFresh(vm: Vm, cfg: VmConfig, now: int, peer: Addr, d: Result<Incoming, DecodeError>, b: J.Buffer) {
    IsAdmitted(vm, cfg, now, peer, d) && b == NewBuffer(cfg, d.value.packet.mic)
  }

  lemma HelloBuffer(vm: Vm, cfg: VmConfig, now: int, peer: Addr, token: Bytes, id: U32, mic: Format, speaker: Format,
                    env: Surroundings)
    ensures var b := BufferOf(HandleHello(vm, cfg, now, peer, token, id, mic, speaker, env).vm);
            b.Some? && b != BufferOf(vm) ==>
              Admitted(vm, cfg, now, peer, token, mic, speaker) && b.value == NewBuffer(cfg, mic)
  {
    T.TokenMatchesIff(cfg.token, token);
  }

  lemma IncomingBuffer(vm: Vm, cfg: VmConfig, now: int, peer: Addr, d: Result<Incoming, DecodeError>, env: Surroundings)
    requires Sound(vm)
    ensures var b := BufferOf(HandleIncoming(vm, cfg, now, peer, d, env).vm);
            b.Some? && b != BufferOf(vm) ==>
              IsFresh(vm, cfg, now, peer, d, b.value) || IsOwnersAudio(vm, peer, d, b.value)
  {
    if d.Ok? && d.value.Control? && d.value.packet.Hello? {
      var p := d.value.packet;
      HelloBuffer(vm, cfg, now, peer, p.token, p.session, p.mic, p.speaker, env);
    }
  }

  /** Apart from a new session's empty buffer, only the owner's microphone audio and the render thread reach the buffer. */
  lemma BufferChangesOnly(vm: Vm, cfg: VmConfig, e: Event)
    requires Sound(vm)
    ensures var b := BufferOf(Step(vm, cfg, e).vm);
            b.Some? && b != BufferOf(vm) ==>
              || (e.Arrived? && IsFresh(vm, cfg, e.now, e.peer, Message(e), b.value))
              || (e.Arrived? && IsOwnersAudio(vm, e.peer, Message(e), b.value))
              || (BufferOf(vm).Some? && e.Rendered? && b.value == J.Pull(BufferOf(vm).value, e.n).after)
              || (BufferOf(vm).Some? && e.RenderFailed? && b.value == J.Reset(BufferOf(vm).value))
  {
    if e.Arrived? {
      IncomingBuffer(vm, cfg, e.now, e.peer, Message(e), e.env);
    }
  }

  /** A live session has a buffer exactly when the microphone is enabled. */
  predicate Equipped(vm: Vm, cfg: VmConfig) {
    vm.session.Some? ==> (vm.session.value.jitter.Some? <==> cfg.mic)
  }

  lemma IncomingEquipped(vm: Vm, cfg: VmConfig, now: int, peer: Addr, d: Result<Incoming, DecodeError>, env: Surroundings)
    requires Sound(vm) && Equipped(vm, cfg)
    ensures Equipped(HandleIncoming(vm, cfg, now, peer, d, env).vm, cfg)
  {
  }

  lemma StepEquipped(vm: Vm, cfg: VmConfig, e: Event)
    requires Sound(vm) && Equipped(vm, cfg)
    ensures Equipped(Step(vm, cfg, e).vm, cfg)
  {
    if e.Arrived? {
      IncomingEquipped(vm, cfg, e.now, e.peer, Message(e), e.env);
    }
  }

  /** The session after a step is the one before it, or the one that an admitted Hello asked for. */
  lemma StepGrants(vm: Vm, cfg: VmConfig, e: Event)
    requires Sound(vm)
    ensures var after := Step(vm, cfg, e).vm;
            after.session.Some? && !SameSession(vm, after) ==>
              && e.Arrived? && IsAdmitted(vm, cfg, e.now, e.peer, Message(e))
              && var p := Message(e).value.packet; Granted(after, e.peer, p.session, p.mic, p.speaker)
  {
    if e.Arrived? {
      IncomingGrants(vm, cfg, e.now, e.peer, Message(e), e.env);
    }
  }

  lemma IncomingGrants(vm: Vm, cfg: VmConfig, now: int, peer: Addr, d: Result<Incoming, DecodeError>, env: Surroundings)
    requires Sound(vm)
    ensures var after := HandleIncoming(vm, cfg, now, peer, d, env).vm;
            after.session.Some? && !SameSession(vm, after) ==>
              && IsAdmitted(vm, cfg, now, peer, d)
              && var p := d.value.packet; Granted(after, peer, p.session, p.mic, p.speaker)
  {
    if d.Ok? && d.value.Control? && d.value.packet.Hello? {
      T.TokenMatchesIff(cfg.token, d.value.packet.token);
    }
  }

  /** The number that the buffer of a session of `peer` expects next. */
  function Expects(vm: Vm, peer: Addr): Option<U32> {
    if Owner(vm) == Some(peer) && BufferOf(vm).Some? then BufferOf(vm).value.expected else None
  }

  /** The message is audio. */
  predicate IsAudio(d: Result<Incoming, DecodeError>) {
    d.Ok? && d.value.Audio?
  }

  /** The step makes the guest forget the numbering: its render thread fails, or its session ends or is replaced. */
  predicate Forgets(vm: Vm, cfg: VmConfig, e: Event)
    requires Sound(vm)
  {
    e.RenderFailed? || !SameSession(vm, Step(vm, cfg, e).vm)
  }

  lemma HelloExpects(vm: Vm, cfg: VmConfig, now: int, from: Addr, token: Bytes, id: U32, mic: Format, speaker: Format,
                     env: Surroundings, peer: Addr)
    ensures var after := HandleHello(vm, cfg, now, from, token, id, mic, speaker, env).vm;
            Expects(after, peer) == if SameSession(vm, after) then Expects(vm, peer) else None
  {
  }

  lemma IncomingExpects(vm: Vm, cfg: VmConfig, now: int, from: Addr, d: Result<Incoming, DecodeError>, env: Surroundings,
                        peer: Addr)
    requires Sound(vm) && !(from == peer && IsAudio(d))
    ensures var after := HandleIncoming(vm, cfg, now, from, d, env).vm;
            Expects(after, peer) == if SameSession(vm, after) then Expects(vm, peer) else None
  {
    if d.Ok? && d.value.Control? && d.value.packet.Hello? {
      var p := d.value.packet;
      HelloExpects(vm, cfg, now, from, p.token, p.session, p.mic, p.speaker, env, peer);
    }
  }

  /** Without audio from the peer, the number its session expects stays until it is forgotten. */
  lemma StepExpects(vm: Vm, cfg: VmConfig, e: Event, peer: Addr)
    requires Sound(vm) && !(e.Arrived? && e.peer == peer && IsAudio(Message(e)))
    ensures Expects(Step(vm, cfg, e).vm, peer) == if Forgets(vm, cfg, e) then None else Expects(vm, peer)
  {
    if e.Arrived? {
      IncomingExpects(vm, cfg, e.now, e.peer, Message(e), e.env, peer);
    }
  }

  // ---------------------------------------------------------------- threads

  /** Threads left behind by one message: a render thread whose capture thread failed to start. */
  function LeakedByMessage(vm: Vm, cfg: VmConfig, now: int, peer: Addr, d: Result<Incoming, DecodeError>,
                           env: Surroundings): nat
  {
    if IsAdmitted(vm, cfg, now, peer, d)
       && !Granted(vm, peer, d.value.packet.session, d.value.packet.mic, d.value.packet.speaker)
    then Leaks(cfg, env) else 0
  }

  function LeakedBy(vm: Vm, cfg: VmConfig, e: Event): nat {
    if e.Arrived? then LeakedByMessage(vm, cfg, e.now, e.peer, Message(e), e.env) else 0
  }

  function Leaked(vm: Vm, cfg: VmConfig, es: seq<Event>): nat
    requires Sound(vm)
    decreases |es|
  {
    if es == [] then 0
    else
      StepSound(vm, cfg, es[0]);
      LeakedBy(vm, cfg, es[0]) + Leaked(Step(vm, cfg, es[0]).vm, cfg, es[1..])
  }

  function InUse(vm: Vm): nat {
    if vm.session.Some? then Owned(vm.session.value) else 0
  }

  lemma HelloThreads(vm: Vm, cfg: VmConfig, now: int, peer: Addr, token: Bytes, id: U32, mic: Format, speaker: Format,
                     env: Surroundings)
    requires InUse(vm) <= vm.threads
    ensures var after := HandleHello(vm, cfg, now, peer, token, id, mic, speaker, env).vm;
            var leaked := if Admitted(vm, cfg, now, peer, token, mic, speaker) && !Granted(vm, peer, id, mic, speaker)
                          then Leaks(cfg, env) else 0;
            InUse(after) <= after.threads && after.threads - InUse(after) == vm.threads - InUse(vm) + leaked
  {
    T.TokenMatchesIff(cfg.token, token);
  }

  lemma IncomingThreads(vm: Vm, cfg: VmConfig, now: int, peer: Addr, d: Result<Incoming, DecodeError>, env: Surroundings)
    requires Sound(vm) && InUse(vm) <= vm.threads
    ensures var after := HandleIncoming(vm, cfg, now, peer, d, env).vm;
            InUse(after) <= after.threads
            && after.threads - InUse(after) == vm.threads - InUse(vm) + LeakedByMessage(vm, cfg, now, peer, d, env)
  {
    if d.Ok? && d.value.Control? && d.value.packet.Hello? {
      var p := d.value.packet;
      HelloThreads(vm, cfg, now, peer, p.token, p.session, p.mic, p.speaker, env);
    }
  }

  lemma StepThreads(vm: Vm, cfg: VmConfig, e: Event)
    requires Sound(vm) && InUse(vm) <= vm.threads
    ensures var after := Step(vm, cfg, e).vm;
            InUse(after) <= after.threads
            && after.threads - InUse(after) == vm.threads - InUse(vm) + LeakedBy(vm, cfg, e)
  {
    if e.Arrived? {
      IncomingThreads(vm, cfg, e.now, e.peer, Message(e), e.env);
    }
  }

  /** Over every run the running threads are the session's own and exactly those leaked by failed starts. */
  lemma {:induction false} ThreadsAccounted(vm: Vm, cfg: VmConfig, es: seq<Event>)
    requires Sound(vm) && InUse(vm) <= vm.threads
    ensures var after := Run(vm, cfg, es);
            InUse(after) <= after.threads
            && after.threads - InUse(after) == vm.threads - InUse(vm) + Leaked(vm, cfg, es)
    decreases |es|
  {
    if es != [] {
      StepSound(vm, cfg, es[0]);
      StepThreads(vm, cfg, es[0]);
      ThreadsAccounted(Step(vm, cfg, es[0]).vm, cfg, es[1..]);
    }
  }

  /** The guard of the failing branch: an admitted Hello for a new session whose render thread starts and whose capture thread does not. */
  predicate LeakingHello(vm: Vm, cfg: VmConfig, e: Event) {
    && e.Arrived? && IsAdmitted(vm, cfg, e.now, e.peer, Message(e))
    && !Granted(vm, e.peer, Message(e).value.packet.session, Message(e).value.packet.mic, Message(e).value.packet.speaker)
    && cfg.mic && e.env.renderStarts && cfg.speaker && !e.env.captureStarts
  }

  lemma LeaksIff(vm: Vm, cfg: VmConfig, e: Event)
    ensures LeakedBy(vm, cfg, e) == if LeakingHello(vm, cfg, e) then 1 else 0
  {
  }

  lemma {:induction false} LeakedIff(vm: Vm, cfg: VmConfig, es: seq<Event>)
    requires Sound(vm)
    ensures Leaked(vm, cfg, es) == 0
            <==> forall k :: 0 <= k < |es| ==> !LeakingHello(Run(vm, cfg, es[..k]), cfg, es[k])
    decreases |es|
  {
    if es != [] {
      StepSound(vm, cfg, es[0]);
      var next, rest := Step(vm, cfg, es[0]).vm, es[1..];
      LeaksIff(vm, cfg, es[0]);
      LeakedIff(next, cfg, rest);
      forall k | 0 <= k < |rest| ensures Run(vm, cfg, es[..k + 1]) == Run(next, cfg, rest[..k]) && es[k + 1] == rest[k] {
        assert es[..k + 1][1..] == rest[..k];
      }
      assert Run(vm, cfg, es[..0]) == vm;
      if Leaked(vm, cfg, es) == 0 {
        forall k | 0 <= k < |es| ensures !LeakingHello(Run(vm, cfg, es[..k]), cfg, es[k]) {
          if k > 0 {
            assert Run(vm, cfg, es[..k - 1 + 1]) == Run(next, cfg, rest[..k - 1]);
          }
        }
      } else if Leaked(next, cfg, rest) != 0 {
        var k :| 0 <= k < |rest| && LeakingHello(Run(next, cfg, rest[..k]), cfg, rest[k]);
        assert LeakingHello(Run(vm, cfg, es[..k + 1]), cfg, es[k + 1]);
      } else {
        assert LeakingHello(Run(vm, cfg, es[..0]), cfg, es[0]);
      }
    }
  }

  /** No thread outlives its session exactly when no Hello of the run met the failing branch. */
  lemma NothingLeaksIff(cfg: VmConfig, es: seq<Event>)
    ensures var after := Run(Vm(None, 0), cfg, es);
            after.threads == InUse(after)
            <==> forall k :: 0 <= k < |es| ==> !LeakingHello(Run(Vm(None, 0), cfg, es[..k]), cfg, es[k])
  {
    ThreadsAccounted(Vm(None, 0), cfg, es);
    LeakedIff(Vm(None, 0), cfg, es);
  }

  /** A Hello with the guest's token and valid formats, while a render thread can be started but no capture thread. */
  ghost predicate Unlucky(cfg: VmConfig, e: Event) {
    && e.Arrived? && e.env.renderStarts && !e.env.captureStarts
    && exists id: U32, mic: Format, speaker: Format ::
         ValidFormat(mic) && ValidFormat(speaker) && e.bytes == Encode(Hello(cfg.token, id, mic, speaker))
  }

  lemma OneMoreLeak(cfg: VmConfig, threads: nat, e: Event)
    requires cfg.mic && cfg.speaker && |cfg.token| <= MAX_FIELD && Unlucky(cfg, e)
    ensures LeakingHello(Vm(None, threads), cfg, e)
    ensures Step(Vm(None, threads), cfg, e).vm == Vm(None, threads + 1)
  {
    var id: U32, mic: Format, speaker: Format :|
      ValidFormat(mic) && ValidFormat(speaker) && e.bytes == Encode(Hello(cfg.token, id, mic, speaker));
    T.ControlArrives(Hello(cfg.token, id, mic, speaker));
    T.TokenMatchesIff(cfg.token, cfg.token);
  }

  /** Such a Hello leaks a thread, and so does every repetition of it, because no session ever comes of it. */
  lemma {:induction false} LeaksPileUp(cfg: VmConfig, threads: nat, es: seq<Event>)
    requires cfg.mic && cfg.speaker && |cfg.token| <= MAX_FIELD
    requires forall i :: 0 <= i < |es| ==> Unlucky(cfg, es[i])
    ensures Run(Vm(None, threads), cfg, es) == Vm(None, threads + |es|)
    decreases |es|
  {
    if es != [] {
      OneMoreLeak(cfg, threads, es[0]);
      LeaksPileUp(cfg, threads + 1, es[1..]);
    }
  }

  /** There is such a Hello for every host and all valid formats. */
  lemma UnluckyHello(cfg: VmConfig, now: int, peer: Addr, id: U32, mic: Format, speaker: Format)
    requires ValidFormat(mic) && ValidFormat(speaker)
    ensures Unlucky(cfg, Arrived(now, peer, Encode(Hello(cfg.token, id, mic, speaker)),
                                 Surroundings(true, false, [], [], [], [])))
  {
  }
}
