/**
  The guest's end of the session: one branch of its event loop at a time, as a function
  from the state before to the state after and the datagrams sent.

  Clock readings are given with the events. So is whether an audio thread can be started, as are
  the texts the program formats for people.
 */
module VmSession {
  import opened Numbers
  import opened Wrappers
  import opened Utf8
  import opened Wire
  import T = WireTheorems
  import J = JitterModel

  /** A socket address. */
  type Addr = nat

  datatype VmConfig = VmConfig(token: Bytes, idleTimeout: nat, mic: bool, speaker: bool, bufferMs: U32)

  /** What exists only while a host is connected. */
  datatype Session = Session(
    id: U32,
    peer: Addr,
    micFormat: Format,
    speakerFormat: Format,
    jitter: Option<J.Buffer>,
    render: bool,
    capture: bool,
    lastRx: int,
    number: U32,
    summary: Text)

  /** `threads` counts the audio threads that are running. */
  datatype Vm = Vm(session: Option<Session>, threads: nat)

  /** Whether the audio threads can be started, and the texts for the replies. */
  datatype Surroundings = Surroundings(
    renderStarts: bool, captureStarts: bool, summary: Text, error: Text, busy: Text, unsupported: Text)

  datatype Datagram = Datagram(peer: Addr, bytes: Bytes)

  datatype Outcome = Outcome(vm: Vm, sent: seq<Datagram>)

  function Owned(s: Session): nat {
    (if s.render then 1 else 0) + (if s.capture then 1 else 0)
  }

  function Minus(a: nat, b: nat): nat {
    if b <= a then a - b else 0
  }

  /** A session's buffer is sound, and built for the session's microphone format. */
  predicate Sound(vm: Vm) {
    vm.session.Some? && vm.session.value.jitter.Some? ==> J.Valid(vm.session.value.jitter.value)
  }

  /** Drops the session and joins its threads. */
  function ShutDown(vm: Vm): Vm {
    match vm.session
    case None => vm
    case Some(s) => Vm(None, Minus(vm.threads, Owned(s)))
  }

  function NewBuffer(cfg: VmConfig, mic: Format): J.Buffer {
    J.Initial(J.NewConfig(mic.channels, mic.rate, mic.frameMs, cfg.bufferMs))
  }

  predicate Starts(cfg: VmConfig, env: Surroundings) {
    (cfg.mic ==> env.renderStarts) && (cfg.speaker ==> env.captureStarts)
  }

  /** A render thread is left running when the capture thread then fails to start. */
  function Leaks(cfg: VmConfig, env: Surroundings): nat {
    if cfg.mic && env.renderStarts && cfg.speaker && !env.captureStarts then 1 else 0
  }

  function NewSession(cfg: VmConfig, now: int, peer: Addr, id: U32, mic: Format, speaker: Format, env: Surroundings): Session {
    Session(id, peer, mic, speaker, if cfg.mic then Some(NewBuffer(cfg, mic)) else None,
            cfg.mic, cfg.speaker, now, 0, env.summary)
  }

  /** Starts the audio threads; on failure nothing is left but a leaked one. */
  function StartSession(vm: Vm, cfg: VmConfig, now: int, peer: Addr, id: U32, mic: Format, speaker: Format,
                        env: Surroundings): Vm
  {
    if Starts(cfg, env) then
      var s := NewSession(cfg, now, peer, id, mic, speaker, env);
      Vm(Some(s), vm.threads + Owned(s))
    else
      Vm(None, vm.threads + Leaks(cfg, env))
  }

  function Reply(peer: Addr, status: Status, id: U32, mic: Format, speaker: Format, message: Text): seq<Datagram> {
    [Datagram(peer, Encode(HelloAck(status, id, mic, speaker, message)))]
  }

  /** Another host holds a session that has not timed out. */
  predicate HeldByAnother(vm: Vm, cfg: VmConfig, now: int, peer: Addr) {
    vm.session.Some? && vm.session.value.peer != peer && now - vm.session.value.lastRx < cfg.idleTimeout
  }

  /** The same Hello again. */
  predicate Unchanged(vm: Vm, peer: Addr, id: U32, mic: Format, speaker: Format) {
    match vm.session
    case None => false
    case Some(s) => s.id == id && s.peer == peer && s.micFormat == mic && s.speakerFormat == speaker
  }

  function HandleHello(vm: Vm, cfg: VmConfig, now: int, peer: Addr, token: Bytes, id: U32, mic: Format, speaker: Format,
                       env: Surroundings): Outcome
  {
    if !T.TokenMatches(cfg.token, token) then
      Outcome(vm, Reply(peer, AuthFailed, id, mic, speaker, []))
    else if !ValidFormat(mic) || !ValidFormat(speaker) then
      Outcome(vm, Reply(peer, UnsupportedFormat, id, mic, speaker, env.unsupported))
    else if HeldByAnother(vm, cfg, now, peer) then
      Outcome(vm, Reply(peer, Busy, id, mic, speaker, env.busy))
    else Welcome(vm, cfg, now, peer, id, mic, speaker, env)
  }

  /** Keeps the session if it is the same one again, and otherwise replaces it. */
  function Welcome(vm: Vm, cfg: VmConfig, now: int, peer: Addr, id: U32, mic: Format, speaker: Format,
                   env: Surroundings): Outcome
  {
    Greet(if Unchanged(vm, peer, id, mic, speaker) then vm
          else StartSession(ShutDown(vm), cfg, now, peer, id, mic, speaker, env),
          now, peer, id, mic, speaker, env)
  }

  /** Answers an admitted Hello once the session is up, or has failed to start. */
  function Greet(up: Vm, now: int, peer: Addr, id: U32, mic: Format, speaker: Format, env: Surroundings): Outcome {
    match up.session
    case None => Outcome(up, Reply(peer, ServerError, id, mic, speaker, env.error))
    case Some(s) =>
      Outcome(up.(session := Some(s.(lastRx := now))), Reply(peer, StatusOk, id, mic, speaker, s.summary))
  }

  /** Counts as word from the session's owner. */
  function Touch(vm: Vm, now: int): Vm
    requires vm.session.Some?
  {
    vm.(session := Some(vm.session.value.(lastRx := now)))
  }

  predicate FromOwner(vm: Vm, peer: Addr, id: U32) {
    vm.session.Some? && id == vm.session.value.id && peer == vm.session.value.peer
  }

  function HandleAudio(vm: Vm, now: int, peer: Addr, header: AudioHeader, payload: Bytes): Vm
    requires Sound(vm)
  {
    if !FromOwner(vm, peer, header.session) || header.direction != Mic then vm
    else
      var s := vm.session.value.(lastRx := now);
      match s.jitter
      case None => vm.(session := Some(s))
      case Some(b) => vm.(session := Some(s.(jitter := Some(J.Push(b, header.number, DecodeSamples(payload))))))
  }

  function HandleIncoming(vm: Vm, cfg: VmConfig, now: int, peer: Addr, d: Result<Incoming, DecodeError>,
                          env: Surroundings): Outcome
    requires Sound(vm)
  {
    match d
    case Err(_) => Outcome(vm, [])
    case Ok(Audio(header, payload)) => Outcome(HandleAudio(vm, now, peer, header, payload), [])
    case Ok(Control(Hello(token, id, mic, speaker))) => HandleHello(vm, cfg, now, peer, token, id, mic, speaker, env)
    case Ok(Control(HelloAck(_, _, _, _, _))) => Outcome(vm, [])
    case Ok(Control(Ping(id, nonce))) =>
      if FromOwner(vm, peer, id) then Outcome(Touch(vm, now), [Datagram(peer, Encode(Pong(id, nonce)))])
      else Outcome(vm, [])
    case Ok(Control(Pong(id, _))) => Outcome(if FromOwner(vm, peer, id) then Touch(vm, now) else vm, [])
    case Ok(Control(Bye(id))) => Outcome(if FromOwner(vm, peer, id) then ShutDown(vm) else vm, [])
  }

  /** A branch of the loop, or a call of the render thread into the shared buffer. */
  datatype Event =
    | Arrived(now: int, peer: Addr, bytes: Bytes, env: Surroundings)
    | Captured(pcm: seq<Sample>)
    | Sweep(now: int)
    | Interrupted
    | Rendered(n: nat)
    | RenderFailed

  function OnBuffer(vm: Vm, b: J.Buffer): Vm
    requires vm.session.Some?
  {
    vm.(session := Some(vm.session.value.(jitter := Some(b))))
  }

  function Step(vm: Vm, cfg: VmConfig, e: Event): Outcome
    requires Sound(vm)
  {
    match e
    case Arrived(now, peer, bytes, env) =>
      HandleIncoming(vm, cfg, now, peer, Decode(T.Received(bytes)), env)
    case Captured(pcm) =>
      if vm.session.None? then Outcome(vm, [])
      else
        var s := vm.session.value;
        Outcome(vm.(session := Some(s.(number := Wrap32(s.number + 1)))),
                [Datagram(s.peer, EncodeAudio(s.id, Speaker, s.number, s.speakerFormat.channels, pcm))])
    case Sweep(now) =>
      Outcome(if vm.session.Some? && now - vm.session.value.lastRx > cfg.idleTimeout then ShutDown(vm) else vm, [])
    case Interrupted =>
      Outcome(ShutDown(vm),
              if vm.session.Some? then [Datagram(vm.session.value.peer, Encode(Bye(vm.session.value.id)))] else [])
    case Rendered(n) =>
      Outcome(if vm.session.Some? && vm.session.value.jitter.Some?
              then OnBuffer(vm, J.Pull(vm.session.value.jitter.value, n).after) else vm, [])
    case RenderFailed =>
      Outcome(if vm.session.Some? && vm.session.value.jitter.Some?
              then OnBuffer(vm, J.Reset(vm.session.value.jitter.value)) else vm, [])
  }

  lemma NewBufferValid(cfg: VmConfig, mic: Format)
    requires ValidFormat(mic)
    ensures J.Valid(NewBuffer(cfg, mic))
  {
  }

  lemma HelloSound(vm: Vm, cfg: VmConfig, now: int, peer: Addr, token: Bytes, id: U32, mic: Format, speaker: Format,
                   env: Surroundings)
    requires Sound(vm)
    ensures Sound(HandleHello(vm, cfg, now, peer, token, id, mic, speaker, env).vm)
  {
    if ValidFormat(mic) {
      NewBufferValid(cfg, mic);
    }
  }

  lemma IncomingSound(vm: Vm, cfg: VmConfig, now: int, peer: Addr, d: Result<Incoming, DecodeError>, env: Surroundings)
    requires Sound(vm)
    ensures Sound(HandleIncoming(vm, cfg, now, peer, d, env).vm)
  {
    match d
    case Ok(Control(Hello(token, id, mic, speaker))) => HelloSound(vm, cfg, now, peer, token, id, mic, speaker, env);
    case Ok(Audio(header, payload)) =>
      if vm.session.Some? && vm.session.value.jitter.Some? {
        J.PushValid(vm.session.value.jitter.value, header.number, DecodeSamples(payload));
      }
    case _ =>
  }

  lemma StepSound(vm: Vm, cfg: VmConfig, e: Event)
    requires Sound(vm)
    ensures Sound(Step(vm, cfg, e).vm)
  {
    match e
    case Arrived(now, peer, bytes, env) => IncomingSound(vm, cfg, now, peer, Decode(T.Received(bytes)), env);
    case Rendered(n) =>
      if vm.session.Some? && vm.session.value.jitter.Some? {
        J.PullValid(vm.session.value.jitter.value, n);
      }
    case _ =>
  }

  function Run(vm: Vm, cfg: VmConfig, es: seq<Event>): (after: Vm)
    requires Sound(vm)
    ensures Sound(after)
    decreases |es|
  {
    if es == [] then vm
    else
      StepSound(vm, cfg, es[0]);
      Run(Step(vm, cfg, es[0]).vm, cfg, es[1..])
  }

  /** Everything sent over a run. */
  function Sent(vm: Vm, cfg: VmConfig, es: seq<Event>): seq<Datagram>
    requires Sound(vm)
    decreases |es|
  {
    if es == [] then []
    else
      StepSound(vm, cfg, es[0]);
      Step(vm, cfg, es[0]).sent + Sent(Step(vm, cfg, es[0]).vm, cfg, es[1..])
  }
}
