/**
  Host, guest and the network between them.

  The network keeps every datagram ever sent and may deliver any of them any number of
  times, in any order, or never. Other hosts may send the guest whatever they like, but not
  under the host's address, and the host's connected socket takes datagrams from the guest
  only.
 */
module Bridge {
  import opened Numbers
  import opened Wrappers
  import opened Utf8
  import opened Wire
  import T = WireTheorems
  import V = VmSession
  import VT = VmTheorems
  import H = HostSession
  import J = JitterModel

  const HOST: V.Addr := 0
  const GUEST: V.Addr := 1

  datatype Letter = Letter(from: V.Addr, to: V.Addr, bytes: Bytes)

  /** The parties and formats of a session. */
  datatype Grant = Grant(id: U32, peer: V.Addr, mic: Format, speaker: Format)

  /** A numbered microphone packet. */
  datatype Spoken = Spoken(number: U32, pcm: seq<Sample>)

  /**
    `grants` has every session the guest has ever had, and `spoken` every microphone packet
    the host has ever sent.
   */
  datatype World = World(host: H.Host, guest: V.Vm, net: set<Letter>, grants: set<Grant>, spoken: set<Spoken>)

  datatype Setup = Setup(host: H.HostConfig, guest: V.VmConfig)

  datatype Move =
    | HostHears(letter: Letter, now: int)
    | HostActs(he: H.Event)
    | GuestHears(letter: Letter, now: int, env: V.Surroundings)
    | GuestActs(ge: V.Event)
    | Intrudes(letter: Letter)

  predicate Enabled(w: World, m: Move) {
    match m
    case HostHears(l, _) => l in w.net && l.from == GUEST && l.to == HOST
    case HostActs(e) => !e.Arrived?
    case GuestHears(l, _, _) => l in w.net && l.to == GUEST
    case GuestActs(e) => !e.Arrived?
    case Intrudes(l) => l.from != HOST && l.from != GUEST
  }

  function FromHost(sent: seq<Bytes>): set<Letter> {
    set i | 0 <= i < |sent| :: Letter(HOST, GUEST, sent[i])
  }

  function FromGuest(sent: seq<V.Datagram>): set<Letter> {
    set i | 0 <= i < |sent| :: Letter(GUEST, sent[i].peer, sent[i].bytes)
  }

  function Granted(vm: V.Vm): set<Grant> {
    match vm.session
    case None => {}
    case Some(s) => {Grant(s.id, s.peer, s.micFormat, s.speakerFormat)}
  }

  function HostDoes(w: World, setup: Setup, e: H.Event): World
    requires H.Sound(w.host)
  {
    var o := H.Step(w.host, setup.host, e);
    w.(host := o.host, net := w.net + FromHost(o.sent),
       spoken := w.spoken + if e.MicReady? && w.host.established then {Spoken(w.host.number, e.pcm)} else {})
  }

  function GuestDoes(w: World, setup: Setup, e: V.Event): World
    requires V.Sound(w.guest)
  {
    var o := V.Step(w.guest, setup.guest, e);
    w.(guest := o.vm, net := w.net + FromGuest(o.sent), grants := w.grants + Granted(o.vm))
  }

  predicate Sound(w: World) {
    H.Sound(w.host) && V.Sound(w.guest)
  }

  function Next(w: World, setup: Setup, m: Move): World
    requires Sound(w)
  {
    match m
    case HostHears(l, now) => HostDoes(w, setup, H.Arrived(now, l.bytes))
    case HostActs(e) => HostDoes(w, setup, e)
    case GuestHears(l, now, env) => GuestDoes(w, setup, V.Arrived(now, l.from, l.bytes, env))
    case GuestActs(e) => GuestDoes(w, setup, e)
    case Intrudes(l) => w.(net := w.net + {l})
  }

  lemma NextSound(w: World, setup: Setup, m: Move)
    requires Sound(w)
    ensures Sound(Next(w, setup, m))
  {
    match m
    case HostHears(l, now) => H.StepSound(w.host, setup.host, H.Arrived(now, l.bytes));
    case HostActs(e) => H.StepSound(w.host, setup.host, e);
    case GuestHears(l, now, env) => V.StepSound(w.guest, setup.guest, V.Arrived(now, l.from, l.bytes, env));
    case GuestActs(e) => V.StepSound(w.guest, setup.guest, e);
    case Intrudes(l) =>
  }

  function Start(speaker: Option<J.Buffer>): World {
    World(H.Host(false, 0, 0, None, None, speaker), V.Vm(None, 0), {}, {}, {})
  }

  /** Every move of the run is possible when it is made. */
  predicate Possible(w: World, setup: Setup, ms: seq<Move>)
    requires Sound(w)
    decreases |ms|
  {
    ms == [] || (Enabled(w, ms[0]) && (NextSound(w, setup, ms[0]); Possible(Next(w, setup, ms[0]), setup, ms[1..])))
  }

  function After(w: World, setup: Setup, ms: seq<Move>): (after: World)
    requires Sound(w)
    ensures Sound(after)
    decreases |ms|
  {
    if ms == [] then w
    else
      NextSound(w, setup, ms[0]);
      After(Next(w, setup, ms[0]), setup, ms[1..])
  }

  // ---------------------------------------------------------------- what is in the network

  /** One of the host's own datagrams. */
  predicate Hosts(w: World, cfg: H.HostConfig, bytes: Bytes) {
    || bytes == H.HelloBytes(cfg)
    || bytes == Encode(Bye(cfg.session))
    || (exists nonce: U64 :: bytes == Encode(Ping(cfg.session, nonce)))
    || (exists nonce: U64 :: bytes == Encode(Pong(cfg.session, nonce)))
    || (exists s: Spoken :: s in w.spoken
          && bytes == EncodeAudio(cfg.session, Mic, s.number, cfg.mic.channels, s.pcm))
  }

  /** The bytes are an Ok to the host's session. */
  predicate IsOk(cfg: H.HostConfig, bytes: Bytes) {
    var d := Decode(T.Received(bytes));
    d.Ok? && d.value.Control? && d.value.packet.HelloAck?
    && d.value.packet.status == StatusOk && d.value.packet.session == cfg.session
  }

  function HostsGrant(cfg: H.HostConfig): Grant {
    Grant(cfg.session, HOST, cfg.mic, cfg.speaker)
  }

  /** What holds in every reachable state. */
  predicate Honest(w: World, cfg: H.HostConfig) {
    && (forall l :: l in w.net && l.from == HOST ==> Hosts(w, cfg, l.bytes))
    && (forall l :: l in w.net && l.from == GUEST && l.to == HOST && IsOk(cfg, l.bytes) ==> HostsGrant(cfg) in w.grants)
    && (w.host.established ==> HostsGrant(cfg) in w.grants)
  }

  // ---------------------------------------------------------------- what the guest makes of the host

  /** What a datagram of the host's can be taken for. */
  predicate HostMessage(w: World, cfg: H.HostConfig, d: Result<Incoming, DecodeError>) {
    d.Ok? ==>
      match d.value
      case Control(Hello(token, id, mic, speaker)) =>
        token == Cut(cfg.token) && id == cfg.session && mic == cfg.mic && speaker == cfg.speaker
      case Control(HelloAck(_, _, _, _, _)) => false
      case Control(_) => true
      case Audio(header, payload) =>
        header.session == cfg.session && Spoken(header.number, DecodeSamples(payload)) in w.spoken
  }

  lemma EmptyAudioIsRefused(session: U32, direction: Direction, number: U32, channels: U8)
    ensures Decode(T.Received(EncodeAudio(session, direction, number, channels, []))).Err?
  {
    var prefix := AudioPrefix(session, direction, number, FrameField(0, channels));
    T.AudioDecodes(session, direction, number, FrameField(0, channels), []);
    T.AudioHeaderBack(session, direction, number, FrameField(0, channels), []);
    assert EncodeAudio(session, direction, number, channels, []) == prefix + [];
  }

  lemma AudioArrives(session: U32, direction: Direction, number: U32, channels: U8, pcm: seq<Sample>)
    ensures var d := Decode(T.Received(EncodeAudio(session, direction, number, channels, pcm)));
            d.Ok? ==> d.value.Audio? && d.value.header.session == session && d.value.header.number == number
                      && d.value.header.direction == direction && DecodeSamples(d.value.payload) == pcm
  {
    if pcm == [] {
      EmptyAudioIsRefused(session, direction, number, channels);
    } else {
      T.ReceivedIff(session, direction, number, channels, pcm);
      T.AudioRoundTrip(session, direction, number, channels, pcm);
    }
  }

  lemma HelloArrives(cfg: H.HostConfig)
    ensures Decode(T.Received(H.HelloBytes(cfg))) == Ok(Control(Hello(Cut(cfg.token), cfg.session, cfg.mic, cfg.speaker)))
  {
    T.ControlFits(Hello(cfg.token, cfg.session, cfg.mic, cfg.speaker));
    T.HelloDecodes(cfg.token, cfg.session, cfg.mic, cfg.speaker);
  }

  lemma HostIsUnderstood(w: World, cfg: H.HostConfig, bytes: Bytes)
    requires Hosts(w, cfg, bytes)
    ensures HostMessage(w, cfg, Decode(T.Received(bytes)))
  {
    if bytes == H.HelloBytes(cfg) {
      HelloArrives(cfg);
    } else if bytes == Encode(Bye(cfg.session)) {
      T.ControlArrives(Bye(cfg.session));
    } else if nonce: U64 :| bytes == Encode(Ping(cfg.session, nonce)) {
      T.ControlArrives(Ping(cfg.session, nonce));
    } else if nonce: U64 :| bytes == Encode(Pong(cfg.session, nonce)) {
      T.ControlArrives(Pong(cfg.session, nonce));
    } else {
      var s: Spoken :| s in w.spoken && bytes == EncodeAudio(cfg.session, Mic, s.number, cfg.mic.channels, s.pcm);
      AudioArrives(cfg.session, Mic, s.number, cfg.mic.channels, s.pcm);
      assert Spoken(s.number, s.pcm) == s;
    }
  }

  // ---------------------------------------------------------------- what the guest answers

  lemma AckIsOkIff(cfg: H.HostConfig, status: Status, id: U32, mic: Format, speaker: Format, message: Text)
    ensures IsOk(cfg, Encode(HelloAck(status, id, mic, speaker, message)))
            <==> status == StatusOk && id == cfg.session && IsUtf8(Cut(message))
  {
    T.ControlFits(HelloAck(status, id, mic, speaker, message));
    T.HelloAckDecodes(status, id, mic, speaker, message);
  }

  /** A Hello has one answer, and the answer is Ok only for the session that the guest then has. */
  lemma HelloAnswer(vm: V.Vm, gcfg: V.VmConfig, now: int, peer: V.Addr, token: Bytes, id: U32, mic: Format,
                    speaker: Format, env: V.Surroundings)
    ensures var o := V.HandleHello(vm, gcfg, now, peer, token, id, mic, speaker, env);
            exists status, message ::
              && o.sent == V.Reply(peer, status, id, mic, speaker, message)
              && (status == StatusOk ==> Granted(o.vm) == {Grant(id, peer, mic, speaker)})
  {
    var o := V.HandleHello(vm, gcfg, now, peer, token, id, mic, speaker, env);
    var (status, message) :=
      if !T.TokenMatches(gcfg.token, token) then (AuthFailed, [])
      else if !ValidFormat(mic) || !ValidFormat(speaker) then (UnsupportedFormat, env.unsupported)
      else if V.HeldByAnother(vm, gcfg, now, peer) then (Busy, env.busy)
      else if o.vm.session.Some? then (StatusOk, o.vm.session.value.summary)
      else (ServerError, env.error);
    assert o.sent == V.Reply(peer, status, id, mic, speaker, message);
  }

  /** The guest says Ok only to the parties and formats of the session it then has. */
  lemma OkMeansGranted(cfg: H.HostConfig, vm: V.Vm, gcfg: V.VmConfig, now: int, peer: V.Addr, token: Bytes, id: U32,
                       mic: Format, speaker: Format, env: V.Surroundings)
    ensures var o := V.HandleHello(vm, gcfg, now, peer, token, id, mic, speaker, env);
            |o.sent| == 1 && o.sent[0].peer == peer
            && (IsOk(cfg, o.sent[0].bytes) ==> id == cfg.session && Granted(o.vm) == {Grant(id, peer, mic, speaker)})
  {
    var o := V.HandleHello(vm, gcfg, now, peer, token, id, mic, speaker, env);
    HelloAnswer(vm, gcfg, now, peer, token, id, mic, speaker, env);
    var status, message :|
      && o.sent == V.Reply(peer, status, id, mic, speaker, message)
      && (status == StatusOk ==> Granted(o.vm) == {Grant(id, peer, mic, speaker)});
    AckIsOkIff(cfg, status, id, mic, speaker, message);
  }

  /** Nothing the guest sends the host is an Ok, except for the session it then has. */
  predicate OkOnlyIfGranted(cfg: H.HostConfig, o: V.Outcome) {
    forall i :: 0 <= i < |o.sent| && o.sent[i].peer == HOST && IsOk(cfg, o.sent[i].bytes) ==>
      HostsGrant(cfg) in Granted(o.vm)
  }

  lemma ReplyToHost(w: World, setup: Setup, now: int, d: Result<Incoming, DecodeError>, env: V.Surroundings)
    requires Sound(w) && HostMessage(w, setup.host, d)
    ensures OkOnlyIfGranted(setup.host, V.HandleIncoming(w.guest, setup.guest, now, HOST, d, env))
  {
    if d.Ok? && d.value.Control? {
      match d.value.packet
      case Hello(token, id, mic, speaker) =>
        OkMeansGranted(setup.host, w.guest, setup.guest, now, HOST, token, id, mic, speaker, env);
      case Ping(id, nonce) => T.ControlArrives(Pong(id, nonce));
      case _ =>
    }
  }

  lemma RepliesGoToTheSender(vm: V.Vm, gcfg: V.VmConfig, now: int, peer: V.Addr, d: Result<Incoming, DecodeError>,
                             env: V.Surroundings)
    requires V.Sound(vm)
    ensures var sent := V.HandleIncoming(vm, gcfg, now, peer, d, env).sent;
            forall i :: 0 <= i < |sent| ==> sent[i].peer == peer
  {
  }

  lemma GuestActsHonestly(w: World, setup: Setup, e: V.Event)
    requires Sound(w) && !e.Arrived?
    ensures OkOnlyIfGranted(setup.host, V.Step(w.guest, setup.guest, e))
  {
    if w.guest.session.Some? {
      var s := w.guest.session.value;
      match e {
        case Captured(pcm) => AudioArrives(s.id, Speaker, s.number, s.speakerFormat.channels, pcm);
        case Interrupted => T.ControlArrives(Bye(s.id));
        case _ =>
      }
    }
  }

  // ---------------------------------------------------------------- agreement

  lemma SpokenGrows(w: World, v: World, cfg: H.HostConfig, bytes: Bytes)
    requires Hosts(w, cfg, bytes) && w.spoken <= v.spoken
    ensures Hosts(v, cfg, bytes)
  {
  }

  lemma HostAnswers(w: World, cfg: H.HostConfig, h: H.Host, now: int, d: Result<Incoming, DecodeError>)
    requires H.Sound(h)
    ensures var sent := H.HandleIncoming(h, cfg, now, d).sent;
            forall i :: 0 <= i < |sent| ==> Hosts(w, cfg, sent[i])
  {
  }

  lemma HostSpeaks(w: World, setup: Setup, e: H.Event)
    requires Sound(w)
    ensures var v := HostDoes(w, setup, e);
            var sent := H.Step(w.host, setup.host, e).sent;
            forall i :: 0 <= i < |sent| ==> Hosts(v, setup.host, sent[i])
  {
    var v := HostDoes(w, setup, e);
    if e.Arrived? {
      HostAnswers(v, setup.host, w.host.(lastRx := e.now), e.now, Decode(T.Received(e.bytes)));
    } else if e.MicReady? && w.host.established {
      var s := Spoken(w.host.number, e.pcm);
      assert s in v.spoken;
      assert Hosts(v, setup.host, EncodeAudio(setup.host.session, Mic, s.number, setup.host.mic.channels, s.pcm));
    }
  }

  /** Only an Ok to its session makes the host consider itself connected. */
  lemma EstablishedByOk(h: H.Host, cfg: H.HostConfig, e: H.Event)
    requires H.Sound(h)
    ensures !h.established && H.Step(h, cfg, e).host.established ==> e.Arrived? && IsOk(cfg, e.bytes)
  {
  }

  lemma HostKeepsHonest(w: World, setup: Setup, e: H.Event)
    requires Sound(w) && Honest(w, setup.host)
    requires e.Arrived? ==> Letter(GUEST, HOST, e.bytes) in w.net
    ensures Honest(HostDoes(w, setup, e), setup.host)
  {
    var v := HostDoes(w, setup, e);
    EstablishedByOk(w.host, setup.host, e);
    HostSpeaks(w, setup, e);
    forall l | l in v.net && l.from == HOST ensures Hosts(v, setup.host, l.bytes) {
      if l in w.net {
        SpokenGrows(w, v, setup.host, l.bytes);
      }
    }
  }

  lemma GuestKeepsHonest(w: World, setup: Setup, e: V.Event)
    requires Sound(w) && Honest(w, setup.host)
    requires OkOnlyIfGranted(setup.host, V.Step(w.guest, setup.guest, e))
    ensures Honest(GuestDoes(w, setup, e), setup.host)
  {
    var v := GuestDoes(w, setup, e);
    forall l | l in v.net && l.from == HOST ensures Hosts(v, setup.host, l.bytes) {
      SpokenGrows(w, v, setup.host, l.bytes);
    }
  }

  lemma NextHonest(w: World, setup: Setup, m: Move)
    requires Sound(w) && Honest(w, setup.host) && Enabled(w, m)
    ensures Honest(Next(w, setup, m), setup.host)
  {
    match m
    case HostHears(l, now) => HostKeepsHonest(w, setup, H.Arrived(now, l.bytes));
    case HostActs(e) => HostKeepsHonest(w, setup, e);
    case GuestHears(l, now, env) =>
      var d := Decode(T.Received(l.bytes));
      if l.from == HOST {
        HostIsUnderstood(w, setup.host, l.bytes);
        ReplyToHost(w, setup, now, d, env);
      } else {
        RepliesGoToTheSender(w.guest, setup.guest, now, l.from, d, env);
      }
      GuestKeepsHonest(w, setup, V.Arrived(now, l.from, l.bytes, env));
    case GuestActs(e) =>
      GuestActsHonestly(w, setup, e);
      GuestKeepsHonest(w, setup, e);
    case Intrudes(l) =>
      var v := Next(w, setup, m);
      forall k | k in v.net && k.from == HOST ensures Hosts(v, setup.host, k.bytes) {
        SpokenGrows(w, v, setup.host, k.bytes);
      }
  }

  /** The host has the guest's token, whole, and asks for valid formats. */
  predicate Entitled(setup: Setup) {
    && Cut(setup.host.token) == setup.guest.token
    && ValidFormat(setup.host.mic) && ValidFormat(setup.host.speaker)
  }

  /** Every session that the host ever had is the one it asks for, and was rightly granted. */
  predicate GrantsSound(w: World, setup: Setup) {
    && Granted(w.guest) <= w.grants
    && forall g :: g in w.grants && g.peer == HOST ==> g == HostsGrant(setup.host) && Entitled(setup)
  }

  lemma NewGrant(w: World, setup: Setup, e: V.Event)
    requires Sound(w) && GrantsSound(w, setup)
    requires e.Arrived? && e.peer == HOST ==> HostMessage(w, setup.host, VT.Message(e))
    ensures forall g :: g in Granted(V.Step(w.guest, setup.guest, e).vm) ==>
              g in w.grants || g.peer != HOST || (g == HostsGrant(setup.host) && Entitled(setup))
  {
    VT.StepGrants(w.guest, setup.guest, e);
  }

  lemma GuestKeepsGrants(w: World, setup: Setup, e: V.Event)
    requires Sound(w) && GrantsSound(w, setup)
    requires e.Arrived? && e.peer == HOST ==> HostMessage(w, setup.host, VT.Message(e))
    ensures GrantsSound(GuestDoes(w, setup, e), setup)
  {
    NewGrant(w, setup, e);
    var v := GuestDoes(w, setup, e);
    forall g | g in v.grants && g.peer == HOST ensures g == HostsGrant(setup.host) && Entitled(setup) {
      if g !in w.grants {
        assert g in Granted(v.guest);
      }
    }
  }

  /** What holds in every state that the system can reach. */
  predicate Lawful(w: World, setup: Setup) {
    && Sound(w)
    && Honest(w, setup.host)
    && GrantsSound(w, setup)
    && VT.Equipped(w.guest, setup.guest)
  }

  lemma NextLawful(w: World, setup: Setup, m: Move)
    requires Lawful(w, setup) && Enabled(w, m)
    ensures Lawful(Next(w, setup, m), setup)
  {
    NextSound(w, setup, m);
    NextHonest(w, setup, m);
    match m
    case GuestHears(l, now, env) =>
      var e := V.Arrived(now, l.from, l.bytes, env);
      if l.from == HOST {
        HostIsUnderstood(w, setup.host, l.bytes);
      }
      GuestKeepsGrants(w, setup, e);
      VT.StepEquipped(w.guest, setup.guest, e);
    case GuestActs(e) =>
      GuestKeepsGrants(w, setup, e);
      VT.StepEquipped(w.guest, setup.guest, e);
    case _ =>
  }

  lemma {:induction false} AlwaysLawful(w: World, setup: Setup, ms: seq<Move>)
    requires Lawful(w, setup) && Possible(w, setup, ms)
    ensures Lawful(After(w, setup, ms), setup)
    decreases |ms|
  {
    if ms != [] {
      NextLawful(w, setup, ms[0]);
      AlwaysLawful(Next(w, setup, ms[0]), setup, ms[1..]);
    }
  }

  /** A session that the host owns is exactly the one it asks for. */
  lemma HostsSession(w: World, setup: Setup)
    requires Lawful(w, setup) && VT.Owner(w.guest) == Some(HOST)
    ensures VT.Granted(w.guest, HOST, setup.host.session, setup.host.mic, setup.host.speaker)
    ensures setup.guest.mic <==> VT.BufferOf(w.guest).Some?
  {
    var s := w.guest.session.value;
    assert Grant(s.id, s.peer, s.micFormat, s.speakerFormat) in w.grants;
  }

  /** Datagrams never leave the network. */
  lemma {:induction false} NetGrows(w: World, setup: Setup, ms: seq<Move>)
    requires Sound(w)
    ensures w.net <= After(w, setup, ms).net
    decreases |ms|
  {
    if ms != [] {
      NextSound(w, setup, ms[0]);
      NetGrows(Next(w, setup, ms[0]), setup, ms[1..]);
    }
  }

  /**
    Agreement, over every run of the network and of the other hosts: whenever the host
    considers itself connected, the guest has had a session with exactly this host, its
    identifier and both its formats; the formats are valid, and the host holds the token.
   */
  lemma ConnectedMeansGranted(setup: Setup, speaker: Option<J.Buffer>, ms: seq<Move>)
    requires speaker.Some? ==> J.Valid(speaker.value)
    requires Possible(Start(speaker), setup, ms)
    ensures After(Start(speaker), setup, ms).host.established ==>
              HostsGrant(setup.host) in After(Start(speaker), setup, ms).grants && Entitled(setup)
  {
    AlwaysLawful(Start(speaker), setup, ms);
    assert HostsGrant(setup.host).peer == HOST;
  }

  // ---------------------------------------------------------------- integrity

  lemma HostAudioWasSpoken(w: World, cfg: H.HostConfig, l: Letter)
    requires Honest(w, cfg) && l in w.net && l.from == HOST
    ensures var d := Decode(T.Received(l.bytes));
            d.Ok? && d.value.Audio? ==> Spoken(d.value.header.number, DecodeSamples(d.value.payload)) in w.spoken
  {
    HostIsUnderstood(w, cfg, l.bytes);
  }

  /**
    Integrity, over every run: whatever the network and other hosts do, a datagram changes
    the buffer of the host's session only by starting an empty one or by pushing one
    packet exactly as the host numbered and sent it.
   */
  lemma OnlySpokenAudioIsPushed(setup: Setup, speaker: Option<J.Buffer>, ms: seq<Move>, l: Letter, now: int,
                                env: V.Surroundings)
    requires speaker.Some? ==> J.Valid(speaker.value)
    requires Possible(Start(speaker), setup, ms)
    requires Enabled(After(Start(speaker), setup, ms), GuestHears(l, now, env))
    requires VT.Owner(After(Start(speaker), setup, ms).guest) == Some(HOST)
    ensures var w := After(Start(speaker), setup, ms);
            var before, after := VT.BufferOf(w.guest), VT.BufferOf(Next(w, setup, GuestHears(l, now, env)).guest);
            after.Some? && after != before ==>
              || (exists mic :: after.value == V.NewBuffer(setup.guest, mic))
              || (before.Some? && exists s :: s in w.spoken && after.value == J.Push(before.value, s.number, s.pcm))
  {
    var w := After(Start(speaker), setup, ms);
    AlwaysLawful(Start(speaker), setup, ms);
    var e := V.Arrived(now, l.from, l.bytes, env);
    var d := VT.Message(e);
    VT.BufferChangesOnly(w.guest, setup.guest, e);
    var before, after := VT.BufferOf(w.guest), VT.BufferOf(V.Step(w.guest, setup.guest, e).vm);
    if after.Some? && after != before {
      if VT.IsOwnersAudio(w.guest, l.from, d, after.value) {
        HostAudioWasSpoken(w, setup.host, l);
        var s := Spoken(d.value.header.number, DecodeSamples(d.value.payload));
        assert s in w.spoken && after.value == J.Push(before.value, s.number, s.pcm);
      } else {
        assert after.value == V.NewBuffer(setup.guest, d.value.packet.mic);
      }
    }
  }
}
