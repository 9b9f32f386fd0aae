/**
  What happens to the microphone when host and guest shake hands again.

  The host then numbers its packets from 0 again. A guest that has to build a new session
  starts with an empty buffer and takes the first packet it hears, be it a stale one of the
  earlier connection. A guest that still has the same session keeps its buffer, with the
  number it expects next.
 */
module Recovery {
  import opened Numbers
  import opened Wrappers
  import opened Utf8
  import opened Wire
  import opened Bridge
  import T = WireTheorems
  import V = VmSession
  import VT = VmTheorems
  import H = HostSession
  import J = JitterModel
  import R = JitterRuns

  // ---------------------------------------------------------------- numbers that start again

  /** The expected numbers that make a buffer take packet 0 for an old one. */
  predicate Behind(expected: Option<U32>) {
    expected.Some? && 1 <= expected.value <= TWO_31
  }

  /** A stream that starts again at 0 is picked up at once unless the buffer expects a number in the lower half of the space. */
  lemma ZeroIsLateIff(expected: Option<U32>)
    ensures J.Decide(expected, 0).Late? <==> Behind(expected)
  {
    if expected.Some? {
      var e := expected.value;
      if e > TWO_31 {
        assert Wrap32(0 - e) == TWO_32 - e;
      } else if e > 0 {
        SignedDifference(e, 0);
        assert Wrap32(e) == e && Wrap32(0) == 0;
      }
    }
  }

  /** What a buffer makes of any number while it expects one in the lower half of the space. */
  lemma LateIff(e: U32, n: U32)
    requires 1 <= e <= TWO_31
    ensures J.Decide(Some(e), n).Late? <==> n < e || n - e >= TWO_31
  {
    assert Wrap32(e) == e && Wrap32(n) == n;
    if n - e < TWO_31 {
      SignedDifference(e, n);
    } else {
      assert Wrap32(n - e) == n - e;
    }
  }

  lemma BehindNext(n: U32)
    ensures Behind(Some(Wrap32(n + 1))) <==> n < TWO_31
  {
  }

  /** The same buffer with `k` more late packets on its count. */
  function Late(b: J.Buffer, k: nat): J.Buffer {
    b.(stats := b.stats.(late := b.stats.late + k))
  }

  /** Packets numbered below `e`, in any order and any number of times, and pulls in between. */
  predicate OnlyEarlier(es: seq<R.Event>, e: U32) {
    forall i :: 0 <= i < |es| ==> es[i].Drawn? || (es[i].Pushed? && es[i].number < e)
  }

  function Draws(es: seq<R.Event>): seq<R.Event> {
    if es == [] then [] else (if es[0].Drawn? then [es[0]] else []) + Draws(es[1..])
  }

  function PushCount(es: seq<R.Event>): nat {
    if es == [] then 0 else (if es[0].Pushed? then 1 else 0) + PushCount(es[1..])
  }

  lemma {:induction false} DrawsAreDraws(es: seq<R.Event>)
    ensures forall i :: 0 <= i < |Draws(es)| ==> Draws(es)[i].Drawn?
  {
    if es != [] {
      DrawsAreDraws(es[1..]);
    }
  }

  lemma FlowIgnoresLate(b: J.Buffer, k: nat, n: nat)
    requires J.Playing(b) && J.Reaches(b, n)
    ensures J.Flow(Late(b, k), n).after == Late(J.Flow(b, n).after, k)
  {
    assert J.Popped(Late(b, k), n) == J.Popped(b, n);
  }

  lemma RenderIgnoresLate(b: J.Buffer, k: nat, n: nat)
    requires J.Playing(b)
    ensures J.Render(Late(b, k), n).after == Late(J.Render(b, n).after, k)
    ensures J.Render(b, n).after.expected == b.expected
  {
    if J.Playable(|b.queue|, b.frac, b.rate, n) == n {
      FlowIgnoresLate(b, k, n);
    }
  }

  /** A pull neither reads nor changes the late count, and keeps the expected number. */
  lemma PullIgnoresLate(b: J.Buffer, k: nat, n: nat)
    requires J.Valid(b)
    ensures J.Valid(Late(b, k)) && J.Pull(Late(b, k), n).after == Late(J.Pull(b, n).after, k)
    ensures J.Pull(b, n).after.expected == b.expected
  {
    if !J.StillWarming(b) {
      J.NextRateValid(J.Primed(b));
      RenderIgnoresLate(R.Started(b), k, n);
      assert R.Started(Late(b, k)) == Late(R.Started(b), k);
    }
  }

  lemma {:induction false} DrawsIgnoreLate(b: J.Buffer, k: nat, ds: seq<R.Event>)
    requires J.Valid(b) && forall i :: 0 <= i < |ds| ==> ds[i].Drawn?
    ensures J.Valid(Late(b, k)) && R.Run(Late(b, k), ds) == Late(R.Run(b, ds), k)
    ensures R.Run(b, ds).expected == b.expected
    decreases |ds|
  {
    if ds != [] {
      R.ApplyValid(b, ds[0]);
      PullIgnoresLate(b, k, ds[0].n);
      DrawsIgnoreLate(R.Apply(b, ds[0]), k, ds[1..]);
    }
  }

  lemma OneMoreLate(b: J.Buffer, number: U32, pcm: seq<Sample>)
    requires J.Valid(b) && Behind(b.expected) && number < b.expected.value
    ensures J.Valid(Late(b, 1)) && J.Push(b, number, pcm) == Late(b, 1)
  {
    LateIff(b.expected.value, number);
  }

  /** The rest of a run is as if only the reader had been there, but for the late count. */
  predicate LateButFor(b: J.Buffer, es: seq<R.Event>)
    requires J.Valid(b)
  {
    R.Run(b, es) == Late(R.Run(b, Draws(es)), PushCount(es))
  }

  lemma DrawFirst(b: J.Buffer, es: seq<R.Event>)
    requires J.Valid(b) && es != [] && es[0].Drawn?
    requires J.Valid(R.Apply(b, es[0])) && LateButFor(R.Apply(b, es[0]), es[1..])
    ensures LateButFor(b, es)
  {
    assert Draws(es)[0] == es[0] && Draws(es)[1..] == Draws(es[1..]);
  }

  lemma PushFirst(b: J.Buffer, es: seq<R.Event>)
    requires J.Valid(b) && es != [] && es[0].Pushed?
    requires J.Valid(Late(b, 1)) && R.Apply(b, es[0]) == Late(b, 1) && LateButFor(Late(b, 1), es[1..])
    ensures LateButFor(b, es)
  {
    DrawsAreDraws(es[1..]);
    DrawsIgnoreLate(b, 1, Draws(es[1..]));
    assert Draws(es) == Draws(es[1..]);
  }

  /**
    Until the stream reaches the expected number, whatever arrives of it is counted late and
    changes nothing else.
   */
  lemma {:induction false} AllLateUntilExpected(b: J.Buffer, es: seq<R.Event>)
    requires J.Valid(b) && Behind(b.expected) && OnlyEarlier(es, b.expected.value)
    ensures LateButFor(b, es)
    decreases |es|
  {
    if es != [] {
      if es[0].Drawn? {
        R.ApplyValid(b, es[0]);
        PullIgnoresLate(b, 0, es[0].n);
        AllLateUntilExpected(R.Apply(b, es[0]), es[1..]);
        DrawFirst(b, es);
      } else {
        OneMoreLate(b, es[0].number, es[0].samples);
        AllLateUntilExpected(Late(b, 1), es[1..]);
        PushFirst(b, es);
      }
    }
  }

  /** After any such run the next packet is still late exactly when its number is, and the expected one is taken up. */
  lemma ResumesAtExpected(b: J.Buffer, es: seq<R.Event>, n: U32)
    requires J.Valid(b) && Behind(b.expected) && OnlyEarlier(es, b.expected.value)
    ensures var e := b.expected.value;
            && (J.Decide(R.Run(b, es).expected, n).Late? <==> n < e || n - e >= TWO_31)
            && (n == e ==> J.Decide(R.Run(b, es).expected, n) == J.Accept(0))
  {
    AllLateUntilExpected(b, es);
    DrawsAreDraws(es);
    DrawsIgnoreLate(b, 0, Draws(es));
    LateIff(b.expected.value, n);
  }

  // ---------------------------------------------------------------- the handshake

  function HelloLetter(setup: Setup): Letter {
    Letter(HOST, GUEST, H.HelloBytes(setup.host))
  }

  function AckLetter(setup: Setup, summary: Text): Letter {
    Letter(GUEST, HOST, Encode(HelloAck(StatusOk, setup.host.session, setup.host.mic, setup.host.speaker, summary)))
  }

  predicate SameSession(vm: V.Vm, cfg: H.HostConfig) {
    VT.Granted(vm, HOST, cfg.session, cfg.mic, cfg.speaker)
  }

  /** The guest will say Ok to this host, and the host can read it. */
  predicate Welcome(w: World, setup: Setup, now: int, env: V.Surroundings) {
    && setup.host.token == setup.guest.token && |setup.host.token| <= MAX_FIELD
    && ValidFormat(setup.host.mic) && ValidFormat(setup.host.speaker)
    && VT.Available(w.guest, setup.guest, now, HOST)
    && (SameSession(w.guest, setup.host) || V.Starts(setup.guest, env))
    && IsUtf8(Cut(Summary(w, setup, env)))
  }

  /** The device summary that the Ok will carry. */
  function Summary(w: World, setup: Setup, env: V.Surroundings): Text {
    if SameSession(w.guest, setup.host) then w.guest.session.value.summary else env.summary
  }

  function HelloMove(): Move {
    HostActs(H.HelloTick)
  }

  function GuestHearsHello(setup: Setup, now: int, env: V.Surroundings): Move {
    GuestHears(HelloLetter(setup), now, env)
  }

  /** The guest's state after the host's Hello. */
  function Rejoined(w: World, setup: Setup, now: int, env: V.Surroundings): V.Vm {
    if SameSession(w.guest, setup.host) then V.Touch(w.guest, now)
    else V.StartSession(V.ShutDown(w.guest), setup.guest, now, HOST, setup.host.session, setup.host.mic,
                        setup.host.speaker, env)
  }

  lemma GuestAccepts(w: World, setup: Setup, now: int, env: V.Surroundings)
    requires Sound(w) && Welcome(w, setup, now, env)
    ensures V.Step(w.guest, setup.guest, V.Arrived(now, HOST, H.HelloBytes(setup.host), env))
         == V.Outcome(Rejoined(w, setup, now, env), [V.Datagram(HOST, AckLetter(setup, Summary(w, setup, env)).bytes)])
  {
    HelloArrives(setup.host);
    T.TokenMatchesIff(setup.guest.token, setup.host.token);
  }

  lemma HostAccepts(h: H.Host, setup: Setup, now: int, summary: Text)
    requires H.Sound(h) && IsUtf8(Cut(summary))
    ensures var after := H.Step(h, setup.host, H.Arrived(now, AckLetter(setup, summary).bytes)).host;
            after.established && (!h.established ==> after.number == 0)
  {
    var p := HelloAck(StatusOk, setup.host.session, setup.host.mic, setup.host.speaker, summary);
    T.ControlFits(p);
    T.HelloAckDecodes(StatusOk, setup.host.session, setup.host.mic, setup.host.speaker, summary);
  }

  lemma HelloTicks(w: World, setup: Setup)
    requires Sound(w) && !w.host.established
    ensures Enabled(w, HelloMove())
    ensures var v := Next(w, setup, HelloMove());
            v.host == w.host && v.guest == w.guest && HelloLetter(setup) in v.net
  {
    var o := H.Step(w.host, setup.host, H.HelloTick);
    assert o.sent[0] == H.HelloBytes(setup.host);
  }

  lemma GuestRejoins(w: World, setup: Setup, now: int, env: V.Surroundings)
    requires Sound(w) && Welcome(w, setup, now, env)
    ensures var v := Next(w, setup, GuestHearsHello(setup, now, env));
            v.host == w.host && v.guest == Rejoined(w, setup, now, env)
            && AckLetter(setup, Summary(w, setup, env)) in v.net
  {
    GuestAccepts(w, setup, now, env);
    var o := V.Step(w.guest, setup.guest, V.Arrived(now, HOST, H.HelloBytes(setup.host), env));
    assert o.sent[0] == V.Datagram(HOST, AckLetter(setup, Summary(w, setup, env)).bytes);
  }

  /**
    A Hello, whenever the guest hears it while it may take the host in, leaves the guest with
    its old session, buffer and all, or with a new one, and is answered with an Ok.
   */
  lemma HelloRejoins(w: World, setup: Setup, ms: seq<Move>, now: int, env: V.Surroundings)
    requires Sound(w) && HelloLetter(setup) in w.net
    requires Welcome(After(w, setup, ms), setup, now, env)
    ensures var x := After(w, setup, ms);
            && Enabled(x, GuestHearsHello(setup, now, env))
            && Next(x, setup, GuestHearsHello(setup, now, env)).guest == Rejoined(x, setup, now, env)
            && AckLetter(setup, Summary(x, setup, env)) in Next(x, setup, GuestHearsHello(setup, now, env)).net
  {
    NetGrows(w, setup, ms);
    GuestRejoins(After(w, setup, ms), setup, now, env);
  }

  /** That Ok, whenever the host hears it, connects the host and starts its numbering at 0. */
  lemma OkConnects(w: World, setup: Setup, summary: Text, ms: seq<Move>, now: int)
    requires Sound(w) && AckLetter(setup, summary) in w.net && IsUtf8(Cut(summary))
    ensures var x, ack := After(w, setup, ms), HostHears(AckLetter(setup, summary), now);
            && Enabled(x, ack)
            && Next(x, setup, ack).host.established
            && (!x.host.established ==> Next(x, setup, ack).host.number == 0)
  {
    NetGrows(w, setup, ms);
    HostAccepts(After(w, setup, ms).host, setup, now, summary);
  }

  // ---------------------------------------------------------------- one microphone packet

  function MicLetter(setup: Setup, number: U32, pcm: seq<Sample>): Letter {
    Letter(HOST, GUEST, EncodeAudio(setup.host.session, Mic, number, setup.host.mic.channels, pcm))
  }

  /** Audio that a packet can carry through the receive buffer. */
  predicate Carried(pcm: seq<Sample>) {
    pcm != [] && 17 + 2 * |pcm| <= MAX_PACKET
  }

  function Deliver(w: World, setup: Setup, l: Letter, now: int, env: V.Surroundings): World
    requires Sound(w)
  {
    Next(w, setup, GuestHears(l, now, env))
  }

  /** The packet is only counted late, or it is accepted. */
  predicate Verdict(before: J.Buffer, after: Option<J.Buffer>, late: bool) {
    && (late <==> after == Some(Late(before, 1)))
    && (!late <==> after.Some? && after.value.stats.accepted == before.stats.accepted + 1)
  }

  lemma PushVerdict(b: J.Buffer, number: U32, pcm: seq<Sample>)
    requires J.Valid(b)
    ensures Verdict(b, Some(J.Push(b, number, pcm)), J.Decide(b.expected, number).Late?)
    ensures !J.Decide(b.expected, number).Late? ==> J.Push(b, number, pcm).expected == Some(Wrap32(number + 1))
  {
  }

  lemma AudioGetsThrough(session: U32, direction: Direction, number: U32, channels: U8, pcm: seq<Sample>)
    ensures var d := Decode(T.Received(EncodeAudio(session, direction, number, channels, pcm)));
            && (Carried(pcm) <==> d.Ok?)
            && (d.Ok? ==> d.value.Audio? && d.value.header.session == session && d.value.header.direction == direction
                          && d.value.header.number == number && DecodeSamples(d.value.payload) == pcm)
  {
    AudioArrives(session, direction, number, channels, pcm);
    if pcm == [] {
      EmptyAudioIsRefused(session, direction, number, channels);
    } else {
      T.ReceivedIff(session, direction, number, channels, pcm);
    }
  }

  lemma AudioIsPushed(vm: V.Vm, cfg: V.VmConfig, now: int, d: Result<Incoming, DecodeError>, env: V.Surroundings)
    requires V.Sound(vm) && d.Ok? && d.value.Audio? && d.value.header.direction == Mic
    ensures VT.Owner(V.HandleIncoming(vm, cfg, now, HOST, d, env).vm) == VT.Owner(vm)
    ensures VT.BufferOf(V.HandleIncoming(vm, cfg, now, HOST, d, env).vm)
         == if V.FromOwner(vm, HOST, d.value.header.session) && VT.BufferOf(vm).Some?
            then Some(J.Push(VT.BufferOf(vm).value, d.value.header.number, DecodeSamples(d.value.payload)))
            else VT.BufferOf(vm)
  {
  }

  /** A microphone packet is pushed when the host owns the session, and otherwise changes no buffer. */
  lemma PacketIsPushed(w: World, setup: Setup, number: U32, pcm: seq<Sample>, now: int, env: V.Surroundings)
    requires Lawful(w, setup)
    ensures var v := Deliver(w, setup, MicLetter(setup, number, pcm), now, env);
            var heard := VT.Owner(w.guest) == Some(HOST) && setup.guest.mic && Carried(pcm);
            && VT.Owner(v.guest) == VT.Owner(w.guest)
            && (heard ==> VT.BufferOf(w.guest).Some?)
            && VT.BufferOf(v.guest)
               == if heard then Some(J.Push(VT.BufferOf(w.guest).value, number, pcm)) else VT.BufferOf(w.guest)
  {
    AudioGetsThrough(setup.host.session, Mic, number, setup.host.mic.channels, pcm);
    if VT.Owner(w.guest) == Some(HOST) {
      HostsSession(w, setup);
    }
    if Carried(pcm) {
      AudioIsPushed(w.guest, setup.guest, now, Decode(T.Received(MicLetter(setup, number, pcm).bytes)), env);
    }
  }

  /**
    A microphone packet, delivered in any state that the system can reach: it is accepted
    exactly when the host owns the session, the microphone is enabled, the audio fits, and
    the buffer does not expect a later number.
   */
  lemma PacketVerdict(w: World, setup: Setup, number: U32, pcm: seq<Sample>, now: int, env: V.Surroundings)
    requires Lawful(w, setup)
    ensures var after := VT.BufferOf(Deliver(w, setup, MicLetter(setup, number, pcm), now, env).guest);
            if VT.Owner(w.guest) == Some(HOST) && setup.guest.mic && Carried(pcm)
            then VT.BufferOf(w.guest).Some?
                 && Verdict(VT.BufferOf(w.guest).value, after, J.Decide(VT.Expects(w.guest, HOST), number).Late?)
            else after == VT.BufferOf(w.guest)
    ensures J.Decide(VT.Expects(w.guest, HOST), 0).Late? <==> Behind(VT.Expects(w.guest, HOST))
  {
    PacketIsPushed(w, setup, number, pcm, now, env);
    ZeroIsLateIff(VT.Expects(w.guest, HOST));
    if VT.Owner(w.guest) == Some(HOST) && setup.guest.mic && Carried(pcm) {
      PushVerdict(VT.BufferOf(w.guest).value, number, pcm);
    }
  }

  // ---------------------------------------------------------------- until the first packet

  /** The move delivers audio of the host's to the guest. */
  predicate BringsAudio(m: Move) {
    m.GuestHears? && m.letter.from == HOST && VT.IsAudio(Decode(T.Received(m.letter.bytes)))
  }

  predicate NoAudio(ms: seq<Move>) {
    forall i :: 0 <= i < |ms| ==> !BringsAudio(ms[i])
  }

  /** Throughout the run the guest keeps its session, and its render thread does not fail. */
  predicate Keeps(w: World, setup: Setup, ms: seq<Move>)
    requires Sound(w)
    decreases |ms|
  {
    ms == [] || (!Forgets(w, setup, ms[0]) && (NextSound(w, setup, ms[0]); Keeps(Next(w, setup, ms[0]), setup, ms[1..])))
  }

  predicate Forgets(w: World, setup: Setup, m: Move)
    requires Sound(w)
  {
    match m
    case GuestHears(l, now, env) => VT.Forgets(w.guest, setup.guest, V.Arrived(now, l.from, l.bytes, env))
    case GuestActs(e) => VT.Forgets(w.guest, setup.guest, e)
    case _ => false
  }

  lemma MoveExpects(w: World, setup: Setup, m: Move)
    requires Sound(w) && !BringsAudio(m) && Enabled(w, m)
    ensures VT.Expects(Next(w, setup, m).guest, HOST)
         == if Forgets(w, setup, m) then None else VT.Expects(w.guest, HOST)
  {
    match m
    case GuestHears(l, now, env) => VT.StepExpects(w.guest, setup.guest, V.Arrived(now, l.from, l.bytes, env), HOST);
    case GuestActs(e) => VT.StepExpects(w.guest, setup.guest, e, HOST);
    case _ =>
  }

  /** Without audio from the host, the number its session expects stays until it is forgotten, whatever else happens. */
  lemma {:induction false} QuietRun(w: World, setup: Setup, ms: seq<Move>)
    requires Sound(w) && Possible(w, setup, ms) && NoAudio(ms)
    ensures VT.Expects(After(w, setup, ms).guest, HOST)
         == if Keeps(w, setup, ms) then VT.Expects(w.guest, HOST) else None
    decreases |ms|
  {
    if ms != [] {
      NextSound(w, setup, ms[0]);
      MoveExpects(w, setup, ms[0]);
      QuietRun(Next(w, setup, ms[0]), setup, ms[1..]);
      StaysForgotten(Next(w, setup, ms[0]), setup, ms[1..]);
    }
  }

  /** Nothing but audio makes a buffer expect a number. */
  lemma {:induction false} StaysForgotten(w: World, setup: Setup, ms: seq<Move>)
    requires Sound(w) && Possible(w, setup, ms) && NoAudio(ms)
    ensures VT.Expects(w.guest, HOST) == None ==> VT.Expects(After(w, setup, ms).guest, HOST) == None
    decreases |ms|
  {
    if ms != [] {
      NextSound(w, setup, ms[0]);
      MoveExpects(w, setup, ms[0]);
      StaysForgotten(Next(w, setup, ms[0]), setup, ms[1..]);
    }
  }

  lemma RejoinedExpects(w: World, setup: Setup, now: int, env: V.Surroundings)
    requires Sound(w) && Welcome(w, setup, now, env)
    ensures VT.Expects(Rejoined(w, setup, now, env), HOST)
         == if SameSession(w.guest, setup.host) then VT.Expects(w.guest, HOST) else None
  {
  }

  lemma RunExpects(w: World, setup: Setup, now: int, env: V.Surroundings, ms: seq<Move>)
    requires Lawful(w, setup) && HelloLetter(setup) in w.net && Welcome(w, setup, now, env)
    requires Lawful(Next(w, setup, GuestHearsHello(setup, now, env)), setup)
    requires Possible(Next(w, setup, GuestHearsHello(setup, now, env)), setup, ms) && NoAudio(ms)
    ensures var v := Next(w, setup, GuestHearsHello(setup, now, env));
            VT.Expects(After(v, setup, ms).guest, HOST)
            == if SameSession(w.guest, setup.host) && Keeps(v, setup, ms) then VT.Expects(w.guest, HOST) else None
  {
    GuestRejoins(w, setup, now, env);
    RejoinedExpects(w, setup, now, env);
    QuietRun(Next(w, setup, GuestHearsHello(setup, now, env)), setup, ms);
  }

  /**
    Recovery, over every run of host, guest, network and other hosts: the first microphone
    packet that the guest hears after the host's Hello is accepted, except exactly when the
    guest kept its session, and its numbering, and expects a later number; then it is only
    counted late. Number 0 is late for a buffer that expects a number from 1 to 2^31.
   */
  lemma ResumesAtOnceIff(setup: Setup, speaker: Option<J.Buffer>, before: seq<Move>, now: int, env: V.Surroundings,
                         ms: seq<Move>, number: U32, pcm: seq<Sample>, later: int, env': V.Surroundings)
    requires speaker.Some? ==> J.Valid(speaker.value)
    requires Possible(Start(speaker), setup, before)
    requires var w := After(Start(speaker), setup, before);
             && HelloLetter(setup) in w.net && Welcome(w, setup, now, env) && setup.guest.mic
             && Sound(Next(w, setup, GuestHearsHello(setup, now, env)))
             && Possible(Next(w, setup, GuestHearsHello(setup, now, env)), setup, ms) && NoAudio(ms)
             && VT.Owner(After(Next(w, setup, GuestHearsHello(setup, now, env)), setup, ms).guest) == Some(HOST)
    requires Carried(pcm)
    ensures var w := After(Start(speaker), setup, before);
            var v := Next(w, setup, GuestHearsHello(setup, now, env));
            var u := After(v, setup, ms);
            var kept := SameSession(w.guest, setup.host) && Keeps(v, setup, ms);
            && VT.BufferOf(u.guest).Some?
            && Verdict(VT.BufferOf(u.guest).value,
                       VT.BufferOf(Deliver(u, setup, MicLetter(setup, number, pcm), later, env').guest),
                       kept && J.Decide(VT.Expects(w.guest, HOST), number).Late?)
            && (J.Decide(VT.Expects(w.guest, HOST), 0).Late? <==> Behind(VT.Expects(w.guest, HOST)))
  {
    AlwaysLawful(Start(speaker), setup, before);
    var w := After(Start(speaker), setup, before);
    NextLawful(w, setup, GuestHearsHello(setup, now, env));
    var v := Next(w, setup, GuestHearsHello(setup, now, env));
    AlwaysLawful(v, setup, ms);
    RunExpects(w, setup, now, env, ms);
    PacketVerdict(After(v, setup, ms), setup, number, pcm, later, env');
    ZeroIsLateIff(VT.Expects(w.guest, HOST));
  }

  // ---------------------------------------------------------------- stale packets

  lemma StaleIsTaken(w: World, setup: Setup, stale: U32, past: seq<Sample>, now: int, env: V.Surroundings)
    requires Lawful(w, setup) && VT.Owner(w.guest) == Some(HOST) && VT.Expects(w.guest, HOST) == None && setup.guest.mic
    requires MicLetter(setup, stale, past) in w.net && Carried(past)
    ensures var v := Deliver(w, setup, MicLetter(setup, stale, past), now, env);
            Lawful(v, setup) && VT.Expects(v.guest, HOST) == Some(Wrap32(stale + 1))
  {
    NextLawful(w, setup, GuestHears(MicLetter(setup, stale, past), now, env));
    PacketIsPushed(w, setup, stale, past, now, env);
    PushVerdict(VT.BufferOf(w.guest).value, stale, past);
  }

  /** Packet 0 after a quiet run in which the guest forgets nothing. */
  lemma QuietVerdict(v: World, setup: Setup, ms: seq<Move>, pcm: seq<Sample>, now: int, env: V.Surroundings)
    requires Lawful(v, setup) && Possible(v, setup, ms) && NoAudio(ms) && Keeps(v, setup, ms)
    requires VT.Owner(After(v, setup, ms).guest) == Some(HOST) && setup.guest.mic && Carried(pcm)
    ensures var u := After(v, setup, ms);
            && VT.BufferOf(u.guest).Some?
            && Verdict(VT.BufferOf(u.guest).value, VT.BufferOf(Deliver(u, setup, MicLetter(setup, 0, pcm), now, env).guest),
                       Behind(VT.Expects(v.guest, HOST)))
  {
    QuietRun(v, setup, ms);
    AlwaysLawful(v, setup, ms);
    PacketVerdict(After(v, setup, ms), setup, 0, pcm, now, env);
  }

  /**
    A packet of an earlier connection may still arrive, and a buffer that expects nothing yet
    takes it. Packet 0 of the new connection is then late exactly when the stale number is
    below 2^31, although the session is a new one.
   */
  lemma StalePacketDelays(w: World, setup: Setup, stale: U32, past: seq<Sample>, now: int, env: V.Surroundings,
                          v: World, ms: seq<Move>, pcm: seq<Sample>, later: int, env': V.Surroundings)
    requires Lawful(w, setup) && VT.Owner(w.guest) == Some(HOST) && VT.Expects(w.guest, HOST) == None && setup.guest.mic
    requires MicLetter(setup, stale, past) in w.net && Carried(past) && Carried(pcm)
    requires v == Deliver(w, setup, MicLetter(setup, stale, past), now, env)
    requires Sound(v) && Possible(v, setup, ms) && NoAudio(ms) && Keeps(v, setup, ms)
    requires VT.Owner(After(v, setup, ms).guest) == Some(HOST)
    ensures var u := After(v, setup, ms);
            && VT.BufferOf(u.guest).Some?
            && Verdict(VT.BufferOf(u.guest).value, VT.BufferOf(Deliver(u, setup, MicLetter(setup, 0, pcm), later, env').guest),
                       stale < TWO_31)
  {
    StaleIsTaken(w, setup, stale, past, now, env);
    QuietVerdict(v, setup, ms, pcm, later, env');
    BehindNext(stale);
  }

  // ---------------------------------------------------------------- a stale packet, step by step

  lemma FirstMove(w: World, setup: Setup, m: Move, ms: seq<Move>)
    requires Sound(w)
    ensures Sound(Next(w, setup, m))
    ensures Possible(w, setup, [m] + ms) <==> Enabled(w, m) && Possible(Next(w, setup, m), setup, ms)
    ensures After(w, setup, [m] + ms) == After(Next(w, setup, m), setup, ms)
  {
    NextSound(w, setup, m);
    assert ([m] + ms)[1..] == ms;
  }

  lemma {:induction false} JoinedRun(w: World, setup: Setup, a: seq<Move>, b: seq<Move>, c: seq<Move>)
    requires Sound(w) && Possible(w, setup, a) && Possible(After(w, setup, a), setup, b) && c == a + b
    ensures Possible(w, setup, c) && After(w, setup, c) == After(After(w, setup, a), setup, b)
    decreases |a|
  {
    if a == [] {
      assert c == b;
    } else {
      NextSound(w, setup, a[0]);
      assert c[0] == a[0] && c[1..] == a[1..] + b;
      JoinedRun(Next(w, setup, a[0]), setup, a[1..], b, c[1..]);
    }
  }

  lemma RunsJoin(w: World, setup: Setup, a: seq<Move>, b: seq<Move>)
    requires Sound(w) && Possible(w, setup, a) && Possible(After(w, setup, a), setup, b)
    ensures Possible(w, setup, a + b)
    ensures After(w, setup, a + b) == After(After(w, setup, a), setup, b)
  {
    JoinedRun(w, setup, a, b, a + b);
  }

  lemma OneMove(w: World, setup: Setup, m: Move)
    requires Sound(w) && Enabled(w, m)
    ensures Possible(w, setup, [m]) && Sound(Next(w, setup, m))
    ensures After(w, setup, [m]) == Next(w, setup, m)
  {
    FirstMove(w, setup, m, []);
    assert [m] + [] == [m];
  }

  lemma OneMoreMove(w: World, setup: Setup, ms: seq<Move>, m: Move)
    requires Sound(w) && Possible(w, setup, ms) && Enabled(After(w, setup, ms), m)
    ensures Possible(w, setup, ms + [m]) && Sound(Next(After(w, setup, ms), setup, m))
    ensures After(w, setup, ms + [m]) == Next(After(w, setup, ms), setup, m)
  {
    OneMove(After(w, setup, ms), setup, m);
    RunsJoin(w, setup, ms, [m]);
  }

  /** Host and guest have the token and can do what is asked of them. */
  predicate CanMeet(setup: Setup, env: V.Surroundings) {
    && setup.host.token == setup.guest.token && |setup.host.token| <= MAX_FIELD
    && ValidFormat(setup.host.mic) && ValidFormat(setup.host.speaker)
    && V.Starts(setup.guest, env) && setup.guest.mic && IsUtf8(Cut(env.summary))
  }

  function Meeting(setup: Setup, now: int, env: V.Surroundings): seq<Move> {
    [HelloMove()] + [GuestHearsHello(setup, now, env)] + [HostHears(AckLetter(setup, env.summary), now)]
  }

  /** What a meeting leaves behind: a connected host that counts from 0, and a new session of its own. */
  predicate Met(w: World, setup: Setup, now: int, env: V.Surroundings) {
    && w.host.established && w.host.number == 0 && w.host.lastRx == now
    && w.guest.session == Some(V.NewSession(setup.guest, now, HOST, setup.host.session, setup.host.mic, setup.host.speaker, env))
  }

  lemma Meets(w: World, setup: Setup, now: int, env: V.Surroundings)
    requires Sound(w) && !w.host.established && w.guest.session == None && CanMeet(setup, env)
    ensures Possible(w, setup, Meeting(setup, now, env))
    ensures var v := After(w, setup, Meeting(setup, now, env)); Met(v, setup, now, env) && w.net <= v.net
  {
    var a, b, c := HelloMove(), GuestHearsHello(setup, now, env), HostHears(AckLetter(setup, env.summary), now);
    HelloTicks(w, setup);
    OneMove(w, setup, a);
    GuestRejoins(After(w, setup, [a]), setup, now, env);
    OneMoreMove(w, setup, [a], b);
    HostAccepts(After(w, setup, [a] + [b]).host, setup, now, env.summary);
    HostMeets(After(w, setup, [a] + [b]), setup, now, env);
    OneMoreMove(w, setup, [a] + [b], c);
    NetGrows(w, setup, Meeting(setup, now, env));
  }

  lemma HostMeets(w: World, setup: Setup, now: int, env: V.Surroundings)
    requires Sound(w)
    ensures var v := Next(w, setup, HostHears(AckLetter(setup, env.summary), now));
            v.guest == w.guest && v.host.lastRx == now
  {
    HearingKeepsTime(w.host.(lastRx := now), setup.host, now, Decode(T.Received(AckLetter(setup, env.summary).bytes)));
  }

  lemma HearingKeepsTime(h: H.Host, cfg: H.HostConfig, now: int, d: Result<Incoming, DecodeError>)
    requires H.Sound(h)
    ensures H.HandleIncoming(h, cfg, now, d).host.lastRx == h.lastRx
  {
  }

  /** The connected host sends its first packet. */
  lemma Speaks(w: World, setup: Setup, now: int, env: V.Surroundings, pcm: seq<Sample>)
    requires Sound(w) && w.host.established && w.host.number == 0
    ensures var v := Next(w, setup, HostActs(H.MicReady(pcm)));
            && MicLetter(setup, 0, pcm) in v.net && w.net <= v.net
            && v.guest == w.guest && v.host == w.host.(number := 1)
  {
    var sent := H.Step(w.host, setup.host, H.MicReady(pcm)).sent;
    assert sent[0] == MicLetter(setup, 0, pcm).bytes;
  }

  function Parting(setup: Setup): seq<Move> {
    [GuestActs(V.Sweep(setup.guest.idleTimeout + 1))] + [HostActs(H.PingTick(setup.host.idleTimeout + 1, 0))]
  }

  /** Host and guest lose sight of each other, and both give up. */
  lemma Parts(w: World, setup: Setup, env: V.Surroundings)
    requires Sound(w) && w.host.established && w.host.lastRx == 0
    requires w.guest.session.Some? && w.guest.session.value.lastRx == 0
    ensures Possible(w, setup, Parting(setup))
    ensures var v := After(w, setup, Parting(setup));
            !v.host.established && v.guest.session == None && w.net <= v.net
  {
    var a, b := GuestActs(V.Sweep(setup.guest.idleTimeout + 1)), HostActs(H.PingTick(setup.host.idleTimeout + 1, 0));
    OneMove(w, setup, a);
    OneMoreMove(w, setup, [a], b);
    NetGrows(w, setup, Parting(setup));
  }

  /** The host speaks once, unheard, and loses the guest; later they meet again. */
  function Reunion(setup: Setup, env: V.Surroundings, past: seq<Sample>, now: int): seq<Move> {
    Meeting(setup, 0, env) + [HostActs(H.MicReady(past))] + Parting(setup) + Meeting(setup, now, env)
  }

  lemma Reunites(setup: Setup, env: V.Surroundings, past: seq<Sample>, now: int)
    requires CanMeet(setup, env)
    ensures Possible(Start(None), setup, Reunion(setup, env, past, now))
    ensures var w := After(Start(None), setup, Reunion(setup, env, past, now));
            Met(w, setup, now, env) && MicLetter(setup, 0, past) in w.net
  {
    var s, speak := Start(None), HostActs(H.MicReady(past));
    var first := Meeting(setup, 0, env);
    Meets(s, setup, 0, env);
    Speaks(After(s, setup, first), setup, 0, env, past);
    OneMoreMove(s, setup, first, speak);
    var spoken := first + [speak];
    Parts(After(s, setup, spoken), setup, env);
    RunsJoin(s, setup, spoken, Parting(setup));
    Meets(After(s, setup, spoken + Parting(setup)), setup, now, env);
    RunsJoin(s, setup, spoken + Parting(setup), Meeting(setup, now, env));
  }

  /** After that, the old packet and the new one: both numbered 0. */
  function StaleRun(setup: Setup, env: V.Surroundings, past: seq<Sample>, pcm: seq<Sample>, now: int): seq<Move> {
    Reunion(setup, env, past, now) + [GuestHears(MicLetter(setup, 0, past), now, env)] + [HostActs(H.MicReady(pcm))]
  }

  lemma StaleArrives(w: World, setup: Setup, now: int, env: V.Surroundings, past: seq<Sample>)
    requires Lawful(w, setup) && Met(w, setup, now, env) && setup.guest.mic
    requires MicLetter(setup, 0, past) in w.net && Carried(past)
    ensures var v := Deliver(w, setup, MicLetter(setup, 0, past), now, env);
            && Lawful(v, setup) && v.host == w.host && w.net <= v.net
            && VT.Owner(v.guest) == Some(HOST) && VT.Expects(v.guest, HOST) == Some(1)
  {
    StaleIsTaken(w, setup, 0, past, now, env);
    PacketIsPushed(w, setup, 0, past, now, env);
  }

  lemma ZeroIsLate(v: World, setup: Setup, now: int, env: V.Surroundings, pcm: seq<Sample>)
    requires Lawful(v, setup) && v.host.established && v.host.number == 0 && setup.guest.mic && Carried(pcm)
    requires VT.Owner(v.guest) == Some(HOST) && VT.Expects(v.guest, HOST) == Some(1)
    ensures var u := Next(v, setup, HostActs(H.MicReady(pcm)));
            && u.host.established && u.host.number == 1 && MicLetter(setup, 0, pcm) in u.net
            && VT.BufferOf(u.guest).Some?
            && Sound(u)
            && Verdict(VT.BufferOf(u.guest).value, VT.BufferOf(Deliver(u, setup, MicLetter(setup, 0, pcm), now, env).guest),
                       true)
  {
    Speaks(v, setup, now, env, pcm);
    NextLawful(v, setup, HostActs(H.MicReady(pcm)));
    PacketVerdict(Next(v, setup, HostActs(H.MicReady(pcm))), setup, 0, pcm, now, env);
  }

  /**
    A run in which the guest has built a new session and yet only counts the first packet of
    the new connection late, because a packet of the old one has come first.
   */
  lemma StaleInput(setup: Setup, env: V.Surroundings, past: seq<Sample>, pcm: seq<Sample>, now: int)
    requires CanMeet(setup, env) && Carried(past) && Carried(pcm)
    ensures Possible(Start(None), setup, StaleRun(setup, env, past, pcm, now))
    ensures var u := After(Start(None), setup, StaleRun(setup, env, past, pcm, now));
            && u.host.established && u.host.number == 1 && MicLetter(setup, 0, pcm) in u.net
            && VT.BufferOf(u.guest).Some?
            && Verdict(VT.BufferOf(u.guest).value, VT.BufferOf(Deliver(u, setup, MicLetter(setup, 0, pcm), now, env).guest),
                       true)
  {
    var s, reunion := Start(None), Reunion(setup, env, past, now);
    var hear, speak := GuestHears(MicLetter(setup, 0, past), now, env), HostActs(H.MicReady(pcm));
    Reunites(setup, env, past, now);
    AlwaysLawful(s, setup, reunion);
    StaleArrives(After(s, setup, reunion), setup, now, env, past);
    OneMoreMove(s, setup, reunion, hear);
    ZeroIsLate(After(s, setup, reunion + [hear]), setup, now, env, pcm);
    OneMoreMove(s, setup, reunion + [hear], speak);
  }
}
