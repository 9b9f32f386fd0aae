/**
  The guest's event loop as objects updated in place, branch by branch. The session owns a
  jitter buffer, which the render thread shares: each of its locked calls is one method here.
 */
module VmAgentClass {
  import opened Numbers
  import opened Wrappers
  import opened Frames
  import opened Utf8
  import opened Wire
  import opened WireCodec
  import opened JitterBufferClass
  import V = VmSession
  import T = WireTheorems
  import J = JitterModel

  /** What exists only while a host is connected. */
  class Session {
    const id: U32
    const peer: V.Addr
    const micFormat: Format
    const speakerFormat: Format
    const jitter: JitterBuffer?
    const render: bool
    const capture: bool
    const summary: Text
    var lastRx: int
    var number: U32

    ghost function Repr(): set<object> {
      {this} + if jitter == null then {} else {jitter, jitter.prev}
    }

    ghost predicate Valid()
      reads Repr()
    {
      jitter != null ==> jitter.Valid()
    }

    ghost function Value(): V.Session
      reads Repr()
    {
      V.Session(id, peer, micFormat, speakerFormat, if jitter == null then None else Some(jitter.State()),
                render, capture, lastRx, number, summary)
    }

    constructor (id: U32, peer: V.Addr, micFormat: Format, speakerFormat: Format, jitter: JitterBuffer?,
                 render: bool, capture: bool, now: int, summary: Text)
      requires jitter != null ==> jitter.Valid()
      ensures Valid() && this.jitter == jitter
      ensures Value() == V.Session(id, peer, micFormat, speakerFormat,
                                   if jitter == null then None else Some(jitter.State()), render, capture, now, 0, summary)
    {
      this.id := id;
      this.peer := peer;
      this.micFormat := micFormat;
      this.speakerFormat := speakerFormat;
      this.jitter := jitter;
      this.render := render;
      this.capture := capture;
      this.summary := summary;
      lastRx := now;
      number := 0;
    }

    /** Fills `out` with `n` frames from the buffer. */
    method Render(out: array<Sample>, n: nat)
      requires Valid() && jitter != null
      requires out != jitter.prev && out.Length == Span(n, jitter.channels)
      modifies jitter, jitter.prev, out
      ensures Valid()
      ensures Value() == old(Value()).(jitter := Some(J.Pull(old(jitter.State()), n).after))
      ensures out[..] == Interleave(J.Pull(old(jitter.State()), n).out)
    {
      jitter.PullFrames(out, n);
    }
  }

  class VmAgent {
    const cfg: V.VmConfig
    var session: Session?
    var threads: nat

    ghost function Repr(): set<object>
      reads this
    {
      {this} + if session == null then {} else session.Repr()
    }

    ghost predicate Valid()
      reads Repr()
    {
      session != null ==> session.Valid()
    }

    /** The agent's value. */
    ghost function State(): V.Vm
      reads Repr()
    {
      V.Vm(if session == null then None else Some(session.Value()), threads)
    }

    constructor (cfg: V.VmConfig)
      ensures Valid() && fresh(Repr())
      ensures this.cfg == cfg && State() == V.Vm(None, 0)
    {
      this.cfg := cfg;
      session := null;
      threads := 0;
    }

    /** Joins the audio threads of the session, if there is one. */
    method ShutDown()
      requires Valid()
      modifies this
      ensures Valid() && session == null
      ensures State() == V.ShutDown(old(State()))
    {
      if session != null {
        var s := session;
        session := null;
        if s.render {
          threads := if threads > 0 then threads - 1 else 0;
        }
        if s.capture {
          threads := if threads > 0 then threads - 1 else 0;
        }
      }
    }

    /** Starts the threads a session needs. A render thread already running is not stopped when capture fails to start. */
    method Start(now: int, peer: V.Addr, id: U32, mic: Format, speaker: Format, env: V.Surroundings)
      requires session == null && ValidFormat(mic)
      modifies this
      ensures Valid() && fresh(Repr() - {this})
      ensures State() == V.StartSession(old(State()), cfg, now, peer, id, mic, speaker, env)
    {
      var jitter: JitterBuffer? := null;
      if cfg.mic {
        if !env.renderStarts {
          return;
        }
        jitter := new JitterBuffer(mic.channels, mic.rate, mic.frameMs, cfg.bufferMs);
        threads := threads + 1;
      }
      if cfg.speaker {
        if !env.captureStarts {
          return;
        }
        threads := threads + 1;
      }
      session := new Session(id, peer, mic, speaker, jitter, cfg.mic, cfg.speaker, now, env.summary);
    }

    method Answer(peer: V.Addr, status: Status, id: U32, mic: Format, speaker: Format, message: Text)
      returns (sent: seq<V.Datagram>)
      ensures sent == V.Reply(peer, status, id, mic, speaker, message)
    {
      var bytes := EncodePacket(HelloAck(status, id, mic, speaker, message));
      sent := [V.Datagram(peer, bytes)];
    }

    method OnHello(now: int, peer: V.Addr, token: Bytes, id: U32, mic: Format, speaker: Format, env: V.Surroundings)
      returns (sent: seq<V.Datagram>)
      requires Valid()
      modifies Repr()
      ensures Valid() && fresh(Repr() - old(Repr()))
      ensures V.Outcome(State(), sent) == V.HandleHello(old(State()), cfg, now, peer, token, id, mic, speaker, env)
    {
      if !T.TokenMatches(cfg.token, token) {
        sent := Answer(peer, AuthFailed, id, mic, speaker, []);
        return;
      }
      if !ValidFormat(mic) || !ValidFormat(speaker) {
        sent := Answer(peer, UnsupportedFormat, id, mic, speaker, env.unsupported);
        return;
      }
      if session != null && session.peer != peer && now - session.lastRx < cfg.idleTimeout {
        sent := Answer(peer, Busy, id, mic, speaker, env.busy);
        return;
      }
      sent := OnAdmitted(now, peer, id, mic, speaker, env);
    }

    /** Ends the old session before the threads of the new one are started. */
    method Replace(now: int, peer: V.Addr, id: U32, mic: Format, speaker: Format, env: V.Surroundings)
      requires Valid() && ValidFormat(mic)
      modifies this
      ensures Valid() && fresh(Repr() - {this})
      ensures State() == V.StartSession(V.ShutDown(old(State())), cfg, now, peer, id, mic, speaker, env)
    {
      ShutDown();
      Start(now, peer, id, mic, speaker, env);
    }

    /** Counts as word from the session's owner. */
    method Touch(now: int)
      requires Valid() && session != null
      modifies session
      ensures Valid() && session == old(session)
      ensures State() == V.Touch(old(State()), now)
    {
      session.lastRx := now;
    }

    /** A Hello with the right token and valid formats, from a host that may have the session. */
    method OnAdmitted(now: int, peer: V.Addr, id: U32, mic: Format, speaker: Format, env: V.Surroundings)
      returns (sent: seq<V.Datagram>)
      requires Valid() && ValidFormat(mic)
      modifies Repr()
      ensures Valid() && fresh(Repr() - old(Repr()))
      ensures V.Outcome(State(), sent) == V.Welcome(old(State()), cfg, now, peer, id, mic, speaker, env)
    {
      var same := session != null && session.id == id && session.peer == peer
        && session.micFormat == mic && session.speakerFormat == speaker;
      if !same {
        Replace(now, peer, id, mic, speaker, env);
      }
      sent := Greet(now, peer, id, mic, speaker, env);
    }

    /** Answers once the session is up, or has failed to start. */
    method Greet(now: int, peer: V.Addr, id: U32, mic: Format, speaker: Format, env: V.Surroundings)
      returns (sent: seq<V.Datagram>)
      requires Valid()
      modifies session
      ensures Valid() && Repr() == old(Repr())
      ensures V.Outcome(State(), sent) == V.Greet(old(State()), now, peer, id, mic, speaker, env)
    {
      if session == null {
        sent := Answer(peer, ServerError, id, mic, speaker, env.error);
        return;
      }
      Touch(now);
      sent := Answer(peer, StatusOk, id, mic, speaker, session.summary);
    }

    /** Microphone audio goes to the buffer only from the owner, under its session, in its direction. */
    method OnAudio(now: int, peer: V.Addr, header: AudioHeader, payload: Bytes)
      requires Valid()
      modifies Repr()
      ensures Valid() && Repr() == old(Repr())
      ensures State() == V.HandleAudio(old(State()), now, peer, header, payload)
    {
      if session == null {
        return;
      }
      if header.session != session.id || peer != session.peer || header.direction != Mic {
        return;
      }
      session.lastRx := now;
      if session.jitter != null {
        var samples := new Vec<Sample>();
        DecodePayload(payload, samples);
        session.jitter.Push(header.number, samples.data);
      }
    }

    /** What a datagram says, as it lands in the receive buffer. */
    method Read(bytes: Bytes) returns (d: Result<Incoming, DecodeError>)
      requires Valid()
      ensures Valid() && State() == old(State()) && Repr() == old(Repr())
      ensures d == Decode(T.Received(bytes))
    {
      d := Parse(T.Received(bytes));
    }

    /** One datagram. */
    method OnDatagram(now: int, peer: V.Addr, bytes: Bytes, env: V.Surroundings) returns (sent: seq<V.Datagram>)
      requires Valid()
      modifies Repr()
      ensures Valid() && fresh(Repr() - old(Repr()))
      ensures V.Outcome(State(), sent)
           == V.HandleIncoming(old(State()), cfg, now, peer, Decode(T.Received(bytes)), env)
    {
      var d := Read(bytes);
      sent := OnMessage(now, peer, d, env);
    }

    method OnMessage(now: int, peer: V.Addr, d: Result<Incoming, DecodeError>, env: V.Surroundings)
      returns (sent: seq<V.Datagram>)
      requires Valid()
      modifies Repr()
      ensures Valid() && fresh(Repr() - old(Repr()))
      ensures V.Outcome(State(), sent) == V.HandleIncoming(old(State()), cfg, now, peer, d, env)
    {
      sent := [];
      match d {
        case Err(_) =>
        case Ok(Audio(header, payload)) => OnAudio(now, peer, header, payload);
        case Ok(Control(p)) => sent := OnControl(now, peer, p, env);
      }
    }

    method OnControl(now: int, peer: V.Addr, p: Packet, env: V.Surroundings) returns (sent: seq<V.Datagram>)
      requires Valid()
      modifies Repr()
      ensures Valid() && fresh(Repr() - old(Repr()))
      ensures V.Outcome(State(), sent) == V.HandleIncoming(old(State()), cfg, now, peer, Ok(Control(p)), env)
    {
      sent := [];
      match p {
        case Hello(token, id, mic, speaker) => sent := OnHello(now, peer, token, id, mic, speaker, env);
        case Ping(id, nonce) =>
          if session != null && id == session.id && peer == session.peer {
            session.lastRx := now;
            var bytes := EncodePacket(Pong(id, nonce));
            sent := [V.Datagram(peer, bytes)];
          }
        case Pong(id, _) =>
          if session != null && id == session.id && peer == session.peer {
            session.lastRx := now;
          }
        case Bye(id) =>
          if session != null && id == session.id && peer == session.peer {
            ShutDown();
          }
        case HelloAck(_, _, _, _, _) =>
      }
    }

    /** A captured packet goes out under the session's next number. */
    method OnCaptured(pcm: seq<Sample>) returns (sent: seq<V.Datagram>)
      requires Valid()
      modifies Repr()
      ensures Valid() && Repr() == old(Repr())
      ensures V.Outcome(State(), sent) == V.Step(old(State()), cfg, V.Captured(pcm))
    {
      if session == null {
        return [];
      }
      var out := new Vec<U8>();
      EncodeAudioPacket(out, session.id, Speaker, session.number, session.speakerFormat.channels, pcm);
      session.number := Wrap32(session.number + 1);
      sent := [V.Datagram(session.peer, out.data)];
    }

    method OnSweep(now: int)
      requires Valid()
      modifies this
      ensures Valid() && Repr() <= old(Repr())
      ensures V.Outcome(State(), []) == V.Step(old(State()), cfg, V.Sweep(now))
    {
      if session != null && now - session.lastRx > cfg.idleTimeout {
        ShutDown();
      }
    }

    method OnInterrupt() returns (sent: seq<V.Datagram>)
      requires Valid()
      modifies this
      ensures Valid() && Repr() <= old(Repr())
      ensures V.Outcome(State(), sent) == V.Step(old(State()), cfg, V.Interrupted)
    {
      sent := [];
      if session != null {
        var bytes := EncodePacket(Bye(session.id));
        sent := [V.Datagram(session.peer, bytes)];
        ShutDown();
      }
    }

    /** The render thread fills `out` with `n` frames from the session's buffer. */
    method OnRender(out: array<Sample>, n: nat)
      requires Valid() && session != null && session.jitter != null
      requires out !in Repr() && out.Length == Span(n, session.jitter.channels)
      modifies Repr(), out
      ensures Valid() && Repr() == old(Repr())
      ensures State() == V.OnBuffer(old(State()), J.Pull(old(session.jitter.State()), n).after)
      ensures out[..] == Interleave(J.Pull(old(session.jitter.State()), n).out)
    {
      session.Render(out, n);
    }

    /** The render thread starts its buffer over when the device fails. */
    method OnRenderFailure()
      requires Valid() && session != null && session.jitter != null
      modifies Repr()
      ensures Valid() && Repr() == old(Repr())
      ensures State() == V.OnBuffer(old(State()), J.Reset(old(session.jitter.State())))
    {
      session.jitter.Reset();
    }
  }
}
