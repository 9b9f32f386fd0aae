/**
  The host's event loop as an object updated in place, branch by branch. It shares the
  speaker's jitter buffer with the playback thread: each locked call is one method here.
 */
module HostAgentClass {
  import opened Numbers
  import opened Wrappers
  import opened Frames
  import opened Utf8
  import opened Wire
  import opened WireCodec
  import opened JitterBufferClass
  import H = HostSession
  import T = WireTheorems
  import J = JitterModel

  class HostAgent {
    const cfg: H.HostConfig
    const speaker: JitterBuffer?
    var established: bool
    var lastRx: int
    var number: U32
    var ping: Option<H.Ping>
    var rtt: Option<int>

    ghost function Repr(): set<object> {
      {this} + if speaker == null then {} else {speaker, speaker.prev}
    }

    ghost predicate Valid()
      reads Repr()
    {
      speaker != null ==> speaker.Valid()
    }

    /** The agent's value. */
    ghost function State(): H.Host
      reads Repr()
    {
      H.Host(established, lastRx, number, ping, rtt, if speaker == null then None else Some(speaker.State()))
    }

    constructor (cfg: H.HostConfig, now: int, speaker: JitterBuffer?)
      requires speaker != null ==> speaker.Valid()
      ensures Valid() && this.cfg == cfg && this.speaker == speaker
      ensures State() == H.Host(false, now, 0, None, None, if speaker == null then None else Some(speaker.State()))
    {
      this.cfg := cfg;
      this.speaker := speaker;
      established := false;
      lastRx := now;
      number := 0;
      ping := None;
      rtt := None;
    }

    method ResetSpeaker()
      requires Valid()
      modifies Repr() - {this}
      ensures Valid()
      ensures State() == H.ResetSpeaker(old(State()))
    {
      if speaker != null {
        speaker.Reset();
      }
    }

    /** One datagram, as it lands in the receive buffer. Anything at all counts as a sign of life. */
    method OnDatagram(now: int, bytes: Bytes) returns (sent: seq<Bytes>)
      requires Valid()
      modifies Repr()
      ensures Valid()
      ensures H.Outcome(State(), sent) == H.Step(old(State()), cfg, H.Arrived(now, bytes))
    {
      sent := [];
      lastRx := now;
      var d := Parse(T.Received(bytes));
      match d {
        case Err(_) =>
        case Ok(Audio(header, payload)) => OnAudio(header, payload);
        case Ok(Control(p)) => sent := OnControl(now, p);
      }
    }

    method OnAudio(header: AudioHeader, payload: Bytes)
      requires Valid()
      modifies Repr()
      ensures Valid()
      ensures State() == H.HandleAudio(old(State()), cfg, header, payload)
    {
      if header.session == cfg.session && header.direction == Speaker && speaker != null {
        var samples := new Vec<Sample>();
        DecodePayload(payload, samples);
        speaker.Push(header.number, samples.data);
      }
    }

    method OnControl(now: int, p: Packet) returns (sent: seq<Bytes>)
      requires Valid()
      modifies Repr()
      ensures Valid()
      ensures H.Outcome(State(), sent) == H.HandleIncoming(old(State()), cfg, now, Ok(Control(p)))
    {
      sent := [];
      match p {
        case HelloAck(status, id, _, _, _) =>
          if id == cfg.session {
            if status != StatusOk {
              established := false;
            } else if !established {
              established := true;
              number := 0;
              ResetSpeaker();
            }
          }
        case Ping(id, nonce) =>
          if id == cfg.session {
            var bytes := EncodePacket(Pong(cfg.session, nonce));
            sent := [bytes];
          }
        case Pong(id, nonce) =>
          if id == cfg.session && ping.Some? && ping.value.nonce == nonce {
            rtt := Some(now - ping.value.at);
            ping := None;
          }
        case Bye(id) =>
          if id == cfg.session {
            established := false;
            ResetSpeaker();
          }
        case Hello(_, _, _, _) =>
      }
    }

    /** Microphone audio is dropped until the session is up, then numbered from 0. */
    method OnMicPacket(pcm: seq<Sample>) returns (sent: seq<Bytes>)
      requires Valid()
      modifies this
      ensures Valid()
      ensures H.Outcome(State(), sent) == H.Step(old(State()), cfg, H.MicReady(pcm))
    {
      if !established {
        return [];
      }
      var out := new Vec<U8>();
      EncodeAudioPacket(out, cfg.session, Mic, number, cfg.mic.channels, pcm);
      number := Wrap32(number + 1);
      sent := [out.data];
    }

    method OnHelloTick() returns (sent: seq<Bytes>)
      requires Valid()
      ensures H.Outcome(State(), sent) == H.Step(State(), cfg, H.HelloTick)
    {
      if established {
        return [];
      }
      var bytes := EncodePacket(Hello(cfg.token, cfg.session, cfg.mic, cfg.speaker));
      sent := [bytes];
    }

    /** Pings a live session; gives up on one that has been silent too long. */
    method OnPingTick(now: int, nonce: U64) returns (sent: seq<Bytes>)
      requires Valid()
      modifies Repr()
      ensures Valid()
      ensures H.Outcome(State(), sent) == H.Step(old(State()), cfg, H.PingTick(now, nonce))
    {
      if !established {
        return [];
      }
      if now - lastRx > cfg.idleTimeout {
        established := false;
        ping := None;
        rtt := None;
        ResetSpeaker();
        return [];
      }
      ping := Some(H.Outstanding(nonce, now));
      var bytes := EncodePacket(Ping(cfg.session, nonce));
      sent := [bytes];
    }

    /** The playback thread fills `out` with `n` frames from the speaker buffer. */
    method OnPlay(out: array<Sample>, n: nat)
      requires Valid() && speaker != null
      requires out !in Repr() && out.Length == Span(n, speaker.channels)
      modifies Repr(), out
      ensures Valid()
      ensures State() == old(State()).(speaker := Some(J.Pull(old(speaker.State()), n).after))
      ensures out[..] == Interleave(J.Pull(old(speaker.State()), n).out)
    {
      speaker.PullFrames(out, n);
    }

    /** The playback thread starts its buffer over when the device fails. */
    method OnPlaybackFailure()
      requires Valid()
      modifies Repr()
      ensures Valid()
      ensures State() == H.ResetSpeaker(old(State()))
    {
      ResetSpeaker();
    }
  }
}
