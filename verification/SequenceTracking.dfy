/**
  What the 32-bit sequence numbers achieve: the buffer behaves as if packets carried
  unbounded numbers, and every accepted packet lands in its own slot of the stream.
 */
module SequenceTracking {
  import opened Numbers
  import opened Wrappers
  import opened Frames
  import opened JitterModel
  import opened JitterRuns

  // ---------------------------------------------------------------- one packet

  /** The decision on unbounded numbers. */
  function DecideUnbounded(next: int, number: int): Decision {
    if number < next then Late
    else if number - next > RESYNC_GAP_PACKETS then Resync
    else Accept(number - next)
  }

  /** How far a packet's number may stray from the expected one. */
  predicate InWindow(next: int, number: int) {
    -TWO_31 <= number - next < TWO_31
  }

  /** Within half the sequence space of the expected number, wrapping changes no decision. */
  lemma DecisionsAgree(next: int, number: int)
    requires InWindow(next, number)
    ensures Decide(Some(Wrap32(next)), Wrap32(number)) == DecideUnbounded(next, number)
  {
    SignedDifference(next, number);
  }

  // ---------------------------------------------------------------- whole runs

  /** What reaches the buffer, with packets under their unbounded numbers. */
  datatype Arrival =
    | Packet(number: int, samples: seq<Sample>)
    | Playback(n: nat)
    | Restart

  function ToEvent(a: Arrival): Event {
    match a
    case Packet(number, samples) => Pushed(Wrap32(number), samples)
    case Playback(n) => Drawn(n)
    case Restart => Cleared
  }

  function Events(xs: seq<Arrival>): seq<Event> {
    if xs == [] then [] else [ToEvent(xs[0])] + Events(xs[1..])
  }

  /** One packet that was accepted since the anchor. */
  datatype Slot = Slot(number: int, frames: seq<Frame>)

  /**
    The ideal receiver. Since the last anchor, the first packet after a restart or a
    resync, it keeps the accepted packets in order, how many were given up as missing,
    and the stream of everything enqueued.
   */
  datatype Track =
    | Idle
    | Following(first: int, next: int, accepted: seq<Slot>, missing: nat, stream: seq<Frame>)

  function Anchor(number: int, packet: seq<Frame>): Track {
    Following(number, number + 1, [Slot(number, packet)], 0, packet)
  }

  function Follow(t: Track, b: Buffer, x: Arrival): Track
    requires Valid(b)
  {
    match x
    case Restart => Idle
    case Playback(_) => t
    case Packet(number, samples) =>
      var packet := Deinterleave(samples, b.cfg.channels);
      if t.Idle? then Anchor(number, packet)
      else
        match DecideUnbounded(t.next, number)
        case Late => t
        case Resync => Anchor(number, packet)
        case Accept(missing) =>
          Following(t.first, number + 1, t.accepted + [Slot(number, packet)], t.missing + missing,
                    t.stream + Concealment(b, missing) + packet)
  }

  function FollowAll(t: Track, b: Buffer, xs: seq<Arrival>): Track
    requires Valid(b)
    decreases |xs|
  {
    if xs == [] then t
    else
      ApplyValid(b, ToEvent(xs[0]));
      FollowAll(Follow(t, b, xs[0]), Apply(b, ToEvent(xs[0])), xs[1..])
  }

  /** No packet strays half the sequence space from the number expected when it arrives. */
  predicate NoStrays(t: Track, b: Buffer, xs: seq<Arrival>)
    requires Valid(b)
    decreases |xs|
  {
    if xs == [] then true
    else
      && (xs[0].Packet? && t.Following? ==> InWindow(t.next, xs[0].number))
      && (ApplyValid(b, ToEvent(xs[0])); NoStrays(Follow(t, b, xs[0]), Apply(b, ToEvent(xs[0])), xs[1..]))
  }

  predicate IsSuffix(q: seq<Frame>, s: seq<Frame>) {
    |q| <= |s| && q == s[|s| - |q|..]
  }

  /** The buffer holds the newest part of the ideal stream and expects the ideal number. */
  predicate Matches(t: Track, b: Buffer) {
    match t
    case Idle => b.expected == None && b.queue == []
    case Following(first, next, _, _, stream) =>
      b.expected == Some(Wrap32(next)) && IsSuffix(b.queue, stream)
  }

  /** Accepted numbers rise from `first`, and with the missing ones they account for every number up to `next`. */
  predicate Accounted(t: Track) {
    t.Following? ==>
      && t.accepted != []
      && t.accepted[0].number == t.first
      && t.accepted[|t.accepted| - 1].number == t.next - 1
      && (forall i, j :: 0 <= i < j < |t.accepted| ==> t.accepted[i].number < t.accepted[j].number)
      && |t.accepted| + t.missing == t.next - t.first
  }

  lemma SuffixGrows(q: seq<Frame>, s: seq<Frame>, more: seq<Frame>)
    requires IsSuffix(q, s)
    ensures IsSuffix(q + more, s + more)
  {
  }

  lemma SuffixShrinks(q: seq<Frame>, s: seq<Frame>, n: nat)
    requires IsSuffix(q, s) && n <= |q|
    ensures IsSuffix(q[n..], s)
  {
  }

  lemma EnqueueKeepsSuffix(stream: seq<Frame>, b: Buffer, missing: nat, number: U32, packet: seq<Frame>)
    requires Valid(b) && IsSuffix(b.queue, stream)
    ensures IsSuffix(Enqueue(Bridge(b, number, missing), packet).queue, stream + Concealment(b, missing) + packet)
  {
    var filler := Concealment(b, missing);
    SuffixGrows(b.queue, stream, filler);
    SuffixGrows(b.queue + filler, stream + filler, packet);
    var full := b.queue + filler + packet;
    if |full| > b.cfg.max {
      SuffixShrinks(full, stream + filler + packet, |full| - b.cfg.target);
    }
  }

  lemma EnqueueMatches(t: Track, b: Buffer, missing: nat, number: int, packet: seq<Frame>)
    requires Valid(b) && t.Following? && IsSuffix(b.queue, t.stream)
    ensures var after := Enqueue(Bridge(b, Wrap32(number), missing), packet);
            && after.expected == Some(Wrap32(number + 1))
            && IsSuffix(after.queue, t.stream + Concealment(b, missing) + packet)
  {
    WrapNext(number);
    EnqueueKeepsSuffix(t.stream, b, missing, Wrap32(number), packet);
  }

  lemma AnchorMatches(b: Buffer, number: int, packet: seq<Frame>)
    requires Valid(b) && b.queue == []
    ensures Matches(Anchor(number, packet), Enqueue(Bridge(b, Wrap32(number), 0), packet))
  {
    WrapNext(number);
    NoGap(b);
    EnqueueMatches(Following(number, number, [], 0, []), b, 0, number, packet);
    assert [] + Concealment(b, 0) + packet == packet;
  }

  lemma PullMatches(t: Track, b: Buffer, n: nat)
    requires Valid(b) && Matches(t, b)
    ensures Matches(t, Pull(b, n).after)
  {
  }

  lemma PacketMatches(t: Track, b: Buffer, number: int, samples: seq<Sample>)
    requires Valid(b) && Matches(t, b) && t.Following?
    requires Decide(b.expected, Wrap32(number)) == DecideUnbounded(t.next, number)
    ensures Matches(Follow(t, b, Packet(number, samples)), Push(b, Wrap32(number), samples))
  {
    var packet := Deinterleave(samples, b.cfg.channels);
    match DecideUnbounded(t.next, number) {
      case Late =>
      case Resync => AnchorMatches(Restarted(b), number, packet);
      case Accept(missing) => EnqueueMatches(t, b, missing, number, packet);
    }
  }

  lemma FirstPacketMatches(b: Buffer, number: int, samples: seq<Sample>)
    requires Valid(b) && Matches(Idle, b)
    ensures Matches(Follow(Idle, b, Packet(number, samples)), Push(b, Wrap32(number), samples))
  {
    FirstPush(b, Wrap32(number), samples);
    AnchorMatches(b, number, Deinterleave(samples, b.cfg.channels));
  }

  lemma NextPacketMatches(t: Track, b: Buffer, number: int, samples: seq<Sample>)
    requires Valid(b) && Matches(t, b) && t.Following? && InWindow(t.next, number)
    ensures Matches(Follow(t, b, Packet(number, samples)), Push(b, Wrap32(number), samples))
  {
    DecisionsAgree(t.next, number);
    PacketMatches(t, b, number, samples);
  }

  lemma FollowMatches(t: Track, b: Buffer, x: Arrival)
    requires Valid(b) && Matches(t, b)
    requires x.Packet? && t.Following? ==> InWindow(t.next, x.number)
    ensures Matches(Follow(t, b, x), Apply(b, ToEvent(x)))
  {
    match x
    case Restart =>
    case Playback(n) => PullMatches(t, b, n);
    case Packet(number, samples) =>
      if t.Idle? {
        FirstPacketMatches(b, number, samples);
      } else {
        NextPacketMatches(t, b, number, samples);
      }
  }

  lemma FollowAccounted(t: Track, b: Buffer, x: Arrival)
    requires Valid(b) && Accounted(t)
    ensures Accounted(Follow(t, b, x))
  {
  }

  /**
    Over every run whose packets stay within half the sequence space, the 32-bit buffer
    tracks the ideal receiver: its queue is always the newest part of the ideal stream,
    accepted numbers strictly rise, and accepted plus missing is `next - first`.
   */
  lemma {:induction false} TracksIdeal(t: Track, b: Buffer, xs: seq<Arrival>)
    requires Valid(b) && Matches(t, b) && Accounted(t) && NoStrays(t, b, xs)
    ensures Matches(FollowAll(t, b, xs), Run(b, Events(xs)))
    ensures Accounted(FollowAll(t, b, xs))
    decreases |xs|
  {
    if xs != [] {
      var e := ToEvent(xs[0]);
      ApplyValid(b, e);
      FollowMatches(t, b, xs[0]);
      FollowAccounted(t, b, xs[0]);
      TracksIdeal(Follow(t, b, xs[0]), Apply(b, e), xs[1..]);
      assert Events(xs)[0] == e && Events(xs)[1..] == Events(xs[1..]);
    }
  }

  // ---------------------------------------------------------------- counters

  /** What the counters of the ideal receiver become. */
  function Counted(t: Track, s: Stats, x: Arrival): Stats {
    if !x.Packet? then s
    else if t.Idle? then s.(accepted := s.accepted + 1)
    else
      match DecideUnbounded(t.next, x.number)
      case Late => s.(late := s.late + 1)
      case Resync => s.(accepted := s.accepted + 1, resyncs := s.resyncs + 1)
      case Accept(missing) => s.(accepted := s.accepted + 1, lost := s.lost + missing)
  }

  function CountAll(t: Track, b: Buffer, s: Stats, xs: seq<Arrival>): Stats
    requires Valid(b)
    decreases |xs|
  {
    if xs == [] then s
    else
      ApplyValid(b, ToEvent(xs[0]));
      CountAll(Follow(t, b, xs[0]), Apply(b, ToEvent(xs[0])), Counted(t, s, xs[0]), xs[1..])
  }

  /** Same counters, leaving aside the two that do not count packets. */
  predicate SameCounts(s: Stats, r: Stats) {
    s.accepted == r.accepted && s.late == r.late && s.lost == r.lost && s.resyncs == r.resyncs
  }

  lemma CountsOne(t: Track, b: Buffer, s: Stats, x: Arrival)
    requires Valid(b) && Matches(t, b) && SameCounts(s, b.stats)
    requires x.Packet? && t.Following? ==> InWindow(t.next, x.number)
    ensures SameCounts(Counted(t, s, x), Apply(b, ToEvent(x)).stats)
  {
    if x.Packet? && t.Following? {
      DecisionsAgree(t.next, x.number);
    }
  }

  /** The late, lost, accepted and resync counters are those of the ideal receiver, over every run. */
  lemma {:induction false} CountersAreIdeal(t: Track, b: Buffer, s: Stats, xs: seq<Arrival>)
    requires Valid(b) && Matches(t, b) && SameCounts(s, b.stats) && NoStrays(t, b, xs)
    ensures SameCounts(CountAll(t, b, s, xs), Run(b, Events(xs)).stats)
    decreases |xs|
  {
    if xs != [] {
      var e := ToEvent(xs[0]);
      ApplyValid(b, e);
      FollowMatches(t, b, xs[0]);
      CountsOne(t, b, s, xs[0]);
      CountersAreIdeal(Follow(t, b, xs[0]), Apply(b, e), Counted(t, s, xs[0]), xs[1..]);
      assert Events(xs)[0] == e && Events(xs)[1..] == Events(xs[1..]);
    }
  }

  // ---------------------------------------------------------------- slots

  /** Every packet carries exactly one packet's worth of frames. */
  predicate FullPackets(xs: seq<Arrival>, cfg: Config)
    requires ValidConfig(cfg)
  {
    forall i :: 0 <= i < |xs| && xs[i].Packet? ==>
      |Deinterleave(xs[i].samples, cfg.channels)| == cfg.framesPerPacket
  }

  /** The place of packet `number` in a stream that starts with packet `first`. */
  function Offset(first: int, number: int, cfg: Config): nat
    requires first <= number
  {
    Span(number - first, cfg.framesPerPacket)
  }

  predicate InSlot(t: Track, cfg: Config, s: Slot)
    requires t.Following?
  {
    && t.first <= s.number < t.next
    && |s.frames| == cfg.framesPerPacket
    && Offset(t.first, s.number, cfg) + cfg.framesPerPacket <= |t.stream|
    && t.stream[Offset(t.first, s.number, cfg)..][..cfg.framesPerPacket] == s.frames
  }

  /** The stream has one slot for every number, and every accepted packet is in its own. */
  predicate Aligned(t: Track, cfg: Config) {
    t.Following? ==>
      && t.first <= t.next
      && |t.stream| == Offset(t.first, t.next, cfg)
      && forall i :: 0 <= i < |t.accepted| ==> InSlot(t, cfg, t.accepted[i])
  }

  lemma SlotKept(t: Track, u: Track, cfg: Config, s: Slot)
    requires t.Following? && u.Following? && InSlot(t, cfg, s)
    requires u.first == t.first && t.next <= u.next
    requires |t.stream| <= |u.stream| && u.stream[..|t.stream|] == t.stream
    ensures InSlot(u, cfg, s)
  {
    var at := Offset(t.first, s.number, cfg);
    assert u.stream[at..][..cfg.framesPerPacket] == u.stream[..|t.stream|][at..][..cfg.framesPerPacket];
  }

  lemma FollowAligned(t: Track, b: Buffer, x: Arrival)
    requires Valid(b) && Aligned(t, b.cfg) && FullPackets([x], b.cfg)
    ensures Aligned(Follow(t, b, x), b.cfg)
  {
    if x.Packet? {
      var fpp := b.cfg.framesPerPacket;
      assert [x][0] == x;
      var packet := Deinterleave(x.samples, b.cfg.channels);
      if t.Idle? || DecideUnbounded(t.next, x.number).Resync? {
        assert Span(0, fpp) == 0 && Span(1, fpp) == fpp;
      } else if x.number >= t.next {
        var missing := x.number - t.next;
        var filler := Concealment(b, missing);
        var u := Follow(t, b, x);
        ConcealmentSized(b, missing);
        SpanIsProduct(missing, fpp);
        SpanSum(t.next - t.first, missing, fpp);
        var at := Offset(t.first, x.number, b.cfg);
        assert |t.stream + filler| == at;
        assert u.stream[at..] == packet;
        assert packet[..fpp] == packet;
        forall i | 0 <= i < |u.accepted| ensures InSlot(u, b.cfg, u.accepted[i]) {
          if i < |t.accepted| {
            assert u.stream[..|t.stream|] == t.stream;
            SlotKept(t, u, b.cfg, t.accepted[i]);
          }
        }
      }
    }
  }

  /**
    Realignment after any loss: whatever was lost, repeated or late, the accepted packet
    numbered `first + k` starts at frame `k * framesPerPacket` of the enqueued stream.
   */
  lemma {:induction false} StaysAligned(t: Track, b: Buffer, xs: seq<Arrival>)
    requires Valid(b) && Aligned(t, b.cfg) && FullPackets(xs, b.cfg)
    ensures Aligned(FollowAll(t, b, xs), b.cfg)
    decreases |xs|
  {
    if xs != [] {
      ApplyValid(b, ToEvent(xs[0]));
      assert FullPackets([xs[0]], b.cfg);
      FollowAligned(t, b, xs[0]);
      StaysAligned(Follow(t, b, xs[0]), Apply(b, ToEvent(xs[0])), xs[1..]);
    }
  }

  /** The slot of a packet, spelt out. */
  lemma SlotPosition(t: Track, cfg: Config, s: Slot)
    requires t.Following? && InSlot(t, cfg, s)
    ensures var at := (s.number - t.first) * cfg.framesPerPacket;
            0 <= at <= at + cfg.framesPerPacket <= |t.stream| && t.stream[at..at + cfg.framesPerPacket] == s.frames
  {
    SpanIsProduct(s.number - t.first, cfg.framesPerPacket);
    var at := Offset(t.first, s.number, cfg);
    assert t.stream[at..][..cfg.framesPerPacket] == t.stream[at..at + cfg.framesPerPacket];
  }

  /** All of it, from a new buffer. */
  lemma RealignsAfterLoss(cfg: Config, xs: seq<Arrival>)
    requires ValidConfig(cfg) && FullPackets(xs, cfg) && NoStrays(Idle, Initial(cfg), xs)
    ensures var t, b := FollowAll(Idle, Initial(cfg), xs), Run(Initial(cfg), Events(xs));
            Matches(t, b) && Accounted(t) && Aligned(t, cfg)
  {
    TracksIdeal(Idle, Initial(cfg), xs);
    StaysAligned(Idle, Initial(cfg), xs);
  }
}
