/**
  What the jitter buffer keeps and plays, sample by sample, in plain arithmetic.

  Nothing here uses the functions that define the operations: every statement is about the
  numbers that go in and come out.
 */
module PlayedSamples {
  import opened Numbers
  import opened Wrappers
  import opened Frames
  import opened JitterModel
  import opened JitterRuns

  // ---------------------------------------------------------------- a pull

  /** The buffer has yet to fill up to its target. */
  predicate Waits(b: Buffer) {
    b.warming && |b.queue| < b.cfg.target
  }

  /** A buffer that warms up plays silence and is left as it was; any other stops warming up until it runs dry. */
  lemma WarmsUp(b: Buffer, n: nat)
    requires Valid(b)
    ensures Waits(b) ==> Pull(b, n).after == b
    ensures Waits(b) ==> forall f, c :: 0 <= f < n && 0 <= c < b.cfg.channels ==> Pull(b, n).out[f][c] == 0
    ensures |Pull(b, n).out| == n && Sized(Pull(b, n).out, b.cfg.channels)
    ensures !Waits(b) ==> (Pull(b, n).after.warming <==> Pull(b, n).after.stats.underruns == b.stats.underruns + 1)
    ensures !Waits(b) ==> (!Pull(b, n).after.warming <==> Pull(b, n).after.stats.underruns == b.stats.underruns)
  {
    PullValid(b, n);
  }

  /** The rate before a pull: 1 for a buffer that has just warmed up. */
  function RateBefore(b: Buffer): real {
    if b.warming then 1.0 else b.rate
  }

  lemma PulledRate(b: Buffer, n: nat)
    requires Valid(b) && !Waits(b)
    ensures 50.0 * Pull(b, n).after.rate == 49.0 * RateBefore(b) + 1.0 + Correction(|b.queue|, b.cfg.target)
  {
    NextRateValid(Primed(b));
  }

  /**
    The rate of a pull: 49 parts of the rate before and one part of 1 plus the correction, a
    hundredth of the relative distance from the target, and at most 0.004 either way.
   */
  lemma RateMoves(b: Buffer, n: nat, q: real)
    requires Valid(b) && !Waits(b) && q == (|b.queue| as real - b.cfg.target as real) / b.cfg.target as real
    ensures var d := 50.0 * Pull(b, n).after.rate - 49.0 * RateBefore(b) - 1.0;
            d == if q <= -0.4 then -0.004 else if q >= 0.4 then 0.004 else 0.01 * q
  {
    PulledRate(b, n);
  }

  /** The read head stands at `p` before output frame `f`: one step of the pull's rate behind it for every frame before. */
  predicate ReadsAt(b: Buffer, n: nat, f: int, p: real)
    requires Valid(b)
  {
    p == (if b.warming then 0.0 else b.frac) + Times(f as real, Pull(b, n).after.rate)
  }

  /** The held frame and the queue behind it. */
  function Ahead(b: Buffer): seq<Frame> {
    [b.prev] + b.queue
  }

  lemma ReadsThere(b: Buffer, n: nat, f: nat, p: real)
    requires Valid(b) && !Waits(b) && ReadsAt(b, n, f, p)
    ensures p == ReadPoint(b, f) && 0.0 <= p
    ensures Sized(Ahead(b), b.cfg.channels)
  {
    NextRateValid(Primed(b));
    assert p == Started(b).frac + Times(f as real, Started(b).rate);
    TimesMonotone(f as real, 0.0, Started(b).rate);
    assert Times(f as real, 0.0) == 0.0;
  }

  /** Sample by sample, `y` is the nearest frame to the mean of `a` and `b` at distance `t` from `a`. */
  predicate IsMean(y: Frame, a: Frame, b: Frame, t: real) {
    && |y| == |a| == |b|
    && forall c :: 0 <= c < |y| ==> MeanSample(y[c], a[c], b[c], t)
  }

  predicate MeanSample(y: int, a: int, b: int, t: real) {
    Nearest(y, a as real * (1.0 - t) + b as real * t)
  }

  lemma LerpIsMean(a: Frame, b: Frame, t: real)
    requires |a| == |b| && 0.0 <= t < 1.0
    ensures IsMean(LerpFrame(a, b, t), a, b, t)
  {
    forall c | 0 <= c < |a| ensures MeanSample(LerpFrame(a, b, t)[c], a[c], b[c], t) {
      LerpIsNearest(a[c], b[c], t);
    }
  }

  lemma PlaysLerp(b: Buffer, n: nat, f: nat, k: nat, t: real)
    requires Valid(b) && !Waits(b) && f < n
    requires ReadsAt(b, n, f, k as real + t) && 0.0 <= t < 1.0 && k < |b.queue|
    ensures |Pull(b, n).out| == n && Sized(Ahead(b), b.cfg.channels)
    ensures Pull(b, n).out[f] == LerpFrame(Ahead(b)[k], Ahead(b)[k + 1], t)
  {
    ReadsThere(b, n, f, k as real + t);
    PullValid(b, n);
    FramePlayed(b, n, f, k, t);
  }

  lemma ResampledThere(x: seq<Frame>, p: real, channels: nat, k: nat, t: real)
    requires Sized(x, channels) && p == k as real + t && 0.0 <= t < 1.0 && k + 1 < |x|
    ensures p.Floor == k && Resampled(x, p, channels) == LerpFrame(x[k], x[k + 1], t)
  {
  }

  lemma FramePlayed(b: Buffer, n: nat, f: nat, k: nat, t: real)
    requires Valid(b) && !StillWarming(b) && f < n && |Pull(b, n).out| == n
    requires ReadPoint(b, f) == k as real + t && 0.0 <= t < 1.0 && k < |b.queue|
    ensures Sized(Ahead(b), b.cfg.channels)
    ensures Pull(b, n).out[f] == LerpFrame(Ahead(b)[k], Ahead(b)[k + 1], t)
  {
    NextRateValid(Primed(b));
    StartedFrame(Started(b), n, f, k, t);
  }

  lemma StartedFrame(s: Buffer, n: nat, f: nat, k: nat, t: real)
    requires Playing(s) && f < n && s.frac + Times(f as real, s.rate) == k as real + t && 0.0 <= t < 1.0 && k < |s.queue|
    ensures Sized(Ahead(s), s.cfg.channels) && f < |Render(s, n).out|
    ensures Render(s, n).out[f] == LerpFrame(Ahead(s)[k], Ahead(s)[k + 1], t)
  {
    PositionIsLinear(s.frac, s.rate, f);
    PositionNonNegative(s, f);
    ResampledThere(Ahead(s), Position(s.frac, s.rate, f), s.cfg.channels, k, t);
    RenderedFrame(s, n, f);
  }

  /**
    Every sample that a pull interpolates is the nearest one to the mean of its two
    neighbours, weighted by how near the read point `k + t` is to each.
   */
  lemma PlaysMean(b: Buffer, n: nat, f: nat, k: nat, t: real)
    requires Valid(b) && !Waits(b) && f < n
    requires ReadsAt(b, n, f, k as real + t) && 0.0 <= t < 1.0 && k < |b.queue|
    ensures |Pull(b, n).out| == n && |Ahead(b)[k]| == b.cfg.channels
    ensures IsMean(Pull(b, n).out[f], Ahead(b)[k], Ahead(b)[k + 1], t)
  {
    PlaysLerp(b, n, f, k, t);
    LerpIsMean(Ahead(b)[k], Ahead(b)[k + 1], t);
  }

  /** The gain of frame `i` of a fade. */
  function Gain(i: nat): real {
    if i < 240 then 1.0 - i as real / 240.0 else 0.0
  }

  /** The newest frame: the end of the queue, or the held frame when the queue is empty. */
  function Newest(b: Buffer): Frame {
    if |b.queue| > 0 then b.queue[|b.queue| - 1] else b.prev
  }

  /** `y` is frame `i` of the fade of `base`. */
  predicate IsFaded(y: Frame, base: Frame, i: nat) {
    && |y| == |base|
    && forall c :: 0 <= c < |y| ==> FadedSample(y[c], base[c], i)
  }

  predicate FadedSample(y: int, s: int, i: nat) {
    Nearest(y, s as real * Gain(i))
  }

  lemma ScaleIsFaded(base: Frame, i: nat)
    ensures IsFaded(ScaleFrame(base, FadeOut(i)), base, i)
  {
    forall c | 0 <= c < |base| ensures FadedSample(ScaleFrame(base, FadeOut(i))[c], base[c], i) {
      ScaleIsNearest(base[c], FadeOut(i));
    }
  }

  lemma StartedFades(s: Buffer, n: nat, u: nat, p: real, i: nat)
    requires Playing(s) && u + i < n && p == s.frac + Times(u as real, s.rate) && |s.queue| as real <= p
    requires u > 0 ==> p - s.rate < |s.queue| as real
    ensures u + i < |Render(s, n).out| && Render(s, n).out[u + i] == ScaleFrame(Newest(s), FadeOut(i))
  {
    PositionIsLinear(s.frac, s.rate, u);
    assert u > 0 ==> Position(s.frac, s.rate, u - 1) == p - s.rate;
    FadedFrame(s, n, u, u + i);
  }

  lemma StartedRate(b: Buffer, n: nat)
    requires Valid(b) && !Waits(b)
    ensures Pull(b, n) == Render(Started(b), n) && Playing(Started(b))
    ensures Pull(b, n).after.rate == Started(b).rate
  {
    NextRateValid(Primed(b));
  }

  lemma FadesOut(b: Buffer, n: nat, u: nat, p: real, i: nat)
    requires Valid(b) && !Waits(b) && u + i < n
    requires ReadsAt(b, n, u, p) && |b.queue| as real <= p
    requires u > 0 ==> p - Pull(b, n).after.rate < |b.queue| as real
    ensures |Pull(b, n).out| == n && Pull(b, n).out[u + i] == ScaleFrame(Newest(b), FadeOut(i))
    ensures |Newest(b)| == b.cfg.channels
  {
    StartedRate(b, n);
    PullValid(b, n);
    StartedFades(Started(b), n, u, p, i);
  }

  /** From the first frame `u` that reads past the queue on, at `p`, the newest frame fades out over 240 frames. */
  lemma PlaysFadeOut(b: Buffer, n: nat, u: nat, p: real, i: nat)
    requires Valid(b) && !Waits(b) && u + i < n
    requires ReadsAt(b, n, u, p) && |b.queue| as real <= p
    requires u > 0 ==> p - Pull(b, n).after.rate < |b.queue| as real
    ensures |Pull(b, n).out| == n && |Newest(b)| == b.cfg.channels
    ensures IsFaded(Pull(b, n).out[u + i], Newest(b), i)
  {
    FadesOut(b, n, u, p, i);
    ScaleIsFaded(Newest(b), i);
  }

  /** A pull runs dry exactly when its last output frame reads past the queue. */
  lemma RunsDryIff(b: Buffer, n: nat, p: real)
    requires Valid(b) && !Waits(b) && ReadsAt(b, n, n - 1, p)
    ensures Pull(b, n).after.stats
         == b.stats.(underruns := b.stats.underruns + if n >= 1 && |b.queue| as real <= p then 1 else 0)
    ensures Pull(b, n).after.expected == b.expected && Pull(b, n).after.cfg == b.cfg
  {
    UnderrunsIff(b, n);
    if n >= 1 {
      ReadsThere(b, n, n - 1, p);
    }
  }

  /** A pull that runs dry leaves an empty buffer that warms up again. */
  lemma UnderrunLeaves(b: Buffer, n: nat)
    requires Valid(b) && !Waits(b) && Pull(b, n).after.stats.underruns != b.stats.underruns
    ensures var a := Pull(b, n).after;
            && a.queue == [] && a.frac == 0.0 && a.warming && |a.prev| == b.cfg.channels
            && forall c :: 0 <= c < b.cfg.channels ==> a.prev[c] == 0
  {
  }

  lemma FlowLeaves(s: Buffer, n: nat, p: real)
    requires Playing(s) && n >= 1 && p == Position(s.frac, s.rate, n - 1) && p < |s.queue| as real
    ensures 0 <= p.Floor < |s.queue| && Reaches(s, n)
    ensures Flow(s, n).after
         == s.(queue := s.queue[p.Floor..], prev := Ahead(s)[p.Floor], frac := p + s.rate - p.Floor as real)
  {
    PositionNonNegative(s, n - 1);
  }

  lemma StartedLeaves(s: Buffer, n: nat, p: real)
    requires Playing(s) && n >= 1 && p == s.frac + Times((n - 1) as real, s.rate) && p < |s.queue| as real
    ensures 0 <= p.Floor < |s.queue|
    ensures Render(s, n).after
         == s.(queue := s.queue[p.Floor..], prev := Ahead(s)[p.Floor], frac := p + s.rate - p.Floor as real)
  {
    PositionIsLinear(s.frac, s.rate, n - 1);
    FlowLeaves(s, n, p);
    RendersFlow(s, n);
  }

  /** Any other pull holds the frame its last output started from, keeps what is behind it, and stands one step further. */
  lemma PullLeaves(b: Buffer, n: nat, p: real)
    requires Valid(b) && !Waits(b) && n >= 1 && ReadsAt(b, n, n - 1, p) && p < |b.queue| as real
    ensures 0 <= p.Floor < |b.queue|
    ensures var a := Pull(b, n).after;
            && a.queue == b.queue[p.Floor..] && a.prev == Ahead(b)[p.Floor] && !a.warming
            && a.frac == p + a.rate - p.Floor as real
  {
    ReadsThere(b, n, n - 1, p);
    NextRateValid(Primed(b));
    StartedLeaves(Started(b), n, p);
  }

  /** A pull of nothing moves the rate and nothing else. */
  lemma EmptyPull(b: Buffer)
    requires Valid(b) && !Waits(b)
    ensures var a := Pull(b, 0).after;
            a == b.(rate := a.rate, warming := false, frac := if b.warming then 0.0 else b.frac)
  {
    NextRateValid(Primed(b));
  }

  // ---------------------------------------------------------------- a push

  /** How far a number is ahead of the expected one, around the 32-bit circle. */
  function AheadBy(b: Buffer, number: U32): nat {
    if b.expected.Some? then (number - b.expected.value) % 0x1_0000_0000 else 0
  }

  /** A number up to half the circle behind the expected one is late: it is counted, and nothing else happens. */
  lemma LateIsDropped(b: Buffer, number: U32, samples: seq<Sample>)
    requires Valid(b)
    ensures AheadBy(b, number) >= 0x8000_0000
            <==> Push(b, number, samples) == b.(stats := b.stats.(late := b.stats.late + 1))
  {
  }

  lemma Treats(b: Buffer, number: U32)
    ensures Decide(b.expected, number)
         == if AheadBy(b, number) >= 0x8000_0000 then Late
            else if AheadBy(b, number) > 50 then Resync
            else Accept(AheadBy(b, number))
  {
  }

  /** Frames queued for a packet before the cap is applied: what is queued, the filler and the packet's whole frames. */
  predicate Adds(base: Buffer, samples: seq<Sample>, filler: nat, total: nat)
    requires base.cfg.channels > 0
  {
    total == |base.queue| + filler + |samples| / base.cfg.channels
  }

  /** Frames that are kept: all of them up to the cap, and the newest `target` beyond it. */
  function Kept(cfg: Config, total: nat): nat {
    if total <= cfg.max then total else cfg.target
  }

  /** The counters after a packet that fills `missing` slots and has the oldest frames beyond the cap dropped. */
  predicate Counts(before: Stats, after: Stats, cfg: Config, missing: nat, total: nat) {
    && after.accepted == before.accepted + 1 && after.lost == before.lost + missing
    && after.overruns == before.overruns + (total - Kept(cfg, total)) * cfg.channels
    && after.late == before.late && after.underruns == before.underruns && after.resyncs == before.resyncs
  }

  lemma TrimmedCounts(full: Buffer, total: nat)
    requires ValidConfig(full.cfg) && total == |full.queue|
    ensures Kept(full.cfg, total) <= total && Trim(full).queue == full.queue[total - Kept(full.cfg, total)..]
    ensures Trim(full).stats.overruns == full.stats.overruns + (total - Kept(full.cfg, total)) * full.cfg.channels
    ensures Trim(full) == full.(queue := Trim(full).queue, stats := full.stats.(overruns := Trim(full).stats.overruns))
  {
    assert 0 * full.cfg.channels == 0;
  }

  lemma Enqueued(base: Buffer, number: U32, missing: nat, samples: seq<Sample>, filler: nat, total: nat)
    requires Valid(base) && filler == missing * base.cfg.framesPerPacket && Adds(base, samples, filler, total)
    ensures var full := base.queue + Faded(Newest(base), filler) + Deinterleave(samples, base.cfg.channels);
            var a := Enqueue(Bridge(base, number, missing), Deinterleave(samples, base.cfg.channels));
            && |full| == total && Kept(base.cfg, total) <= total
            && a.queue == full[total - Kept(base.cfg, total)..]
            && Counts(base.stats, a.stats, base.cfg, missing, total)
  {
    DeinterleaveLength(samples, base.cfg.channels);
    var bridged := Bridge(base, number, missing);
    TrimmedCounts(bridged.(queue := bridged.queue + Deinterleave(samples, base.cfg.channels),
                           stats := bridged.stats.(accepted := bridged.stats.accepted + 1)), total);
  }

  /** `y` is frame `k` of the interleaved samples. */
  predicate IsFrameOf(y: Frame, samples: seq<Sample>, k: nat) {
    forall c :: 0 <= c < |y| ==> SampleAt(y[c], samples, k, |y|, c)
  }

  predicate SampleAt(y: int, samples: seq<Sample>, k: nat, channels: nat, c: nat) {
    k * channels + c < |samples| && y == samples[k * channels + c]
  }

  /** `y` is frame `j` of what is queued for a packet: the queue, then the newest frame fading out, then the packet. */
  predicate Holds(base: Buffer, samples: seq<Sample>, filler: nat, j: nat, y: Frame) {
    && |y| == base.cfg.channels
    && if j < |base.queue| then y == base.queue[j]
       else if j < |base.queue| + filler then IsFaded(y, Newest(base), j - |base.queue|)
       else IsFrameOf(y, samples, j - |base.queue| - filler)
  }

  lemma DeinterleavedFrame(samples: seq<Sample>, channels: nat, k: nat)
    requires channels > 0 && k < |samples| / channels
    ensures |Deinterleave(samples, channels)| == |samples| / channels
    ensures IsFrameOf(Deinterleave(samples, channels)[k], samples, k)
  {
    DeinterleaveLength(samples, channels);
    forall c | 0 <= c < channels ensures SampleAt(Deinterleave(samples, channels)[k][c], samples, k, channels, c) {
      DeinterleaveAt(samples, channels, k, c);
    }
  }

  lemma HoldsThere(base: Buffer, samples: seq<Sample>, filler: nat, total: nat, j: nat)
    requires Valid(base) && Adds(base, samples, filler, total) && j < total
    ensures var full := base.queue + Faded(Newest(base), filler) + Deinterleave(samples, base.cfg.channels);
            |full| == total && Holds(base, samples, filler, j, full[j])
  {
    DeinterleaveLength(samples, base.cfg.channels);
    if |base.queue| <= j < |base.queue| + filler {
      ScaleIsFaded(Newest(base), j - |base.queue|);
    } else if |base.queue| + filler <= j {
      DeinterleavedFrame(samples, base.cfg.channels, j - |base.queue| - filler);
    }
  }

  /** The next number after a packet that is not late, the reader, and every frame of the queue. */
  predicate Accepts(b: Buffer, base: Buffer, number: U32, samples: seq<Sample>, filler: nat, total: nat, a: Buffer) {
    && a.cfg == b.cfg == base.cfg
    && a.expected == Some((number + 1) % 0x1_0000_0000)
    && a.prev == base.prev && a.frac == base.frac && a.rate == base.rate && a.warming == base.warming
    && |a.queue| == Kept(b.cfg, total) <= total
    && forall i :: 0 <= i < |a.queue| ==> Holds(base, samples, filler, total - Kept(b.cfg, total) + i, a.queue[i])
  }

  lemma RestHolds(base: Buffer, samples: seq<Sample>, filler: nat, total: nat, from: nat, q: seq<Frame>)
    requires Valid(base) && Adds(base, samples, filler, total) && from <= total
    requires var full := base.queue + Faded(Newest(base), filler) + Deinterleave(samples, base.cfg.channels);
             |full| == total && q == full[from..]
    ensures forall i :: 0 <= i < |q| ==> Holds(base, samples, filler, from + i, q[i])
  {
    forall i | 0 <= i < |q| ensures Holds(base, samples, filler, from + i, q[i]) {
      HoldsThere(base, samples, filler, total, from + i);
    }
  }

  lemma EnqueueAccepts(base: Buffer, number: U32, missing: nat, samples: seq<Sample>, filler: nat, total: nat, a: Buffer)
    requires Valid(base) && filler == missing * base.cfg.framesPerPacket && Adds(base, samples, filler, total)
    requires a == Enqueue(Bridge(base, number, missing), Deinterleave(samples, base.cfg.channels))
    ensures Accepts(base, base, number, samples, filler, total, a) && Counts(base.stats, a.stats, base.cfg, missing, total)
  {
    Enqueued(base, number, missing, samples, filler, total);
    RestHolds(base, samples, filler, total, total - Kept(base.cfg, total), a.queue);
  }

  lemma PushIs(b: Buffer, number: U32, samples: seq<Sample>)
    requires Valid(b)
    ensures AheadBy(b, number) <= 50 ==>
              Push(b, number, samples) == Enqueue(Bridge(b, number, AheadBy(b, number)), Deinterleave(samples, b.cfg.channels))
    ensures 50 < AheadBy(b, number) < 0x8000_0000 ==>
              Push(b, number, samples) == Enqueue(Bridge(Restarted(b), number, 0), Deinterleave(samples, b.cfg.channels))
  {
    Treats(b, number);
  }

  /**
    A packet up to 50 numbers ahead: the buffer keeps its reader, and the queue gets, for
    every missing number, a packet of the newest frame fading out, and then the packet.
   */
  lemma AcceptsNext(b: Buffer, number: U32, samples: seq<Sample>, missing: nat, filler: nat, total: nat)
    requires Valid(b) && missing == AheadBy(b, number) <= 50
    requires filler == missing * b.cfg.framesPerPacket && Adds(b, samples, filler, total)
    ensures Accepts(b, b, number, samples, filler, total, Push(b, number, samples))
    ensures Counts(b.stats, Push(b, number, samples).stats, b.cfg, missing, total)
  {
    PushIs(b, number, samples);
    EnqueueAccepts(b, number, missing, samples, filler, total, Push(b, number, samples));
  }

  /** A packet further ahead starts the buffer over: only its own frames are queued, and nothing is filled in. */
  lemma AcceptsAfterJump(b: Buffer, base: Buffer, number: U32, samples: seq<Sample>, total: nat)
    requires Valid(b) && 50 < AheadBy(b, number) < 0x8000_0000
    requires base == b.(queue := [], prev := seq(b.cfg.channels, _ => 0), frac := 0.0, rate := 1.0, warming := true,
                        expected := None, stats := b.stats.(resyncs := b.stats.resyncs + 1))
    requires total == |samples| / b.cfg.channels
    ensures Accepts(b, base, number, samples, 0, total, Push(b, number, samples))
    ensures Counts(base.stats, Push(b, number, samples).stats, b.cfg, 0, total)
  {
    PushIs(b, number, samples);
    assert base == Restarted(b);
    assert 0 == 0 * b.cfg.framesPerPacket;
    EnqueueAccepts(base, number, 0, samples, 0, total, Push(b, number, samples));
  }

  // ---------------------------------------------------------------- a new buffer

  /** A reset buffer is empty, silent and warming up at rate 1, expects no number, and keeps its counters. */
  lemma ResetLeaves(b: Buffer)
    ensures var a := Reset(b);
            && a.cfg == b.cfg && a.stats == b.stats
            && a.queue == [] && a.frac == 0.0 && a.rate == 1.0 && a.warming && a.expected == None
            && |a.prev| == b.cfg.channels && forall c :: 0 <= c < b.cfg.channels ==> a.prev[c] == 0
  {
  }

  /**
    The sizes of a buffer: whole frames in a packet, at least one; whole frames in the target
    time, at least two packets; and a cap of four targets.
   */
  lemma SizesOf(channels: nat, rateHz: U32, frameMs: U8, targetMs: U32)
    ensures var cfg := NewConfig(channels, rateHz, frameMs, targetMs);
            && cfg.channels == channels
            && cfg.framesPerPacket >= 1 && cfg.target >= 2 * cfg.framesPerPacket && cfg.max == 4 * cfg.target
            && rateHz * frameMs < 1000 * cfg.framesPerPacket + 1000
            && (cfg.framesPerPacket > 1 ==> 1000 * cfg.framesPerPacket <= rateHz * frameMs)
            && rateHz * targetMs < 1000 * cfg.target + 1000
            && (cfg.target > 2 * cfg.framesPerPacket ==> 1000 * cfg.target <= rateHz * targetMs)
  {
  }
}
