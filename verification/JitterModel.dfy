/**
  The jitter buffer as a value, and what each of its operations means.

  Every operation is given in closed form: a pull reads a random-access resampler, a
  concealed gap is a comprehension, and a trim is a suffix. The class in `JitterBuffer`
  computes the same results in place, sample by sample.
 */
module JitterModel {
  import opened Numbers
  import opened Wrappers
  import opened Frames

  const MAX_RATE_DEVIATION := 0.004
  const DRIFT_GAIN := 0.01
  const RATE_SMOOTHING := 0.02
  const RESYNC_GAP_PACKETS := 50
  const FADE_FRAMES := 240

  datatype Stats = Stats(accepted: nat, late: nat, lost: nat, underruns: nat, overruns: nat, resyncs: nat)

  /** Sizes in frames, except `channels`. */
  datatype Config = Config(channels: nat, framesPerPacket: nat, target: nat, max: nat)

  datatype Buffer = Buffer(
    cfg: Config,
    queue: seq<Frame>,
    prev: Frame,
    frac: real,
    rate: real,
    warming: bool,
    expected: Option<U32>,
    stats: Stats)

  function Max(a: nat, b: nat): nat {
    if a < b then b else a
  }

  /** Whole frames in so many milliseconds. */
  function FramesIn(rateHz: U32, ms: U32): nat {
    SpanIsProduct(rateHz, ms);
    rateHz * ms / 1000
  }

  function NewConfig(channels: nat, rateHz: U32, frameMs: U8, targetMs: U32): Config {
    var framesPerPacket := Max(FramesIn(rateHz, frameMs), 1);
    var target := Max(FramesIn(rateHz, targetMs), framesPerPacket * 2);
    Config(channels, framesPerPacket, target, Max(target * 4, framesPerPacket * 8))
  }

  predicate ValidConfig(cfg: Config) {
    && 1 <= cfg.channels
    && 1 <= cfg.framesPerPacket
    && 2 * cfg.framesPerPacket <= cfg.target
    && 4 * cfg.target <= cfg.max
  }

  predicate ValidRate(rate: real) {
    1.0 - MAX_RATE_DEVIATION <= rate <= 1.0 + MAX_RATE_DEVIATION
  }

  /** What every public operation leaves behind. */
  predicate Valid(b: Buffer) {
    && ValidConfig(b.cfg)
    && Sized(b.queue, b.cfg.channels)
    && |b.prev| == b.cfg.channels
    && |b.queue| <= b.cfg.max
    && 0.0 <= b.frac < 2.0 + MAX_RATE_DEVIATION
    && ValidRate(b.rate)
    && (b.warming ==> b.frac == 0.0)
    && (!b.warming ==> b.queue != [])
  }

  function Initial(cfg: Config): Buffer {
    Buffer(cfg, [], Silence(cfg.channels), 0.0, 1.0, true, None, Stats(0, 0, 0, 0, 0, 0))
  }

  /** A reset forgets everything but the counters. */
  function Reset(b: Buffer): Buffer {
    Initial(b.cfg).(stats := b.stats)
  }

  // ---------------------------------------------------------------- push

  datatype Decision = Late | Resync | Accept(missing: nat)

  /** How a packet numbered `seq` is treated. */
  function Decide(expected: Option<U32>, number: U32): Decision {
    match expected
    case None => Accept(0)
    case Some(e) =>
      var delta := Signed32(Wrap32(number - e));
      if delta < 0 then Late else if delta > RESYNC_GAP_PACKETS then Resync else Accept(delta)
  }

  function FadeOut(i: nat): real {
    if i >= FADE_FRAMES then 0.0 else 1.0 - i as real / FADE_FRAMES as real
  }

  function ScaleFrame(frame: Frame, gain: real): Frame {
    seq(|frame|, c requires 0 <= c < |frame| => Scale(frame[c], gain))
  }

  /** `n` frames of a frame fading to silence. */
  function Faded(base: Frame, n: nat): seq<Frame> {
    seq(n, (i: nat) => ScaleFrame(base, FadeOut(i)))
  }

  lemma FadedNext(base: Frame, n: nat)
    ensures Faded(base, n + 1) == Faded(base, n) + [ScaleFrame(base, FadeOut(n))]
  {
  }

  /** Once the gain is zero every later frame of the fade is silence. */
  lemma FadeIsOver(base: Frame, i: nat, j: nat)
    requires FadeOut(i) == 0.0 && i <= j
    ensures ScaleFrame(base, FadeOut(j)) == Silence(|base|)
  {
    assert FadeOut(j) == 0.0;
    forall c | 0 <= c < |base| ensures Scale(base[c], 0.0) == 0 {
      AttenuatedEnds(base[c], 0.0);
      FractionOf(base[c] as real, 0.0);
    }
  }

  /** The newest frame the buffer knows. */
  function LastFrame(b: Buffer): Frame {
    if b.queue != [] then b.queue[|b.queue| - 1] else b.prev
  }

  /** Filler for a gap of so many packets. */
  function Concealment(b: Buffer, packets: nat): seq<Frame> {
    Faded(LastFrame(b), packets * b.cfg.framesPerPacket)
  }

  /** A queue past the cap keeps only its newest `target` frames. */
  function Trim(b: Buffer): Buffer
    requires ValidConfig(b.cfg)
  {
    if |b.queue| <= b.cfg.max then b
    else
      var drop := |b.queue| - b.cfg.target;
      b.(queue := b.queue[drop..], stats := b.stats.(overruns := b.stats.overruns + drop * b.cfg.channels))
  }

  /** The buffer with the slots before packet `number` filled in. */
  function Bridge(b: Buffer, number: U32, missing: nat): Buffer {
    b.(queue := b.queue + Concealment(b, missing),
       expected := Some(Wrap32(number + 1)),
       stats := b.stats.(lost := b.stats.lost + missing))
  }

  /** An accepted packet goes to the end of the queue. */
  function Enqueue(b: Buffer, packet: seq<Frame>): Buffer
    requires ValidConfig(b.cfg)
  {
    Trim(b.(queue := b.queue + packet, stats := b.stats.(accepted := b.stats.accepted + 1)))
  }

  /** A buffer restarted by a jump in the numbering. */
  function Restarted(b: Buffer): Buffer {
    Reset(b.(stats := b.stats.(resyncs := b.stats.resyncs + 1)))
  }

  /** The sequence-number half of a push: a late packet is counted, any other has its slot prepared. */
  function Admit(b: Buffer, number: U32): Buffer {
    match Decide(b.expected, number)
    case Late => b.(stats := b.stats.(late := b.stats.late + 1))
    case Resync => Bridge(Restarted(b), number, 0)
    case Accept(missing) => Bridge(b, number, missing)
  }

  function Push(b: Buffer, number: U32, samples: seq<Sample>): Buffer
    requires ValidConfig(b.cfg)
  {
    if Decide(b.expected, number).Late? then Admit(b, number)
    else Enqueue(Admit(b, number), Deinterleave(samples, b.cfg.channels))
  }

  lemma NoGap(b: Buffer)
    ensures b.queue + Concealment(b, 0) == b.queue
  {
  }

  /** The first packet a buffer sees is played whatever its number. */
  lemma FirstPush(b: Buffer, number: U32, samples: seq<Sample>)
    requires ValidConfig(b.cfg) && b.expected == None
    ensures Push(b, number, samples) == Enqueue(Bridge(b, number, 0), Deinterleave(samples, b.cfg.channels))
  {
  }

  lemma ConcealmentSized(b: Buffer, missing: nat)
    requires Valid(b)
    ensures Sized(Concealment(b, missing), b.cfg.channels)
    ensures |Concealment(b, missing)| == missing * b.cfg.framesPerPacket
  {
  }

  lemma TrimValid(b: Buffer)
    requires Valid(b.(queue := if |b.queue| <= b.cfg.max then b.queue else []).(warming := true, frac := 0.0))
    requires Sized(b.queue, b.cfg.channels)
    requires 0.0 <= b.frac < 2.0 + MAX_RATE_DEVIATION
    requires b.warming ==> b.frac == 0.0
    requires !b.warming ==> b.queue != []
    ensures Valid(Trim(b))
  {
  }

  lemma EnqueueValid(b: Buffer, number: U32, missing: nat, packet: seq<Frame>)
    requires Valid(b) && Sized(packet, b.cfg.channels)
    ensures Valid(Enqueue(Bridge(b, number, missing), packet))
  {
    ConcealmentSized(b, missing);
    var bridged := Bridge(b, number, missing);
    assert Sized(bridged.queue, b.cfg.channels);
    var grown := bridged.(queue := bridged.queue + packet, stats := bridged.stats.(accepted := b.stats.accepted + 1));
    assert Sized(grown.queue, b.cfg.channels);
    TrimValid(grown);
  }

  /** A push keeps the invariant; a queue that would pass the cap is cut to exactly `target`. */
  lemma PushValid(b: Buffer, number: U32, samples: seq<Sample>)
    requires Valid(b)
    ensures Valid(Push(b, number, samples))
  {
    var packet := Deinterleave(samples, b.cfg.channels);
    match Decide(b.expected, number)
    case Late =>
    case Resync => EnqueueValid(Restarted(b), number, 0, packet);
    case Accept(missing) => EnqueueValid(b, number, missing, packet);
  }

  // ---------------------------------------------------------------- pull

  function Clamp(x: real, lo: real, hi: real): real {
    if x < lo then lo else if x > hi then hi else x
  }

  /** The clamped correction the controller asks for, as a deviation from 1. */
  function Correction(fill: nat, target: nat): real
    requires target > 0
  {
    Clamp((fill as real - target as real) / target as real * DRIFT_GAIN, -MAX_RATE_DEVIATION, MAX_RATE_DEVIATION)
  }

  function NextRate(b: Buffer): real
    requires b.cfg.target > 0
  {
    b.rate + (1.0 + Correction(|b.queue|, b.cfg.target) - b.rate) * RATE_SMOOTHING
  }

  /** Where the read head stands before output frame `f`, counted from the frame in `prev`. */
  function Position(frac: real, rate: real, f: nat): real {
    if f == 0 then frac else Position(frac, rate, f - 1) + rate
  }

  lemma {:induction false} PositionIsLinear(frac: real, rate: real, f: nat)
    ensures Position(frac, rate, f) == frac + Times(f as real, rate)
  {
    if f > 0 {
      PositionIsLinear(frac, rate, f - 1);
      TimesNext(f, rate);
    }
  }

  /** How many of `n` output frames find both of their input frames among `fill` queued ones. */
  function Playable(fill: nat, frac: real, rate: real, n: nat): (u: nat)
    ensures u <= n
    ensures u > 0 ==> Position(frac, rate, u - 1).Floor < fill
    ensures u < n ==> fill <= Position(frac, rate, u).Floor
  {
    if n == 0 then 0
    else
      var u := Playable(fill, frac, rate, n - 1);
      if u < n - 1 || fill <= Position(frac, rate, n - 1).Floor then u else n
  }

  /** Everything the read head can still reach: the held frame and the queue. */
  function Reachable(b: Buffer): seq<Frame> {
    [b.prev] + b.queue
  }

  function LerpFrame(a: Frame, b: Frame, t: real): Frame
    requires |a| == |b|
  {
    seq(|a|, c requires 0 <= c < |a| => Lerp(a[c], b[c], t))
  }

  /** The input interpolated at a fractional position. */
  function Resampled(x: seq<Frame>, p: real, channels: nat): Frame
    requires Sized(x, channels) && 0 <= p.Floor && p.Floor + 1 < |x|
  {
    LerpFrame(x[p.Floor], x[p.Floor + 1], p - p.Floor as real)
  }

  datatype Pulled = Pulled(after: Buffer, out: seq<Frame>, popped: nat)

  /** The state in which a warmed-up buffer starts to interpolate. */
  function Primed(b: Buffer): Buffer {
    if b.warming then b.(warming := false, frac := 0.0, rate := 1.0) else b
  }

  predicate StillWarming(b: Buffer) {
    b.warming && |b.queue| < b.cfg.target
  }

  /** `n` output frames. */
  function Pull(b: Buffer, n: nat): Pulled
    requires Valid(b)
  {
    if StillWarming(b) then
      Pulled(b, Repeat(Silence(b.cfg.channels), n), 0)
    else
      Render(Primed(b).(rate := NextRate(Primed(b))), n)
  }

  predicate Playing(b: Buffer) {
    && ValidConfig(b.cfg)
    && Sized(b.queue, b.cfg.channels)
    && |b.prev| == b.cfg.channels
    && 0.0 <= b.frac
    && ValidRate(b.rate)
  }

  lemma {:induction false} PositionRises(frac: real, rate: real, f: nat, g: nat)
    requires f <= g && 0.0 <= rate
    ensures Position(frac, rate, f) <= Position(frac, rate, g)
  {
    if f < g {
      PositionRises(frac, rate, f, g - 1);
    }
  }

  /** The first `n` output frames find both of their input frames: the last of them does. */
  predicate Reaches(b: Buffer, n: nat) {
    n > 0 ==> Position(b.frac, b.rate, n - 1).Floor < |b.queue|
  }

  /** The resampled frames that can be played. */
  function Resample(b: Buffer, u: nat): seq<Frame>
    requires Playing(b) && Reaches(b, u)
  {
    seq(u, f requires 0 <= f < u =>
      NeighboursReachable(b, f, u);
      Resampled(Reachable(b), Position(b.frac, b.rate, f), b.cfg.channels))
  }

  lemma NeighboursReachable(b: Buffer, f: nat, u: nat)
    requires Playing(b) && Reaches(b, u) && f < u
    ensures 0 <= Position(b.frac, b.rate, f).Floor < |b.queue|
    ensures Sized(Reachable(b), b.cfg.channels)
  {
    PositionNonNegative(b, f);
    PositionRises(b.frac, b.rate, f, u - 1);
  }

  lemma PositionNonNegative(b: Buffer, f: nat)
    requires Playing(b)
    ensures b.frac <= Position(b.frac, b.rate, f)
    ensures Sized(Reachable(b), b.cfg.channels)
  {
    PositionRises(b.frac, b.rate, 0, f);
  }

  /** A pull once the rate is settled: resampled audio, then a fade if the queue runs dry. */
  function Render(b: Buffer, n: nat): Pulled
    requires Playing(b)
  {
    var u := Playable(|b.queue|, b.frac, b.rate, n);
    if u < n then RunDry(b, u, n) else Flow(b, n)
  }

  function Flow(b: Buffer, n: nat): Pulled
    requires Playing(b) && Reaches(b, n)
  {
    var popped := Popped(b, n);
    Pulled(
      b.(queue := b.queue[popped..], prev := Reachable(b)[popped],
         frac := Position(b.frac, b.rate, n) - popped as real),
      Resample(b, n),
      popped)
  }

  /** The queue has nothing left for output frame `u`: fade out what was heard last. */
  function RunDry(b: Buffer, u: nat, n: nat): Pulled
    requires Playing(b) && Reaches(b, u) && u <= n
  {
    Pulled(Dried(b), Resample(b, u) + Faded(LastFrame(b), n - u), |b.queue|)
  }

  /** After an underrun the buffer warms up again; the rate and the expected number stay. */
  function Dried(b: Buffer): Buffer {
    b.(queue := [], prev := Silence(b.cfg.channels), frac := 0.0, warming := true,
       stats := b.stats.(underruns := b.stats.underruns + 1))
  }

  /** Input frames the read head has left behind after `n` output frames without an underrun. */
  function Popped(b: Buffer, n: nat): (popped: nat)
    requires Playing(b) && Reaches(b, n)
    ensures popped <= |b.queue|
  {
    if n == 0 then 0
    else
      PositionNonNegative(b, n - 1);
      Position(b.frac, b.rate, n - 1).Floor
  }

  lemma {:induction false} AllPlayable(b: Buffer, n: nat)
    requires Playing(b) && Reaches(b, n)
    ensures Playable(|b.queue|, b.frac, b.rate, n) == n
  {
    if n > 1 {
      PositionRises(b.frac, b.rate, n - 2, n - 1);
      AllPlayable(b, n - 1);
    }
  }

  lemma {:induction false} PlayableIs(b: Buffer, f: nat, n: nat)
    requires Playing(b) && f <= n && Reaches(b, f)
    requires f < n ==> |b.queue| <= Position(b.frac, b.rate, f).Floor
    ensures Playable(|b.queue|, b.frac, b.rate, n) == f
  {
    if f == n {
      AllPlayable(b, n);
    } else {
      PlayableIs(b, f, n - 1);
    }
  }

  /** A reader that has used up the queue holds its newest frame. */
  lemma LastReachable(b: Buffer)
    ensures Reachable(b)[|b.queue|] == LastFrame(b)
  {
  }

  /** A reader that has used up the queue at output frame `f` renders the fade from there on. */
  lemma RendersDry(b: Buffer, f: nat, n: nat)
    requires Playing(b) && Reaches(b, f) && f < n
    requires |b.queue| as real <= Position(b.frac, b.rate, f)
    ensures Render(b, n) == RunDry(b, f, n)
  {
    assert |b.queue| <= Position(b.frac, b.rate, f).Floor;
    PlayableIs(b, f, n);
  }

  lemma RendersFlow(b: Buffer, n: nat)
    requires Playing(b) && Reaches(b, n)
    ensures Render(b, n) == Flow(b, n)
  {
    PlayableIs(b, n, n);
  }

  /** The next output frame interpolates between the held frame and the head of the queue. */
  lemma ResampleNext(b: Buffer, f: nat, k: nat)
    requires Playing(b) && Reaches(b, f) && k < |b.queue|
    requires k as real <= Position(b.frac, b.rate, f) < k as real + 1.0
    ensures Reaches(b, f + 1) && Popped(b, f + 1) == k
    ensures Resample(b, f + 1)
         == Resample(b, f) + [LerpFrame(Reachable(b)[k], b.queue[k], Position(b.frac, b.rate, f) - k as real)]
  {
    assert Position(b.frac, b.rate, f).Floor == k;
    assert Reachable(b)[k + 1] == b.queue[k];
    forall g | 0 <= g < f
      ensures Resample(b, f + 1)[g] == Resample(b, f)[g]
    {
      NeighboursReachable(b, g, f);
    }
  }

  lemma WritesNext(b: Buffer, f: nat, k: nat, before: seq<Sample>, frame: Frame)
    requires Playing(b) && Reaches(b, f) && k < |b.queue|
    requires k as real <= Position(b.frac, b.rate, f) < k as real + 1.0
    requires before == Interleave(Resample(b, f))
    requires frame == LerpFrame(Reachable(b)[k], b.queue[k], Position(b.frac, b.rate, f) - k as real)
    ensures Reaches(b, f + 1) && Popped(b, f + 1) == k
    ensures before + frame == Interleave(Resample(b, f + 1))
  {
    ResampleNext(b, f, k);
    InterleaveAppend(Resample(b, f), frame);
  }

  /** The controller never leaves its band. */
  lemma NextRateValid(b: Buffer)
    requires b.cfg.target > 0 && ValidRate(b.rate)
    ensures ValidRate(NextRate(b))
  {
  }

  lemma ResampleSized(b: Buffer, u: nat)
    requires Playing(b) && Reaches(b, u)
    ensures Sized(Resample(b, u), b.cfg.channels)
  {
    forall f | 0 <= f < u ensures |Resample(b, u)[f]| == b.cfg.channels {
      NeighboursReachable(b, f, u);
    }
  }

  lemma FadedSized(base: Frame, n: nat)
    ensures Sized(Faded(base, n), |base|)
  {
  }

  /** What is left after `n` played frames. */
  lemma RenderLeaves(b: Buffer, n: nat)
    requires Playing(b) && Reaches(b, n) && b.queue != [] && b.frac < 2.0 + MAX_RATE_DEVIATION
    ensures Popped(b, n) < |b.queue|
    ensures 0.0 <= Position(b.frac, b.rate, n) - Popped(b, n) as real < 2.0 + MAX_RATE_DEVIATION
  {
    if n > 0 {
      PositionNonNegative(b, n - 1);
      assert Position(b.frac, b.rate, n) == Position(b.frac, b.rate, n - 1) + b.rate;
    }
  }

  lemma RenderValid(b: Buffer, n: nat)
    requires Valid(b) && !b.warming
    ensures Valid(Render(b, n).after)
    ensures Sized(Render(b, n).out, b.cfg.channels) && |Render(b, n).out| == n
  {
    var u := Playable(|b.queue|, b.frac, b.rate, n);
    ResampleSized(b, u);
    if u < n {
      FadedSized(LastFrame(b), n - u);
    } else {
      RenderLeaves(b, n);
      PositionNonNegative(b, n);
    }
  }

  /** A pull keeps the invariant and always produces exactly `n` whole frames. */
  lemma PullValid(b: Buffer, n: nat)
    requires Valid(b)
    ensures Valid(Pull(b, n).after)
    ensures Sized(Pull(b, n).out, b.cfg.channels) && |Pull(b, n).out| == n
  {
    if !StillWarming(b) {
      NextRateValid(Primed(b));
      RenderValid(Primed(b).(rate := NextRate(Primed(b))), n);
    }
  }
}
