/**
  What holds over whole runs of a jitter buffer: any interleaving of pushes, pulls and
  resets, of any packets and any pull sizes, from any valid state.
 */
module JitterRuns {
  import opened Numbers
  import opened Frames
  import opened JitterModel

  datatype Event =
    | Pushed(number: U32, samples: seq<Sample>)
    | Drawn(n: nat)
    | Cleared

  function Apply(b: Buffer, e: Event): Buffer
    requires Valid(b)
  {
    match e
    case Pushed(number, samples) => Push(b, number, samples)
    case Drawn(n) => Pull(b, n).after
    case Cleared => Reset(b)
  }

  /** Every operation keeps the invariant. */
  lemma ApplyValid(b: Buffer, e: Event)
    requires Valid(b)
    ensures Valid(Apply(b, e)) && Apply(b, e).cfg == b.cfg
  {
    match e
    case Pushed(number, samples) => PushValid(b, number, samples);
    case Drawn(n) => PullValid(b, n);
    case Cleared =>
  }

  function Run(b: Buffer, es: seq<Event>): (after: Buffer)
    requires Valid(b)
    ensures Valid(after) && after.cfg == b.cfg
    decreases |es|
  {
    if es == [] then b
    else
      ApplyValid(b, es[0]);
      Run(Apply(b, es[0]), es[1..])
  }

  lemma NewConfigValid(channels: nat, rateHz: U32, frameMs: U8, targetMs: U32)
    requires channels >= 1
    ensures ValidConfig(NewConfig(channels, rateHz, frameMs, targetMs))
    ensures Valid(Initial(NewConfig(channels, rateHz, frameMs, targetMs)))
  {
  }

  /** From a new buffer, after any run: the fill is capped, the rate is in its band, a playing buffer is not empty. */
  lemma AlwaysValid(channels: nat, rateHz: U32, frameMs: U8, targetMs: U32, es: seq<Event>)
    requires channels >= 1
    ensures Valid(Initial(NewConfig(channels, rateHz, frameMs, targetMs)))
    ensures var b := Run(Initial(NewConfig(channels, rateHz, frameMs, targetMs)), es);
            && |b.queue| <= b.cfg.max
            && 2 * b.cfg.framesPerPacket <= b.cfg.target <= b.cfg.max
            && 0.996 <= b.rate <= 1.004
            && 0.0 <= b.frac < 2.004
            && (!b.warming ==> b.queue != [])
  {
    NewConfigValid(channels, rateHz, frameMs, targetMs);
  }

  // ---------------------------------------------------------------- conservation

  /** Where the frames of a run went. */
  datatype Ledger = Ledger(accepted: nat, concealed: nat, popped: nat, dropped: nat, flushed: nat)

  function Plus(a: Ledger, b: Ledger): Ledger {
    Ledger(a.accepted + b.accepted, a.concealed + b.concealed, a.popped + b.popped,
           a.dropped + b.dropped, a.flushed + b.flushed)
  }

  /** Frames cut off by the cap when the queue has `fill` frames. */
  function Overflow(cfg: Config, fill: nat): nat
    requires ValidConfig(cfg)
  {
    if fill <= cfg.max then 0 else fill - cfg.target
  }

  /** What one event does to the frames. */
  function Entry(b: Buffer, e: Event): Ledger
    requires Valid(b)
  {
    match e
    case Cleared => Ledger(0, 0, 0, 0, |b.queue|)
    case Drawn(n) =>
      var p := Pull(b, n);
      var underrun := p.after.stats.underruns != b.stats.underruns;
      Ledger(0, 0, p.popped, 0, if underrun then |b.queue| - Min(p.popped, |b.queue|) else 0)
    case Pushed(number, samples) =>
      var whole := |samples| / b.cfg.channels;
      match Decide(b.expected, number)
      case Late => Ledger(0, 0, 0, 0, 0)
      case Resync => Ledger(whole, 0, 0, Overflow(b.cfg, whole), |b.queue|)
      case Accept(missing) =>
        var filler := missing * b.cfg.framesPerPacket;
        Ledger(whole, filler, 0, Overflow(b.cfg, |b.queue| + filler + whole), 0)
  }

  function Min(a: nat, b: nat): nat {
    if a < b then a else b
  }

  function Entries(b: Buffer, es: seq<Event>): Ledger
    requires Valid(b)
    decreases |es|
  {
    if es == [] then Ledger(0, 0, 0, 0, 0)
    else
      ApplyValid(b, es[0]);
      Plus(Entry(b, es[0]), Entries(Apply(b, es[0]), es[1..]))
  }

  predicate Balanced(before: Buffer, after: Buffer, l: Ledger) {
    && l.accepted + l.concealed + |before.queue| == l.popped + l.dropped + l.flushed + |after.queue|
    && after.stats.lost >= before.stats.lost
    && l.concealed == (after.stats.lost - before.stats.lost) * before.cfg.framesPerPacket
    && after.stats.overruns == before.stats.overruns + l.dropped * before.cfg.channels
  }

  lemma EnqueueBalanced(b: Buffer, missing: nat, number: U32, packet: seq<Frame>)
    requires Valid(b)
    ensures var after := Enqueue(Bridge(b, number, missing), packet);
            var filler := missing * b.cfg.framesPerPacket;
            var dropped := Overflow(b.cfg, |b.queue| + filler + |packet|);
            && |after.queue| + dropped == |b.queue| + filler + |packet|
            && after.stats.lost == b.stats.lost + missing
            && after.stats.overruns == b.stats.overruns + dropped * b.cfg.channels
  {
    ConcealmentSized(b, missing);
    assert 0 * b.cfg.channels == 0;
  }

  lemma LateBalanced(b: Buffer, number: U32, samples: seq<Sample>)
    requires Valid(b) && Decide(b.expected, number).Late?
    ensures Balanced(b, Push(b, number, samples), Entry(b, Pushed(number, samples)))
  {
    NothingTimes(b.cfg.channels, b.cfg.framesPerPacket);
  }

  lemma ResyncBalanced(b: Buffer, number: U32, samples: seq<Sample>)
    requires Valid(b) && Decide(b.expected, number).Resync?
    ensures Balanced(b, Push(b, number, samples), Entry(b, Pushed(number, samples)))
  {
    NothingTimes(b.cfg.channels, b.cfg.framesPerPacket);
    DeinterleaveLength(samples, b.cfg.channels);
    EnqueueBalanced(Restarted(b), 0, number, Deinterleave(samples, b.cfg.channels));
  }

  lemma AcceptBalanced(b: Buffer, number: U32, samples: seq<Sample>, missing: nat)
    requires Valid(b) && Decide(b.expected, number) == Accept(missing)
    ensures Balanced(b, Push(b, number, samples), Entry(b, Pushed(number, samples)))
  {
    DeinterleaveLength(samples, b.cfg.channels);
    EnqueueBalanced(b, missing, number, Deinterleave(samples, b.cfg.channels));
  }

  lemma PushBalanced(b: Buffer, number: U32, samples: seq<Sample>)
    requires Valid(b)
    ensures Balanced(b, Push(b, number, samples), Entry(b, Pushed(number, samples)))
  {
    match Decide(b.expected, number)
    case Late => LateBalanced(b, number, samples);
    case Resync => ResyncBalanced(b, number, samples);
    case Accept(missing) => AcceptBalanced(b, number, samples, missing);
  }

  lemma NothingTimes(a: nat, b: nat)
    ensures 0 * a == 0 && 0 * b == 0
  {
  }

  /** A pull takes exactly what it pops; the queue that an underrun clears is already empty. */
  lemma PullBalanced(b: Buffer, n: nat)
    requires Valid(b)
    ensures |Pull(b, n).after.queue| + Pull(b, n).popped == |b.queue|
    ensures Pull(b, n).after.stats.underruns != b.stats.underruns ==> Pull(b, n).popped == |b.queue|
    ensures Balanced(b, Pull(b, n).after, Entry(b, Drawn(n)))
  {
    assert 0 * b.cfg.channels == 0 && 0 * b.cfg.framesPerPacket == 0;
  }

  lemma ApplyBalanced(b: Buffer, e: Event)
    requires Valid(b)
    ensures Balanced(b, Apply(b, e), Entry(b, e))
  {
    match e
    case Pushed(number, samples) => PushBalanced(b, number, samples);
    case Drawn(n) => PullBalanced(b, n);
    case Cleared => assert 0 * b.cfg.channels == 0 && 0 * b.cfg.framesPerPacket == 0;
  }

  lemma BalanceAdds(a: Buffer, b: Buffer, c: Buffer, l: Ledger, m: Ledger)
    requires a.cfg == b.cfg && Balanced(a, b, l) && Balanced(b, c, m)
    ensures Balanced(a, c, Plus(l, m))
  {
    var fpp, ch := a.cfg.framesPerPacket, a.cfg.channels;
    assert (b.stats.lost - a.stats.lost) * fpp + (c.stats.lost - b.stats.lost) * fpp == (c.stats.lost - a.stats.lost) * fpp;
    assert l.dropped * ch + m.dropped * ch == (l.dropped + m.dropped) * ch;
  }

  lemma {:induction false} RunBalanced(b: Buffer, es: seq<Event>)
    requires Valid(b)
    ensures Balanced(b, Run(b, es), Entries(b, es))
    decreases |es|
  {
    if es == [] {
      assert 0 * b.cfg.channels == 0 && 0 * b.cfg.framesPerPacket == 0;
    } else {
      var next := Apply(b, es[0]);
      ApplyValid(b, es[0]);
      ApplyBalanced(b, es[0]);
      RunBalanced(next, es[1..]);
      BalanceAdds(b, next, Run(b, es), Entry(b, es[0]), Entries(next, es[1..]));
    }
  }

  /** Samples are conserved: in samples, from a new buffer, over every run. */
  lemma SamplesConserved(cfg: Config, es: seq<Event>)
    requires ValidConfig(cfg)
    ensures var b, l := Run(Initial(cfg), es), Entries(Initial(cfg), es);
            l.accepted * cfg.channels + b.stats.lost * cfg.framesPerPacket * cfg.channels
            == l.popped * cfg.channels + b.stats.overruns + l.flushed * cfg.channels + |b.queue| * cfg.channels
  {
    RunBalanced(Initial(cfg), es);
    InSamples(Initial(cfg), Run(Initial(cfg), es), Entries(Initial(cfg), es));
  }

  lemma InSamples(a: Buffer, b: Buffer, l: Ledger)
    requires Balanced(a, b, l) && a.queue == [] && a.stats.lost == 0 && a.stats.overruns == 0
    ensures l.accepted * a.cfg.channels + b.stats.lost * a.cfg.framesPerPacket * a.cfg.channels
         == l.popped * a.cfg.channels + b.stats.overruns + l.flushed * a.cfg.channels + |b.queue| * a.cfg.channels
  {
    SumsTimes(l.accepted, l.concealed, l.popped, l.dropped, l.flushed, |b.queue|, a.cfg.channels);
  }

  lemma SumsTimes(a: nat, c: nat, p: nat, d: nat, f: nat, q: nat, m: nat)
    requires a + c == p + d + f + q
    ensures a * m + c * m == p * m + d * m + f * m + q * m
  {
    assert (a + c) * m == a * m + c * m;
    assert (p + d + f + q) * m == p * m + d * m + f * m + q * m;
  }

  // ---------------------------------------------------------------- amplitude

  predicate Quiet(frame: seq<Sample>, amplitude: nat) {
    forall c :: 0 <= c < |frame| ==> Within(frame[c], amplitude)
  }

  predicate AllQuiet(frames: seq<Frame>, amplitude: nat) {
    forall i :: 0 <= i < |frames| ==> Quiet(frames[i], amplitude)
  }

  predicate QuietBuffer(b: Buffer, amplitude: nat) {
    AllQuiet(b.queue, amplitude) && Quiet(b.prev, amplitude)
  }

  lemma {:induction false} DeinterleaveQuiet(samples: seq<Sample>, channels: nat, amplitude: nat)
    requires channels > 0 && Quiet(samples, amplitude)
    ensures AllQuiet(Deinterleave(samples, channels), amplitude)
  {
    if |samples| >= channels {
      DeinterleaveQuiet(samples[channels..], channels, amplitude);
    }
  }

  lemma FadedQuiet(base: Frame, n: nat, amplitude: nat)
    requires Quiet(base, amplitude)
    ensures AllQuiet(Faded(base, n), amplitude)
  {
    forall i, c | 0 <= i < n && 0 <= c < |base| ensures Within(Faded(base, n)[i][c], amplitude) {
      ScaleWithin(base[c], FadeOut(i), amplitude);
    }
  }

  lemma ResampleQuiet(b: Buffer, u: nat, amplitude: nat)
    requires Playing(b) && Reaches(b, u) && QuietBuffer(b, amplitude)
    ensures AllQuiet(Resample(b, u), amplitude)
  {
    var x := Reachable(b);
    assert AllQuiet(x, amplitude);
    forall f, c | 0 <= f < u && 0 <= c < |Resample(b, u)[f]| ensures Within(Resample(b, u)[f][c], amplitude) {
      NeighboursReachable(b, f, u);
      var p := Position(b.frac, b.rate, f);
      LerpWithin(x[p.Floor][c], x[p.Floor + 1][c], p - p.Floor as real, amplitude);
    }
  }

  lemma EnqueueQuiet(b: Buffer, number: U32, missing: nat, packet: seq<Frame>, amplitude: nat)
    requires Valid(b) && QuietBuffer(b, amplitude) && AllQuiet(packet, amplitude)
    ensures QuietBuffer(Enqueue(Bridge(b, number, missing), packet), amplitude)
  {
    FadedQuiet(LastFrame(b), missing * b.cfg.framesPerPacket, amplitude);
    assert AllQuiet(b.queue + Concealment(b, missing), amplitude);
    assert AllQuiet(b.queue + Concealment(b, missing) + packet, amplitude);
  }

  lemma PushQuiet(b: Buffer, number: U32, samples: seq<Sample>, amplitude: nat)
    requires Valid(b) && QuietBuffer(b, amplitude) && Quiet(samples, amplitude)
    ensures QuietBuffer(Push(b, number, samples), amplitude)
  {
    var packet := Deinterleave(samples, b.cfg.channels);
    DeinterleaveQuiet(samples, b.cfg.channels, amplitude);
    match Decide(b.expected, number)
    case Late =>
    case Resync => EnqueueQuiet(Restarted(b), number, 0, packet, amplitude);
    case Accept(missing) => EnqueueQuiet(b, number, missing, packet, amplitude);
  }

  lemma RenderQuiet(b: Buffer, n: nat, amplitude: nat)
    requires Playing(b) && QuietBuffer(b, amplitude)
    ensures QuietBuffer(Render(b, n).after, amplitude)
    ensures AllQuiet(Render(b, n).out, amplitude)
  {
    var u := Playable(|b.queue|, b.frac, b.rate, n);
    ResampleQuiet(b, u, amplitude);
    assert AllQuiet(Reachable(b), amplitude);
    if u < n {
      FadedQuiet(LastFrame(b), n - u, amplitude);
    }
  }

  lemma PullQuiet(b: Buffer, n: nat, amplitude: nat)
    requires Valid(b) && QuietBuffer(b, amplitude)
    ensures QuietBuffer(Pull(b, n).after, amplitude)
    ensures AllQuiet(Pull(b, n).out, amplitude)
  {
    if !StillWarming(b) {
      NextRateValid(Primed(b));
      RenderQuiet(Primed(b).(rate := NextRate(Primed(b))), n, amplitude);
    }
  }

  predicate QuietEvents(es: seq<Event>, amplitude: nat) {
    forall i :: 0 <= i < |es| && es[i].Pushed? ==> Quiet(es[i].samples, amplitude)
  }

  /** Everything a run plays, in order. */
  function Heard(b: Buffer, es: seq<Event>): seq<Frame>
    requires Valid(b)
    decreases |es|
  {
    if es == [] then []
    else
      ApplyValid(b, es[0]);
      (if es[0].Drawn? then Pull(b, es[0].n).out else []) + Heard(Apply(b, es[0]), es[1..])
  }

  /** No run ever stores or plays a sample louder than the loudest one pushed. */
  lemma {:induction false} NeverLouder(b: Buffer, es: seq<Event>, amplitude: nat)
    requires Valid(b) && QuietBuffer(b, amplitude) && QuietEvents(es, amplitude)
    ensures QuietBuffer(Run(b, es), amplitude)
    ensures AllQuiet(Heard(b, es), amplitude)
    decreases |es|
  {
    if es != [] {
      ApplyValid(b, es[0]);
      match es[0] {
        case Pushed(number, samples) => PushQuiet(b, number, samples, amplitude);
        case Drawn(n) => PullQuiet(b, n, amplitude);
        case Cleared =>
      }
      NeverLouder(Apply(b, es[0]), es[1..], amplitude);
    }
  }

  // ---------------------------------------------------------------- consumption

  /** A pull that interpolates all the way. */
  predicate Smooth(b: Buffer, n: nat)
    requires Valid(b)
  {
    !b.warming && Pull(b, n).after.stats.underruns == b.stats.underruns
  }

  lemma SmoothPull(b: Buffer, n: nat)
    requires Valid(b) && Smooth(b, n)
    ensures var r := b.(rate := NextRate(b)); Playing(r) && Reaches(r, n) && Pull(b, n) == Flow(r, n)
  {
    NextRateValid(b);
    var r := b.(rate := NextRate(b));
    var u := Playable(|r.queue|, r.frac, r.rate, n);
    assert u == n;
  }

  /** Exact consumption: what is popped plus the new fraction is the old fraction plus `n` steps. */
  lemma PullConsumes(b: Buffer, n: nat)
    requires Valid(b) && Smooth(b, n)
    ensures Pull(b, n).after.rate == NextRate(b)
    ensures Pull(b, n).popped as real + Pull(b, n).after.frac == b.frac + Times(n as real, NextRate(b))
    ensures |Pull(b, n).after.queue| + Pull(b, n).popped == |b.queue|
    ensures !Pull(b, n).after.warming
  {
    SmoothPull(b, n);
    PositionIsLinear(b.frac, NextRate(b), n);
  }

  /** No output frame uses up more than two input frames, counting those before the first. */
  lemma AtMostTwo(b: Buffer, n: nat)
    requires Playing(b) && Reaches(b, n + 1) && b.frac < 2.0 + MAX_RATE_DEVIATION
    ensures 0 <= Popped(b, n + 1) - Popped(b, n) <= 2
  {
    PositionNonNegative(b, n);
    if n > 0 {
      PositionNonNegative(b, n - 1);
      assert Position(b.frac, b.rate, n) == Position(b.frac, b.rate, n - 1) + b.rate;
    }
  }

  /** One pull takes about as many input frames as it plays. */
  lemma PopsAbout(b: Buffer, n: nat)
    requires Valid(b) && Smooth(b, n)
    ensures -(0.004 * n as real + 2.004) <= Pull(b, n).popped as real - n as real <= 0.004 * n as real + 2.004
  {
    PullConsumes(b, n);
    PullValid(b, n);
    NextRateValid(b);
    RateTimes(n as real, NextRate(b));
  }

  lemma RateTimes(x: real, rate: real)
    requires 0.0 <= x && ValidRate(rate)
    ensures x - 0.004 * x <= Times(x, rate) <= x + 0.004 * x
  {
    TimesMonotone(x, rate, 1.004);
    TimesMonotone(x, 0.996, rate);
  }

  /** Pushes that do not restart the stream, and pulls that never run dry. */
  predicate SmoothRun(b: Buffer, es: seq<Event>)
    requires Valid(b)
    decreases |es|
  {
    if es == [] then !b.warming
    else
      && !b.warming
      && (match es[0]
          case Pushed(number, samples) => !Decide(b.expected, number).Resync?
          case Drawn(n) => Smooth(b, n)
          case Cleared => false)
      && (ApplyValid(b, es[0]); SmoothRun(Apply(b, es[0]), es[1..]))
  }

  /** The distance the read head travels. */
  function Travelled(b: Buffer, es: seq<Event>): real
    requires Valid(b)
    decreases |es|
  {
    if es == [] then 0.0
    else
      ApplyValid(b, es[0]);
      (if es[0].Drawn? then Times(es[0].n as real, NextRate(b)) else 0.0) + Travelled(Apply(b, es[0]), es[1..])
  }

  lemma PushKeepsReader(b: Buffer, number: U32, samples: seq<Sample>)
    requires Valid(b) && !Decide(b.expected, number).Resync?
    ensures var a := Push(b, number, samples);
            a.frac == b.frac && a.rate == b.rate && a.prev == b.prev && a.warming == b.warming
  {
  }

  /** Over a whole smooth run, frames popped plus the final fraction is the initial fraction plus the distance travelled. */
  lemma {:induction false} RunConsumes(b: Buffer, es: seq<Event>)
    requires Valid(b) && SmoothRun(b, es)
    ensures Entries(b, es).popped as real + Run(b, es).frac == b.frac + Travelled(b, es)
    decreases |es|
  {
    if es != [] {
      ApplyValid(b, es[0]);
      match es[0] {
        case Pushed(number, samples) => PushKeepsReader(b, number, samples);
        case Drawn(n) => PullConsumes(b, n);
        case Cleared =>
      }
      RunConsumes(Apply(b, es[0]), es[1..]);
    }
  }

  // ---------------------------------------------------------------- the resampler

  /** The state a pull interpolates from, once it is not silent. */
  function Started(b: Buffer): Buffer
    requires b.cfg.target > 0
  {
    Primed(b).(rate := NextRate(Primed(b)))
  }

  /** Where output frame `f` of a pull reads its input, counted from the held frame. */
  function ReadPoint(b: Buffer, f: nat): real
    requires b.cfg.target > 0
  {
    var s := Started(b);
    s.frac + Times(f as real, s.rate)
  }

  /** A pull runs dry exactly when its last output frame would reach past the queue. */
  lemma UnderrunsIff(b: Buffer, n: nat)
    requires Valid(b) && !StillWarming(b)
    ensures Pull(b, n).after.stats.underruns == b.stats.underruns + 1
            <==> n >= 1 && |b.queue| <= ReadPoint(b, n - 1).Floor
    ensures Pull(b, n).after.stats.underruns <= b.stats.underruns + 1
  {
    var s := Started(b);
    NextRateValid(Primed(b));
    var u := Playable(|s.queue|, s.frac, s.rate, n);
    if n >= 1 {
      PositionIsLinear(s.frac, s.rate, n - 1);
      if u < n {
        PositionRises(s.frac, s.rate, u, n - 1);
      }
    }
  }

  lemma PlayableCovers(s: Buffer, n: nat, f: nat)
    requires Playing(s) && f < n && Position(s.frac, s.rate, f).Floor < |s.queue|
    ensures f < Playable(|s.queue|, s.frac, s.rate, n)
  {
    var u := Playable(|s.queue|, s.frac, s.rate, n);
    if u <= f {
      PositionRises(s.frac, s.rate, u, f);
    }
  }

  lemma RenderedFrame(s: Buffer, n: nat, f: nat)
    requires Playing(s) && f < n && Position(s.frac, s.rate, f).Floor < |s.queue|
    ensures 0 <= Position(s.frac, s.rate, f).Floor
    ensures Sized(Reachable(s), s.cfg.channels)
    ensures f < |Render(s, n).out|
    ensures Render(s, n).out[f] == Resampled(Reachable(s), Position(s.frac, s.rate, f), s.cfg.channels)
  {
    PlayableCovers(s, n, f);
    PositionNonNegative(s, f);
    assert Sized(Reachable(s), s.cfg.channels);
    var u := Playable(|s.queue|, s.frac, s.rate, n);
    assert Render(s, n).out[f] == Resample(s, u)[f];
  }

  /** While both neighbours are queued, output frame `f` interpolates the input at `frac + f * rate`. */
  lemma PlaysResampled(b: Buffer, n: nat, f: nat, c: nat)
    requires Valid(b) && !StillWarming(b) && f < n && c < b.cfg.channels
    requires ReadPoint(b, f).Floor < |b.queue|
    ensures f < |Pull(b, n).out| && c < |Pull(b, n).out[f]|
    ensures 0 <= ReadPoint(b, f).Floor && Sized([b.prev] + b.queue, b.cfg.channels)
    ensures var x, p := [b.prev] + b.queue, ReadPoint(b, f);
            Pull(b, n).out[f][c] == Lerp(x[p.Floor][c], x[p.Floor + 1][c], p - p.Floor as real)
  {
    var s := Started(b);
    NextRateValid(Primed(b));
    PositionIsLinear(s.frac, s.rate, f);
    RenderedFrame(s, n, f);
  }

  lemma FadedFrame(s: Buffer, n: nat, u: nat, f: nat)
    requires Playing(s) && u <= f < n
    requires |s.queue| <= Position(s.frac, s.rate, u).Floor
    requires u > 0 ==> Position(s.frac, s.rate, u - 1).Floor < |s.queue|
    ensures f < |Render(s, n).out|
    ensures Render(s, n).out[f] == ScaleFrame(LastFrame(s), FadeOut(f - u))
  {
    PlayableIs(s, u, n);
  }

  /** From the first frame `u` that cannot be interpolated on, the newest frame fades out. */
  lemma PlaysFade(b: Buffer, n: nat, u: nat, f: nat)
    requires Valid(b) && !StillWarming(b) && u <= f < n
    requires |b.queue| <= ReadPoint(b, u).Floor
    requires u > 0 ==> ReadPoint(b, u - 1).Floor < |b.queue|
    ensures f < |Pull(b, n).out|
    ensures Pull(b, n).out[f] == ScaleFrame(LastFrame(b), FadeOut(f - u))
  {
    var s := Started(b);
    NextRateValid(Primed(b));
    PositionIsLinear(s.frac, s.rate, u);
    if u > 0 {
      PositionIsLinear(s.frac, s.rate, u - 1);
    }
    FadedFrame(s, n, u, f);
  }

  // ---------------------------------------------------------------- block sizes

  lemma {:induction false} PositionShifts(frac: real, rate: real, m: nat, k: nat, f: nat)
    ensures Position(Position(frac, rate, m) - k as real, rate, f) == Position(frac, rate, m + f) - k as real
  {
    if f > 0 {
      PositionShifts(frac, rate, m, k, f - 1);
    }
  }

  lemma ReachesLess(b: Buffer, m: nat, n: nat)
    requires Playing(b) && Reaches(b, n) && m <= n
    ensures Reaches(b, m)
  {
    if 0 < m {
      PositionRises(b.frac, b.rate, m - 1, n - 1);
    }
  }

  /** `a` reads on where `b` stands after `m` output frames, `k` input frames further on. */
  predicate Continues(b: Buffer, a: Buffer, m: nat, k: nat) {
    && Playing(b) && Playing(a)
    && a.cfg == b.cfg && a.rate == b.rate
    && k <= |b.queue| && a.queue == b.queue[k..] && a.prev == Reachable(b)[k]
    && k as real <= Position(b.frac, b.rate, m)
    && a.frac == Position(b.frac, b.rate, m) - k as real
  }

  lemma ContinuesReachable(b: Buffer, a: Buffer, m: nat, k: nat)
    requires Continues(b, a, m, k)
    ensures Reachable(a) == Reachable(b)[k..]
    ensures Sized(Reachable(b), b.cfg.channels)
  {
  }

  lemma FlowContinues(b: Buffer, m: nat)
    requires Playing(b) && Reaches(b, m)
    ensures Continues(b, Flow(b, m).after, m, Popped(b, m))
  {
    PositionNonNegative(b, m);
    if m > 0 {
      PositionNonNegative(b, m - 1);
      PositionRises(b.frac, b.rate, m - 1, m);
    }
  }

  lemma ContinuesReaches(b: Buffer, a: Buffer, m: nat, k: nat, n: nat)
    requires Continues(b, a, m, k) && Reaches(b, m + n)
    ensures Reaches(a, n)
    ensures n > 0 ==> k + Popped(a, n) == Popped(b, m + n)
  {
    if n > 0 {
      PositionShifts(b.frac, b.rate, m, k, n - 1);
    }
  }

  lemma ResampledShifts(x: seq<Frame>, k: nat, p: real, channels: nat)
    requires Sized(x, channels) && k <= |x| && k as real <= p && p.Floor + 1 < |x|
    ensures Sized(x[k..], channels) && 0 <= (p - k as real).Floor && (p - k as real).Floor + 1 < |x[k..]|
    ensures Resampled(x[k..], p - k as real, channels) == Resampled(x, p, channels)
  {
    assert (p - k as real).Floor == p.Floor - k;
  }

  lemma ResampleAt(b: Buffer, u: nat, f: nat)
    requires Playing(b) && Reaches(b, u) && f < u
    ensures 0 <= Position(b.frac, b.rate, f).Floor && Position(b.frac, b.rate, f).Floor + 1 < |Reachable(b)|
    ensures Sized(Reachable(b), b.cfg.channels)
    ensures Resample(b, u)[f] == Resampled(Reachable(b), Position(b.frac, b.rate, f), b.cfg.channels)
  {
    NeighboursReachable(b, f, u);
  }

  lemma PointJoins(b: Buffer, a: Buffer, m: nat, k: nat, f: nat)
    requires Continues(b, a, m, k)
    requires Position(b.frac, b.rate, m + f).Floor + 1 < |Reachable(b)|
    ensures Sized(Reachable(a), b.cfg.channels) && Sized(Reachable(b), b.cfg.channels)
    ensures 0 <= Position(a.frac, a.rate, f).Floor && Position(a.frac, a.rate, f).Floor + 1 < |Reachable(a)|
    ensures 0 <= Position(b.frac, b.rate, m + f).Floor
    ensures Resampled(Reachable(b), Position(b.frac, b.rate, m + f), b.cfg.channels)
         == Resampled(Reachable(a), Position(a.frac, a.rate, f), b.cfg.channels)
  {
    ContinuesReachable(b, a, m, k);
    PositionShifts(b.frac, b.rate, m, k, f);
    PositionRises(b.frac, b.rate, m, m + f);
    ResampledShifts(Reachable(b), k, Position(b.frac, b.rate, m + f), b.cfg.channels);
  }

  lemma FrameJoins(b: Buffer, a: Buffer, m: nat, k: nat, n: nat, f: nat)
    requires Continues(b, a, m, k) && Reaches(b, m + n) && Reaches(a, n) && f < n
    ensures Resample(b, m + n)[m + f] == Resample(a, n)[f]
  {
    ResampleAt(b, m + n, m + f);
    ResampleAt(a, n, f);
    PointJoins(b, a, m, k, f);
  }

  lemma FrameStays(b: Buffer, m: nat, n: nat, f: nat)
    requires Playing(b) && Reaches(b, m) && Reaches(b, m + n) && f < m
    ensures Resample(b, m + n)[f] == Resample(b, m)[f]
  {
    ResampleAt(b, m + n, f);
    ResampleAt(b, m, f);
  }

  lemma EitherJoins(b: Buffer, a: Buffer, m: nat, k: nat, n: nat, f: nat)
    requires Continues(b, a, m, k) && Reaches(b, m) && Reaches(b, m + n) && Reaches(a, n) && f < m + n
    ensures Resample(b, m + n)[f] == if f < m then Resample(b, m)[f] else Resample(a, n)[f - m]
  {
    if f < m {
      FrameStays(b, m, n, f);
    } else {
      FrameJoins(b, a, m, k, n, f - m);
    }
  }

  lemma OutputJoins(b: Buffer, a: Buffer, m: nat, k: nat, n: nat)
    requires Continues(b, a, m, k) && Reaches(b, m) && Reaches(b, m + n) && Reaches(a, n)
    ensures Resample(b, m + n) == Resample(b, m) + Resample(a, n)
  {
    var whole, first, second := Resample(b, m + n), Resample(b, m), Resample(a, n);
    assert |whole| == m + n && |first| == m && |second| == n;
    forall f | 0 <= f < m + n ensures whole[f] == if f < m then first[f] else second[f - m] {
      EitherJoins(b, a, m, k, n, f);
    }
    assert whole == first + second;
  }

  lemma RestJoins(b: Buffer, a: Buffer, m: nat, k: nat, j: nat)
    requires Continues(b, a, m, k) && j <= |a.queue|
    ensures a.queue[j..] == b.queue[k + j..]
    ensures Reachable(a)[j] == Reachable(b)[k + j]
  {
    ContinuesReachable(b, a, m, k);
  }

  lemma StateJoins(b: Buffer, a: Buffer, m: nat, k: nat, n: nat)
    requires Continues(b, a, m, k) && Reaches(b, m + n) && Reaches(a, n)
    requires k + Popped(a, n) == Popped(b, m + n)
    requires b.(queue := a.queue, prev := a.prev, frac := a.frac) == a
    ensures Flow(b, m + n).after == Flow(a, n).after
  {
    RestJoins(b, a, m, k, Popped(a, n));
    PositionShifts(b.frac, b.rate, m, k, n);
  }

  /**
    The interpolation loop can be cut anywhere: at the rate a pull has settled on, `m` output
    frames and then `n` are the same audio and leave the same buffer as `m + n` at once.
   */
  lemma FlowsJoin(b: Buffer, m: nat, n: nat)
    requires Playing(b) && Reaches(b, m + n)
    ensures Reaches(b, m) && Playing(Flow(b, m).after) && Reaches(Flow(b, m).after, n)
    ensures Flow(b, m + n).out == Flow(b, m).out + Flow(Flow(b, m).after, n).out
    ensures Flow(b, m + n).after == Flow(Flow(b, m).after, n).after
  {
    ReachesLess(b, m, m + n);
    FlowContinues(b, m);
    var a, k := Flow(b, m).after, Popped(b, m);
    ContinuesReaches(b, a, m, k, n);
    OutputJoins(b, a, m, k, n);
    StateJoins(b, a, m, k, n);
  }

  // ---------------------------------------------------------------- fading and trimming

  /** A fade starts at the frame itself and is silence from its 240th frame on. */
  lemma FadeEnds(base: Frame, n: nat, i: nat)
    requires i < n
    ensures i == 0 ==> Faded(base, n)[i] == base
    ensures i >= FADE_FRAMES ==> Faded(base, n)[i] == Silence(|base|)
  {
    if i == 0 {
      forall c | 0 <= c < |base| ensures Scale(base[c], 1.0) == base[c] {
        assert Attenuated(base[c], 1.0) == base[c] as real;
        RoundBetween(Attenuated(base[c], 1.0), base[c], base[c]);
      }
      assert FadeOut(0) == 1.0;
    }
    if i >= FADE_FRAMES {
      FadeIsOver(base, FADE_FRAMES, i);
    }
  }

  lemma ScaleShrinks(s: Sample, g: real, h: real)
    requires 0.0 <= h <= g <= 1.0
    ensures s >= 0 ==> 0 <= Scale(s, h) <= Scale(s, g)
    ensures s <= 0 ==> Scale(s, g) <= Scale(s, h) <= 0
  {
    AttenuatedEnds(s, h);
    if s >= 0 {
      TimesMonotone(s as real, h, g);
    } else {
      TimesMonotone(-(s as real), h, g);
      assert Times(-(s as real), h) == -Times(s as real, h) && Times(-(s as real), g) == -Times(s as real, g);
    }
  }

  /** A fade never swells: every sample moves towards zero and keeps its sign. */
  lemma FadeNeverSwells(base: Frame, n: nat, i: nat, c: nat)
    requires i + 1 < n && c < |base|
    ensures var x, y := Faded(base, n)[i][c], Faded(base, n)[i + 1][c];
            (base[c] >= 0 ==> 0 <= y <= x) && (base[c] <= 0 ==> x <= y <= 0)
  {
    ScaleShrinks(base[c], FadeOut(i), FadeOut(i + 1));
  }

  /** A queue past the cap keeps exactly its newest `target` frames, and any other keeps all. */
  lemma TrimLandsOnTarget(b: Buffer)
    requires ValidConfig(b.cfg)
    ensures var q := Trim(b).queue;
            && |q| == (if |b.queue| > b.cfg.max then b.cfg.target else |b.queue|)
            && q == b.queue[|b.queue| - |q|..]
            && Trim(b).stats.overruns == b.stats.overruns + (|b.queue| - |q|) * b.cfg.channels
  {
  }
}
