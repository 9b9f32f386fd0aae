/**
  Why the rate controller keeps the buffer from running dry or over, for ever.

  The smoothed, clamped controller is a second-order loop. Taking out of the fill level
  the part that the current rate will still use up leaves a quantity that changes by
  exactly the clamped correction at every pull, so one bound on it is an invariant.
 */
module DriftControl {
  import opened Numbers
  import opened Frames
  import opened JitterModel
  import opened JitterRuns

  // ---------------------------------------------------------------- the controller

  /** Frames held beyond the target, measured from the read head. */
  function Level(b: Buffer): real {
    |b.queue| as real - b.frac - b.cfg.target as real
  }

  /** Extra input frames that a pull of `n` frames takes at the current rate. */
  function Lean(b: Buffer, n: nat): real {
    Times(n as real, b.rate - 1.0)
  }

  /** The level less what the rate will still use up before it has decayed. */
  function Storage(b: Buffer, n: nat): real {
    Level(b) - 49.0 * Lean(b, n)
  }

  lemma BlendTimes(x: real, a: real, d: real)
    ensures Times(x, a + (d - a) * RATE_SMOOTHING) == 0.98 * Times(x, a) + 0.02 * Times(x, d)
    ensures Times(x, 1.0 + a) == x + Times(x, a)
  {
  }

  lemma LeanBound(b: Buffer, n: nat)
    requires ValidRate(b.rate)
    ensures -0.004 * n as real <= Lean(b, n) <= 0.004 * n as real
  {
    TimesMonotone(n as real, -0.004, b.rate - 1.0);
    TimesMonotone(n as real, b.rate - 1.0, 0.004);
  }

  lemma SignOfFactor(a: real, t: real)
    requires t > 0.0
    ensures 0.0 <= Times(a, t) ==> 0.0 <= a
  {
    if a < 0.0 {
      assert -a * t > 0.0;
    }
  }

  lemma QuotientTimes(x: real, q: real, t: real, n: real)
    requires Times(q, t) == x
    ensures Times(Times(n, 0.01 * q), t) == 0.01 * Times(n, x)
  {
    assert n * (0.01 * q) * t == 0.01 * (n * (q * t));
  }

  lemma TimesMinus(a: real, b: real, t: real)
    ensures Times(a - b, t) == Times(a, t) - Times(b, t)
  {
  }

  /** At a distance of `band` or more the proportional correction of `n` frames makes up for `w` frames. */
  lemma CorrectionIsStrong(x: real, q: real, t: real, n: real, w: real, band: real)
    requires 0.0 <= n && 0.0 < t && Times(q, t) == x && 100.0 * Times(w, t) <= Times(n, band) && band <= x
    ensures w <= Times(n, 0.01 * q)
  {
    TimesMonotone(n, band, x);
    QuotientTimes(x, q, t, n);
    TimesMinus(Times(n, 0.01 * q), w, t);
    SignOfFactor(Times(n, 0.01 * q) - w, t);
  }

  /** Closer than `band` the proportional correction of `n` frames leaves room for `w` frames. */
  lemma CorrectionIsGentle(x: real, q: real, t: real, n: real, w: real, band: real)
    requires 0.0 <= n <= t && 0.0 < t && Times(q, t) == x && 100.0 * Times(w, t) <= Times(n, band) && -band <= x
    ensures -band + w <= x - Times(n, 0.01 * q)
  {
    var y, z := x + band, Times(n, 0.01 * q);
    RoomLeft(y, x, t, n, band);
    QuotientTimes(x, q, t, n);
    TimesMinus(y - w, z, t);
    TimesMinus(y, w, t);
    SignOfFactor(y - w - z, t);
  }

  lemma RoomLeft(y: real, x: real, t: real, n: real, band: real)
    requires 0.0 <= y && y == x + band && 0.0 <= n <= t
    ensures 0.01 * Times(n, x) + 0.01 * Times(n, band) <= Times(y, t)
  {
    TimesMonotone(y, 0.01 * n, t);
    assert y * (0.01 * n) == 0.01 * (n * x) + 0.01 * (n * band);
  }

  /** One direction of `CorrectionHolds`. */
  lemma CorrectionHoldsBelow(x: real, q: real, t: real, n: real, w: real, band: real)
    requires 0.0 <= n <= t && 0.0 < t && Times(q, t) == x && 0.0 <= w <= 0.004 * n && 0.0 <= band
    requires 100.0 * Times(w, t) <= Times(n, band)
    ensures var nd := Times(n, Clamp(q * DRIFT_GAIN, -MAX_RATE_DEVIATION, MAX_RATE_DEVIATION));
            && (band <= x ==> w <= nd)
            && (-band < x ==> -band + w <= x - nd)
  {
    var c := 0.01 * q;
    var d := Clamp(c, -0.004, 0.004);
    assert Times(n, 0.004) == 0.004 * n && Times(n, -0.004) == -0.004 * n;
    if band <= x {
      CorrectionIsStrong(x, q, t, n, w, band);
      if c <= 0.004 {
        TimesMonotone(n, c, d);
      }
    }
    if -band < x && -0.004 <= c {
      CorrectionIsGentle(x, q, t, n, w, band);
      TimesMonotone(n, d, c);
    }
  }

  /**
    The clamped correction of a pull of `n` frames against a disturbance of `w` frames:
    `band` frames or more from the target it outweighs the disturbance, and closer to it the
    two together do not lead further away than `band`.
   */
  lemma CorrectionHolds(fill: nat, target: nat, n: nat, w: real, band: real)
    requires n <= target && 0 < target && 0.0 <= w <= 0.004 * n as real && 0.0 <= band
    requires 100.0 * Times(w, target as real) <= Times(n as real, band)
    ensures var x, nd := fill as real - target as real, Times(n as real, Correction(fill, target));
            && (band <= x ==> w <= nd)
            && (x <= -band ==> nd <= -w)
            && (-band < x ==> -band + w <= x - nd)
            && (x < band ==> x - nd <= band - w)
  {
    var t, x := target as real, fill as real - target as real;
    var q := x / t;
    assert Times(q, t) == x;
    assert Times(-q, t) == -x;
    CorrectionHoldsBelow(x, q, t, n as real, w, band);
    CorrectionHoldsBelow(-x, -q, t, n as real, w, band);
    TimesNegated(n as real, Correction(fill, target));
  }

  lemma TimesNegated(x: real, y: real)
    ensures Times(x, -y) == -Times(x, y)
  {
  }

  lemma LeanBlends(b: Buffer, n: nat)
    requires b.cfg.target > 0
    ensures var x, a' := n as real, NextRate(b) - 1.0;
            && Times(x, a') == 0.98 * Lean(b, n) + 0.02 * Times(x, Correction(|b.queue|, b.cfg.target))
            && Times(x, NextRate(b)) == x + Times(x, a')
  {
    var x, a, d := n as real, b.rate - 1.0, Correction(|b.queue|, b.cfg.target);
    BlendTimes(x, a, d);
    BlendTimes(x, a + (d - a) * RATE_SMOOTHING, d);
    assert NextRate(b) - 1.0 == a + (d - a) * RATE_SMOOTHING;
  }

  lemma TimesSplit(n: real, k: real, a: real)
    ensures Times(k, a) == Times(n, a) + Times(k - n, a)
  {
  }

  /** A pull lowers the level by the frames it takes. */
  lemma PullLowers(b: Buffer, k: nat)
    requires Valid(b) && Smooth(b, k)
    ensures Level(Pull(b, k).after) == Level(b) - k as real - Lean(Pull(b, k).after, k)
    ensures Pull(b, k).after.rate == NextRate(b)
  {
    PullConsumes(b, k);
    PullKeepsStats(b, k);
    TimesRate(k as real, NextRate(b));
  }

  lemma TimesRate(x: real, rate: real)
    ensures Times(x, rate) == x + Times(x, rate - 1.0)
  {
    BlendTimes(x, rate - 1.0, 0.0);
  }

  /**
    The second-order loop is an integrator of the clamped correction: a pull of `k` takes `k`
    frames and the correction of `n`, and only its difference from `n` is charged at the rate.
   */
  lemma StorageIntegrates(b: Buffer, n: nat, k: nat)
    requires Valid(b) && Smooth(b, k)
    ensures var a := Pull(b, k).after;
            Storage(a, n) == Storage(b, n) - k as real - Times(n as real, Correction(|b.queue|, b.cfg.target))
                             - Times(k as real - n as real, a.rate - 1.0)
  {
    PullLowers(b, k);
    LeanBlends(b, n);
    TimesSplit(n as real, k as real, NextRate(b) - 1.0);
  }

  lemma PullKeepsStats(b: Buffer, n: nat)
    requires Valid(b) && Smooth(b, n)
    ensures Pull(b, n).after.stats == b.stats && Pull(b, n).after.cfg == b.cfg
  {
    SmoothPull(b, n);
  }

  // ---------------------------------------------------------------- the sender

  /** The number an in-order packet carries. */
  function NextNumber(b: Buffer): U32 {
    if b.expected.Some? then b.expected.value else 0
  }

  /** Packets arriving in order, none missing. */
  function Deliver(b: Buffer, packets: seq<seq<Sample>>): (after: Buffer)
    requires Valid(b)
    ensures Valid(after)
    decreases |packets|
  {
    if packets == [] then b
    else
      PushValid(b, NextNumber(b), packets[0]);
      Deliver(Push(b, NextNumber(b), packets[0]), packets[1..])
  }

  function FrameCount(packets: seq<seq<Sample>>, channels: nat): nat
    requires channels > 0
  {
    if packets == [] then 0 else |packets[0]| / channels + FrameCount(packets[1..], channels)
  }

  lemma PushInOrder(b: Buffer, samples: seq<Sample>)
    requires Valid(b) && |b.queue| + |samples| / b.cfg.channels <= b.cfg.max
    ensures var a := Push(b, NextNumber(b), samples);
            && a.cfg == b.cfg
            && |a.queue| == |b.queue| + |samples| / b.cfg.channels
            && a.frac == b.frac && a.rate == b.rate && a.warming == b.warming
            && a.stats == b.stats.(accepted := b.stats.accepted + 1)
  {
    var packet := Deinterleave(samples, b.cfg.channels);
    DeinterleaveLength(samples, b.cfg.channels);
    assert Decide(b.expected, NextNumber(b)) == Accept(0);
    NoGap(b);
  }

  /** In-order packets that fit under the cap only add to the fill. */
  lemma {:induction false} DeliverFits(b: Buffer, packets: seq<seq<Sample>>)
    requires Valid(b) && |b.queue| + FrameCount(packets, b.cfg.channels) <= b.cfg.max
    ensures var a := Deliver(b, packets);
            && a.cfg == b.cfg
            && |a.queue| == |b.queue| + FrameCount(packets, b.cfg.channels)
            && a.frac == b.frac && a.rate == b.rate && a.warming == b.warming
            && a.stats == b.stats.(accepted := b.stats.accepted + |packets|)
    decreases |packets|
  {
    if packets != [] {
      PushValid(b, NextNumber(b), packets[0]);
      PushInOrder(b, packets[0]);
      DeliverFits(Push(b, NextNumber(b), packets[0]), packets[1..]);
    }
  }

  /**
    The conditions of a link: pulls of `n` frames, give or take `spread`, a sender off by at
    most `drift` in any round, and at most `backlog` frames produced but not yet delivered.
    `band` is the distance from the target at which the controller outweighs all of this.
   */
  datatype Link = Link(n: nat, spread: nat, drift: real, band: real, backlog: real)

  /** How far a round can lead away from the target, in frames. */
  function Wander(link: Link): real {
    Times((link.n + link.spread) as real, link.drift) + 0.004 * link.spread as real
  }

  /** The target is deep enough for the link. */
  predicate Suits(link: Link, cfg: Config) {
    && 1 <= link.n
    && 0.0 <= link.drift && Wander(link) <= 0.004 * link.n as real
    && 0.0 <= link.backlog
    && 0.0 <= link.band && 100.0 * Times(Wander(link), cfg.target as real) <= Times(link.n as real, link.band)
    && cfg.target as real > link.band + link.backlog + 1.396 * link.n as real + 1.004 * link.spread as real + 1.0
  }

  /** A pull of `n` frames, during which the sender's clock is off by `delta`, then what the network delivers. */
  datatype Round = Round(n: nat, delta: real, packets: seq<seq<Sample>>)

  /** Frames the sender produces in a round. */
  function Produced(r: Round): real {
    r.n as real + Times(r.n as real, r.delta)
  }

  /** Frames produced and not yet delivered after a round. */
  function Pending(pending: real, r: Round, channels: nat): real
    requires channels > 0
  {
    pending + Produced(r) - FrameCount(r.packets, channels) as real
  }

  predicate Allowed(pending: real, r: Round, link: Link, channels: nat)
    requires channels > 0
  {
    && link.n - link.spread <= r.n <= link.n + link.spread
    && -link.drift <= r.delta <= link.drift
    && 0.0 <= Pending(pending, r, channels) <= link.backlog
  }

  function Low(link: Link): real {
    -(link.band + 0.196 * link.n as real + 2.004)
  }

  function High(link: Link): real {
    link.band + link.backlog + link.n as real
  }

  /** The invariant between rounds. */
  predicate Steady(b: Buffer, pending: real, link: Link) {
    && Valid(b) && !b.warming
    && Suits(link, b.cfg)
    && 0.0 <= pending <= link.backlog
    && Low(link) <= Storage(b, link.n) + pending <= High(link)
  }

  /** How far the fill can be from the target. */
  lemma FillBounds(b: Buffer, pending: real, link: Link)
    requires Steady(b, pending, link)
    ensures b.cfg.target as real - (link.band + link.backlog + 0.392 * link.n as real + 2.004) <= |b.queue| as real
    ensures |b.queue| as real <= b.cfg.target as real + link.band + link.backlog + 1.196 * link.n as real + 2.004
    ensures |b.queue| as real - b.frac > 1.004 * (link.n + link.spread - 1) as real
  {
    LeanBound(b, link.n);
  }

  /** A steady buffer never runs dry during a pull. */
  lemma SteadyPull(b: Buffer, pending: real, link: Link, k: nat)
    requires Steady(b, pending, link) && k <= link.n + link.spread
    ensures Smooth(b, k)
  {
    FillBounds(b, pending, link);
    UnderrunsIff(b, k);
    if k > 0 {
      NextRateValid(b);
      RateTimes((k - 1) as real, NextRate(b));
      assert Started(b).frac == b.frac && Started(b).rate == NextRate(b);
    }
  }

  lemma TimesBound(x: real, bound: real, y: real, most: real)
    requires 0.0 <= x <= bound && -most <= y <= most
    ensures -Times(bound, most) <= Times(x, y) <= Times(bound, most)
  {
    TimesMonotone(x, y, most);
    TimesMonotone(x, -most, y);
    TimesNegated(x, most);
    TimesSplit(x, bound, most);
    assert 0.0 <= (bound - x) * most;
  }

  lemma SpreadBound(x: real, spread: real, y: real)
    requires -spread <= x <= spread && -0.004 <= y <= 0.004
    ensures -0.004 * spread <= Times(x, y) <= 0.004 * spread
  {
    assert Times(spread, 0.004) == 0.004 * spread;
    if 0.0 <= x {
      TimesBound(x, spread, y, 0.004);
    } else {
      TimesBound(-x, spread, y, 0.004);
      assert Times(-x, y) == -Times(x, y);
    }
  }

  /** What the clocks and the size of the pull do to the storage in a round stays within `Wander`. */
  lemma WanderBound(link: Link, r: Round, rate: real)
    requires ValidRate(rate) && link.n - link.spread <= r.n <= link.n + link.spread
    requires -link.drift <= r.delta <= link.drift
    ensures -Wander(link) <= Times(r.n as real, r.delta) - Times(r.n as real - link.n as real, rate - 1.0) <= Wander(link)
  {
    TimesBound(r.n as real, (link.n + link.spread) as real, r.delta, link.drift);
    SpreadBound(r.n as real - link.n as real, link.spread as real, rate - 1.0);
  }

  /** The arithmetic of one round, from what `CorrectionHolds` and `WanderBound` say about it. */
  lemma Regulated(s: real, pending: real, x: real, frac: real, nd: real, off: real, w: real, link: Link)
    requires 0.0 <= pending <= link.backlog && 0.0 <= frac < 2.004 && -w <= off <= w
    requires -0.196 * link.n as real <= x - frac - s <= 0.196 * link.n as real
    requires link.band <= x ==> w <= nd
    requires x <= -link.band ==> nd <= -w
    requires -link.band < x ==> -link.band + w <= x - nd
    requires x < link.band ==> x - nd <= link.band - w
    requires Low(link) <= s + pending <= High(link)
    ensures Low(link) <= s - nd + pending + off <= High(link)
  {
  }

  /** What a round adds to the storage and takes from it keeps it in bounds. */
  lemma RoundBounds(b: Buffer, pending: real, link: Link, off: real)
    requires Steady(b, pending, link) && -Wander(link) <= off <= Wander(link)
    ensures Low(link)
         <= Storage(b, link.n) - Times(link.n as real, Correction(|b.queue|, b.cfg.target)) + pending + off
         <= High(link)
  {
    LeanBound(b, link.n);
    WanderIsPositive(link);
    CorrectionHolds(|b.queue|, b.cfg.target, link.n, Wander(link), link.band);
    Regulated(Storage(b, link.n), pending, |b.queue| as real - b.cfg.target as real, b.frac,
              Times(link.n as real, Correction(|b.queue|, b.cfg.target)), off, Wander(link), link);
  }

  /** Even when the pull is counted as used up, what the sender produces meanwhile keeps the storage in bounds. */
  lemma StorageStays(b: Buffer, pending: real, link: Link, r: Round)
    requires Steady(b, pending, link) && Allowed(pending, r, link, b.cfg.channels) && Smooth(b, r.n)
    ensures Low(link) <= Storage(Pull(b, r.n).after, link.n) + pending + Produced(r) <= High(link)
  {
    StorageIntegrates(b, link.n, r.n);
    PullLowers(b, r.n);
    NextRateValid(b);
    WanderBound(link, r, NextRate(b));
    RoundBounds(b, pending, link, Times(r.n as real, r.delta) - Times(r.n as real - link.n as real, NextRate(b) - 1.0));
  }

  lemma WanderIsPositive(link: Link)
    requires 0.0 <= link.drift
    ensures 0.0 <= Wander(link)
  {
    assert Times((link.n + link.spread) as real, 0.0) == 0.0;
    TimesMonotone((link.n + link.spread) as real, 0.0, link.drift);
  }

  function AfterRound(b: Buffer, r: Round): (after: Buffer)
    requires Valid(b)
    ensures Valid(after)
  {
    PullValid(b, r.n);
    Deliver(Pull(b, r.n).after, r.packets)
  }

  /** A round keeps the buffer steady, and nothing is lost, dropped or concealed in it. */
  lemma RoundKeeps(b: Buffer, pending: real, link: Link, r: Round)
    requires Steady(b, pending, link) && Allowed(pending, r, link, b.cfg.channels)
    ensures AfterRound(b, r).cfg == b.cfg
    ensures Steady(AfterRound(b, r), Pending(pending, r, b.cfg.channels), link)
    ensures AfterRound(b, r).stats == b.stats.(accepted := b.stats.accepted + |r.packets|)
    ensures Level(AfterRound(b, r)) + Pending(pending, r, b.cfg.channels)
         == Level(b) + pending + Times(r.n as real, r.delta) - Lean(AfterRound(b, r), r.n)
  {
    SteadyPull(b, pending, link, r.n);
    PullConsumes(b, r.n);
    PullValid(b, r.n);
    PullKeepsStats(b, r.n);
    PullLowers(b, r.n);
    StorageStays(b, pending, link, r);
    var a := Pull(b, r.n).after;
    DeliveryFits(a, pending, link, r);
    DeliverFits(a, r.packets);
  }

  lemma DeliveryFits(a: Buffer, pending: real, link: Link, r: Round)
    requires Valid(a) && Suits(link, a.cfg) && Allowed(pending, r, link, a.cfg.channels)
    requires Storage(a, link.n) + pending + Produced(r) <= High(link)
    ensures |a.queue| + FrameCount(r.packets, a.cfg.channels) <= a.cfg.max
  {
    LeanBound(a, link.n);
    var delivered := FrameCount(r.packets, a.cfg.channels);
    var total := |a.queue| + delivered;
    assert total as real == Level(a) + delivered as real + a.frac + a.cfg.target as real;
    assert total as real <= a.cfg.target as real + High(link) + 0.196 * link.n as real + 2.004;
    assert a.cfg.max as real >= 4.0 * a.cfg.target as real;
    assert total as real <= a.cfg.max as real;
  }

  // ---------------------------------------------------------------- for ever

  function AfterRounds(b: Buffer, rounds: seq<Round>): (after: Buffer)
    requires Valid(b)
    ensures Valid(after)
    decreases |rounds|
  {
    if rounds == [] then b else AfterRounds(AfterRound(b, rounds[0]), rounds[1..])
  }

  function PendingAfter(pending: real, rounds: seq<Round>, channels: nat): real
    requires channels > 0
    decreases |rounds|
  {
    if rounds == [] then pending else PendingAfter(Pending(pending, rounds[0], channels), rounds[1..], channels)
  }

  predicate AllAllowed(pending: real, rounds: seq<Round>, link: Link, channels: nat)
    requires channels > 0
    decreases |rounds|
  {
    if rounds == [] then true
    else
      && Allowed(pending, rounds[0], link, channels)
      && AllAllowed(Pending(pending, rounds[0], channels), rounds[1..], link, channels)
  }

  function PacketCount(rounds: seq<Round>): nat {
    if rounds == [] then 0 else |rounds[0].packets| + PacketCount(rounds[1..])
  }

  /**
    Drift control is safe for ever: over any number of rounds, whatever the sender's clock
    does within `drift`, the network within `backlog` and the reader within `spread`, no pull
    underruns, no push overruns, and the fill stays within the bounds of `FillBounds`.
   */
  lemma {:induction false} NeverDryNeverOver(b: Buffer, pending: real, link: Link, rounds: seq<Round>)
    requires Steady(b, pending, link) && AllAllowed(pending, rounds, link, b.cfg.channels)
    ensures AfterRounds(b, rounds).cfg == b.cfg
    ensures Steady(AfterRounds(b, rounds), PendingAfter(pending, rounds, b.cfg.channels), link)
    ensures AfterRounds(b, rounds).stats == b.stats.(accepted := b.stats.accepted + PacketCount(rounds))
    decreases |rounds|
  {
    if rounds != [] {
      RoundKeeps(b, pending, link, rounds[0]);
      NeverDryNeverOver(AfterRound(b, rounds[0]), Pending(pending, rounds[0], b.cfg.channels), link, rounds[1..]);
    }
  }

  /** A buffer that has just warmed up, to at most a pull beyond its target, is steady. */
  lemma WarmStart(b: Buffer, pending: real, link: Link, k: nat)
    requires Valid(b) && b.warming && Suits(link, b.cfg)
    requires b.cfg.target <= |b.queue| <= b.cfg.target + link.n
    requires 0.0 <= pending <= link.backlog
    ensures Steady(Primed(b), pending, link)
    ensures Pull(b, k) == Pull(Primed(b), k)
  {
    assert Times(link.n as real, 0.0) == 0.0;
  }

  /** From the first pull after warm-up, for ever. */
  lemma SafeFromWarmUp(b: Buffer, pending: real, link: Link, rounds: seq<Round>)
    requires Valid(b) && b.warming && Suits(link, b.cfg)
    requires b.cfg.target <= |b.queue| <= b.cfg.target + link.n
    requires 0.0 <= pending <= link.backlog
    requires rounds != [] && AllAllowed(pending, rounds, link, b.cfg.channels)
    ensures var a := AfterRounds(b, rounds);
            && a.stats == b.stats.(accepted := b.stats.accepted + PacketCount(rounds))
            && a.cfg.target as real - (link.band + link.backlog + 0.392 * link.n as real + 2.004)
               <= |a.queue| as real
               <= a.cfg.target as real + link.band + link.backlog + 1.196 * link.n as real + 2.004
  {
    WarmStart(b, pending, link, rounds[0].n);
    NeverDryNeverOver(Primed(b), pending, link, rounds);
    assert AfterRound(b, rounds[0]) == AfterRound(Primed(b), rounds[0]);
    FillBounds(AfterRounds(b, rounds), PendingAfter(pending, rounds, b.cfg.channels), link);
  }

  // ---------------------------------------------------------------- instances

  /** Packet-sized pulls and pushes in lock step: a target of two packets, as every buffer has, is enough. */
  lemma LockStepSuits(cfg: Config)
    requires ValidConfig(cfg) && cfg.framesPerPacket >= 2
    ensures Suits(Link(cfg.framesPerPacket, 0, 0.0, 0.0, 0.0), cfg)
  {
    assert Times(cfg.framesPerPacket as real, 0.0) == 0.0;
    assert Times(0.0, cfg.target as real) == 0.0;
  }

  /** Packets delivered whole, to a reader of packet-sized pulls, by a sender off by up to 0.2 %. */
  function CrystalLink(cfg: Config): Link {
    Link(cfg.framesPerPacket, 0, 0.002, 0.2 * cfg.target as real, cfg.framesPerPacket as real)
  }

  /** Three packets of more than 250 frames are enough for that sender, and so are four packets of any size. */
  lemma CrystalDriftSuits(cfg: Config)
    requires ValidConfig(cfg)
    ensures Suits(CrystalLink(cfg), cfg) <==> 0.8 * cfg.target as real > 2.396 * cfg.framesPerPacket as real + 1.0
    ensures 3 * cfg.framesPerPacket <= cfg.target && cfg.framesPerPacket > 250 ==> Suits(CrystalLink(cfg), cfg)
    ensures 4 * cfg.framesPerPacket <= cfg.target && cfg.framesPerPacket >= 2 ==> Suits(CrystalLink(cfg), cfg)
  {
    var n, t := cfg.framesPerPacket as real, cfg.target as real;
    assert Times(n, 0.002) == 0.002 * n;
    assert Wander(CrystalLink(cfg)) == 0.002 * n;
    assert Times(0.002 * n, t) == 0.002 * (n * t);
    assert Times(n, 0.2 * t) == 0.2 * (n * t);
  }

  /** The set-up of the repository's drift tests: mono packets of 10 ms at 48 kHz, and a target of 30 ms. */
  lemma TestsAreInstances()
    ensures var cfg := NewConfig(1, 48_000, 10, 30);
            cfg == Config(1, 480, 1440, 5760) && Suits(CrystalLink(cfg), cfg)
  {
    CrystalDriftSuits(NewConfig(1, 48_000, 10, 30));
  }

  // ---------------------------------------------------------------- tracking

  /** Extra frames taken over all pulls: the sum of `n * (rate - 1)`. */
  function TotalLean(b: Buffer, rounds: seq<Round>): real
    requires Valid(b)
    decreases |rounds|
  {
    if rounds == [] then 0.0
    else Lean(AfterRound(b, rounds[0]), rounds[0].n) + TotalLean(AfterRound(b, rounds[0]), rounds[1..])
  }

  /** Extra frames produced over all rounds: the sum of `n * delta`. */
  function TotalDrift(rounds: seq<Round>): real {
    if rounds == [] then 0.0 else Times(rounds[0].n as real, rounds[0].delta) + TotalDrift(rounds[1..])
  }

  lemma {:induction false} LevelBalance(b: Buffer, pending: real, link: Link, rounds: seq<Round>)
    requires Steady(b, pending, link) && AllAllowed(pending, rounds, link, b.cfg.channels)
    ensures Level(AfterRounds(b, rounds)) + PendingAfter(pending, rounds, b.cfg.channels)
         == Level(b) + pending + TotalDrift(rounds) - TotalLean(b, rounds)
    decreases |rounds|
  {
    if rounds != [] {
      RoundKeeps(b, pending, link, rounds[0]);
      LevelBalance(AfterRound(b, rounds[0]), Pending(pending, rounds[0], b.cfg.channels), link, rounds[1..]);
    }
  }

  /**
    The reader's rate follows the sender's clock: however long the run, the extra frames it
    has taken differ from the extra frames the sender has produced by a fixed bound.
   */
  lemma RateTracksSender(b: Buffer, pending: real, link: Link, rounds: seq<Round>)
    requires Steady(b, pending, link) && AllAllowed(pending, rounds, link, b.cfg.channels)
    ensures var bound := High(link) - Low(link) + 0.392 * link.n as real;
            -bound <= TotalLean(b, rounds) - TotalDrift(rounds) <= bound
  {
    LevelBalance(b, pending, link, rounds);
    NeverDryNeverOver(b, pending, link, rounds);
    LeanBound(b, link.n);
    LeanBound(AfterRounds(b, rounds), link.n);
  }
}
