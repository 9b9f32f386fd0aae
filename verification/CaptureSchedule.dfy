/**
  The capture side of the guest: samples are collected as the endpoint delivers them and
  sent in whole packets on a wall-clock schedule, with silence when there are too few.

  Times and durations are whole nanoseconds. Whether the receiving task takes a packet,
  has no room for it or has gone away is given by an oracle, one answer for each attempt.
 */
module CaptureSchedule {
  import opened Numbers
  import Frames

  const SCHEDULE_RESET := 500_000_000

  datatype SendResult = Sent | Full | Closed

  type Answers = nat -> SendResult

  // ---------------------------------------------------------------- what a call does

  /** Where the schedule stands once a bad slip has been forgiven. */
  function Rebased(now: int, due: int): int {
    if now > due + SCHEDULE_RESET then now else due
  }

  /** How many packets of duration `d` are due. */
  function DueCount(now: int, due: int, d: int): nat
    requires d > 0
  {
    if now < due then 0 else (now - due) / d + 1
  }

  /** The number of attempts up to and without the first that finds the receiver gone. */
  function Accepted(answers: Answers, n: nat): (k: nat)
    ensures k <= n
    ensures forall i :: 0 <= i < k ==> answers(i) != Closed
    ensures k < n ==> answers(k) == Closed
  {
    if n == 0 then 0
    else
      var k := Accepted(answers, n - 1);
      if k < n - 1 || answers(k) == Closed then k else n
  }

  function Zeros(n: nat): seq<Sample> {
    seq(n, _ => 0)
  }

  /** Whole packets in the queue. */
  function Whole(queue: seq<Sample>, size: nat): (w: nat)
    requires size > 0
    ensures Span(w, size) <= |queue| < Span(w, size) + size
  {
    var w := |queue| / size;
    SpanIsProduct(w, size);
    w
  }

  /** The `i`-th packet of a call: consecutive slices of the queue first, then silence. */
  function PacketAt(queue: seq<Sample>, size: nat, i: nat): seq<Sample>
    requires size > 0
  {
    if i < Whole(queue, size) then
      SpanRises(i, Whole(queue, size), size);
      queue[Span(i, size)..Span(i, size) + size]
    else Zeros(size)
  }

  function Packets(queue: seq<Sample>, size: nat, n: nat): seq<seq<Sample>>
    requires size > 0
  {
    seq(n, (i: nat) => PacketAt(queue, size, i))
  }

  /** How much of the queue `n` packets use up. */
  function Used(queue: seq<Sample>, size: nat, n: nat): (u: nat)
    requires size > 0
    ensures u <= |queue|
  {
    var taken := if n < Whole(queue, size) then n else Whole(queue, size);
    SpanRises(taken, Whole(queue, size), size);
    Span(taken, size)
  }

  // ---------------------------------------------------------------- the loop

  /** A chunk the endpoint hands over; a silent one carries no usable samples. */
  datatype Chunk = Chunk(samples: seq<Sample>, silent: bool)

  function Sound(c: Chunk): seq<Sample> {
    if c.silent then Zeros(|c.samples|) else c.samples
  }

  function Sounds(chunks: seq<Chunk>): seq<Sample> {
    if chunks == [] then [] else Sound(chunks[0]) + Sounds(chunks[1..])
  }

  lemma SoundsNext(before: seq<Sample>, chunks: seq<Chunk>, i: nat)
    requires i < |chunks|
    ensures before + Sounds(chunks[i..]) == before + Sound(chunks[i]) + Sounds(chunks[i + 1..])
  {
    assert chunks[i..][1..] == chunks[i + 1..];
  }

  class CaptureLoop {
    const packetSamples: nat
    const frameDuration: int
    var queue: seq<Sample>
    var nextDue: int

    ghost predicate Valid() {
      packetSamples > 0 && frameDuration > 0
    }

    constructor (packetSamples: nat, frameDuration: int, now: int)
      requires packetSamples > 0 && frameDuration > 0
      ensures Valid() && queue == [] && nextDue == now + frameDuration
      ensures this.packetSamples == packetSamples && this.frameDuration == frameDuration
    {
      this.packetSamples := packetSamples;
      this.frameDuration := frameDuration;
      queue := [];
      nextDue := now + frameDuration;
    }

    /** Moves everything the endpoint has ready into the queue. */
    method DrainEndpoint(chunks: seq<Chunk>)
      modifies this`queue
      ensures queue == old(queue) + Sounds(chunks)
    {
      var i := 0;
      while i < |chunks|
        invariant 0 <= i <= |chunks|
        invariant queue + Sounds(chunks[i..]) == old(queue) + Sounds(chunks)
      {
        var c := chunks[i];
        SoundsNext(queue, chunks, i);
        if c.silent {
          queue := queue + Zeros(|c.samples|);
        } else {
          queue := queue + c.samples;
        }
        i := i + 1;
      }
    }

    /** Keeps only the newest four packets' worth of samples. */
    method CapQueue()
      requires Valid()
      modifies this`queue
      ensures queue == Capped(old(queue), packetSamples)
    {
      var maxQueue := packetSamples * 4;
      if |queue| > maxQueue {
        var excess := |queue| - maxQueue;
        queue := queue[excess..];
      }
    }

    /** Sends every packet that is due. The result is false once the receiver has gone. */
    method EmitDuePackets(now: int, answers: Answers) returns (open: bool, attempted: seq<seq<Sample>>)
      requires Valid()
      modifies this
      ensures Emitted(Plan(old(queue), packetSamples, Rebased(now, old(nextDue)), frameDuration, answers), now,
                      open, attempted, queue, nextDue)
    {
      if now > nextDue + SCHEDULE_RESET {
        nextDue := now;
      }
      ghost var plan := Plan(queue, packetSamples, nextDue, frameDuration, answers);
      ghost var n := DueCount(now, nextDue, frameDuration);
      ghost var i: nat := 0;
      attempted := [];
      while now >= nextDue
        invariant Underway(plan, i, queue, nextDue, attempted)
        invariant i <= n
        decreases n - i
      {
        DueIff(now, plan.due, frameDuration, i);
        AcceptedGrows(answers, i, n);
        EmitsNext(plan, i, queue, nextDue, attempted);
        var pcm;
        if |queue| >= packetSamples {
          pcm := queue[..packetSamples];
          queue := queue[packetSamples..];
        } else {
          pcm := Zeros(packetSamples);
        }
        var answer := answers(|attempted|);
        attempted := attempted + [pcm];
        if answer == Closed {
          EndsClosed(plan, now, i, queue, nextDue, attempted);
          return false, attempted;
        }
        nextDue := nextDue + frameDuration;
        i := i + 1;
      }
      DueIff(now, plan.due, frameDuration, i);
      EndsOpen(plan, now, i, queue, nextDue, attempted);
      open := true;
    }
  }

  /** What a call of the loop starts from. */
  datatype Plan = Plan(start: seq<Sample>, size: nat, due: int, d: int, answers: Answers)

  /** What a call achieves: every packet due, or every one up to the attempt that found the receiver gone. */
  ghost predicate Emitted(p: Plan, now: int, open: bool, attempted: seq<seq<Sample>>, queue: seq<Sample>, nextDue: int) {
    && p.size > 0 && p.d > 0
    && var n := DueCount(now, p.due, p.d);
       var k := Accepted(p.answers, n);
       && open == (k == n)
       && attempted == Packets(p.start, p.size, if open then n else k + 1)
       && queue == p.start[Used(p.start, p.size, |attempted|)..]
       && nextDue == p.due + Span(k, p.d)
  }

  /** The loop's state after `i` packets. */
  ghost predicate Underway(p: Plan, i: nat, queue: seq<Sample>, nextDue: int, attempted: seq<seq<Sample>>) {
    && p.size > 0 && p.d > 0
    && nextDue == p.due + Span(i, p.d)
    && Accepted(p.answers, i) == i
    && attempted == Packets(p.start, p.size, i)
    && queue == p.start[Used(p.start, p.size, i)..]
  }

  lemma EmitsNext(p: Plan, i: nat, queue: seq<Sample>, nextDue: int, attempted: seq<seq<Sample>>)
    requires Underway(p, i, queue, nextDue, attempted)
    ensures |attempted| == i
    ensures var pcm := if |queue| >= p.size then queue[..p.size] else Zeros(p.size);
            var rest := if |queue| >= p.size then queue[p.size..] else queue;
            && attempted + [pcm] == Packets(p.start, p.size, i + 1)
            && rest == p.start[Used(p.start, p.size, i + 1)..]
            && (p.answers(i) != Closed ==> Underway(p, i + 1, rest, nextDue + p.d, attempted + [pcm]))
  {
    TakesNext(p.start, p.size, i);
    PacketsGrow(p.start, p.size, i);
  }

  lemma EndsOpen(p: Plan, now: int, i: nat, queue: seq<Sample>, nextDue: int, attempted: seq<seq<Sample>>)
    requires Underway(p, i, queue, nextDue, attempted) && i == DueCount(now, p.due, p.d)
    ensures Emitted(p, now, true, attempted, queue, nextDue)
  {
  }

  lemma EndsClosed(p: Plan, now: int, i: nat, queue: seq<Sample>, nextDue: int, attempted: seq<seq<Sample>>)
    requires p.size > 0 && p.d > 0 && nextDue == p.due + Span(i, p.d)
    requires attempted == Packets(p.start, p.size, i + 1) && queue == p.start[Used(p.start, p.size, i + 1)..]
    requires i < DueCount(now, p.due, p.d) && Accepted(p.answers, DueCount(now, p.due, p.d)) == i
    ensures Emitted(p, now, false, attempted, queue, nextDue)
  {
  }

  function Capped(queue: seq<Sample>, size: nat): seq<Sample> {
    if |queue| > 4 * size then queue[|queue| - 4 * size..] else queue
  }

  /** The loop's test after `i` packets is the closed form of the count. */
  lemma DueIff(now: int, due: int, d: int, i: nat)
    requires d > 0
    ensures now >= due + Span(i, d) <==> i < DueCount(now, due, d)
  {
    SpanIsProduct(i, d);
    if now >= due {
      var q, r := (now - due) / d, (now - due) % d;
      assert now - due == q * d + r;
      LeastProduct(q - i, d);
      LeastProduct(i - q, d);
      assert (q - i) * d == q * d - i * d;
      assert (i - q) * d == i * d - q * d;
    }
  }

  lemma {:induction false} AcceptedGrows(answers: Answers, i: nat, n: nat)
    requires i < n && Accepted(answers, i) == i
    ensures answers(i) == Closed ==> Accepted(answers, n) == i
    ensures answers(i) != Closed ==> Accepted(answers, i + 1) == i + 1
  {
    if i + 1 < n {
      AcceptedGrows(answers, i, n - 1);
    }
  }

  lemma PacketsGrow(queue: seq<Sample>, size: nat, i: nat)
    requires size > 0
    ensures Packets(queue, size, i + 1) == Packets(queue, size, i) + [PacketAt(queue, size, i)]
  {
  }

  /** What the next packet takes from the front of what is left. */
  lemma TakesNext(queue: seq<Sample>, size: nat, i: nat)
    requires size > 0
    ensures var left := queue[Used(queue, size, i)..];
            && (|left| >= size <==> i < Whole(queue, size))
            && PacketAt(queue, size, i) == (if |left| >= size then left[..size] else Zeros(size))
            && queue[Used(queue, size, i + 1)..] == (if |left| >= size then left[size..] else left)
  {
    var w := Whole(queue, size);
    if i < w {
      SpanRises(i, w, size);
    }
  }

  // ---------------------------------------------------------------- the schedule

  /** A call sends nothing early, a packet for every period that has begun, and one after a bad slip. */
  lemma BurstSize(now: int, due: int, d: int)
    requires d > 0
    ensures var n := DueCount(now, Rebased(now, due), d);
            && (now < due ==> n == 0)
            && (due <= now <= due + SCHEDULE_RESET ==> n == (now - due) / d + 1)
            && (now > due + SCHEDULE_RESET ==> n == 1)
            && n <= SCHEDULE_RESET / d + 1
  {
    if due <= now <= due + SCHEDULE_RESET {
      DivisionRises(now - due, SCHEDULE_RESET, d);
    } else {
      DivisionRises(0, SCHEDULE_RESET, d);
      DivisionIsUnique(0, d, 0, 0);
    }
  }

  lemma DivisionRises(a: int, b: int, d: int)
    requires d > 0 && 0 <= a <= b
    ensures a / d <= b / d
  {
    QuotientRises(a / d, a % d, b / d, b % d, d);
  }

  lemma QuotientRises(p: int, r: int, q: int, s: int, d: nat)
    requires 0 <= r && s < d && p * d + r <= q * d + s
    ensures p <= q
  {
    LeastProduct(p - q, d);
    assert (p - q) * d == p * d - q * d;
  }

  /** A call that sends leaves the next packet due within one period from now. */
  lemma NextIsSoon(now: int, due: int, d: int)
    requires d > 0 && DueCount(now, Rebased(now, due), d) > 0
    ensures var next := Rebased(now, due) + Span(DueCount(now, Rebased(now, due), d), d);
            now < next <= now + d
  {
    var n := DueCount(now, Rebased(now, due), d);
    DueIff(now, Rebased(now, due), d, n);
    DueIff(now, Rebased(now, due), d, n - 1);
  }

  // ---------------------------------------------------------------- whole runs

  datatype Event =
    | Collected(chunks: seq<Chunk>)
    | CutBack
    | Ticked(now: int)

  /** The loop's state, with everything ever collected and how much of it has left the queue. */
  datatype Capture = Capture(queue: seq<Sample>, due: int, stream: seq<Sample>, gone: nat, scheduled: nat)

  function DueNow(c: Capture, now: int, d: int): nat
    requires d > 0
  {
    DueCount(now, Rebased(now, c.due), d)
  }

  /** One step of the loop while the receiver is there. */
  function Step(c: Capture, e: Event, size: nat, d: int): Capture
    requires size > 0 && d > 0
  {
    match e
    case Collected(chunks) => c.(queue := c.queue + Sounds(chunks), stream := c.stream + Sounds(chunks))
    case CutBack =>
      c.(queue := Capped(c.queue, size), gone := c.gone + |c.queue| - |Capped(c.queue, size)|)
    case Ticked(now) =>
      var n := DueNow(c, now, d);
      c.(queue := c.queue[Used(c.queue, size, n)..],
         due := Rebased(now, c.due) + Span(n, d),
         gone := c.gone + Used(c.queue, size, n),
         scheduled := c.scheduled + n)
  }

  function Run(c: Capture, es: seq<Event>, size: nat, d: int): Capture
    requires size > 0 && d > 0
    decreases |es|
  {
    if es == [] then c else Run(Step(c, es[0], size, d), es[1..], size, d)
  }

  /** The queue is what has been collected and has not left. */
  predicate InOrder(c: Capture) {
    c.gone <= |c.stream| && c.queue == c.stream[c.gone..]
  }

  /** Every packet of a tick is a slice of the collected stream, each starting where the last ended, or silence. */
  lemma PacketsAreSlices(c: Capture, size: nat, i: nat)
    requires size > 0 && InOrder(c)
    ensures if i < Whole(c.queue, size)
            then c.gone + Span(i, size) + size <= |c.stream|
                 && PacketAt(c.queue, size, i) == c.stream[c.gone + Span(i, size)..c.gone + Span(i, size) + size]
            else PacketAt(c.queue, size, i) == Zeros(size)
  {
    if i < Whole(c.queue, size) {
      SpanRises(i, Whole(c.queue, size), size);
    }
  }

  predicate ChunksAligned(chunks: seq<Chunk>, channels: nat)
    requires channels > 0
  {
    forall i :: 0 <= i < |chunks| ==> |chunks[i].samples| % channels == 0
  }

  lemma {:induction false} SoundsAligned(chunks: seq<Chunk>, channels: nat)
    requires channels > 0 && ChunksAligned(chunks, channels)
    ensures IsMultiple(|Sounds(chunks)|, channels)
  {
    if chunks == [] {
      ZeroIsMultiple(channels);
    } else {
      SoundsAligned(chunks[1..], channels);
      var n := |chunks[0].samples|;
      SpanIsProduct(n / channels, channels);
      assert n == Span(n / channels, channels);
      MultipleSum(n, |Sounds(chunks[1..])|, channels);
    }
  }

  lemma {:induction false} SpanAligned(n: nat, size: nat, channels: nat)
    requires IsMultiple(size, channels)
    ensures IsMultiple(Span(n, size), channels)
  {
    if n == 0 {
      ZeroIsMultiple(channels);
    } else {
      SpanAligned(n - 1, size, channels);
      MultipleSum(Span(n - 1, size), size, channels);
    }
  }

  ghost predicate Framed(c: Capture, channels: nat) {
    IsMultiple(|c.queue|, channels) && IsMultiple(c.gone, channels)
  }

  lemma CollectedFramed(c: Capture, chunks: seq<Chunk>, size: nat, d: int, channels: nat)
    requires size > 0 && d > 0 && channels > 0 && InOrder(c) && Framed(c, channels) && ChunksAligned(chunks, channels)
    ensures InOrder(Step(c, Collected(chunks), size, d)) && Framed(Step(c, Collected(chunks), size, d), channels)
  {
    SoundsAligned(chunks, channels);
    MultipleSum(|c.queue|, |Sounds(chunks)|, channels);
  }

  lemma CutFramed(c: Capture, size: nat, d: int, channels: nat)
    requires size > 0 && d > 0 && channels > 0 && IsMultiple(size, channels) && InOrder(c) && Framed(c, channels)
    ensures InOrder(Step(c, CutBack, size, d)) && Framed(Step(c, CutBack, size, d), channels)
  {
    SpanAligned(4, size, channels);
    SpanIsProduct(4, size);
    if |c.queue| > 4 * size {
      MultipleDifference(|c.queue|, 4 * size, channels);
      MultipleSum(c.gone, |c.queue| - 4 * size, channels);
    }
  }

  lemma TickFramed(c: Capture, now: int, size: nat, d: int, channels: nat)
    requires size > 0 && d > 0 && channels > 0 && IsMultiple(size, channels) && InOrder(c) && Framed(c, channels)
    ensures InOrder(Step(c, Ticked(now), size, d)) && Framed(Step(c, Ticked(now), size, d), channels)
  {
    var n := DueNow(c, now, d);
    UsedAligned(c.queue, size, n, channels);
    MultipleSum(c.gone, Used(c.queue, size, n), channels);
    MultipleDifference(|c.queue|, Used(c.queue, size, n), channels);
  }

  lemma UsedAligned(queue: seq<Sample>, size: nat, n: nat, channels: nat)
    requires size > 0 && IsMultiple(size, channels)
    ensures IsMultiple(Used(queue, size, n), channels)
  {
    SpanAligned(if n < Whole(queue, size) then n else Whole(queue, size), size, channels);
  }

  lemma StepFramed(c: Capture, e: Event, size: nat, d: int, channels: nat)
    requires size > 0 && d > 0 && channels > 0 && IsMultiple(size, channels)
    requires InOrder(c) && Framed(c, channels)
    requires e.Collected? ==> ChunksAligned(e.chunks, channels)
    ensures InOrder(Step(c, e, size, d)) && Framed(Step(c, e, size, d), channels)
  {
    match e
    case Collected(chunks) => CollectedFramed(c, chunks, size, d, channels);
    case CutBack => CutFramed(c, size, d, channels);
    case Ticked(now) => TickFramed(c, now, size, d, channels);
  }

  predicate AllAligned(es: seq<Event>, channels: nat)
    requires channels > 0
  {
    forall i :: 0 <= i < |es| && es[i].Collected? ==> ChunksAligned(es[i].chunks, channels)
  }

  /** Over any run the queue stays the end of what was collected, in whole frames. */
  lemma {:induction false} AlwaysFramed(c: Capture, es: seq<Event>, size: nat, d: int, channels: nat)
    requires size > 0 && d > 0 && channels > 0 && IsMultiple(size, channels)
    requires InOrder(c) && Framed(c, channels) && AllAligned(es, channels)
    ensures InOrder(Run(c, es, size, d)) && Framed(Run(c, es, size, d), channels)
    decreases |es|
  {
    if es != [] {
      StepFramed(c, es[0], size, d, channels);
      AlwaysFramed(Step(c, es[0], size, d), es[1..], size, d, channels);
    }
  }

  // ---------------------------------------------------------------- the packets of a run

  /** The packets that an event sends. */
  function SentBy(c: Capture, e: Event, size: nat, d: int): seq<seq<Sample>>
    requires size > 0 && d > 0
  {
    if e.Ticked? then Packets(c.queue, size, DueNow(c, e.now, d)) else []
  }

  /** All packets of a run, in the order in which they are sent. */
  function Sendings(c: Capture, es: seq<Event>, size: nat, d: int): seq<seq<Sample>>
    requires size > 0 && d > 0
    decreases |es|
  {
    if es == [] then [] else SentBy(c, es[0], size, d) + Sendings(Step(c, es[0], size, d), es[1..], size, d)
  }

  /** Where in the collected stream a packet comes from; silence comes from nowhere. */
  datatype Origin = At(offset: nat) | Nowhere

  function OriginsBy(c: Capture, e: Event, size: nat, d: int): seq<Origin>
    requires size > 0 && d > 0
  {
    if e.Ticked? then
      seq(DueNow(c, e.now, d), (i: nat) => if i < Whole(c.queue, size) then At(c.gone + Span(i, size)) else Nowhere)
    else []
  }

  function Origins(c: Capture, es: seq<Event>, size: nat, d: int): seq<Origin>
    requires size > 0 && d > 0
    decreases |es|
  {
    if es == [] then [] else OriginsBy(c, es[0], size, d) + Origins(Step(c, es[0], size, d), es[1..], size, d)
  }

  /** Every packet is the slice of the stream that starts at its origin, or silence. */
  predicate AreSlices(packets: seq<seq<Sample>>, origins: seq<Origin>, stream: seq<Sample>, size: nat) {
    && |packets| == |origins|
    && forall i :: 0 <= i < |packets| ==>
         match origins[i]
         case At(offset) => offset + size <= |stream| && packets[i] == stream[offset..offset + size]
         case Nowhere => packets[i] == Zeros(size)
  }

  /** The slices lie between `lo` and `hi`, none before the end of an earlier one, each starting with a whole frame. */
  ghost predicate Ascending(origins: seq<Origin>, size: nat, lo: nat, hi: nat, channels: nat) {
    && lo <= hi
    && (forall i :: 0 <= i < |origins| && origins[i].At? ==>
          lo <= origins[i].offset && origins[i].offset + size <= hi && IsMultiple(origins[i].offset, channels))
    && (forall i, j :: 0 <= i < j < |origins| && origins[i].At? && origins[j].At? ==>
          origins[i].offset + size <= origins[j].offset)
  }

  predicate Extends(longer: seq<Sample>, stream: seq<Sample>) {
    |stream| <= |longer| && longer[..|stream|] == stream
  }

  lemma SlicesStay(packets: seq<seq<Sample>>, origins: seq<Origin>, stream: seq<Sample>, longer: seq<Sample>, size: nat)
    requires AreSlices(packets, origins, stream, size) && Extends(longer, stream)
    ensures AreSlices(packets, origins, longer, size)
  {
    forall i | 0 <= i < |packets| && origins[i].At?
      ensures packets[i] == longer[origins[i].offset..origins[i].offset + size]
    {
      var o := origins[i].offset;
      assert longer[..|stream|][o..o + size] == longer[o..o + size];
    }
  }

  lemma SlicesJoin(a: seq<seq<Sample>>, oa: seq<Origin>, b: seq<seq<Sample>>, ob: seq<Origin>, stream: seq<Sample>,
                   size: nat)
    requires AreSlices(a, oa, stream, size) && AreSlices(b, ob, stream, size)
    ensures AreSlices(a + b, oa + ob, stream, size)
  {
  }

  lemma AscentsJoin(oa: seq<Origin>, ob: seq<Origin>, size: nat, lo: nat, mid: nat, hi: nat, channels: nat)
    requires Ascending(oa, size, lo, mid, channels) && Ascending(ob, size, mid, hi, channels)
    ensures Ascending(oa + ob, size, lo, hi, channels)
  {
  }

  lemma TickSlices(c: Capture, e: Event, size: nat, d: int)
    requires size > 0 && d > 0 && InOrder(c)
    ensures AreSlices(SentBy(c, e, size, d), OriginsBy(c, e, size, d), c.stream, size)
  {
    if e.Ticked? {
      forall i: nat | i < DueNow(c, e.now, d)
        ensures SentBy(c, e, size, d)[i] == PacketAt(c.queue, size, i)
      {
        PacketsAreSlices(c, size, i);
      }
      forall i: nat | i < Whole(c.queue, size) && i < DueNow(c, e.now, d)
        ensures c.gone + Span(i, size) + size <= |c.stream|
        ensures PacketAt(c.queue, size, i) == c.stream[c.gone + Span(i, size)..c.gone + Span(i, size) + size]
      {
        PacketsAreSlices(c, size, i);
      }
    }
  }

  lemma TickAscends(c: Capture, e: Event, size: nat, d: int, channels: nat)
    requires size > 0 && d > 0 && channels > 0 && IsMultiple(size, channels) && IsMultiple(c.gone, channels)
    ensures Ascending(OriginsBy(c, e, size, d), size, c.gone, Step(c, e, size, d).gone, channels)
  {
    if e.Ticked? {
      var origins, w, n := OriginsBy(c, e, size, d), Whole(c.queue, size), DueNow(c, e.now, d);
      forall i: nat | i < n && i < w
        ensures Span(i, size) + size <= Used(c.queue, size, n) && IsMultiple(c.gone + Span(i, size), channels)
      {
        SpanRises(i, if n < w then n else w, size);
        SpanAligned(i, size, channels);
        MultipleSum(c.gone, Span(i, size), channels);
      }
      forall i: nat, j: nat | i < j < n && j < w ensures Span(i, size) + size <= Span(j, size) {
        SpanRises(i, j, size);
      }
    }
  }

  lemma StepExtends(c: Capture, e: Event, size: nat, d: int)
    requires size > 0 && d > 0
    ensures Extends(Step(c, e, size, d).stream, c.stream)
  {
  }

  lemma {:induction false} RunExtends(c: Capture, es: seq<Event>, size: nat, d: int)
    requires size > 0 && d > 0
    ensures Extends(Run(c, es, size, d).stream, c.stream)
    decreases |es|
  {
    if es != [] {
      var next := Step(c, es[0], size, d);
      StepExtends(c, es[0], size, d);
      RunExtends(next, es[1..], size, d);
      var end := Run(next, es[1..], size, d).stream;
      assert end[..|next.stream|][..|c.stream|] == end[..|c.stream|];
    }
  }

  /**
    Over any run, whatever is collected, cut back and sent: every packet is silence or a slice
    of the stream of all samples collected, the slices follow one another without overlap, and
    each starts with a whole frame, so that channels never change places.
   */
  lemma {:induction false} AlwaysInOrder(c: Capture, es: seq<Event>, size: nat, d: int, channels: nat)
    requires size > 0 && d > 0 && channels > 0 && IsMultiple(size, channels)
    requires InOrder(c) && Framed(c, channels) && AllAligned(es, channels)
    ensures AreSlices(Sendings(c, es, size, d), Origins(c, es, size, d), Run(c, es, size, d).stream, size)
    ensures Ascending(Origins(c, es, size, d), size, c.gone, Run(c, es, size, d).gone, channels)
    decreases |es|
  {
    if es != [] {
      var e, rest := es[0], es[1..];
      var next := Step(c, e, size, d);
      StepFramed(c, e, size, d, channels);
      AlwaysInOrder(next, rest, size, d, channels);
      TickSlices(c, e, size, d);
      TickAscends(c, e, size, d, channels);
      RunExtends(c, es, size, d);
      SlicesStay(SentBy(c, e, size, d), OriginsBy(c, e, size, d), c.stream, Run(c, es, size, d).stream, size);
      SlicesJoin(SentBy(c, e, size, d), OriginsBy(c, e, size, d), Sendings(next, rest, size, d),
                 Origins(next, rest, size, d), Run(c, es, size, d).stream, size);
      AscentsJoin(OriginsBy(c, e, size, d), Origins(next, rest, size, d), size, c.gone, next.gone,
                  Run(c, es, size, d).gone, channels);
    }
  }

  /** A call of the loop that ends with the receiver still there is a tick: same packets, same queue, same schedule. */
  lemma CallIsTick(c: Capture, now: int, size: nat, d: int, answers: Answers, attempted: seq<seq<Sample>>,
                   queue: seq<Sample>, nextDue: int)
    requires Emitted(Plan(c.queue, size, Rebased(now, c.due), d, answers), now, true, attempted, queue, nextDue)
    ensures attempted == SentBy(c, Ticked(now), size, d)
    ensures queue == Step(c, Ticked(now), size, d).queue && nextDue == Step(c, Ticked(now), size, d).due
  {
  }

  // ---------------------------------------------------------------- what the packets carry

  /** Samples in the first `i` chunks. */
  function Offset(chunks: seq<Chunk>, i: nat): nat
    requires i <= |chunks|
  {
    if i == 0 then 0 else Offset(chunks, i - 1) + |chunks[i - 1].samples|
  }

  lemma {:induction false} OffsetTail(chunks: seq<Chunk>, i: nat)
    requires i < |chunks|
    ensures Offset(chunks, i + 1) == |chunks[0].samples| + Offset(chunks[1..], i)
  {
    if i > 0 {
      OffsetTail(chunks, i - 1);
      assert chunks[1..][i - 1] == chunks[i];
    }
  }

  lemma {:induction false} SoundsLength(chunks: seq<Chunk>)
    ensures |Sounds(chunks)| == Offset(chunks, |chunks|)
  {
    if chunks != [] {
      SoundsLength(chunks[1..]);
      OffsetTail(chunks, |chunks| - 1);
    }
  }

  /** Every sample handed over stands where its chunk's place puts it: as it is, or 0 when the chunk is silent. */
  lemma {:induction false} SoundsAt(chunks: seq<Chunk>, i: nat, k: nat)
    requires i < |chunks| && k < |chunks[i].samples|
    ensures |Sounds(chunks)| == Offset(chunks, |chunks|) && Offset(chunks, i) + k < |Sounds(chunks)|
    ensures Sounds(chunks)[Offset(chunks, i) + k] == if chunks[i].silent then 0 else chunks[i].samples[k]
  {
    SoundsLength(chunks);
    var head, rest := Sound(chunks[0]), chunks[1..];
    if i > 0 {
      SoundsAt(rest, i - 1, k);
      OffsetTail(chunks, i - 1);
      assert rest[i - 1] == chunks[i];
      assert (head + Sounds(rest))[|head| + (Offset(rest, i - 1) + k)] == Sounds(rest)[Offset(rest, i - 1) + k];
    }
  }

  /** Sample `m` of all that the chunks hand over comes from some chunk. */
  lemma {:induction false} ComesFrom(chunks: seq<Chunk>, n: nat, m: nat) returns (i: nat, k: nat)
    requires n <= |chunks| && m < Offset(chunks, n)
    ensures i < n && k < |chunks[i].samples| && Offset(chunks, i) + k == m
  {
    if m < Offset(chunks, n - 1) {
      i, k := ComesFrom(chunks, n - 1, m);
    } else {
      i, k := n - 1, m - Offset(chunks, n - 1);
    }
  }

  lemma {:induction false} SoundsConcat(a: seq<Chunk>, b: seq<Chunk>)
    ensures Sounds(a + b) == Sounds(a) + Sounds(b)
  {
    if a == [] {
      assert a + b == b;
    } else {
      SoundsConcat(a[1..], b);
      assert (a + b)[0] == a[0] && (a + b)[1..] == a[1..] + b;
      Frames.ConcatAssociates(Sound(a[0]), Sounds(a[1..]), Sounds(b));
    }
  }

  /** Everything that the endpoint hands over in a run. */
  function Delivered(es: seq<Event>): seq<Chunk> {
    if es == [] then [] else (if es[0].Collected? then es[0].chunks else []) + Delivered(es[1..])
  }

  lemma {:induction false} StreamIsDelivered(c: Capture, es: seq<Event>, size: nat, d: int)
    requires size > 0 && d > 0
    ensures Run(c, es, size, d).stream == c.stream + Sounds(Delivered(es))
    decreases |es|
  {
    if es != [] {
      StreamIsDelivered(Step(c, es[0], size, d), es[1..], size, d);
      SoundsConcat(if es[0].Collected? then es[0].chunks else [], Delivered(es[1..]));
    }
  }

  /** A sample that was handed over `m`-th: as it was, or 0 when its chunk is silent. */
  ghost predicate IsDelivered(y: int, chunks: seq<Chunk>, m: nat) {
    exists i, k ::
      && 0 <= i < |chunks| && 0 <= k < |chunks[i].samples| && m == Offset(chunks, i) + k
      && y == if chunks[i].silent then 0 else chunks[i].samples[k]
  }

  lemma StreamSample(chunks: seq<Chunk>, m: nat)
    requires m < |Sounds(chunks)|
    ensures IsDelivered(Sounds(chunks)[m], chunks, m)
  {
    SoundsLength(chunks);
    var i, k := ComesFrom(chunks, |chunks|, m);
    SoundsAt(chunks, i, k);
  }

  /**
    Sample `j` of any packet sent in a run from the start of the loop: a packet with an
    origin carries, in order, what the endpoint handed over from there on, and any other 0.
   */
  lemma PacketsCarryDelivered(due: int, es: seq<Event>, size: nat, d: int, channels: nat, i: nat, j: nat)
    requires size > 0 && d > 0 && channels > 0 && IsMultiple(size, channels) && AllAligned(es, channels)
    requires i < |Sendings(Capture([], due, [], 0, 0), es, size, d)| && j < size
    ensures var c := Capture([], due, [], 0, 0);
            var packet, origins := Sendings(c, es, size, d)[i], Origins(c, es, size, d);
            && |origins| == |Sendings(c, es, size, d)| && |packet| == size
            && match origins[i]
               case At(offset) => IsDelivered(packet[j], Delivered(es), offset + j)
               case Nowhere => packet[j] == 0
  {
    var c := Capture([], due, [], 0, 0);
    ZeroIsMultiple(channels);
    AlwaysInOrder(c, es, size, d, channels);
    StreamIsDelivered(c, es, size, d);
    assert [] + Sounds(Delivered(es)) == Sounds(Delivered(es));
    if Origins(c, es, size, d)[i].At? {
      StreamSample(Delivered(es), Origins(c, es, size, d)[i].offset + j);
    }
  }

  /** The cap: the newest four packets' worth of samples, or all when there are fewer. */
  lemma CapKeeps(queue: seq<Sample>, size: nat)
    ensures var kept := Capped(queue, size);
            && |kept| == (if |queue| < size + size + size + size then |queue| else size + size + size + size)
            && kept == queue[|queue| - |kept|..]
  {
  }

  /** The bad slip: only beyond half a second, counted in nanoseconds, does the schedule start over. */
  lemma SlipIs(now: int, due: int, d: int)
    requires d > 0
    ensures now - due > 500_000_000 ==> DueCount(now, Rebased(now, due), d) == 1 && Rebased(now, due) == now
    ensures now - due <= 500_000_000 ==> Rebased(now, due) == due
    ensures 0 <= now - due <= 500_000_000 ==> DueCount(now, Rebased(now, due), d) == (now - due) / d + 1
    ensures now < due ==> DueCount(now, Rebased(now, due), d) == 0
  {
    BurstSize(now, due, d);
  }

  // ---------------------------------------------------------------- the schedule of a run

  /** No call of the run slips so far that the schedule is reset. */
  predicate NoReset(c: Capture, es: seq<Event>, size: nat, d: int)
    requires size > 0 && d > 0
    decreases |es|
  {
    if es == [] then true
    else
      && (es[0].Ticked? ==> es[0].now <= c.due + SCHEDULE_RESET)
      && NoReset(Step(c, es[0], size, d), es[1..], size, d)
  }

  lemma SpansAdd(x: int, y: int, z: int, i: nat, j: nat, n: nat, d: nat)
    requires y == x + Span(i, d) && z == y + Span(j, d) && n == i + j
    ensures z == x + Span(n, d)
  {
    SpanSum(i, j, d);
  }

  /** The packets scheduled in a run move the schedule by a period each. */
  lemma {:induction false} KeepsTime(c: Capture, es: seq<Event>, size: nat, d: nat) returns (n: nat)
    requires size > 0 && d > 0 && NoReset(c, es, size, d)
    ensures Run(c, es, size, d).scheduled == c.scheduled + n
    ensures Run(c, es, size, d).due == c.due + Span(n, d)
    decreases |es|
  {
    if es == [] {
      n := 0;
    } else {
      var next, last := Step(c, es[0], size, d), Run(c, es, size, d);
      var i := next.scheduled - c.scheduled;
      var j := KeepsTime(next, es[1..], size, d);
      n := i + j;
      SpansAdd(c.due, next.due, last.due, i, j, n, d);
    }
  }

  /** Between resets the schedule moves by exactly one period for each of the `n` packets sent. */
  lemma NoDriftBetweenResets(c: Capture, es: seq<Event>, size: nat, d: int) returns (n: nat)
    requires size > 0 && d > 0 && NoReset(c, es, size, d)
    ensures Run(c, es, size, d).scheduled == c.scheduled + n
    ensures Run(c, es, size, d).due == c.due + n * d
  {
    n := KeepsTime(c, es, size, d);
    SpanIsProduct(n, d);
  }
}
