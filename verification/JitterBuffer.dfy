/**
  The jitter buffer as the program runs it: one object over interleaved samples, updated
  in place. Every method is proved to compute the value that `JitterModel` gives for it.
 */
module JitterBufferClass {
  import opened Numbers
  import opened Wrappers
  import opened Frames
  import R = Ring
  import M = JitterModel

  /** Pushes each sample of a frame, attenuated. */
  method PushScaled(queue: R.Ring, base: Frame, gain: real) returns (q: R.Ring)
    requires base != [] && R.Valid(queue) && R.AlignedStorage(queue, |base|)
    ensures R.Valid(q) && R.AlignedStorage(q, |base|)
    ensures q.items == queue.items + M.ScaleFrame(base, gain)
  {
    ghost var scaled := M.ScaleFrame(base, gain);
    q := queue;
    for c := 0 to |base|
      invariant R.Valid(q) && R.AlignedStorage(q, |base|)
      invariant q.items == queue.items + scaled[..c]
    {
      R.PushBackAligned(q, Scale(base[c], gain), |base|);
      q := R.PushBack(q, Scale(base[c], gain));
    }
  }

  method PushZeros(queue: R.Ring, channels: nat) returns (q: R.Ring)
    requires channels > 0 && R.Valid(queue) && R.AlignedStorage(queue, channels)
    ensures R.Valid(q) && R.AlignedStorage(q, channels)
    ensures q.items == queue.items + Silence(channels)
  {
    ghost var quiet := Silence(channels);
    q := queue;
    for c := 0 to channels
      invariant R.Valid(q) && R.AlignedStorage(q, channels)
      invariant q.items == queue.items + quiet[..c]
    {
      R.PushBackAligned(q, 0, channels);
      q := R.PushBack(q, 0);
    }
  }

  /** Pushes `n` frames of a fade. The short-cut of pushing plain zeros once the fade is over changes nothing. */
  method PushFade(queue: R.Ring, base: Frame, n: nat) returns (q: R.Ring)
    requires base != [] && R.Valid(queue) && R.AlignedStorage(queue, |base|)
    ensures R.Valid(q) && R.AlignedStorage(q, |base|)
    ensures q.items == queue.items + Interleave(M.Faded(base, n))
  {
    q := queue;
    var i := 0;
    while i < n
      invariant 0 <= i <= n
      invariant R.Valid(q) && R.AlignedStorage(q, |base|)
      invariant q.items == queue.items + Interleave(M.Faded(base, i))
    {
      var gain := M.FadeOut(i);
      q := PushScaled(q, base, gain);
      FadeGrows(queue.items, base, i);
      i := i + 1;
      if gain == 0.0 {
        while i < n
          invariant 0 < i <= n
          invariant R.Valid(q) && R.AlignedStorage(q, |base|)
          invariant q.items == queue.items + Interleave(M.Faded(base, i))
        {
          M.FadeIsOver(base, i - 1, i);
          q := PushZeros(q, |base|);
          FadeGrows(queue.items, base, i);
          i := i + 1;
        }
        break;
      }
    }
  }

  lemma FadeGrows(before: seq<Sample>, base: Frame, i: nat)
    ensures before + Interleave(M.Faded(base, i)) + M.ScaleFrame(base, M.FadeOut(i))
         == before + Interleave(M.Faded(base, i + 1))
  {
    M.FadedNext(base, i);
    InterleaveAppend(M.Faded(base, i), M.ScaleFrame(base, M.FadeOut(i)));
    ConcatAssociates(before, Interleave(M.Faded(base, i)), M.ScaleFrame(base, M.FadeOut(i)));
  }

  /** The queue is made with room for whole frames. */
  lemma CapacityAligned(cap: nat, channels: nat)
    requires channels >= 1 && cap >= 1
    ensures cap * channels >= 1
    ensures R.Valid(R.WithCapacity(cap * channels)) && R.AlignedStorage(R.WithCapacity(cap * channels), channels)
  {
    SpanIsProduct(cap, channels);
    assert cap * channels == Span(cap, channels) && 0 == Span(0, channels);
    LeastProduct(cap, channels);
  }

  class JitterBuffer {
    const channels: nat
    const framesPerPacket: nat
    const targetFrames: nat
    const maxFrames: nat
    var queue: R.Ring
    const prev: array<Sample>
    var frac: real
    var rate: real
    var warming: bool
    var expectedSeq: Option<U32>
    var stats: M.Stats
    /** The queue, frame by frame. */
    ghost var frames: seq<Frame>

    ghost function Config(): M.Config {
      M.Config(channels, framesPerPacket, targetFrames, maxFrames)
    }

    /** The object's value. */
    ghost function State(): M.Buffer
      reads this, prev
    {
      M.Buffer(Config(), frames, prev[..], frac, rate, warming, expectedSeq, stats)
    }

    /** The representation is sound: whole frames, in a ring whose seam never splits one. */
    ghost predicate Wired()
      reads this, prev
    {
      && M.ValidConfig(Config())
      && R.Valid(queue) && R.AlignedStorage(queue, channels)
      && queue.items == Interleave(frames)
      && Sized(frames, channels)
      && prev.Length == channels
    }

    ghost predicate Valid()
      reads this, prev
    {
      Wired() && M.Valid(State())
    }

    constructor (channels: nat, rateHz: U32, frameMs: U8, targetMs: U32)
      requires channels >= 1
      ensures Valid() && fresh(prev)
      ensures State() == M.Initial(M.NewConfig(channels, rateHz, frameMs, targetMs))
    {
      var perPacket := M.FramesIn(rateHz, frameMs);
      perPacket := if perPacket < 1 then 1 else perPacket;
      var target := M.FramesIn(rateHz, targetMs);
      target := if target < perPacket * 2 then perPacket * 2 else target;
      var cap := target * 4;
      cap := if cap < perPacket * 8 then perPacket * 8 else cap;
      CapacityAligned(cap, channels);
      this.channels := channels;
      framesPerPacket := perPacket;
      targetFrames := target;
      maxFrames := cap;
      queue := R.WithCapacity(cap * channels);
      prev := new Sample[channels](_ => 0);
      frac := 0.0;
      rate := 1.0;
      warming := true;
      expectedSeq := None;
      stats := M.Stats(0, 0, 0, 0, 0, 0);
      frames := [];
      new;
      assert prev[..] == M.Initial(Config()).prev;
    }

    function FillFrames(): (n: nat)
      reads this, prev
      requires Wired()
      ensures n == |frames|
    {
      InterleaveLength(frames, channels);
      ProductIsMultiple(|frames|, channels);
      |queue.items| / channels
    }

    /** Zeroes the held frame. */
    method ClearPrev()
      modifies prev
      ensures prev[..] == Silence(prev.Length)
    {
      for c := 0 to prev.Length
        invariant forall i :: 0 <= i < c ==> prev[i] == 0
      {
        prev[c] := 0;
      }
    }

    method Reset()
      requires Wired()
      modifies this, prev
      ensures Valid()
      ensures State() == M.Reset(old(State()))
    {
      ZeroIsMultiple(channels);
      queue := R.Clear(queue);
      frames := [];
      ClearPrev();
      frac := 0.0;
      rate := 1.0;
      warming := true;
      expectedSeq := None;
    }

    method Push(number: U32, samples: seq<Sample>)
      requires Valid()
      modifies this, prev
      ensures Valid()
      ensures State() == M.Push(old(State()), number, samples)
    {
      M.PushValid(State(), number, samples);
      var late := Admit(number);
      if late {
        return;
      }
      Enqueue(samples);
    }

    /** Appends an accepted packet and keeps the queue under its cap. */
    method Enqueue(samples: seq<Sample>)
      requires Wired()
      modifies this
      ensures Wired()
      ensures State() == M.Enqueue(old(State()), Deinterleave(samples, channels))
    {
      Append(samples);
      Trim();
    }

    /** The sequence-number half of a push: refuse a late packet, fill the gap before any other. */
    method Admit(number: U32) returns (late: bool)
      requires Wired()
      modifies this, prev
      ensures Wired()
      ensures late == M.Decide(old(expectedSeq), number).Late?
      ensures State() == M.Admit(old(State()), number)
    {
      match expectedSeq {
        case None =>
          M.NoGap(State());
          expectedSeq := Some(Wrap32(number + 1));
          late := false;
        case Some(expected) =>
          late := AdmitAfter(expected, number);
      }
    }

    method AdmitAfter(expected: U32, number: U32) returns (late: bool)
      requires Wired() && expectedSeq == Some(expected)
      modifies this, prev
      ensures Wired()
      ensures late == M.Decide(Some(expected), number).Late?
      ensures State() == M.Admit(old(State()), number)
    {
      var delta := Signed32(Wrap32(number - expected));
      if delta < 0 {
        stats := stats.(late := stats.late + 1);
        return true;
      }
      if delta > M.RESYNC_GAP_PACKETS {
        Restart(number);
        return false;
      }
      M.NoGap(State());
      if delta > 0 {
        stats := stats.(lost := stats.lost + delta);
        Conceal(delta);
      }
      expectedSeq := Some(Wrap32(number + 1));
      return false;
    }

    /** A jump too far to conceal: start over from this packet. */
    method Restart(number: U32)
      requires Wired()
      modifies this, prev
      ensures Wired()
      ensures State() == M.Bridge(M.Restarted(old(State())), number, 0)
    {
      stats := stats.(resyncs := stats.resyncs + 1);
      Reset();
      expectedSeq := Some(Wrap32(number + 1));
      M.NoGap(M.Restarted(old(State())));
    }

    /** Counts a packet and appends its whole frames; a partial trailing frame is ignored. */
    method Append(samples: seq<Sample>)
      requires Wired()
      modifies this
      ensures Wired()
      ensures State() == old(State()).(
        queue := old(frames) + Deinterleave(samples, channels),
        stats := old(stats).(accepted := old(stats).accepted + 1))
    {
      ghost var packet := Deinterleave(samples, channels);
      InterleaveDeinterleave(samples, channels);
      ItemsAligned();
      SpanIsProduct(|packet|, channels);
      var usable := Usable(samples, channels);
      R.ExtendAligned(queue, usable, channels);
      InterleaveConcat(frames, packet);
      queue := R.Extend(queue, usable);
      frames := frames + packet;
      stats := stats.(accepted := stats.accepted + 1);
    }

    /** Fills a gap with the newest frame, faded out. */
    method Conceal(packets: nat)
      requires Wired()
      modifies this
      ensures Wired()
      ensures State() == old(State()).(queue := old(frames) + M.Concealment(old(State()), packets))
    {
      var n := packets * framesPerPacket;
      var base := LastFrame();
      ghost var filler := M.Faded(base, n);
      InterleaveConcat(frames, filler);
      queue := PushFade(queue, base, n);
      frames := frames + filler;
    }

    lemma ItemsAligned()
      requires Wired()
      ensures R.Aligned(queue, channels)
    {
      InterleaveSpan(frames, channels);
    }

    /** The newest frame. The seam is frame-aligned, so a non-empty queue never falls back to `prev`. */
    function LastFrame(): (last: Frame)
      reads this, prev
      requires Wired()
      ensures last == M.LastFrame(State())
    {
      LastGroupIsNewest();
      var tail := R.LastGroup(queue, channels);
      if tail.Some? then tail.value else prev[..]
    }

    lemma LastGroupIsNewest()
      requires Wired()
      ensures R.LastGroup(queue, channels) == if frames == [] then None else Some(frames[|frames| - 1])
    {
      if frames != [] {
        InterleaveLast(frames, channels);
        ItemsAligned();
        R.LastGroupFound(queue, channels);
      }
    }

    method Trim()
      requires Wired()
      modifies this
      ensures Wired()
      ensures State() == M.Trim(old(State()))
    {
      var fill := FillFrames();
      var excess := if fill > maxFrames then fill - maxFrames else 0;
      if excess == 0 {
        return;
      }
      var drop := excess + (maxFrames - targetFrames);
      drop := if drop < fill then drop else fill;
      InterleaveDrop(frames, drop, channels);
      SpanIsProduct(drop, channels);
      R.DrainAligned(queue, drop * channels, channels);
      queue := R.Drain(queue, drop * channels);
      frames := frames[drop..];
      stats := stats.(overruns := stats.overruns + drop * channels);
    }

    /** Fills `out` with the next frames: silence while warming, resampled audio, a fade when the queue runs dry. */
    method Pull(out: array<Sample>)
      requires Valid() && out != prev
      requires out.Length % channels == 0
      modifies this, prev, out
      ensures Valid()
      ensures State() == M.Pull(old(State()), out.Length / channels).after
      ensures out[..] == Interleave(M.Pull(old(State()), out.Length / channels).out)
    {
      var count := out.Length / channels;
      SpanIsProduct(count, channels);
      PullFrames(out, count);
    }

    method PullFrames(out: array<Sample>, count: nat)
      requires Valid() && out != prev
      requires out.Length == Span(count, channels)
      modifies this, prev, out
      ensures Valid()
      ensures State() == M.Pull(old(State()), count).after
      ensures out[..] == Interleave(M.Pull(old(State()), count).out)
    {
      M.PullValid(State(), count);
      if warming {
        var fill := FillFrames();
        if fill < targetFrames {
          WriteSilence(out);
          InterleaveSilence(channels, count);
          SpanIsProduct(count, channels);
          return;
        }
        warming := false;
        frac := 0.0;
        rate := 1.0;
      }
      M.NextRateValid(State());
      UpdateRate();
      Play(out, count, State());
    }

    method WriteSilence(out: array<Sample>)
      modifies out
      ensures out[..] == seq(out.Length, _ => 0)
    {
      for i := 0 to out.Length
        invariant forall j :: 0 <= j < i ==> out[j] == 0
      {
        out[i] := 0;
      }
    }

    /** Nudges the rate by a fiftieth of the way towards the clamped correction. */
    method UpdateRate()
      requires Wired()
      modifies this`rate
      ensures rate == M.NextRate(old(State()))
    {
      var fill := FillFrames();
      var target := targetFrames as real;
      var error := (fill as real - target) / target;
      var desired := M.Clamp(1.0 + error * M.DRIFT_GAIN, 1.0 - M.MAX_RATE_DEVIATION, 1.0 + M.MAX_RATE_DEVIATION);
      rate := rate + (desired - rate) * M.RATE_SMOOTHING;
    }

    /** The reader has consumed `k` frames of `b` and nothing else has changed. */
    ghost predicate Reading(b: M.Buffer, k: nat)
      reads this, prev
    {
      && Wired()
      && k <= |b.queue|
      && State() == b.(queue := b.queue[k..], prev := M.Reachable(b)[k], frac := frac)
    }

    lemma WholeFrames()
      requires Wired()
      ensures |queue.items| < channels <==> frames == []
      ensures frames != [] ==> queue.items[..channels] == frames[0] && queue.items[channels..] == Interleave(frames[1..])
    {
    }

    /** Moves the head of the queue into `prev`. */
    method PopFrame()
      requires Wired() && frames != []
      modifies this`queue, this`frames, prev
      ensures Wired()
      ensures State() == old(State()).(queue := old(frames)[1..], prev := old(frames)[0])
    {
      WholeFrames();
      var q := queue;
      for c := 0 to channels
        modifies prev
        invariant channels <= |queue.items| && R.Valid(queue)
        invariant q == R.Drain(queue, c)
        invariant forall i :: 0 <= i < c ==> prev[i] == queue.items[i]
      {
        R.PopIsDrain(queue, c);
        prev[c] := q.items[0];
        q := R.PopFront(q);
      }
      assert prev[..] == frames[0];
      assert channels == Span(1, channels);
      R.DrainAligned(queue, channels, channels);
      queue := q;
      frames := frames[1..];
    }

    /** Leaves behind the input frames the read head has passed. */
    method Advance(ghost b: M.Buffer, ghost k0: nat, ghost p: real) returns (dry: bool, ghost k: nat)
      requires Reading(b, k0) && frac == p - k0 as real && 0.0 <= frac
      modifies this`queue, this`frames, this`frac, prev
      ensures Reading(b, k) && frac == p - k as real && 0.0 <= frac
      ensures dry ==> k == |b.queue| && 1.0 <= frac
      ensures !dry ==> frac < 1.0
    {
      k := k0;
      while frac >= 1.0
        invariant Reading(b, k) && frac == p - k as real && 0.0 <= frac
        decreases |b.queue| - k
      {
        WholeFrames();
        if |queue.items| < channels {
          return true, k;
        }
        PopFrame();
        frac := frac - 1.0;
        k := k + 1;
      }
      dry := false;
    }

    /** Writes one interpolated frame. */
    method Interpolate(out: array<Sample>, at: nat)
      requires Wired() && frames != [] && out != prev
      requires at + channels <= out.Length
      modifies out
      ensures out[..at] == old(out[..at])
      ensures out[at..at + channels] == M.LerpFrame(prev[..], frames[0], frac)
    {
      WholeFrames();
      for c := 0 to channels
        invariant out[..at] == old(out[..at])
        invariant forall i :: 0 <= i < c ==> out[at + i] == Lerp(prev[i], queue.items[i], frac)
      {
        out[at + c] := Lerp(prev[c], queue.items[c], frac);
      }
    }

    /** Fades the held frame out over the rest of `out` and goes back to warming up. */
    method Underrun(out: array<Sample>, at: nat, n: nat)
      requires Wired() && out != prev
      requires at + Span(n, channels) == out.Length
      modifies this, prev, out
      ensures Wired()
      ensures State() == M.Dried(old(State()))
      ensures out[..] == old(out[..at]) + Interleave(M.Faded(old(prev[..]), n))
    {
      stats := stats.(underruns := stats.underruns + 1);
      FadeRest(out, at, n);
      ZeroIsMultiple(channels);
      queue := R.Clear(queue);
      frames := [];
      ClearPrev();
      frac := 0.0;
      warming := true;
    }

    method FadeRest(out: array<Sample>, at: nat, n: nat)
      requires prev.Length == channels && out != prev
      requires at + Span(n, channels) == out.Length
      modifies out
      ensures out[..] == old(out[..at]) + Interleave(M.Faded(prev[..], n))
    {
      var base := prev[..];
      var end := at;
      for i := 0 to n
        invariant end == at + Span(i, channels)
        invariant end <= out.Length
        invariant out[..end] == old(out[..at]) + Interleave(M.Faded(base, i))
      {
        SpanRises(i, n, channels);
        var gain := M.FadeOut(i);
        ghost var done := out[..end];
        WriteScaled(out, end, base, gain);
        M.FadedNext(base, i);
        InterleaveAppend(M.Faded(base, i), M.ScaleFrame(base, gain));
        ConcatAssociates(old(out[..at]), Interleave(M.Faded(base, i)), M.ScaleFrame(base, gain));
        end := end + channels;
      }
    }

    method WriteScaled(out: array<Sample>, at: nat, base: Frame, gain: real)
      requires at + |base| <= out.Length
      modifies out
      ensures out[..at + |base|] == old(out[..at]) + M.ScaleFrame(base, gain)
    {
      for c := 0 to |base|
        invariant out[..at] == old(out[..at])
        invariant forall i :: 0 <= i < c ==> out[at + i] == Scale(base[i], gain)
      {
        out[at + c] := Scale(base[c], gain);
      }
    }

    /** Output frame `f` finds nothing left to interpolate towards. */
    method RunDry(out: array<Sample>, at: nat, ghost count: nat, ghost b: M.Buffer, ghost k: nat, ghost f: nat)
      requires Reading(b, k) && M.Playing(b) && out != prev && frames == []
      requires f < count && at == Span(f, channels) && at <= out.Length == Span(count, channels)
      requires M.Reaches(b, f)
      requires out[..at] == Interleave(M.Resample(b, f))
      modifies this, prev, out
      ensures Wired()
      ensures State() == M.RunDry(b, f, count).after
      ensures out[..] == Interleave(M.RunDry(b, f, count).out)
    {
      M.LastReachable(b);
      InterleaveConcat(M.Resample(b, f), M.Faded(M.LastFrame(b), count - f));
      SpanSum(f, count - f, channels);
      var n := Chunks(out.Length - at, count - f);
      ghost var s := State();
      assert s == b.(queue := [], prev := M.LastFrame(b), frac := frac);
      DriedAlike(s, b, f, count);
      Underrun(out, at, n);
    }

    lemma DriedAlike(s: M.Buffer, b: M.Buffer, f: nat, count: nat)
      requires M.Playing(b) && M.Reaches(b, f) && f <= count
      requires s == b.(queue := [], prev := M.LastFrame(b), frac := s.frac)
      ensures M.Dried(s) == M.RunDry(b, f, count).after
    {
    }

    function Chunks(samples: nat, ghost n: nat): (chunks: nat)
      requires channels > 0 && samples == Span(n, channels)
      ensures chunks == n
    {
      SpanIsProduct(n, channels);
      ProductIsMultiple(n, channels);
      samples / channels
    }

    /** Output frame `f` from the head of the queue. */
    method Step(out: array<Sample>, at: nat, ghost b: M.Buffer, ghost k: nat, ghost f: nat)
      requires Reading(b, k) && M.Playing(b) && out != prev && frames != []
      requires at + channels <= out.Length
      requires frac == M.Position(b.frac, b.rate, f) - k as real && 0.0 <= frac < 1.0
      requires M.Reaches(b, f)
      requires out[..at] == Interleave(M.Resample(b, f))
      modifies this`frac, out
      ensures Reading(b, k) && frac == M.Position(b.frac, b.rate, f + 1) - k as real && 0.0 <= frac
      ensures M.Reaches(b, f + 1) && k == M.Popped(b, f + 1)
      ensures out[..at + channels] == Interleave(M.Resample(b, f + 1))
    {
      ghost var before := out[..at];
      Interpolate(out, at);
      M.WritesNext(b, f, k, before, M.LerpFrame(prev[..], frames[0], frac));
      assert out[..at + channels] == out[..at] + out[at..at + channels];
      frac := frac + rate;
    }

    /** The interpolator's state before output frame `f`. */
    ghost predicate Before(b: M.Buffer, k: nat, f: nat, out: array<Sample>, at: nat)
      reads this, prev, out
    {
      && Reading(b, k) && M.Playing(b)
      && frac == M.Position(b.frac, b.rate, f) - k as real && 0.0 <= frac
      && M.Reaches(b, f) && k == M.Popped(b, f)
      && at == Span(f, channels) && at <= out.Length
      && out[..at] == Interleave(M.Resample(b, f))
    }

    /** All of `out` is written and the buffer is as a pull of `count` frames leaves it. */
    ghost predicate Finished(b: M.Buffer, count: nat, out: array<Sample>)
      reads this, prev, out
    {
      && M.Playing(b)
      && Wired() && State() == M.Render(b, count).after
      && out[..] == Interleave(M.Render(b, count).out)
    }

    /** One round of the loop: output frame `f`, or the rest of the output when the queue is empty. */
    method Turn(out: array<Sample>, at: nat, ghost count: nat, ghost b: M.Buffer, ghost k0: nat, ghost f: nat)
      returns (dry: bool, ghost k: nat)
      requires Before(b, k0, f, out, at) && out != prev
      requires f < count && out.Length == Span(count, channels)
      modifies this, prev, out
      ensures !dry ==> Before(b, k, f + 1, out, at + channels)
      ensures dry ==> Finished(b, count, out)
    {
      SpanRises(f, count, channels);
      dry, k := Advance(b, k0, M.Position(b.frac, b.rate, f));
      WholeFrames();
      if dry || |queue.items| < channels {
        M.RendersDry(b, f, count);
        RunDry(out, at, count, b, k, f);
        return true, k;
      }
      Step(out, at, b, k, f);
    }

    lemma Begins(out: array<Sample>)
      requires Wired() && M.Playing(State()) && 0.0 <= frac
      ensures Before(State(), 0, 0, out, 0)
    {
    }

    lemma Ends(b: M.Buffer, k: nat, count: nat, out: array<Sample>)
      requires Before(b, k, count, out, out.Length)
      ensures Finished(b, count, out)
    {
      M.RendersFlow(b, count);
      assert out[..out.Length] == out[..];
    }

    /** The interpolator's loop over output frames; it ends early when the queue runs dry. */
    method PlayUntilDry(out: array<Sample>, count: nat, ghost b: M.Buffer) returns (dry: bool, ghost k: nat)
      requires Before(b, 0, 0, out, 0) && out != prev
      requires out.Length == Span(count, channels)
      modifies this, prev, out
      ensures if dry then Finished(b, count, out) else Before(b, k, count, out, out.Length)
    {
      k := 0;
      var at: nat := 0;
      for f := 0 to count
        invariant Before(b, k, f, out, at)
      {
        dry, k := Turn(out, at, count, b, k, f);
        if dry {
          return;
        }
        at := at + channels;
      }
      dry := false;
    }

    method Play(out: array<Sample>, count: nat, ghost b: M.Buffer)
      requires Wired() && M.Playing(b) && b == State() && out != prev && 0.0 <= frac
      requires out.Length == Span(count, channels)
      modifies this, prev, out
      ensures Finished(b, count, out)
    {
      Begins(out);
      var dry;
      ghost var k;
      dry, k := PlayUntilDry(out, count, b);
      if !dry {
        Ends(b, k, count, out);
      }
    }
  }
}
