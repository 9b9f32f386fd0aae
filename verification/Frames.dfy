/** Interleaved sample streams and the frames they carry. */
module Frames {
  import opened Numbers

  /** One sample per channel, all belonging to the same instant. */
  type Frame = seq<Sample>

  predicate Sized(frames: seq<Frame>, channels: nat) {
    forall i :: 0 <= i < |frames| ==> |frames[i]| == channels
  }

  /** Frames in interleaved order. */
  function Interleave(frames: seq<Frame>): seq<Sample> {
    if frames == [] then [] else frames[0] + Interleave(frames[1..])
  }

  /** The whole frames of an interleaved stream; a partial trailing frame is dropped. */
  function Deinterleave(samples: seq<Sample>, channels: nat): (frames: seq<Frame>)
    requires channels > 0
    ensures Sized(frames, channels)
  {
    if |samples| < channels then [] else [samples[..channels]] + Deinterleave(samples[channels..], channels)
  }

  function Repeat(frame: Frame, n: nat): seq<Frame> {
    seq(n, _ => frame)
  }

  function Silence(channels: nat): Frame {
    seq(channels, _ => 0)
  }

  lemma {:induction false} InterleaveSpan(frames: seq<Frame>, channels: nat)
    requires Sized(frames, channels)
    ensures |Interleave(frames)| == Span(|frames|, channels)
  {
    if frames != [] {
      InterleaveSpan(frames[1..], channels);
    }
  }

  lemma {:induction false} InterleaveSilence(channels: nat, n: nat)
    ensures Interleave(Repeat(Silence(channels), n)) == seq(n * channels, _ => 0)
  {
    if n > 0 {
      InterleaveSilence(channels, n - 1);
      assert Repeat(Silence(channels), n)[1..] == Repeat(Silence(channels), n - 1);
      assert n * channels == channels + (n - 1) * channels;
    }
  }

  lemma {:induction false} InterleaveLength(frames: seq<Frame>, channels: nat)
    requires Sized(frames, channels)
    ensures |Interleave(frames)| == |frames| * channels
  {
    if frames != [] {
      InterleaveLength(frames[1..], channels);
      assert |frames| * channels == channels + (|frames| - 1) * channels;
    }
  }

  lemma ConcatAssociates<T>(a: seq<T>, b: seq<T>, c: seq<T>)
    ensures (a + b) + c == a + (b + c)
  {
  }

  lemma {:induction false} InterleaveConcat(a: seq<Frame>, b: seq<Frame>)
    ensures Interleave(a + b) == Interleave(a) + Interleave(b)
  {
    if a == [] {
      assert a + b == b;
    } else {
      var first, rest := a[0], a[1..];
      InterleaveConcat(rest, b);
      assert (a + b)[0] == first && (a + b)[1..] == rest + b;
      ConcatAssociates(first, Interleave(rest), Interleave(b));
    }
  }

  lemma InterleaveAppend(frames: seq<Frame>, last: Frame)
    ensures Interleave(frames + [last]) == Interleave(frames) + last
  {
    InterleaveConcat(frames, [last]);
    assert Interleave([last]) == last;
  }

  lemma InterleaveDrop(frames: seq<Frame>, n: nat, channels: nat)
    requires n <= |frames| && Sized(frames, channels)
    ensures n * channels <= |Interleave(frames)|
    ensures Interleave(frames)[n * channels..] == Interleave(frames[n..])
    ensures Interleave(frames)[..n * channels] == Interleave(frames[..n])
  {
    assert frames == frames[..n] + frames[n..];
    InterleaveConcat(frames[..n], frames[n..]);
    InterleaveLength(frames[..n], channels);
  }

  lemma InterleaveLast(frames: seq<Frame>, channels: nat)
    requires frames != [] && Sized(frames, channels)
    ensures channels <= |Interleave(frames)|
    ensures Interleave(frames)[|Interleave(frames)| - channels..] == frames[|frames| - 1]
  {
    assert frames == frames[..|frames| - 1] + [frames[|frames| - 1]];
    InterleaveAppend(frames[..|frames| - 1], frames[|frames| - 1]);
  }

  /** The usable samples: the longest prefix made of whole frames. */
  function Usable(samples: seq<Sample>, channels: nat): seq<Sample>
    requires channels > 0
  {
    samples[..|samples| - |samples| % channels]
  }

  lemma {:induction false} DeinterleaveLength(samples: seq<Sample>, channels: nat)
    requires channels > 0
    ensures |samples| - |samples| % channels == |Deinterleave(samples, channels)| * channels
    ensures |Deinterleave(samples, channels)| == |samples| / channels
  {
    if |samples| < channels {
      DivisionIsUnique(|samples|, channels, 0, |samples|);
    } else {
      var rest := samples[channels..];
      DeinterleaveLength(rest, channels);
      var n := |Deinterleave(rest, channels)|;
      assert (n + 1) * channels == n * channels + channels;
      DivisionIsUnique(|samples|, channels, n + 1, |rest| % channels);
    }
  }

  lemma {:induction false} InterleavePrefix(samples: seq<Sample>, channels: nat)
    requires channels > 0
    ensures Interleave(Deinterleave(samples, channels)) <= samples
  {
    if |samples| >= channels {
      var rest := samples[channels..];
      InterleavePrefix(rest, channels);
      var frames := Deinterleave(samples, channels);
      assert frames[0] == samples[..channels] && frames[1..] == Deinterleave(rest, channels);
      assert samples == samples[..channels] + rest;
    }
  }

  /** Splitting off the partial trailing frame and interleaving again gives the usable samples. */
  lemma InterleaveDeinterleave(samples: seq<Sample>, channels: nat)
    requires channels > 0
    ensures Interleave(Deinterleave(samples, channels)) == Usable(samples, channels)
    ensures |Usable(samples, channels)| == |Deinterleave(samples, channels)| * channels
  {
    InterleavePrefix(samples, channels);
    DeinterleaveLength(samples, channels);
    InterleaveLength(Deinterleave(samples, channels), channels);
  }

  /** Interleaving loses nothing. */
  lemma {:induction false} DeinterleaveInterleave(frames: seq<Frame>, channels: nat)
    requires channels > 0 && Sized(frames, channels)
    ensures Deinterleave(Interleave(frames), channels) == frames
  {
    if frames != [] {
      DeinterleaveInterleave(frames[1..], channels);
      var all := Interleave(frames);
      assert all[..channels] == frames[0];
      assert all[channels..] == Interleave(frames[1..]);
    }
  }

  /** Sample `c` of frame `i` is sample `i * channels + c` of the stream. */
  lemma {:induction false} DeinterleaveAt(samples: seq<Sample>, channels: nat, i: nat, c: nat)
    requires channels > 0 && i < |samples| / channels && c < channels
    ensures i * channels + c < |samples|
    ensures |Deinterleave(samples, channels)| == |samples| / channels
    ensures Deinterleave(samples, channels)[i][c] == samples[i * channels + c]
  {
    DeinterleaveLength(samples, channels);
    if i == 0 {
      assert 0 * channels == 0;
    } else {
      DeinterleaveLength(samples[channels..], channels);
      DeinterleaveAt(samples[channels..], channels, i - 1, c);
      assert i * channels == (i - 1) * channels + channels;
    }
  }

  lemma {:induction false} InterleaveAt(frames: seq<Frame>, channels: nat, i: nat, c: nat)
    requires Sized(frames, channels) && i < |frames| && c < channels
    ensures i * channels + c < |Interleave(frames)|
    ensures Interleave(frames)[i * channels + c] == frames[i][c]
  {
    if i == 0 {
      assert 0 * channels == 0;
    } else {
      InterleaveAt(frames[1..], channels, i - 1, c);
      assert i * channels == (i - 1) * channels + channels;
    }
  }
}
