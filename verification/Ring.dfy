/**
  The growable ring that holds queued samples: its contents in order, and where in the
  backing storage they start. The storage decides where `Slices` cuts the contents in two.
 */
module Ring {
  import opened Numbers
  import opened Wrappers

  datatype Ring = Ring(items: seq<Sample>, head: nat, capacity: nat)

  predicate Valid(r: Ring) {
    r.head < r.capacity && |r.items| <= r.capacity
  }

  /** The storage is laid out in whole groups of `m` samples. */
  ghost predicate AlignedStorage(r: Ring, m: nat)
    requires m > 0
  {
    IsMultiple(r.head, m) && IsMultiple(r.capacity, m)
  }

  ghost predicate Aligned(r: Ring, m: nat)
    requires m > 0
  {
    AlignedStorage(r, m) && IsMultiple(|r.items|, m)
  }

  function WithCapacity(n: nat): Ring {
    Ring([], 0, n)
  }

  function Grown(capacity: nat, need: nat): nat {
    if 2 * capacity < need then need else 2 * capacity
  }

  /** Storage for at least `need` samples: doubled when short, with the wrapped part moved. */
  function Reserve(r: Ring, need: nat): (g: Ring)
    requires Valid(r)
    ensures Valid(g) && g.items == r.items && need <= g.capacity
  {
    if need <= r.capacity then r
    else
      var capacity := Grown(r.capacity, need);
      var headPart := r.capacity - r.head;
      if |r.items| <= headPart || (headPart > |r.items| - headPart && |r.items| - headPart <= capacity - r.capacity) then
        r.(capacity := capacity)
      else
        r.(head := capacity - headPart, capacity := capacity)
  }

  function Extend(r: Ring, more: seq<Sample>): (g: Ring)
    requires Valid(r)
    ensures Valid(g) && g.items == r.items + more
  {
    var g := Reserve(r, |r.items| + |more|);
    g.(items := g.items + more)
  }

  function PushBack(r: Ring, x: Sample): (g: Ring)
    requires Valid(r)
    ensures Valid(g) && g.items == r.items + [x]
  {
    Extend(r, [x])
  }

  /** Forget the first `n` samples. */
  function Drain(r: Ring, n: nat): (g: Ring)
    requires Valid(r) && n <= |r.items|
    ensures Valid(g) && g.items == r.items[n..]
  {
    var at := r.head + n;
    r.(items := r.items[n..], head := if at < r.capacity then at else at - r.capacity)
  }

  function PopFront(r: Ring): (g: Ring)
    requires Valid(r) && r.items != []
    ensures Valid(g) && g.items == r.items[1..]
  {
    Drain(r, 1)
  }

  function Clear(r: Ring): (g: Ring)
    requires Valid(r)
    ensures Valid(g) && g.items == []
  {
    r.(items := [], head := 0)
  }

  /** The contents as the storage holds them: up to its end, then from its start. */
  function Slices(r: Ring): (parts: (seq<Sample>, seq<Sample>))
    requires Valid(r)
    ensures parts.0 + parts.1 == r.items
  {
    var cut := r.capacity - r.head;
    if |r.items| <= cut then (r.items, []) else (r.items[..cut], r.items[cut..])
  }

  /** The seam between the two slices falls on a group boundary. */
  lemma SlicesAligned(r: Ring, m: nat)
    requires m > 0 && Valid(r) && Aligned(r, m)
    ensures IsMultiple(|Slices(r).0|, m) && IsMultiple(|Slices(r).1|, m)
  {
    ZeroIsMultiple(m);
    MultipleDifference(r.capacity, r.head, m);
    if r.capacity - r.head < |r.items| {
      MultipleDifference(|r.items|, r.capacity - r.head, m);
    }
  }

  /** The last `m` samples, when they lie in one piece of the storage. */
  function LastGroup(r: Ring, m: nat): Option<seq<Sample>>
    requires Valid(r)
  {
    if |r.items| < m then None
    else
      var (a, b) := Slices(r);
      if |b| >= m then Some(b[|b| - m..])
      else if b == [] && |a| >= m then Some(a[|a| - m..])
      else None
  }

  /** With an aligned seam the last group is always in one piece. */
  lemma LastGroupFound(r: Ring, m: nat)
    requires m > 0 && Valid(r) && Aligned(r, m) && m <= |r.items|
    ensures LastGroup(r, m) == Some(r.items[|r.items| - m..])
  {
    SlicesAligned(r, m);
    var (a, b) := Slices(r);
    assert a + b == r.items;
    MultipleAtLeast(|b|, m);
  }

  lemma ReserveAligned(r: Ring, need: nat, m: nat)
    requires m > 0 && Valid(r) && AlignedStorage(r, m)
    requires need <= 2 * r.capacity || IsMultiple(need, m)
    ensures AlignedStorage(Reserve(r, need), m)
  {
    if r.capacity < need {
      GrownAligned(r.capacity, need, m);
      MultipleDifference(r.capacity, r.head, m);
      MultipleDifference(Grown(r.capacity, need), r.capacity - r.head, m);
    }
  }

  lemma GrownAligned(capacity: nat, need: nat, m: nat)
    requires m > 0 && IsMultiple(capacity, m)
    requires need <= 2 * capacity || IsMultiple(need, m)
    ensures IsMultiple(Grown(capacity, need), m)
  {
    MultipleSum(capacity, capacity, m);
    assert capacity + capacity == 2 * capacity;
  }

  lemma PushBackAligned(r: Ring, x: Sample, m: nat)
    requires m > 0 && Valid(r) && AlignedStorage(r, m)
    ensures AlignedStorage(PushBack(r, x), m)
  {
    ReserveAligned(r, |r.items| + 1, m);
  }

  lemma ExtendAligned(r: Ring, more: seq<Sample>, m: nat)
    requires m > 0 && Valid(r) && Aligned(r, m) && IsMultiple(|more|, m)
    ensures Aligned(Extend(r, more), m)
  {
    MultipleSum(|r.items|, |more|, m);
    ReserveAligned(r, |r.items| + |more|, m);
  }

  lemma DrainAligned(r: Ring, n: nat, m: nat)
    requires m > 0 && Valid(r) && AlignedStorage(r, m) && n <= |r.items| && IsMultiple(n, m)
    ensures AlignedStorage(Drain(r, n), m)
  {
    MultipleSum(r.head, n, m);
    if r.capacity <= r.head + n {
      MultipleDifference(r.head + n, r.capacity, m);
    }
  }

  /** Popping one by one is draining. */
  lemma PopIsDrain(r: Ring, n: nat)
    requires Valid(r) && n < |r.items|
    ensures PopFront(Drain(r, n)) == Drain(r, n + 1)
  {
  }
}
