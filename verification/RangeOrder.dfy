// Three places write a frequency range as two separate bounds. Each picks an order of writes that
// never leaves the minimum above the maximum in between.
module RangeOrder {
  datatype Range = Range(min: nat, max: nat)

  predicate Ordered(r: Range) {
    r.min <= r.max
  }

  /** The devfreq lock: raise the ceiling first only when the new floor lies above it. */
  function DevfreqWrites(now: Range, to: Range): seq<Range> {
    if to.min > now.max then [now.(max := to.max), to] else [now.(min := to.min), to]
  }

  /** The CPU clusters: lower the floor first when the whole range moves down. */
  function CpuWrites(now: Range, to: Range): seq<Range> {
    if to.min > now.max then [now.(max := to.max), to]
    else if to.max < now.min then [now.(min := to.min), to]
    else [now.(max := to.max), to]
  }

  /** Releasing all originals: open the range to the original floor, then write ceiling and floor again. */
  function ReleaseWrites(now: Range, to: Range): seq<Range> {
    if to.min > now.max then [now.(max := to.min), Range(to.min, to.min), Range(to.min, to.max), to]
    else [now.(min := to.min), Range(to.min, to.max), to]
  }

  /** From any ordered range to any other, every intermediate range is ordered and the last is the target. */
  lemma EveryWriteStaysOrdered(now: Range, to: Range)
    requires Ordered(now) && Ordered(to)
    ensures forall w | w in [DevfreqWrites(now, to), CpuWrites(now, to), ReleaseWrites(now, to)] ::
              w != [] && w[|w| - 1] == to && forall r :: r in w ==> Ordered(r)
  {
    forall r | r in DevfreqWrites(now, to) || r in CpuWrites(now, to) || r in ReleaseWrites(now, to) ensures Ordered(r) {}
  }

  /** The two fixed orders do not work: each has a pair of ranges it takes through a crossed state. */
  lemma NoFixedOrderWorks(now: Range, to: Range)
    requires Ordered(now) && Ordered(to)
    ensures !Ordered(now.(max := to.max)) <==> to.max < now.min
    ensures !Ordered(now.(min := to.min)) <==> to.min > now.max
  {
  }

  /** What one attempt on a CPU cluster meets: which writes are refused, and what the vendor sets meanwhile. */
  datatype Attempt = Attempt(maxFails: bool, minFails: bool, vendor: Range)

  /** The two frequency limits of a CPU cluster, with every range they have shown. */
  class Cluster {
    var now: Range
    var shown: seq<Range>

    constructor (now: Range)
      ensures this.now == now && shown == [now]
    {
      this.now, shown := now, [now];
    }

    method Show(r: Range)
      modifies this
      ensures now == r && shown == old(shown) + [r]
    {
      now, shown := r, shown + [r];
    }

    method Write(max: bool, to: Range, fails: bool) returns (ok: bool)
      modifies this
      ensures ok == !fails
      ensures var r := if max then old(now).(max := to.max) else old(now).(min := to.min);
        if ok then now == r && shown == old(shown) + [r] else now == old(now) && shown == old(shown)
    {
      ok := !fails;
      if ok {
        Show(if max then now.(max := to.max) else now.(min := to.min));
      }
    }

    ghost predicate AllOrdered()
      reads this
    {
      Ordered(now) && forall r :: r in shown ==> Ordered(r)
    }

    /** One attempt, and the read of both limits after its pause. */
    method Try(to: Range, a: Attempt) returns (ok: bool)
      requires Ordered(to) && Ordered(a.vendor) && AllOrdered()
      modifies this
      ensures AllOrdered() && old(shown) <= shown
      ensures ok <==> !a.maxFails && !a.minFails
      ensures ok ==> now == a.vendor && shown == old(shown) + CpuWrites(old(now), to) + [a.vendor]
    {
      if to.min <= now.max && to.max < now.min {
        ok := Write(false, to, a.minFails);
        if ok {
          ok := Write(true, to, a.maxFails);
        }
      } else {
        ok := Write(true, to, a.maxFails);
        if ok {
          ok := Write(false, to, a.minFails);
        }
      }
      if ok {
        Show(a.vendor);
      }
    }

    /**
     * Up to four attempts against a vendor that may set another range after each. Every range ever
     * shown is ordered; success means that exactly the requested range is in force; a first attempt
     * that nothing disturbs succeeds.
     */
    method Apply(to: Range, attempts: seq<Attempt>) returns (ok: bool)
      requires |attempts| == 4 && Ordered(to) && AllOrdered()
      requires forall a :: a in attempts ==> Ordered(a.vendor)
      modifies this
      ensures AllOrdered() && old(shown) <= shown
      ensures ok ==> now == to
      ensures attempts[0] == Attempt(false, false, to) ==> ok && shown == old(shown) + CpuWrites(old(now), to) + [to]
    {
      for i := 0 to 4
        invariant AllOrdered() && old(shown) <= shown
        invariant i == 0 ==> now == old(now) && shown == old(shown)
        invariant i > 0 ==> attempts[0] != Attempt(false, false, to)
      {
        ok := Try(to, attempts[i]);
        if !ok || now == to {
          return;
        }
      }
      ok := false;
    }
  }
}
