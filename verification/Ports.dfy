/** The RTP/RTCP port allocator. */
module Ports {
  import opened Wrappers

  datatype PortPair = PortPair(rtp: int, rtcp: int)

  datatype Alloc = Alloc(min: int, max: int, next: int, free: seq<PortPair>)

  function Fresh(min: int, max: int): Alloc {
    Alloc(min, max, min, [])
  }

  /** The pair Acquire hands out and the allocator after it; None when the range is used up. */
  function Take(a: Alloc): (Alloc, Option<PortPair>) {
    var n := |a.free|;
    if n > 0 then (a.(free := a.free[..n - 1]), Some(a.free[n - 1]))
    else if a.next + 1 > a.max then (a, None)
    else (a.(next := a.next + 2), Some(PortPair(a.next, a.next + 1)))
  }

  function Give(a: Alloc, p: PortPair): Alloc {
    a.(free := a.free + [p])
  }

  function GiveAll(a: Alloc, ps: seq<PortPair>): Alloc {
    a.(free := a.free + ps)
  }

  class PortAllocator {
    const min: int
    const max: int
    var free: seq<PortPair>
    var next: int

    function View(): Alloc
      reads this
    {
      Alloc(min, max, next, free)
    }

    constructor (min: int, max: int)
      ensures View() == Fresh(min, max)
    {
      this.min, this.max := min, max;
      free, next := [], min;
    }

    method Acquire() returns (r: Option<PortPair>)
      modifies this
      ensures View() == Take(old(View())).0
      ensures r == Take(old(View())).1
      ensures old(free) != [] ==> r.Some? && old(free) == free + [r.value] && next == old(next)
      ensures old(free) == [] && old(next) < max ==>
                r == Some(PortPair(old(next), old(next) + 1)) && next == old(next) + 2 && free == []
      ensures old(free) == [] && old(next) >= max ==> r == None && next == old(next) && free == []
    {
      if |free| > 0 {
        r := Some(free[|free| - 1]);
        free := free[..|free| - 1];
        return;
      }
      if next + 1 > max {
        return None;
      }
      r := Some(PortPair(next, next + 1));
      next := next + 2;
    }

    method Release(p: PortPair)
      modifies this
      ensures View() == Give(old(View()), p)
      ensures free == old(free) + [p] && next == old(next)
    {
      free := free + [p];
    }
  }

  /** The pair given back last is the next one taken. */
  lemma LastGivenFirstTaken(a: Alloc, p: PortPair)
    ensures Take(Give(a, p)) == (a, Some(p))
  {
    assert (a.free + [p])[..|a.free|] == a.free;
  }

  // ----- What was minted -----------------------------------------------------

  /** Every pair minted so far, once each. */
  ghost function Minted(min: int, next: int): multiset<PortPair>
    decreases next - min
  {
    if next < min + 2 then multiset{} else Minted(min, next - 2) + multiset{PortPair(next - 2, next - 1)}
  }

  lemma {:induction false} MintedShape(min: int, next: int)
    ensures forall p | p in Minted(min, next) ::
              && min <= p.rtp && p.rtcp < next && p.rtcp == p.rtp + 1 && (p.rtp - next) % 2 == 0
              && Minted(min, next)[p] == 1
    ensures next >= min ==> |Minted(min, next)| == (next - min) / 2
    decreases next - min
  {
    if next >= min + 2 {
      MintedShape(min, next - 2);
    }
  }

  // ----- Take and Give move pairs, and lose none -----------------------------

  /** The pairs that are out: minted and not free. */
  ghost function Out(a: Alloc): multiset<PortPair> {
    Minted(a.min, a.next) - multiset(a.free)
  }

  ghost predicate AllocInv(a: Alloc) {
    a.min <= a.next <= a.max + 1 && (a.next - a.min) % 2 == 0 && multiset(a.free) <= Minted(a.min, a.next)
  }

  lemma TakeFree(a: Alloc)
    requires AllocInv(a) && a.free != []
    ensures AllocInv(Take(a).0)
    ensures Take(a).1.Some? && Out(Take(a).0) == Out(a) + multiset{Take(a).1.value}
  {
    var n := |a.free|;
    var init, p := a.free[..n - 1], a.free[n - 1];
    assert a.free == init + [p];
    assert multiset(a.free) == multiset(init) + multiset{p};
    Uncover(Minted(a.min, a.next), multiset(init), p);
  }

  lemma TakeFresh(a: Alloc)
    requires AllocInv(a) && a.free == [] && a.next < a.max
    ensures AllocInv(Take(a).0)
    ensures Take(a).1.Some? && Out(Take(a).0) == Out(a) + multiset{Take(a).1.value}
  {
    var p := PortPair(a.next, a.next + 1);
    assert Take(a) == (a.(next := a.next + 2), Some(p));
    MintedNext(a.min, a.next);
    OneMore(Minted(a.min, a.next), Minted(a.min, a.next + 2), multiset(a.free), p);
    NextFits(a.min, a.next, a.max);
  }

  lemma NextFits(min: int, next: int, max: int)
    requires next < max && (next - min) % 2 == 0
    ensures next + 2 <= max + 1 && (next + 2 - min) % 2 == 0
  {
  }

  lemma MintedNext(min: int, next: int)
    requires next >= min
    ensures Minted(min, next + 2) == Minted(min, next) + multiset{PortPair(next, next + 1)}
  {
  }

  lemma OneMore(m: multiset<PortPair>, m': multiset<PortPair>, f: multiset<PortPair>, p: PortPair)
    requires f <= m && m' == m + multiset{p}
    ensures f <= m'
    ensures m' - f == (m - f) + multiset{p}
  {
  }

  lemma TakeMoves(a: Alloc)
    requires AllocInv(a)
    ensures AllocInv(Take(a).0) && Take(a).0.min == a.min && Take(a).0.max == a.max
    ensures Take(a).1.Some? ==> Out(Take(a).0) == Out(a) + multiset{Take(a).1.value}
    ensures Take(a).1.None? ==> Take(a).0 == a && a.free == [] && a.next >= a.max
  {
    if a.free != [] {
      TakeFree(a);
    } else if a.next < a.max {
      TakeFresh(a);
    }
  }

  lemma Uncover(m: multiset<PortPair>, f: multiset<PortPair>, p: PortPair)
    requires f + multiset{p} <= m
    ensures m - f == m - (f + multiset{p}) + multiset{p}
  {
  }

  lemma GiveMoves(a: Alloc, p: PortPair)
    requires AllocInv(a) && p in Out(a)
    ensures AllocInv(Give(a, p)) && Out(Give(a, p)) == Out(a) - multiset{p}
  {
    assert multiset(a.free + [p]) == multiset(a.free) + multiset{p};
  }

  // ----- Histories -----------------------------------------------------------

  datatype Op = Acquiring | Releasing(p: PortPair)

  datatype History = History(alloc: Alloc, held: multiset<PortPair>)

  /** One call; a caller releases only a pair it holds. */
  ghost function Do(h: History, op: Op): History {
    match op
    case Acquiring =>
      var (a, r) := Take(h.alloc);
      if r.Some? then History(a, h.held + multiset{r.value}) else h
    case Releasing(p) =>
      if p in h.held then History(Give(h.alloc, p), h.held - multiset{p}) else h
  }

  ghost function DoAll(h: History, ops: seq<Op>): History
    decreases |ops|
  {
    if ops == [] then h else DoAll(Do(h, ops[0]), ops[1..])
  }

  ghost predicate HistoryInv(h: History) {
    AllocInv(h.alloc) && h.held == Out(h.alloc)
  }

  lemma DoKeeps(h: History, op: Op)
    requires HistoryInv(h)
    ensures HistoryInv(Do(h, op))
    ensures Do(h, op).alloc.min == h.alloc.min && Do(h, op).alloc.max == h.alloc.max
  {
    match op
    case Acquiring => TakeMoves(h.alloc);
    case Releasing(p) => if p in h.held { GiveMoves(h.alloc, p); }
  }

  lemma {:induction false} HistoryKeeps(h: History, ops: seq<Op>)
    requires HistoryInv(h)
    ensures HistoryInv(DoAll(h, ops))
    ensures DoAll(h, ops).alloc.min == h.alloc.min && DoAll(h, ops).alloc.max == h.alloc.max
    decreases |ops|
  {
    if ops != [] {
      DoKeeps(h, ops[0]);
      HistoryKeeps(Do(h, ops[0]), ops[1..]);
    }
  }

  /** A pair that is out is an even port and its odd neighbour in the range, out once and not free. */
  lemma OutPair(a: Alloc, p: PortPair)
    requires AllocInv(a) && p in Out(a)
    ensures a.min <= p.rtp && p.rtcp == p.rtp + 1 && p.rtcp <= a.max && (p.rtp - a.min) % 2 == 0
    ensures Out(a)[p] == 1 && p !in a.free
  {
    MintedShape(a.min, a.next);
    var m, f := Minted(a.min, a.next), multiset(a.free);
    assert (m - f)[p] == m[p] - f[p];
    assert f[p] == 0;
  }

  lemma EvenOffset(n: int, min: int)
    requires (n - min) % 2 == 0 && min % 2 == 0
    ensures n % 2 == 0
  {
  }

  lemma RefusedWhenAllOut(a: Alloc)
    requires AllocInv(a) && a.min < a.max
    ensures Take(a).1.None? <==> |Out(a)| == (a.max - a.min + 1) / 2
  {
    var m, f := Minted(a.min, a.next), multiset(a.free);
    MintedShape(a.min, a.next);
    assert |m - f| == |m| - |f|;
    assert |f| == |a.free|;
  }

  /** What a history on [min, max] promises: each held pair is an even port and its odd
      neighbour inside the range, held once and not free as well; and Acquire fails exactly
      when all the pairs of the range are held. */
  ghost predicate Exact(h: History, min: int, max: int) {
    && (forall p | p in h.held ::
          && min <= p.rtp && p.rtp % 2 == 0 && p.rtcp == p.rtp + 1 && p.rtcp <= max
          && h.held[p] == 1 && p !in h.alloc.free)
    && (Take(h.alloc).1.None? <==> |h.held| == (max - min + 1) / 2)
  }

  lemma ExactFromInv(h: History)
    requires HistoryInv(h) && h.alloc.min < h.alloc.max && h.alloc.min % 2 == 0
    ensures Exact(h, h.alloc.min, h.alloc.max)
  {
    forall p | p in h.held
      ensures && h.alloc.min <= p.rtp && p.rtp % 2 == 0 && p.rtcp == p.rtp + 1 && p.rtcp <= h.alloc.max
              && h.held[p] == 1 && p !in h.alloc.free
    {
      OutPair(h.alloc, p);
      EvenOffset(p.rtp, h.alloc.min);
    }
    RefusedWhenAllOut(h.alloc);
  }

  /** The allocator is exact over every history on a configured range. */
  lemma AllocatorExact(min: int, max: int, ops: seq<Op>)
    requires 0 < min < max && min % 2 == 0
    ensures Exact(DoAll(History(Fresh(min, max), multiset{}), ops), min, max)
  {
    var h0 := History(Fresh(min, max), multiset{});
    HistoryKeeps(h0, ops);
    ExactFromInv(DoAll(h0, ops));
  }
}
