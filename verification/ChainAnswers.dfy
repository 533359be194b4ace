/** What the applications' answers can do to the offer the PBX gets: nothing to its lines, and to
    the anchor's port only through the pairs that taps keep or give back. */
module ChainAnswers {
  import opened AnchorLaws
  import opened AppChain
  import opened CallObject
  import opened ChainLaws
  import opened Lifecycle
  import opened Ownership
  import opened Ports
  import opened Routing
  import opened Sdp
  import opened SdpLaws
  import opened SdpOffers
  import opened TapNegotiation
  import opened Text
  import opened Wrappers

  // ----- The order in which pairs are handed out -----------------------------

  /** The pair that the (n+1)th of several Acquires in a row gets. */
  function Supply(a: Alloc, n: nat): PortPair {
    if n < |a.free| then a.free[|a.free| - 1 - n]
    else PortPair(a.next + 2 * (n - |a.free|), a.next + 2 * (n - |a.free|) + 1)
  }

  lemma TakeSupply(a: Alloc)
    requires Room(a) > 0
    ensures Take(a).1 == Some(Supply(a, 0)) && Room(Take(a).0) == Room(a) - 1
    ensures forall n: nat :: Supply(Take(a).0, n) == Supply(a, n + 1)
  {
  }

  lemma GiveSupply(a: Alloc, p: PortPair)
    ensures Supply(Give(a, p), 0) == p && forall n: nat :: Supply(Give(a, p), n + 1) == Supply(a, n)
  {
  }

  lemma TwiceIn(ps: seq<PortPair>, i: nat, j: nat)
    requires i < j < |ps| && ps[i] == ps[j]
    ensures multiset(ps)[ps[i]] >= 2
  {
    assert ps == ps[..j] + [ps[j]] + ps[j + 1..];
    assert ps[..j][i] == ps[i] && ps[i] in multiset(ps[..j]);
  }

  lemma SupplyFree(a: Alloc, m: nat, n: nat)
    requires AllocInv(a) && m < n < |a.free|
    ensures Supply(a, m) != Supply(a, n)
  {
    var i, j := |a.free| - 1 - n, |a.free| - 1 - m;
    MintedShape(a.min, a.next);
    assert a.free[i] in multiset(a.free);
    if a.free[i] == a.free[j] {
      TwiceIn(a.free, i, j);
    }
  }

  /** No pair comes twice. */
  lemma SupplyOnce(a: Alloc, m: nat, n: nat)
    requires AllocInv(a) && m != n
    ensures Supply(a, m) != Supply(a, n)
  {
    var (i, j) := if m < n then (m, n) else (n, m);
    if j < |a.free| {
      SupplyFree(a, i, j);
    } else if i < |a.free| {
      MintedShape(a.min, a.next);
      assert Supply(a, i) in multiset(a.free);
    }
  }

  lemma SupplyPositive(a: Alloc, n: nat)
    requires AllocInv(a) && a.min > 0
    ensures Supply(a, n).rtp > 0 && Supply(a, n).rtcp == Supply(a, n).rtp + 1
  {
    MintedShape(a.min, a.next);
    if n < |a.free| {
      assert Supply(a, n) in multiset(a.free);
    }
  }

  // ----- What taps do to that order ------------------------------------------

  /** The pairs to come are the same. */
  ghost predicate Kept(a: Alloc, b: Alloc) {
    forall n: nat :: Supply(b, n) == Supply(a, n)
  }

  /** The first two of them have changed places: a tap's pairs are given back caller first, and
      what was given back last is handed out first. */
  ghost predicate Swapped(a: Alloc, b: Alloc) {
    && Supply(b, 0) == Supply(a, 1) && Supply(b, 1) == Supply(a, 0)
    && forall n: nat | n >= 2 :: Supply(b, n) == Supply(a, n)
  }

  /** The first two of them are gone. */
  ghost predicate Spent(a: Alloc, b: Alloc) {
    forall n: nat :: Supply(b, n) == Supply(a, n + 2)
  }

  lemma BackSwaps(a: Alloc, a1: Alloc, a2: Alloc)
    requires forall n: nat :: Supply(a1, n) == Supply(a, n + 1)
    requires forall n: nat :: Supply(a2, n) == Supply(a1, n + 1)
    ensures Swapped(a, Give(Give(a2, Supply(a, 0)), Supply(a1, 0)))
  {
    var b1 := Give(a2, Supply(a, 0));
    var b := Give(b1, Supply(a1, 0));
    GiveSupply(a2, Supply(a, 0));
    GiveSupply(b1, Supply(a1, 0));
    assert Supply(b, 1) == Supply(b1, 0);
    forall n: nat | n >= 2 ensures Supply(b, n) == Supply(a, n) {
      assert Supply(b, (n - 1) + 1) == Supply(b1, n - 1) && Supply(b1, (n - 2) + 1) == Supply(a2, n - 2);
    }
  }

  lemma TapSupply(a: Alloc, net: Net)
    ensures var (b, r) := TryTap(a, net);
      && (r.Ok? ==> Spent(a, b) && Swapped(a, GiveTap(b, r.value)))
      && (r == Err(NotBound) ==> Swapped(a, b))
      && (r == Err(Exhausted) ==> Kept(a, b))
  {
    TryTapRoom(a, net);
    if Room(a) > 0 {
      TakeSupply(a);
      var a1 := Take(a).0;
      if Room(a1) > 0 {
        TakeSupply(a1);
        BackSwaps(a, a1, Take(a1).0);
        forall n: nat ensures Supply(Take(a1).0, n) == Supply(a, n + 2) {
          assert Supply(a1, n + 1) == Supply(a, (n + 1) + 1);
        }
      } else {
        TakeRoom(a1);
        GiveSupply(a1, Supply(a, 0));
        forall n: nat ensures Supply(Give(a1, Supply(a, 0)), n) == Supply(a, n) {
          if n > 0 {
            assert Supply(Give(a1, Supply(a, 0)), (n - 1) + 1) == Supply(a1, n - 1);
          }
        }
      }
    }
  }

  /** Application i takes a tap's two pairs and gives them back. */
  predicate GivesBack(s: Setup, i: nat, room: int)
    requires i < |s.apps| == |s.nets|
  {
    Visited(s, i) && s.apps[i].uriOk && s.apps[i].tap && room >= 2 && !ShouldStash(s, i, room)
  }

  ghost predicate Supplies(s: Setup, i: nat, room: int, a: Alloc, b: Alloc)
    requires i < |s.apps| == |s.nets|
  {
    if ShouldStash(s, i, room) then Spent(a, b) else if GivesBack(s, i, room) then Swapped(a, b) else Kept(a, b)
  }

  /** What a tapped application's turn leaves of the allocator. */
  lemma TappedLeaves(s: Setup, i: nat, st: Chained)
    requires i < |s.apps| == |s.nets| && Visited(s, i) && s.apps[i].uriOk && s.apps[i].tap
    ensures var ((b, r), c) := (TryTap(st.alloc, s.nets[i]), AppStep(s, i, st).0.alloc);
      if r.Err? then c == b
      else if OfferOk(s) && Keeps(s.nets[i].leg) then c == b
      else c == GiveTap(b, r.value)
  {
    var (b, r) := TryTap(st.alloc, s.nets[i]);
    if r.Ok? {
      BodyOk(s, s.apps[i], Some(r.value));
    }
  }

  /** The leg answers with a tap answer. */
  predicate Keeps(leg: LegResult) {
    leg.LegAnswered? && TapAnswer(Lines(leg.body)).Ok?
  }

  lemma TappedSupplies(s: Setup, i: nat, st: Chained)
    requires i < |s.apps| == |s.nets| && Visited(s, i) && s.apps[i].uriOk && s.apps[i].tap
    ensures Supplies(s, i, Room(st.alloc), st.alloc, AppStep(s, i, st).0.alloc)
  {
    TryTapRoom(st.alloc, s.nets[i]);
    TapSupply(st.alloc, s.nets[i]);
    TappedLeaves(s, i, st);
  }

  lemma AppSupplies(s: Setup, i: nat, st: Chained)
    requires i < |s.apps| == |s.nets|
    ensures Supplies(s, i, Room(st.alloc), st.alloc, AppStep(s, i, st).0.alloc)
  {
    if Visited(s, i) && s.apps[i].uriOk && s.apps[i].tap {
      TappedSupplies(s, i, st);
    }
  }

  // ----- Over the chain ------------------------------------------------------

  /** An odd number of taps were given back since the last one that was kept. */
  predicate Odd(s: Setup, room: int, k: nat)
    requires k <= |s.apps| == |s.nets|
  {
    if k == 0 then false
    else
      var r := RoomAt(s, room, k - 1);
      if ShouldStash(s, k - 1, r) then false
      else if GivesBack(s, k - 1, r) then !Odd(s, room, k - 1)
      else Odd(s, room, k - 1)
  }

  /** Which pair of those to come at first comes (n+1)th now. */
  function Place(kept: nat, odd: bool, n: nat): nat {
    2 * kept + if odd && n < 2 then 1 - n else n
  }

  ghost predicate Stands(s: Setup, a: Alloc, k: nat, b: Alloc)
    requires k <= |s.apps| == |s.nets|
  {
    && Room(b) == RoomAt(s, Room(a), k)
    && forall n: nat :: Supply(b, n) == Supply(a, Place(ToStash(s, Room(a), k), Odd(s, Room(a), k), n))
  }

  /** Where the pair at place n comes from after one more tap: spent, given back, or neither. */
  lemma PlacedOn(a: Alloc, b: Alloc, c: Alloc, kept: nat, odd: bool, spent: bool, back: bool, n: nat)
    requires forall m: nat :: Supply(b, m) == Supply(a, Place(kept, odd, m))
    requires if spent then Spent(b, c) else if back then Swapped(b, c) else Kept(b, c)
    ensures Supply(c, n) == Supply(a, Place(if spent then kept + 1 else kept, !spent && (back != odd), n))
  {
    if spent {
      assert Supply(b, n + 2) == Supply(a, Place(kept, odd, n + 2));
    } else {
      assert Supply(b, 0) == Supply(a, Place(kept, odd, 0)) && Supply(b, 1) == Supply(a, Place(kept, odd, 1));
      assert Supply(b, n) == Supply(a, Place(kept, odd, n));
    }
  }

  lemma StandsOn(s: Setup, a: Alloc, k: nat, b: Alloc, c: Alloc)
    requires k < |s.apps| == |s.nets| && Stands(s, a, k, b)
    requires Supplies(s, k, Room(b), b, c) && Room(c) == RoomAt(s, Room(a), k + 1)
    ensures Stands(s, a, k + 1, c)
  {
    var kept, odd := ToStash(s, Room(a), k), Odd(s, Room(a), k);
    var spent, back := ShouldStash(s, k, Room(b)), GivesBack(s, k, Room(b));
    assert ToStash(s, Room(a), k + 1) == if spent then kept + 1 else kept;
    assert Odd(s, Room(a), k + 1) == (!spent && (back != odd));
    forall n: nat
      ensures Supply(c, n) == Supply(a, Place(ToStash(s, Room(a), k + 1), Odd(s, Room(a), k + 1), n))
    {
      PlacedOn(a, b, c, kept, odd, spent, back, n);
    }
  }

  ghost predicate StandsAt(s: Setup, a: Alloc, k: nat, st: Chained) {
    k <= |s.apps| == |s.nets| && Stands(s, a, k, st.alloc) && RunsTo(s, Room(a), k)
  }

  ghost function Stand(s: Setup, a: Alloc): (nat, Chained) -> bool {
    (k: nat, st: Chained) => StandsAt(s, a, k, st)
  }

  lemma StandsSteadily(s: Setup, a: Alloc)
    requires |s.apps| == |s.nets|
    ensures Steady(s, Stand(s, a))
  {
    forall j: nat, x: Chained | j < |s.apps| && StandsAt(s, a, j, x) && AppStep(s, j, x).1.Next?
      ensures StandsAt(s, a, j + 1, AppStep(s, j, x).0)
    {
      TurnStands(s, a, j, x);
      CutHere(s, Room(a), j, AppStep(s, j, x).1);
    }
  }

  lemma TurnStands(s: Setup, a: Alloc, i: nat, st: Chained)
    requires i < |s.apps| == |s.nets| && Stands(s, a, i, st.alloc)
    ensures Stands(s, a, i + 1, AppStep(s, i, st).0.alloc)
    ensures AppStep(s, i, st).1 == Ruling(s, i, RoomAt(s, Room(a), i))
  {
    DidApp(s, i, st);
    AppSupplies(s, i, st);
    StandsOn(s, a, i, st.alloc, AppStep(s, i, st).0.alloc);
  }

  /** The application the chain is cut at is one that stops it. */
  lemma CutStops(s: Setup, a: Alloc, k: nat, x: Chained)
    requires k < |s.apps| == |s.nets| && StandsAt(s, a, k, x) && AppStep(s, k, x).1.Stop?
    ensures !RunsTo(s, Room(a), |s.apps|)
  {
    TurnStands(s, a, k, x);
    assert StopsAt(s, Room(a), k);
  }

  lemma ChainStands(s: Setup, a: Alloc, st: Chained)
    requires |s.apps| == |s.nets| && Stands(s, a, 0, st.alloc)
    ensures ChainFrom(s, 0, st).1.Next? <==> RunsTo(s, Room(a), |s.apps|)
    ensures ChainFrom(s, 0, st).1.Next? ==> Stands(s, a, |s.apps|, ChainFrom(s, 0, st).0.alloc)
  {
    StandsSteadily(s, a);
    var k, x := ChainBy(s, Stand(s, a), 0, st);
    if k < |s.apps| {
      CutStops(s, a, k, x);
    }
  }

  // ----- The PBX offer -------------------------------------------------------

  /** How many pairs the call's two sides take: a webphone's own side takes none. */
  function SidesTake(s: Setup): (n: nat)
    ensures 1 <= n <= 2
  {
    if WebRtc(Lines(s.offer)) then 1 else 2
  }

  /** The pair the PBX side gets after the chain, when there is one: the last one that the sides
      take. */
  function PbxPair(s: Setup, a: Alloc): Option<PortPair>
    requires |s.apps| == |s.nets|
  {
    var (st, v) := ChainFrom(s, 0, ChainLaws.Fresh(a));
    if v.Stop? then None else LastTaken(st.alloc, SidesTake(s))
  }

  /** What the last of one or two Acquires gets, if each gets one. */
  function LastTaken(b: Alloc, sides: nat): Option<PortPair> {
    var (b1, p) := Take(b);
    if p.None? then None else if sides == 1 then p else Take(b1).1
  }

  /** What the PBX is offered on a port: a plain caller's offer anchored there, or the plain offer
      built from a webphone's. */
  function OfferAt(offer: string, host: string, port: int): Result<string, SdpError> {
    if WebRtc(Lines(offer)) then PlainFrom(offer, host, port) else Rewrite(offer, host, port)
  }

  /** What the PBX is offered, when its side gets a pair: the offer at that pair. */
  function PbxOffer(s: Setup, a: Alloc): Option<Result<string, SdpError>>
    requires |s.apps| == |s.nets|
  {
    if PbxPair(s, a).None? then None else Some(OfferAt(s.offer, s.host, PbxPair(s, a).value.rtp))
  }

  /** Where in the order of the pairs to come the PBX side's pair stands. */
  function PbxPlace(s: Setup, room: int): nat
    requires |s.apps| == |s.nets|
  {
    Place(ToStash(s, room, |s.apps|), Odd(s, room, |s.apps|), SidesTake(s) - 1)
  }

  /** There is a PBX offer exactly when no application stops the call and the pairs its sides take
      are left, two or, on a webphone's call, one; and its port depends on the network only through
      the number of taps kept and, of those given back since the last one kept, whether they are odd
      in number. */
  lemma PbxPairIs(s: Setup, a: Alloc)
    requires |s.apps| == |s.nets|
    ensures PbxPair(s, a).Some? <==> RunsTo(s, Room(a), |s.apps|) && RoomAt(s, Room(a), |s.apps|) >= SidesTake(s)
    ensures PbxPair(s, a).Some? ==> PbxPair(s, a) == Some(Supply(a, PbxPlace(s, Room(a))))
  {
    ChainStands(s, a, ChainLaws.Fresh(a));
    LastTakenIs(ChainFrom(s, 0, ChainLaws.Fresh(a)).0.alloc, SidesTake(s));
  }

  lemma LastTakenIs(b: Alloc, sides: nat)
    requires 1 <= sides <= 2
    ensures LastTaken(b, sides) == if Room(b) >= sides then Some(Supply(b, sides - 1)) else None
  {
    TakeRoom(b);
    TakeRoom(Take(b).0);
    if Room(b) >= 1 {
      TakeSupply(b);
    }
    if Room(b) >= 2 {
      TakeSupply(Take(b).0);
      assert Supply(Take(b).0, 0) == Supply(b, 0 + 1);
    }
  }

  // ----- Two runs ------------------------------------------------------------

  /** The same results but for the bodies answered. */
  predicate SameButBody(x: Net, y: Net) {
    && x.callerBinds == y.callerBinds && x.calleeBinds == y.calleeBinds
    && (x.leg.LegAnswered? <==> y.leg.LegAnswered?)
    && (!x.leg.LegAnswered? ==> x.leg == y.leg)
  }

  /** The same call and network, but that the applications answer something else. */
  ghost predicate SameButAnswers(s: Setup, t: Setup) {
    && s.apps == t.apps && s.input == t.input && s.offer == t.offer && s.host == t.host
    && |s.nets| == |t.nets| == |s.apps|
    && forall i | 0 <= i < |s.nets| :: SameButBody(s.nets[i], t.nets[i])
  }

  /** The two bodies differ in the port of the first audio line, and in nothing else. */
  ghost predicate PortApart(x: string, p: int, y: string, q: int) {
    var a, xs, ys := First(Lines(x), AUDIO), Split(x, '\n'), Split(y, '\n');
    && |xs| == |ys|
    && (forall i | 0 <= i < |xs| && i != a :: xs[i] == ys[i])
    && (a < |xs| ==>
          |Fields(xs[a])| >= 2 && Fields(xs[a])[1] == Itoa(p) && Fields(ys[a]) == Fields(xs[a])[1 := Itoa(q)])
  }

  lemma EndingKept(l: string, raw: string)
    ensures Fields(l + Ending(raw)) == Fields(l)
    decreases |l|
  {
    if EndsCR(raw) {
      SpaceBehind(l);
    } else {
      assert l + "" == l;
    }
  }

  /** A carriage return at the end is white space. */
  lemma {:induction false} SpaceBehind(l: string)
    ensures Fields(l + "\r") == Fields(l)
    decreases |l|
  {
    var s := l + "\r";
    if l == "" {
      assert s[1..] == "";
    } else if IsSpace(l[0]) {
      assert s[1..] == l[1..] + "\r";
      SpaceBehind(l[1..]);
    } else {
      var n := WordLength(l);
      WordBehind(l);
      assert s[..n] == l[..n] && s[n..] == l[n..] + "\r";
      SpaceBehind(l[n..]);
    }
  }

  lemma {:induction false} WordBehind(l: string)
    ensures WordLength(l + "\r") == WordLength(l)
  {
    var s := l + "\r";
    if l != "" && !IsSpace(l[0]) {
      assert s[1..] == l[1..] + "\r";
      WordBehind(l[1..]);
    }
  }

  lemma AudioPiece(ls: seq<string>, raw: string, host: string, p: int)
    requires AudioLineOk(ls) && First(ls, AUDIO) < |ls|
    ensures |Fields(ls[First(ls, AUDIO)])| >= 2
    ensures Fields(AnchoredLine(ls, First(ls, AUDIO), host, p) + Ending(raw))
      == Fields(ls[First(ls, AUDIO)])[1 := Itoa(p)]
  {
    AnchoredAudioLine(ls, host, p);
    EndingKept(AnchoredLine(ls, First(ls, AUDIO), host, p), raw);
  }

  lemma ElsewhereSame(ls: seq<string>, host: string, p: int, q: int, i: nat)
    requires AudioLineOk(ls) && i < |ls| && i != First(ls, AUDIO)
    ensures AnchoredLine(ls, i, host, p) == AnchoredLine(ls, i, host, q)
  {
  }

  lemma TwoAnchors(offer: string, host: string, p: int, q: int)
    requires Clean(host) && p > 0 && q > 0
    ensures Rewrite(offer, host, p).Err? ==> Rewrite(offer, host, q) == Rewrite(offer, host, p)
    ensures Rewrite(offer, host, p).Ok? ==>
              Rewrite(offer, host, q).Ok?
              && PortApart(Rewrite(offer, host, p).value, p, Rewrite(offer, host, q).value, q)
  {
    if Rewrite(offer, host, p).Ok? {
      TwoAnchored(offer, host, p, q);
    }
  }

  lemma TwoAnchored(offer: string, host: string, p: int, q: int)
    requires Clean(host) && p > 0 && q > 0 && Rewrite(offer, host, p).Ok? && Rewrite(offer, host, q).Ok?
    ensures PortApart(Rewrite(offer, host, p).value, p, Rewrite(offer, host, q).value, q)
  {
    var ls, a := Lines(offer), First(Lines(offer), AUDIO);
    RewrittenRaw(offer, host, p);
    RewrittenRaw(offer, host, q);
    AudioStays(offer, host, p);
    var xs, ys := Split(Rewrite(offer, host, p).value, '\n'), Split(Rewrite(offer, host, q).value, '\n');
    forall i | 0 <= i < |xs| && i != a ensures xs[i] == ys[i] {
      ElsewhereSame(ls, host, p, q, i);
    }
    AudioPieces(ls, xs, ys, Split(offer, '\n'), host, p, q);
    PiecesApart(Rewrite(offer, host, p).value, Rewrite(offer, host, q).value, xs, ys, a, p, q);
  }

  lemma AudioPieces(ls: seq<string>, xs: seq<string>, ys: seq<string>, raw: seq<string>, host: string, p: int, q: int)
    requires AudioLineOk(ls) && |xs| == |ys| == |ls| == |raw|
    requires var a := First(ls, AUDIO);
      a < |ls| ==> xs[a] == AnchoredLine(ls, a, host, p) + Ending(raw[a])
                   && ys[a] == AnchoredLine(ls, a, host, q) + Ending(raw[a])
    ensures var a := First(ls, AUDIO);
      a < |ls| ==> |Fields(xs[a])| >= 2 && Fields(xs[a])[1] == Itoa(p) && Fields(ys[a]) == Fields(xs[a])[1 := Itoa(q)]
  {
    var a := First(ls, AUDIO);
    if a < |ls| {
      AudioPiece(ls, raw[a], host, p);
      AudioPiece(ls, raw[a], host, q);
    }
  }

  lemma AudioStays(offer: string, host: string, port: int)
    requires SdpLaws.Accepted(Lines(offer), host, port) && Clean(host)
    ensures Rewrite(offer, host, port).Ok?
    ensures var out := Lines(Rewrite(offer, host, port).value);
      |out| == |Lines(offer)| && First(out, AUDIO) == First(Lines(offer), AUDIO)
  {
    RewriteLines(offer, host, port);
    LinesClean(offer);
    AnchoredKinds(Lines(offer), Lines(Rewrite(offer, host, port).value), host, port);
  }

  ghost predicate NoBreaks(ls: seq<string>) {
    forall i | 0 <= i < |ls| :: '\n' !in ls[i]
  }

  /** The pieces of a CRLF text. */
  function CrPieces(ls: seq<string>): (r: seq<string>)
    ensures |r| == |ls| + 1
  {
    if ls == [] then [""] else [ls[0] + "\r"] + CrPieces(ls[1..])
  }

  lemma {:induction false} CrPieceAt(ls: seq<string>, i: nat)
    requires i <= |ls|
    ensures CrPieces(ls)[i] == if i < |ls| then ls[i] + "\r" else ""
  {
    if 0 < i {
      CrPieceAt(ls[1..], i - 1);
    }
  }

  lemma {:induction false} CrlfSplit(ls: seq<string>)
    requires NoBreaks(ls)
    ensures Split(Crlf(ls), '\n') == CrPieces(ls)
  {
    if ls != [] {
      CrlfSplit(ls[1..]);
      assert Crlf(ls) == (ls[0] + "\r") + ['\n'] + Crlf(ls[1..]);
      SplitFirst(ls[0] + "\r", Crlf(ls[1..]), '\n');
    }
  }

  ghost predicate SameBut(xs: seq<string>, ys: seq<string>, a: nat) {
    |xs| == |ys| && forall i | 0 <= i < |xs| && i != a :: xs[i] == ys[i]
  }

  lemma SamePieces(xs: seq<string>, ys: seq<string>, a: nat)
    requires SameBut(xs, ys, a)
    ensures SameBut(CrPieces(xs), CrPieces(ys), a)
  {
    forall i | 0 <= i <= |xs| && i != a ensures CrPieces(xs)[i] == CrPieces(ys)[i] {
      CrPieceAt(xs, i);
      CrPieceAt(ys, i);
    }
  }

  /** Two bodies of CRLF lines that differ in the port of their one audio line. */
  lemma LinesApart(xs: seq<string>, ys: seq<string>, a: nat, p: int, q: int)
    requires a < |xs| && SameBut(xs, ys, a) && NoBreaks(xs) && NoBreaks(ys)
    requires OneAudio(xs + [""], a) && Lines(Crlf(xs)) == xs + [""]
    requires |Fields(xs[a])| >= 2 && Fields(xs[a])[1] == Itoa(p) && Fields(ys[a]) == Fields(xs[a])[1 := Itoa(q)]
    ensures First(Lines(Crlf(xs)), AUDIO) == a
    ensures PortApart(Crlf(xs), p, Crlf(ys), q)
  {
    OneIsFirst(xs + [""], a);
    CrlfSplit(xs);
    CrlfSplit(ys);
    SamePieces(xs, ys, a);
    FieldsAt(xs, a);
    FieldsAt(ys, a);
    PiecesApart(Crlf(xs), Crlf(ys), CrPieces(xs), CrPieces(ys), a, p, q);
  }

  lemma FieldsAt(ls: seq<string>, a: nat)
    requires a < |ls|
    ensures Fields(CrPieces(ls)[a]) == Fields(ls[a])
  {
    CrPieceAt(ls, a);
    SpaceBehind(ls[a]);
  }

  lemma OneIsFirst(ls: seq<string>, a: nat)
    requires OneAudio(ls, a)
    ensures First(ls, AUDIO) == a
  {
    FirstFacts(ls, AUDIO);
    FirstIs(ls, a, AUDIO);
  }

  lemma PiecesApart(x: string, y: string, xs: seq<string>, ys: seq<string>, a: nat, p: int, q: int)
    requires xs == Split(x, '\n') && ys == Split(y, '\n') && a == First(Lines(x), AUDIO)
    requires SameBut(xs, ys, a)
    requires a < |xs| ==>
               |Fields(xs[a])| >= 2 && Fields(xs[a])[1] == Itoa(p) && Fields(ys[a]) == Fields(xs[a])[1 := Itoa(q)]
    ensures PortApart(x, p, y, q)
  {
  }

  /** Two plain offers built from the same codecs. */
  lemma TwoBuilt(c: Codecs, host: string, p: int, q: int, d: string)
    requires Clean(host) && Extracted(c) && Direction(d)
    ensures var (x, y) := (Crlf(SingleOffer(c, host, p, d)), Crlf(SingleOffer(c, host, q, d)));
      First(Lines(x), AUDIO) < |Lines(x)| && PortApart(x, p, y, q)
  {
    BuiltShape(c, host, p, q, d);
    SingleOfferLines(c, host, p, d);
    SingleOfferHost(c, host, p, d);
    AudioLineExtracted(p, c);
    FormatsOnly(c, p, q);
    LinesApart(SingleOffer(c, host, p, d), SingleOffer(c, host, q, d), 4, p, q);
  }

  lemma FormatsOnly(c: Codecs, p: int, q: int)
    requires Extracted(c)
    ensures |Fields(AudioLine(p, c.formats))| >= 2
    ensures Fields(AudioLine(q, c.formats)) == Fields(AudioLine(p, c.formats))[1 := Itoa(q)]
  {
    var ts: seq<string> :| Tokens(ts) && |ts| >= 1 && c.formats == Join(ts, ' ');
    AudioLineFields(p, c.formats, ts);
    AudioLineFields(q, c.formats, ts);
    SecondReplaced(MAUDIO, Itoa(p), Itoa(q), [PROFILE] + ts);
  }

  lemma SecondReplaced(a: string, b: string, b': string, rest: seq<string>)
    ensures |[a] + ([b] + rest)| >= 2 && ([a] + ([b] + rest))[1 := b'] == [a] + ([b'] + rest)
  {
  }

  lemma BuiltShape(c: Codecs, host: string, p: int, q: int, d: string)
    requires Clean(host) && Extracted(c) && Direction(d)
    ensures var (xs, ys) := (SingleOffer(c, host, p, d), SingleOffer(c, host, q, d));
      && |xs| == |ys| > 4 && xs[4] == AudioLine(p, c.formats) && ys[4] == AudioLine(q, c.formats)
      && SameBut(xs, ys, 4) && NoBreaks(xs) && NoBreaks(ys)
  {
    BlockShape(p, host, c, d);
    BlockShape(q, host, c, d);
    BlockClean(p, host, c, d);
    BlockClean(q, host, c, d);
    PreambleKinds(host);
    OneApart(Preamble(host), AudioLine(p, c.formats), AudioLine(q, c.formats), SdpOffers.Body(host, c, d));
  }

  lemma OneApart(pre: seq<string>, x: string, y: string, post: seq<string>)
    requires AllClean(pre) && AllClean([x] + post) && AllClean([y] + post)
    ensures var (xs, ys) := (pre + ([x] + post), pre + ([y] + post));
      && |xs| == |ys| > |pre| && xs[|pre|] == x && ys[|pre|] == y
      && SameBut(xs, ys, |pre|) && NoBreaks(xs) && NoBreaks(ys)
  {
    AllCleanConcat(pre, [x] + post);
    AllCleanConcat(pre, [y] + post);
  }

  lemma PrintedApart(p: nat, q: nat)
    requires p != q
    ensures Itoa(p) != Itoa(q)
  {
    ValueDigits(p);
    ValueDigits(q);
  }

  /** The offer on two ports: refused on both, or the same but for the port. */
  lemma TwoOffers(offer: string, host: string, p: int, q: int)
    requires Clean(host) && p > 0 && q > 0
    ensures OfferAt(offer, host, p).Err? ==> OfferAt(offer, host, q) == OfferAt(offer, host, p)
    ensures OfferAt(offer, host, p).Ok? ==>
              && OfferAt(offer, host, q).Ok?
              && PortApart(OfferAt(offer, host, p).value, p, OfferAt(offer, host, q).value, q)
  {
    if !WebRtc(Lines(offer)) {
      TwoAnchors(offer, host, p, q);
    } else if Extract(Lines(offer)).Ok? {
      ExtractYields(offer);
      TwoBuilt(Extract(Lines(offer)).value, host, p, q, "a=sendrecv");
    }
  }

  /** The two offers are the same exactly if their ports are, or nothing is anchored. */
  lemma OffersSame(offer: string, host: string, p: int, q: int)
    requires Clean(host) && p > 0 && q > 0
    ensures OfferAt(offer, host, p) == OfferAt(offer, host, q)
       <==> p == q || OfferAt(offer, host, p).Err? || First(Lines(offer), AUDIO) == |Lines(offer)|
  {
    if !WebRtc(Lines(offer)) {
      AnchorsSame(offer, host, p, q);
    } else if Extract(Lines(offer)).Ok? {
      ExtractYields(offer);
      TwoBuilt(Extract(Lines(offer)).value, host, p, q, "a=sendrecv");
      if p != q {
        ApartUnlessSame(OfferAt(offer, host, p).value, p, OfferAt(offer, host, q).value, q);
      }
    }
  }

  /** Two anchors are the same exactly if their ports are, or nothing is anchored. */
  lemma AnchorsSame(offer: string, host: string, p: int, q: int)
    requires Clean(host) && p > 0 && q > 0
    ensures Rewrite(offer, host, p) == Rewrite(offer, host, q)
       <==> p == q || Rewrite(offer, host, p).Err? || First(Lines(offer), AUDIO) == |Lines(offer)|
  {
    TwoAnchors(offer, host, p, q);
    if p != q && Rewrite(offer, host, p).Ok? {
      AudioStays(offer, host, p);
      ApartUnlessSame(Rewrite(offer, host, p).value, p, Rewrite(offer, host, q).value, q);
    }
  }

  /** Bodies apart in a port are the same only without an audio line. */
  lemma ApartUnlessSame(x: string, p: int, y: string, q: int)
    requires PortApart(x, p, y, q) && p != q && p > 0 && q > 0
    ensures x == y <==> First(Lines(x), AUDIO) == |Lines(x)|
  {
    if First(Lines(x), AUDIO) == |Lines(x)| {
      NothingApart(x, p, y, q);
    } else {
      PrintedApart(p, q);
    }
  }

  /** Without an audio line nothing is left to differ. */
  lemma NothingApart(x: string, p: int, y: string, q: int)
    requires PortApart(x, p, y, q) && First(Lines(x), AUDIO) == |Lines(x)|
    ensures x == y
  {
    assert Split(x, '\n') == Split(y, '\n');
    SplitApart(x, '\n');
    SplitApart(y, '\n');
  }

  /** Joining the pieces gives the text back. */
  lemma {:induction false} SplitApart(s: string, d: char)
    ensures Join(Split(s, d), d) == s
  {
    if s != "" {
      var rest := Split(s[1..], d);
      SplitApart(s[1..], d);
      assert s == [s[0]] + s[1..];
      if s[0] == d {
        assert ([""] + rest)[1..] == rest;
        assert Join([""] + rest, d) == "" + [d] + Join(rest, d);
      } else {
        JoinFront(s[0], rest, d);
      }
    }
  }

  lemma JoinFront(c: char, ls: seq<string>, d: char)
    requires |ls| >= 1
    ensures Join([[c] + ls[0]] + ls[1..], d) == [c] + Join(ls, d)
  {
    var ms := [[c] + ls[0]] + ls[1..];
    if |ls| > 1 {
      assert ms[1..] == ls[1..];
      assert [c] + ls[0] + [d] + Join(ls[1..], d) == [c] + (ls[0] + [d] + Join(ls[1..], d));
    }
  }

  /** Whatever the applications answer, when the PBX is made an offer at all it is the same in
      every line but the first audio line, and there but for the port. */
  lemma AnswersMoveOnlyPort(s: Setup, t: Setup, a: Alloc)
    requires SameButAnswers(s, t) && AllocInv(a) && a.min > 0 && Clean(s.host)
    requires PbxOffer(s, a).Some? && PbxOffer(t, a).Some?
    ensures var (x, y) := (PbxOffer(s, a).value, PbxOffer(t, a).value);
      if x.Err? then y == x
      else y.Ok? && PortApart(x.value, PbxPair(s, a).value.rtp, y.value, PbxPair(t, a).value.rtp)
  {
    PbxPairIs(s, a);
    PbxPairIs(t, a);
    SupplyPositive(a, PbxPlace(s, Room(a)));
    SupplyPositive(a, PbxPlace(t, Room(a)));
    TwoOffers(s.offer, s.host, PbxPair(s, a).value.rtp, PbxPair(t, a).value.rtp);
  }

  lemma PlaceSame(kept: nat, odd: bool, kept': nat, odd': bool, n: nat)
    requires n < 2
    ensures Place(kept, odd, n) == Place(kept', odd', n) <==> kept == kept' && odd == odd'
  {
  }

  /** And it is the same to the last byte exactly when equally many taps are kept, and the taps
      given back since the last one kept are odd in number in both runs or in neither (or the
      offer cannot be anchored, or has no audio line to put a port on). */
  lemma SamePbxOffer(s: Setup, t: Setup, a: Alloc)
    requires SameButAnswers(s, t) && AllocInv(a) && a.min > 0 && Clean(s.host)
    requires PbxOffer(s, a).Some? && PbxOffer(t, a).Some?
    ensures PbxOffer(s, a) == PbxOffer(t, a) <==>
              var n, room := |s.apps|, Room(a);
              || (ToStash(s, room, n) == ToStash(t, room, n) && Odd(s, room, n) == Odd(t, room, n))
              || PbxOffer(s, a).value.Err? || First(Lines(s.offer), AUDIO) == |Lines(s.offer)|
  {
    var i, j := PbxPlace(s, Room(a)), PbxPlace(t, Room(a));
    PbxPairIs(s, a);
    PbxPairIs(t, a);
    PlaceSame(ToStash(s, Room(a), |s.apps|), Odd(s, Room(a), |s.apps|),
              ToStash(t, Room(a), |s.apps|), Odd(t, Room(a), |s.apps|), SidesTake(s) - 1);
    SupplyPositive(a, i);
    SupplyPositive(a, j);
    if i != j {
      SupplyOnce(a, i, j);
      assert Supply(a, i).rtp != Supply(a, j).rtp;
    }
    OffersSame(s.offer, s.host, Supply(a, i).rtp, Supply(a, j).rtp);
  }

  /** The tap answers are tap answers in both runs or in neither. */
  ghost predicate ParseAlike(s: Setup, t: Setup) {
    forall i | 0 <= i < |s.nets| && i < |t.nets| && s.nets[i].leg.LegAnswered? && t.nets[i].leg.LegAnswered? ::
      TapAnswer(Lines(s.nets[i].leg.body)).Ok? == TapAnswer(Lines(t.nets[i].leg.body)).Ok?
  }

  lemma AlikeAt(s: Setup, t: Setup, i: nat, room: int)
    requires SameButAnswers(s, t) && ParseAlike(s, t) && i < |s.apps|
    ensures ShouldStash(s, i, room) == ShouldStash(t, i, room)
    ensures GivesBack(s, i, room) == GivesBack(t, i, room)
    ensures ShouldStop(s, i, room) == ShouldStop(t, i, room)
  {
    assert SameButBody(s.nets[i], t.nets[i]);
  }

  lemma {:induction false} AlikeTo(s: Setup, t: Setup, room: int, k: nat)
    requires SameButAnswers(s, t) && ParseAlike(s, t) && k <= |s.apps|
    ensures RoomAt(s, room, k) == RoomAt(t, room, k) && ToStash(s, room, k) == ToStash(t, room, k)
    ensures Odd(s, room, k) == Odd(t, room, k)
  {
    if k > 0 {
      AlikeTo(s, t, room, k - 1);
      AlikeAt(s, t, k - 1, RoomAt(s, room, k - 1));
    }
  }

  lemma StopsAlike(s: Setup, t: Setup, room: int, j: nat)
    requires SameButAnswers(s, t) && ParseAlike(s, t) && j < |s.apps|
    ensures StopsAt(s, room, j) == StopsAt(t, room, j)
  {
    AlikeTo(s, t, room, j);
    AlikeAt(s, t, j, RoomAt(s, room, j));
  }

  lemma AlikeRuns(s: Setup, t: Setup, room: int, k: nat)
    requires SameButAnswers(s, t) && ParseAlike(s, t) && k <= |s.apps|
    ensures RunsTo(s, room, k) <==> RunsTo(t, room, k)
  {
    forall j: nat | j < k ensures StopsAt(s, room, j) == StopsAt(t, room, j) {
      StopsAlike(s, t, room, j);
    }
  }

  lemma RunsOne(s: Setup, room: int, k: nat)
    requires k < |s.apps| == |s.nets|
    ensures RunsTo(s, room, k + 1) <==> RunsTo(s, room, k) && !ShouldStop(s, k, RoomAt(s, room, k))
  {
    assert StopsAt(s, room, k) == ShouldStop(s, k, RoomAt(s, room, k));
    if RunsTo(s, room, k + 1) {
      assert !StopsAt(s, room, k);
    }
  }

  lemma AlikeAhead(s: Setup, t: Setup, room: int)
    requires SameButAnswers(s, t) && ParseAlike(s, t)
    ensures RunsTo(s, room, |s.apps|) <==> RunsTo(t, room, |t.apps|)
    ensures RoomAt(s, room, |s.apps|) == RoomAt(t, room, |t.apps|)
    ensures PbxPlace(s, room) == PbxPlace(t, room) && SidesTake(s) == SidesTake(t)
  {
    AlikeTo(s, t, room, |s.apps|);
    AlikeRuns(s, t, room, |s.apps|);
  }

  lemma PairsAlike(s: Setup, t: Setup, a: Alloc)
    requires SameButAnswers(s, t) && ParseAlike(s, t)
    ensures PbxPair(s, a) == PbxPair(t, a)
  {
    AlikeAhead(s, t, Room(a));
    PbxPairIs(s, a);
    PbxPairIs(t, a);
  }

  /** In particular, answers that are tap answers in both runs or in neither have no influence on
      the PBX offer, to the last byte and the port number, nor on whether there is one. */
  lemma AnswersDoNotReachPbx(s: Setup, t: Setup, a: Alloc)
    requires SameButAnswers(s, t) && ParseAlike(s, t)
    ensures PbxOffer(s, a) == PbxOffer(t, a)
  {
    PairsAlike(s, t, a);
  }

  // ----- An answer that moves the port ---------------------------------------

  /** One tapped application that answers with this body. */
  function OneTap(offer: string, host: string, input: Input, body: string): Setup {
    Setup.Setup([Application(None, true, true, false)], [Net(true, true, LegAnswered(body))], input, offer, host)
  }

  /** A tap answer to the offer's codecs. */
  function GoodAnswer(offer: string, host: string): string
    requires Extract(Lines(offer)).Ok?
  {
    Crlf(TapOffer(Extract(Lines(offer)).value, host, 2, 4))
  }

  lemma GoodIsGood(offer: string, host: string)
    requires Extract(Lines(offer)).Ok? && Clean(host)
    ensures TapAnswer(Lines(GoodAnswer(offer, host))).Ok?
  {
    ExtractYields(offer);
    SequencerReadsAnswer(Extract(Lines(offer)).value, host, 2, 4);
  }

  lemma OneTapOutlook(offer: string, host: string, input: Input, body: string, room: int)
    requires Extract(Lines(offer)).Ok? && room >= 2
    ensures var (s, good) := (OneTap(offer, host, input, body), TapAnswer(Lines(body)).Ok?);
      && ShouldStash(s, 0, room) == good && GivesBack(s, 0, room) == !good && !ShouldStop(s, 0, room)
  {
  }

  lemma OneTapAhead(s: Setup, room: int)
    requires |s.apps| == |s.nets| == 1
    ensures RoomAt(s, room, 1) == (if ShouldStash(s, 0, room) then room - 2 else room)
    ensures ToStash(s, room, 1) == if ShouldStash(s, 0, room) then 1 else 0
    ensures Odd(s, room, 1) == (!ShouldStash(s, 0, room) && GivesBack(s, 0, room))
    ensures RunsTo(s, room, 1) <==> !ShouldStop(s, 0, room)
  {
    RunsOne(s, room, 0);
    assert RoomAt(s, room, 0) == room;
  }

  /** Where the pair stands after one tap, by whether its answer parses and how many pairs the
      sides take. */
  function TappedPair(a: Alloc, good: bool, sides: nat): Option<PortPair>
    requires 1 <= sides <= 2
  {
    if good && Room(a) < 2 + sides then None else Some(Supply(a, if good then 1 + sides else 2 - sides))
  }

  lemma OneTapPair(offer: string, host: string, input: Input, body: string, a: Alloc)
    requires Extract(Lines(offer)).Ok? && Room(a) >= 2
    ensures var s := OneTap(offer, host, input, body);
      PbxPair(s, a) == TappedPair(a, TapAnswer(Lines(body)).Ok?, SidesTake(s))
  {
    var s := OneTap(offer, host, input, body);
    OneTapOutlook(offer, host, input, body, Room(a));
    OneTapAhead(s, Room(a));
    PbxPairIs(s, a);
  }

  /** A tap answer or none makes the difference. For every plain offer with audio, on a fresh range
      of at least four pairs the PBX is offered the fourth pair's port or the first one's, and on a
      range of two or three pairs it is made no offer or an offer. For a webphone's it is the third
      pair's port or the second one's, and no offer or an offer on a range of two pairs. */
  lemma AnswerMovesPort(offer: string, host: string, input: Input, min: int, max: int)
    requires Extract(Lines(offer)).Ok? && Clean(host) && max >= min + 3
    ensures var (s, t) := (OneTap(offer, host, input, GoodAnswer(offer, host)), OneTap(offer, host, input, ""));
      && SameButAnswers(s, t)
      && PbxPair(t, Ports.Fresh(min, max)) == Some(Nth(min, if WebRtc(Lines(offer)) then 1 else 0))
      && PbxPair(s, Ports.Fresh(min, max))
         == if WebRtc(Lines(offer)) then (if max >= min + 5 then Some(Nth(min, 2)) else None)
            else if max >= min + 7 then Some(Nth(min, 3)) else None
  {
    GoodIsGood(offer, host);
    NoTapAnswer();
    FreshPair(offer, host, input, GoodAnswer(offer, host), true, WebRtc(Lines(offer)), min, max);
    FreshPair(offer, host, input, "", false, WebRtc(Lines(offer)), min, max);
    OneTapsAlike(offer, host, input, GoodAnswer(offer, host), "");
  }

  /** A fresh range's pairs, counted from 0. */
  function Nth(min: int, n: nat): PortPair {
    PortPair(min + 2 * n, min + 2 * n + 1)
  }

  lemma FreshPair(offer: string, host: string, input: Input, body: string, good: bool, webphone: bool, min: int,
                  max: int)
    requires Extract(Lines(offer)).Ok? && max >= min + 3
    requires good == TapAnswer(Lines(body)).Ok? && webphone == WebRtc(Lines(offer))
    ensures PbxPair(OneTap(offer, host, input, body), Ports.Fresh(min, max))
         == if !good then Some(Nth(min, if webphone then 1 else 0))
            else if webphone then (if max >= min + 5 then Some(Nth(min, 2)) else None)
            else if max >= min + 7 then Some(Nth(min, 3)) else None
  {
    FreshSupply(min, max, 0);
    OneTapPair(offer, host, input, body, Ports.Fresh(min, max));
    FreshTapped(min, max, good, if webphone then 1 else 2);
  }

  lemma FreshTapped(min: int, max: int, good: bool, sides: nat)
    requires max >= min + 3 && 1 <= sides <= 2
    ensures TappedPair(Ports.Fresh(min, max), good, sides)
         == if !good then Some(Nth(min, 2 - sides))
            else if max >= min + 3 + 2 * sides then Some(Nth(min, 1 + sides)) else None
  {
    FreshSupply(min, max, if good then 1 + sides else 2 - sides);
  }

  lemma OneTapsAlike(offer: string, host: string, input: Input, body: string, body': string)
    ensures SameButAnswers(OneTap(offer, host, input, body), OneTap(offer, host, input, body'))
  {
  }

  lemma FreshSupply(min: int, max: int, n: nat)
    requires max >= min + 3
    ensures var a := Ports.Fresh(min, max);
      && Supply(a, n) == Nth(min, n)
      && Room(a) >= 2 && (Room(a) >= 3 <==> max >= min + 5) && (Room(a) >= 4 <==> max >= min + 7)
  {
  }
}
