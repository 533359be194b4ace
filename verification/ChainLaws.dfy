/** What the application chain comes to: whom it invites, what it counts and what it holds. */
module ChainLaws {
  import opened AppChain
  import opened CallObject
  import opened Lifecycle
  import opened Ownership
  import opened Ports
  import opened Routing
  import opened Sdp
  import opened Text
  import opened Wrappers

  // ----- Room in the allocator -----------------------------------------------

  /** How many pairs the allocator can still hand out. */
  function Room(a: Alloc): nat {
    |a.free| + if a.next + 1 > a.max then 0 else (a.max - a.next + 1) / 2
  }

  lemma TakeRoom(a: Alloc)
    ensures Take(a).1.Some? <==> Room(a) > 0
    ensures Room(Take(a).0) == if Room(a) > 0 then Room(a) - 1 else 0
  {
  }

  lemma GiveRoom(a: Alloc, p: PortPair)
    ensures Room(Give(a, p)) == Room(a) + 1
  {
  }

  predicate Binds(net: Net) {
    net.callerBinds && net.calleeBinds
  }

  lemma TryTapRoom(a: Alloc, net: Net)
    ensures var (b, r) := TryTap(a, net);
      && (r.Ok? <==> Room(a) >= 2 && Binds(net))
      && (r == Err(Exhausted) <==> Room(a) < 2)
      && Room(b) == if r.Ok? then Room(a) - 2 else Room(a)
  {
    TakeRoom(a);
    TakeRoom(Take(a).0);
  }

  lemma TryTapMoves(a: Alloc, net: Net, p: PortPair, q: Option<PortPair>, a1: Alloc, a2: Alloc)
    requires AllocInv(a) && Take(a) == (a1, Some(p)) && Take(a1) == (a2, q)
    ensures q.None? ==> AllocInv(Give(a2, p)) && Out(Give(a2, p)) == Out(a)
    ensures q.Some? ==> AllocInv(a2) && Out(a2) == Out(a) + multiset{p} + multiset{q.value}
    ensures q.Some? ==> AllocInv(Give(Give(a2, p), q.value)) && Out(Give(Give(a2, p), q.value)) == Out(a)
  {
    TakeMoves(a);
    TakeMoves(a1);
    if q.None? {
      GivesBack(a2, Out(a), p);
    } else {
      GivesBackTwo(a2, Out(a), p, q.value);
    }
  }

  ghost predicate AllOrNothing(a: Alloc, b: Alloc, r: Result<Tap, TapError>) {
    AllocInv(b) && Out(b) == if r.Ok? then Out(a) + multiset{r.value.caller} + multiset{r.value.callee} else Out(a)
  }

  /** All or nothing: a tap that is acquired takes its two pairs out, one that is not leaves
      what is out as it was. */
  lemma TryTapAllOrNothing(a: Alloc, net: Net)
    requires AllocInv(a)
    ensures AllOrNothing(a, TryTap(a, net).0, TryTap(a, net).1)
  {
    var (a1, p) := Take(a);
    if p.Some? {
      TryTapMoves(a, net, p.value, Take(a1).1, a1, Take(a1).0);
    } else {
      TakeMoves(a);
    }
  }

  lemma GivesBack(a: Alloc, o: multiset<PortPair>, p: PortPair)
    requires AllocInv(a) && Out(a) == o + multiset{p}
    ensures AllocInv(Give(a, p)) && Out(Give(a, p)) == o
  {
    GiveMoves(a, p);
  }

  lemma GivesBackTwo(a: Alloc, o: multiset<PortPair>, p: PortPair, q: PortPair)
    requires AllocInv(a) && Out(a) == o + multiset{p} + multiset{q}
    ensures AllocInv(Give(Give(a, p), q)) && Out(Give(Give(a, p), q)) == o
  {
    assert o + multiset{p} + multiset{q} == (o + multiset{q}) + multiset{p};
    GivesBack(a, o + multiset{q}, p);
    GivesBack(Give(a, p), o, q);
  }

  // ----- What each application should come to --------------------------------

  predicate OfferOk(s: Setup) {
    Extract(Lines(s.offer)).Ok?
  }

  /** The tap setup of application i succeeds with this room. */
  predicate TapsUp(s: Setup, i: nat, room: int)
    requires i < |s.apps| == |s.nets|
  {
    s.apps[i].tap ==> room >= 2 && Binds(s.nets[i])
  }

  predicate Visited(s: Setup, i: nat)
    requires i < |s.apps|
  {
    Matches(s.apps[i].rule, s.input)
  }

  predicate ShouldInvite(s: Setup, i: nat, room: int)
    requires i < |s.apps| == |s.nets|
  {
    Visited(s, i) && s.apps[i].uriOk && TapsUp(s, i, room) && OfferOk(s)
  }

  /** Its tap stays with the call. */
  predicate ShouldStash(s: Setup, i: nat, room: int)
    requires i < |s.apps| == |s.nets|
  {
    && ShouldInvite(s, i, room) && s.apps[i].tap
    && s.nets[i].leg.LegAnswered? && TapAnswer(Lines(s.nets[i].leg.body)).Ok?
  }

  /** An error that no policy can skip: a bad URI, or an offer without audio codecs. */
  predicate HardError(s: Setup, i: nat, room: int)
    requires i < |s.apps| == |s.nets|
  {
    Visited(s, i) && (!s.apps[i].uriOk || (TapsUp(s, i, room) && !OfferOk(s)))
  }

  predicate ShouldFail(s: Setup, i: nat, room: int)
    requires i < |s.apps| == |s.nets|
  {
    && Visited(s, i) && !HardError(s, i, room)
    && (!TapsUp(s, i, room) || !s.nets[i].leg.LegAnswered?)
  }

  predicate ShouldStop(s: Setup, i: nat, room: int)
    requires i < |s.apps| == |s.nets|
  {
    HardError(s, i, room) || (ShouldFail(s, i, room) && s.apps[i].abort)
  }

  /** The final response of an application that stops the call. */
  function StopStatus(s: Setup, i: nat, room: int): int
    requires i < |s.apps| == |s.nets|
  {
    if HardError(s, i, room) then 500
    else if !TapsUp(s, i, room) then if room < 2 then 503 else 500
    else match s.nets[i].leg
      case NotAnswered(Some(status)) => status
      case _ => 503
  }

  function Ruling(s: Setup, i: nat, room: int): Verdict
    requires i < |s.apps| == |s.nets|
  {
    if ShouldStop(s, i, room) then Stop(StopStatus(s, i, room)) else Next
  }

  /** The room left when the chain gets to application i: each tap kept so far holds two. */
  function RoomAt(s: Setup, room: int, i: nat): int
    requires i <= |s.apps| == |s.nets|
  {
    if i == 0 then room
    else
      var r := RoomAt(s, room, i - 1);
      if ShouldStash(s, i - 1, r) then r - 2 else r
  }

  /** The applications below k that should be invited, in configuration order. */
  function ToInvite(s: Setup, room: int, k: nat): seq<nat>
    requires k <= |s.apps| == |s.nets|
  {
    if k == 0 then []
    else ToInvite(s, room, k - 1) + (if ShouldInvite(s, k - 1, RoomAt(s, room, k - 1)) then [k - 1] else [])
  }

  /** The applications below k whose tap should stay. */
  function ToStash(s: Setup, room: int, k: nat): nat
    requires k <= |s.apps| == |s.nets|
  {
    if k == 0 then 0
    else ToStash(s, room, k - 1) + (if ShouldStash(s, k - 1, RoomAt(s, room, k - 1)) then 1 else 0)
  }

  /** The list is in order and names each application at most once, */
  lemma {:induction false} ToInviteInOrder(s: Setup, room: int, k: nat)
    requires k <= |s.apps| == |s.nets|
    ensures Increasing(ToInvite(s, room, k), k)
  {
    if k > 0 {
      ToInviteInOrder(s, room, k - 1);
      GrowsBy(ToInvite(s, room, k - 1), k - 1);
    }
  }

  /** and it names exactly the applications below k that should be invited. */
  lemma {:induction false} ToInviteIs(s: Setup, room: int, k: nat, i: nat)
    requires k <= |s.apps| == |s.nets|
    ensures i in ToInvite(s, room, k) <==> i < k && ShouldInvite(s, i, RoomAt(s, room, i))
  {
    if k > 0 {
      ToInviteIs(s, room, k - 1, i);
      var last := if ShouldInvite(s, k - 1, RoomAt(s, room, k - 1)) then [k - 1] else [];
      assert i in last <==> i == k - 1 && ShouldInvite(s, i, RoomAt(s, room, i));
      assert i in ToInvite(s, room, k) <==> i in ToInvite(s, room, k - 1) || i in last;
    }
  }

  ghost predicate Increasing(xs: seq<nat>, k: nat) {
    && (forall m | 0 <= m < |xs| :: xs[m] < k)
    && (forall m, n | 0 <= m < n < |xs| :: xs[m] < xs[n])
  }

  lemma GrowsBy(xs: seq<nat>, k: nat)
    requires Increasing(xs, k)
    ensures Increasing(xs, k + 1) && Increasing(xs + [k], k + 1)
  {
  }

  // ----- What the events say -------------------------------------------------

  /** The applications invited, in the order of their INVITEs. */
  function InvitedIn(es: seq<ChainEvent>): seq<nat> {
    if es == [] then []
    else
      var e := es[|es| - 1];
      InvitedIn(es[..|es| - 1]) + (if e.Invited? then [e.i] else [])
  }

  /** How often e happened. */
  function Tally(es: seq<ChainEvent>, e: ChainEvent): nat {
    multiset(es)[e]
  }

  lemma Snoc(es: seq<ChainEvent>, e: ChainEvent)
    ensures InvitedIn(es + [e]) == InvitedIn(es) + (if e.Invited? then [e.i] else [])
    ensures forall x :: Tally(es + [e], x) == Tally(es, x) + (if e == x then 1 else 0)
  {
    assert (es + [e])[..|es|] == es;
  }

  /** Application i is attempted and meets no hard error. */
  predicate ShouldCount(s: Setup, i: nat, room: int)
    requires i < |s.apps| == |s.nets|
  {
    Visited(s, i) && !HardError(s, i, room)
  }

  /** Its leg answers, whatever the answer says. */
  predicate ShouldInvoke(s: Setup, i: nat, room: int)
    requires i < |s.apps| == |s.nets|
  {
    ShouldInvite(s, i, room) && s.nets[i].leg.LegAnswered?
  }

  /** Each application attempted without a hard error has either failed or been invoked. */
  lemma FailedOrInvoked(s: Setup, i: nat, room: int)
    requires i < |s.apps| == |s.nets|
    ensures ShouldInvoke(s, i, room) <==> ShouldCount(s, i, room) && !ShouldFail(s, i, room)
  {
  }

  /** Counted as failed are those that should be, once each, and so for those invoked. */
  ghost predicate CountsRight(s: Setup, room: int, k: nat, es: seq<ChainEvent>)
    requires k <= |s.apps| == |s.nets|
  {
    && (forall j: nat :: Tally(es, Failed(j)) == if j < k && FailsAt(s, room, j) then 1 else 0)
    && (forall j: nat :: Tally(es, Invoked(j)) == if j < k && InvokedAt(s, room, j) then 1 else 0)
  }

  predicate FailsAt(s: Setup, room: int, j: nat)
    requires j < |s.apps| == |s.nets|
  {
    ShouldFail(s, j, RoomAt(s, room, j))
  }

  predicate InvokedAt(s: Setup, room: int, j: nat)
    requires j < |s.apps| == |s.nets|
  {
    ShouldInvoke(s, j, RoomAt(s, room, j))
  }

  /** The legs of the applications below k that answer, with what they answered. */
  function Answering(s: Setup, room: int, k: nat): seq<OutboundLeg>
    requires k <= |s.apps| == |s.nets|
  {
    if k == 0 then []
    else Answering(s, room, k - 1) + LegOf(s, k - 1, RoomAt(s, room, k - 1))
  }

  function LegOf(s: Setup, i: nat, room: int): seq<OutboundLeg>
    requires i < |s.apps| == |s.nets|
  {
    if ShouldInvoke(s, i, room) then [OutboundLeg(i, s.nets[i].leg.body)] else []
  }

  /** What the chain has done when it gets to application k. */
  ghost predicate Tracks(s: Setup, a: Alloc, k: nat, st: Chained)
    requires k <= |s.apps| == |s.nets|
  {
    && Room(st.alloc) == RoomAt(s, Room(a), k)
    && InvitedIn(st.events) == ToInvite(s, Room(a), k)
    && CountsRight(s, Room(a), k, st.events)
    && |st.pending| == ToStash(s, Room(a), k)
    && st.legs == Answering(s, Room(a), k)
  }

  /** Only application i is counted, as failed or as invoked if it should be. */
  ghost predicate CountsMore(es: seq<ChainEvent>, es': seq<ChainEvent>, i: nat, failed: bool, invoked: bool) {
    && (forall j: nat :: Tally(es', Failed(j)) == Tally(es, Failed(j)) + if j == i && failed then 1 else 0)
    && (forall j: nat :: Tally(es', Invoked(j)) == Tally(es, Invoked(j)) + if j == i && invoked then 1 else 0)
  }

  /** What one application's turn does. */
  ghost predicate Did(s: Setup, i: nat, room: int, st: Chained, st': Chained)
    requires i < |s.apps| == |s.nets|
  {
    DidSo(i, room, st, st', Turn(ShouldStash(s, i, room), ShouldInvite(s, i, room), ShouldFail(s, i, room),
                                 ShouldInvoke(s, i, room), LegOf(s, i, room)))
  }

  /** What a turn comes to: a tap kept, an INVITE, a failure or an invocation counted, a leg. */
  datatype Turn = Turn(stash: bool, invite: bool, failed: bool, invoked: bool, legs: seq<OutboundLeg>)

  ghost predicate DidSo(i: nat, room: int, st: Chained, st': Chained, t: Turn) {
    && Room(st'.alloc) == (if t.stash then room - 2 else room)
    && InvitedIn(st'.events) == InvitedIn(st.events) + (if t.invite then [i] else [])
    && CountsMore(st.events, st'.events, i, t.failed, t.invoked)
    && |st'.pending| == |st.pending| + (if t.stash then 1 else 0)
    && st'.legs == st.legs + t.legs
  }

  lemma DidSoInvite(i: nat, room: int, st: Chained, st': Chained, body: string, up: bool, stash: bool,
                    legs: seq<OutboundLeg>)
    requires st'.events == st.events + [Invited(i, body)] + [if up then Invoked(i) else Failed(i)]
    requires st'.legs == st.legs + legs && |st'.pending| == |st.pending| + if stash then 1 else 0
    requires Room(st'.alloc) == if stash then room - 2 else room
    ensures DidSo(i, room, st, st', Turn(stash, true, !up, up, legs))
  {
    TwoCount(st.events, i, body, up);
  }

  lemma DidSoFail(i: nat, room: int, st: Chained, st': Chained)
    requires Room(st'.alloc) == room && st'.pending == st.pending && st'.legs == st.legs
    requires st'.events == st.events + [Failed(i)]
    ensures DidSo(i, room, st, st', Turn(false, false, true, false, []))
  {
    LegCounts(st.events, i, false);
    assert InvitedIn(st.events) + [] == InvitedIn(st.events) && st.legs + [] == st.legs;
  }

  lemma TwoCount(es: seq<ChainEvent>, i: nat, body: string, up: bool)
    ensures var es' := es + [Invited(i, body)] + [if up then Invoked(i) else Failed(i)];
      InvitedIn(es') == InvitedIn(es) + [i] && CountsMore(es, es', i, !up, up)
  {
    var es1 := es + [Invited(i, body)];
    InviteCounts(es, i, body);
    LegCounts(es1, i, up);
    CountsThrough(es, es1, es1 + [if up then Invoked(i) else Failed(i)], i, !up, up);
  }

  lemma InviteCounts(es: seq<ChainEvent>, i: nat, body: string)
    ensures var es' := es + [Invited(i, body)];
      InvitedIn(es') == InvitedIn(es) + [i] && CountsMore(es, es', i, false, false)
  {
    Snoc(es, Invited(i, body));
  }

  lemma LegCounts(es: seq<ChainEvent>, i: nat, up: bool)
    ensures var es' := es + [if up then Invoked(i) else Failed(i)];
      InvitedIn(es') == InvitedIn(es) && CountsMore(es, es', i, !up, up)
  {
    Snoc(es, if up then Invoked(i) else Failed(i));
  }

  lemma CountsThrough(es: seq<ChainEvent>, es1: seq<ChainEvent>, es2: seq<ChainEvent>, i: nat,
                      failed: bool, invoked: bool)
    requires CountsMore(es, es1, i, false, false) && CountsMore(es1, es2, i, failed, invoked)
    ensures CountsMore(es, es2, i, failed, invoked)
  {
  }

  lemma DialEvents(app: Application, net: Net, i: nat, st: Chained, tap: Option<Tap>, body: string)
    ensures var (st', up) := (DialStep(app, net, i, st, tap, body).0, net.leg.LegAnswered?);
      && st'.events == st.events + [Invited(i, body)] + [if up then Invoked(i) else Failed(i)]
      && st'.legs == st.legs + if up then [OutboundLeg(i, net.leg.body)] else []
  {
  }

  lemma DialHolds(app: Application, net: Net, i: nat, st: Chained, tap: Option<Tap>, body: string)
    ensures var (st', keeps) :=
        (DialStep(app, net, i, st, tap, body).0,
         tap.Some? && net.leg.LegAnswered? && TapAnswer(Lines(net.leg.body)).Ok?);
      && st'.pending == st.pending + (if keeps then [tap.value] else [])
      && Room(st'.alloc) == Room(st.alloc) + (if tap.Some? && !keeps then 2 else 0)
  {
    if tap.Some? {
      GiveRoom(st.alloc, tap.value.caller);
      GiveRoom(Give(st.alloc, tap.value.caller), tap.value.callee);
    }
  }

  lemma DidDial(s: Setup, i: nat, room: int, st0: Chained, st: Chained, tap: Option<Tap>, body: string)
    requires i < |s.apps| == |s.nets| && tap.Some? == s.apps[i].tap && ShouldInvite(s, i, room)
    requires Room(st.alloc) == (if s.apps[i].tap then room - 2 else room)
    requires st.events == st0.events && st.pending == st0.pending && st.legs == st0.legs
    ensures Did(s, i, room, st0, DialStep(s.apps[i], s.nets[i], i, st, tap, body).0)
    ensures DialStep(s.apps[i], s.nets[i], i, st, tap, body).1 == Ruling(s, i, room)
  {
    DialEvents(s.apps[i], s.nets[i], i, st, tap, body);
    DialHolds(s.apps[i], s.nets[i], i, st, tap, body);
    DialRules(s, i, room, st, tap, body);
    DidInvite(s, i, room, st0, DialStep(s.apps[i], s.nets[i], i, st, tap, body).0, body);
  }

  lemma DidInvite(s: Setup, i: nat, room: int, st: Chained, st': Chained, body: string)
    requires i < |s.apps| == |s.nets| && ShouldInvite(s, i, room)
    requires var up := s.nets[i].leg.LegAnswered?;
      && st'.events == st.events + [Invited(i, body)] + [if up then Invoked(i) else Failed(i)]
      && st'.legs == st.legs + if up then [OutboundLeg(i, s.nets[i].leg.body)] else []
    requires |st'.pending| == |st.pending| + if ShouldStash(s, i, room) then 1 else 0
    requires Room(st'.alloc) == if ShouldStash(s, i, room) then room - 2 else room
    ensures Did(s, i, room, st, st')
  {
    DidSoInvite(i, room, st, st', body, s.nets[i].leg.LegAnswered?, ShouldStash(s, i, room), LegOf(s, i, room));
  }

  lemma DialRules(s: Setup, i: nat, room: int, st: Chained, tap: Option<Tap>, body: string)
    requires i < |s.apps| == |s.nets| && ShouldInvite(s, i, room)
    ensures DialStep(s.apps[i], s.nets[i], i, st, tap, body).1 == Ruling(s, i, room)
  {
  }

  lemma BodyOk(s: Setup, app: Application, tap: Option<Tap>)
    ensures Body(s, app, tap).Ok? <==> OfferOk(s)
  {
  }

  /** A turn that invites nobody and counts nothing. */
  lemma DidNothing(s: Setup, i: nat, room: int, st: Chained, st': Chained)
    requires i < |s.apps| == |s.nets| && !ShouldInvite(s, i, room) && !ShouldFail(s, i, room)
    requires Room(st'.alloc) == room && st'.events == st.events && st'.pending == st.pending && st'.legs == st.legs
    ensures Did(s, i, room, st, st')
  {
    assert InvitedIn(st.events) + [] == InvitedIn(st.events) && st.legs + [] == st.legs;
  }

  lemma DidFail(s: Setup, i: nat, room: int, st: Chained, st': Chained)
    requires i < |s.apps| == |s.nets| && !ShouldInvite(s, i, room) && ShouldFail(s, i, room)
    requires Room(st'.alloc) == room && st'.pending == st.pending && st'.legs == st.legs
    requires st'.events == st.events + [Failed(i)]
    ensures Did(s, i, room, st, st')
  {
    DidSoFail(i, room, st, st');
  }

  lemma DidApp(s: Setup, i: nat, st: Chained)
    requires i < |s.apps| == |s.nets|
    ensures Did(s, i, Room(st.alloc), st, AppStep(s, i, st).0)
    ensures AppStep(s, i, st).1 == Ruling(s, i, Room(st.alloc))
  {
    var room, app, net := Room(st.alloc), s.apps[i], s.nets[i];
    if !Visited(s, i) || !app.uriOk {
      DidNothing(s, i, room, st, st);
    } else if app.tap {
      DidTapped(s, i, st);
    } else {
      BodyOk(s, app, None);
      if OfferOk(s) {
        DidDial(s, i, room, st, st, None, Body(s, app, None).value);
      } else {
        DidNothing(s, i, room, st, st);
      }
    }
  }

  lemma DidTapped(s: Setup, i: nat, st: Chained)
    requires i < |s.apps| == |s.nets| && Visited(s, i) && s.apps[i].uriOk && s.apps[i].tap
    ensures Did(s, i, Room(st.alloc), st, AppStep(s, i, st).0)
    ensures AppStep(s, i, st).1 == Ruling(s, i, Room(st.alloc))
  {
    var room, app, net := Room(st.alloc), s.apps[i], s.nets[i];
    TryTapRoom(st.alloc, net);
    var (a, r) := TryTap(st.alloc, net);
    var st1 := st.(alloc := a);
    if r.Err? {
      DidFail(s, i, room, st, Log(st1, Failed(i)));
    } else {
      BodyOk(s, app, Some(r.value));
      if OfferOk(s) {
        DidDial(s, i, room, st, st1, Some(r.value), Body(s, app, Some(r.value)).value);
      } else {
        GiveRoom(a, r.value.caller);
        GiveRoom(Give(a, r.value.caller), r.value.callee);
        DidNothing(s, i, room, st, Freed(st1, Some(r.value)));
      }
    }
  }

  lemma TrackStep(s: Setup, a: Alloc, i: nat, st: Chained)
    requires i < |s.apps| == |s.nets| && Tracks(s, a, i, st)
    ensures Tracks(s, a, i + 1, AppStep(s, i, st).0)
    ensures AppStep(s, i, st).1 == Ruling(s, i, RoomAt(s, Room(a), i))
  {
    DidApp(s, i, st);
    CountsOn(s, Room(a), i, st.events, AppStep(s, i, st).0.events);
  }

  lemma CountsOn(s: Setup, room: int, k: nat, es: seq<ChainEvent>, es': seq<ChainEvent>)
    requires k < |s.apps| == |s.nets| && CountsRight(s, room, k, es)
    requires CountsMore(es, es', k, FailsAt(s, room, k), InvokedAt(s, room, k))
    ensures CountsRight(s, room, k + 1, es')
  {
  }

  /** None of the first k applications stops the call. */
  ghost predicate RunsTo(s: Setup, room: int, k: nat)
    requires k <= |s.apps| == |s.nets|
  {
    forall j: nat | j < k :: !StopsAt(s, room, j)
  }

  predicate StopsAt(s: Setup, room: int, j: nat)
    requires j < |s.apps| == |s.nets|
  {
    ShouldStop(s, j, RoomAt(s, room, j))
  }

  /** The chain reached its first k applications: either none of them stops the call and they
      are all, or the last one is the first that does, and its status is answered. */
  ghost predicate CutAt(s: Setup, room: int, k: nat, v: Verdict)
    requires k <= |s.apps| == |s.nets|
  {
    if v.Next? then k == |s.apps| && RunsTo(s, room, k)
    else k > 0 && v == Ruling(s, k - 1, RoomAt(s, room, k - 1)) && RunsTo(s, room, k - 1)
  }

  lemma CutHere(s: Setup, room: int, i: nat, v: Verdict)
    requires i < |s.apps| == |s.nets| && RunsTo(s, room, i) && v == Ruling(s, i, RoomAt(s, room, i))
    ensures v.Stop? ==> CutAt(s, room, i + 1, v)
    ensures v.Next? ==> RunsTo(s, room, i + 1)
  {
  }

  // ----- By induction over the chain -----------------------------------------

  /** An application that lets the chain go on keeps inv. */
  ghost predicate Steady(s: Setup, inv: (nat, Chained) -> bool)
    requires |s.apps| == |s.nets|
  {
    forall j: nat, x: Chained | j < |s.apps| && inv(j, x) && AppStep(s, j, x).1.Next? :: inv(j + 1, AppStep(s, j, x).0)
  }

  /** The chain comes to application k in a state x where inv holds: past the last one, or to the
      one that cuts it. */
  lemma {:induction false} ChainBy(s: Setup, inv: (nat, Chained) -> bool, i: nat, st: Chained)
    returns (k: nat, x: Chained)
    requires i <= |s.apps| == |s.nets| && inv(i, st) && Steady(s, inv)
    ensures k <= |s.apps| && inv(k, x)
    ensures k == |s.apps| ==> ChainFrom(s, i, st) == (x, Next)
    ensures k < |s.apps| ==> ChainFrom(s, i, st) == AppStep(s, k, x) && AppStep(s, k, x).1.Stop?
    decreases |s.apps| - i
  {
    if i == |s.apps| {
      return i, st;
    }
    var (st1, v) := AppStep(s, i, st);
    if v.Stop? {
      return i, st;
    }
    assert inv(i + 1, st1);
    k, x := ChainBy(s, inv, i + 1, st1);
    assert ChainFrom(s, i, st) == ChainFrom(s, i + 1, st1);
  }

  ghost predicate EndsAt(s: Setup, a: Alloc, k: nat, end: (Chained, Verdict))
    requires k <= |s.apps| == |s.nets|
  {
    CutAt(s, Room(a), k, end.1) && Tracks(s, a, k, end.0)
  }

  ghost predicate OnTrack(s: Setup, a: Alloc, k: nat, st: Chained) {
    k <= |s.apps| == |s.nets| && Tracks(s, a, k, st) && RunsTo(s, Room(a), k)
  }

  ghost function Track(s: Setup, a: Alloc): (nat, Chained) -> bool {
    (k: nat, st: Chained) => OnTrack(s, a, k, st)
  }

  lemma TracksSteadily(s: Setup, a: Alloc)
    requires |s.apps| == |s.nets|
    ensures Steady(s, Track(s, a))
  {
    forall j: nat, x: Chained | j < |s.apps| && OnTrack(s, a, j, x) && AppStep(s, j, x).1.Next?
      ensures OnTrack(s, a, j + 1, AppStep(s, j, x).0)
    {
      TrackStep(s, a, j, x);
      CutHere(s, Room(a), j, AppStep(s, j, x).1);
    }
  }

  lemma CutEnds(s: Setup, a: Alloc, k: nat, x: Chained)
    requires k < |s.apps| == |s.nets| && OnTrack(s, a, k, x) && AppStep(s, k, x).1.Stop?
    ensures EndsAt(s, a, k + 1, AppStep(s, k, x))
  {
    TrackStep(s, a, k, x);
    CutHere(s, Room(a), k, AppStep(s, k, x).1);
  }

  lemma EndsOne(s: Setup, a: Alloc, k: nat, x: Chained, end: (Chained, Verdict)) returns (n: nat)
    requires k <= |s.apps| == |s.nets| && OnTrack(s, a, k, x)
    requires if k == |s.apps| then end == (x, Next) else end == AppStep(s, k, x) && end.1.Stop?
    ensures n <= |s.apps| && EndsAt(s, a, n, end)
  {
    if k < |s.apps| {
      CutEnds(s, a, k, x);
      return k + 1;
    }
    RunEnds(s, a, x);
    return k;
  }

  lemma RunEnds(s: Setup, a: Alloc, x: Chained)
    requires |s.apps| == |s.nets| && OnTrack(s, a, |s.apps|, x)
    ensures EndsAt(s, a, |s.apps|, (x, Next))
  {
  }

  lemma BeginsOnTrack(s: Setup, a: Alloc)
    requires |s.apps| == |s.nets|
    ensures OnTrack(s, a, 0, Fresh(a))
  {
  }

  lemma ChainTracks(s: Setup, a: Alloc) returns (k: nat, end: (Chained, Verdict))
    requires |s.apps| == |s.nets|
    ensures end == ChainFrom(s, 0, Fresh(a)) && k <= |s.apps| && EndsAt(s, a, k, end)
  {
    var x;
    BeginsOnTrack(s, a);
    TracksSteadily(s, a);
    k, x := ChainBy(s, Track(s, a), 0, Fresh(a));
    end := ChainFrom(s, 0, Fresh(a));
    k := EndsOne(s, a, k, x, end);
  }

  function Fresh(a: Alloc): Chained {
    Chained(a, [], [], [])
  }

  /** The chain, whatever the network does. It is cut at the first application that must stop
      it: one with a hard error, or one whose tap or leg fails under the abort policy. Up to
      there exactly the applications whose rule matches, whose URI parses, whose tap could be
      set up and whose offer could be built are invited, in configuration order and once
      each; each one attempted without a hard error is counted once, as failed if its tap or its
      leg failed and as invoked if its leg answered, and nobody else is; the legs recorded are
      those that answered, with their answers; and one tap is kept for each tapped leg whose
      answer is a tap answer. */
  lemma ChainOutcome(s: Setup, a: Alloc)
    requires |s.apps| == |s.nets|
    ensures var (st, v) := ChainFrom(s, 0, Fresh(a));
      exists k: nat | k <= |s.apps| ::
        && CutAt(s, Room(a), k, v)
        && InvitedIn(st.events) == ToInvite(s, Room(a), k)
        && CountsRight(s, Room(a), k, st.events)
        && st.legs == Answering(s, Room(a), k)
        && |st.pending| == ToStash(s, Room(a), k)
  {
    var k, end := ChainTracks(s, a);
  }

  // ----- A tap answer that does not parse ------------------------------------

  /** What application i's turn, from st, does when its failure is handled as such: the failure
      is counted and the policy decides. */
  ghost predicate HandledAsFailure(s: Setup, i: nat, st: Chained)
    requires i < |s.apps| == |s.nets|
  {
    var (st', v) := AppStep(s, i, st);
    && Tally(st'.events, Failed(i)) == Tally(st.events, Failed(i)) + 1
    && Tally(st'.events, Invoked(i)) == Tally(st.events, Invoked(i))
    && st'.legs == st.legs && (v.Stop? <==> s.apps[i].abort)
  }

  /** The application gave the call nothing: its tap could not be set up, its leg did not answer,
      or it answered the tap offer with something else than a tap answer. */
  predicate Useless(s: Setup, i: nat, room: int)
    requires i < |s.apps| == |s.nets|
  {
    || ShouldFail(s, i, room)
    || (s.apps[i].tap && s.nets[i].leg.LegAnswered? && TapAnswer(Lines(s.nets[i].leg.body)).Err?)
  }

  /** Its leg answered the tap offer, but not as a tap answer must. */
  predicate AnswersTapWrongly(s: Setup, i: nat, room: int)
    requires i < |s.apps| == |s.nets|
  {
    s.apps[i].tap && ShouldInvoke(s, i, room) && TapAnswer(Lines(s.nets[i].leg.body)).Err?
  }

  /** An application attempted without a hard error is handled as failed when it gave the call
      nothing, except in the one case that it answered the tap offer with something that is not a
      tap answer. Then its failure is never counted and its policy never applied: it is recorded
      and counted as invoked, and only its two pairs are given back. */
  lemma FailuresHandled(s: Setup, i: nat, st: Chained)
    requires i < |s.apps| == |s.nets| && ShouldCount(s, i, Room(st.alloc))
    ensures (HandledAsFailure(s, i, st) <==> Useless(s, i, Room(st.alloc)))
       <==> !AnswersTapWrongly(s, i, Room(st.alloc))
    ensures ShouldInvoke(s, i, Room(st.alloc)) ==>
      var (st', v) := AppStep(s, i, st);
      && Tally(st'.events, Failed(i)) == Tally(st.events, Failed(i)) && v == Next
      && Tally(st'.events, Invoked(i)) == Tally(st.events, Invoked(i)) + 1
      && st'.legs == st.legs + [OutboundLeg(i, s.nets[i].leg.body)]
      && (s.apps[i].tap ==> (Room(st'.alloc) == Room(st.alloc) <==> AnswersTapWrongly(s, i, Room(st.alloc))))
  {
    DidApp(s, i, st);
    FailedOrInvoked(s, i, Room(st.alloc));
  }

  /** A tapped application under the abort policy that answers an empty body. */
  function MuteTap(offer: string, host: string, input: Input): Setup {
    Setup.Setup([Application(None, true, true, true)], [Net(true, true, LegAnswered(""))], input, offer, host)
  }

  lemma NoTapAnswer()
    ensures TapAnswer(Lines("")).Err?
  {
    assert Split("", '\n') == [""];
    assert Lines("") == [""];
    CharDiffers("", AUDIO, 0);
    CharDiffers("", CONN, 0);
    assert TapFold(TapScan([], ""), [""]) == Ok(TapScan([], ""));
  }

  /** With an offer that has audio and room for two pairs, its call goes on: the leg is recorded,
      the invocation counted, no failure is, and nothing is stashed. */
  lemma MuteTapGoesOn(offer: string, host: string, input: Input, a: Alloc)
    requires Extract(Lines(offer)).Ok? && Room(a) >= 2
    ensures var (st, v) := ChainFrom(MuteTap(offer, host, input), 0, Fresh(a));
      && v == Next && st.legs == [OutboundLeg(0, "")] && st.pending == [] && Room(st.alloc) == Room(a)
      && Tally(st.events, Failed(0)) == 0 && Tally(st.events, Invoked(0)) == 1
      && AnswersTapWrongly(MuteTap(offer, host, input), 0, Room(a))
  {
    var s := MuteTap(offer, host, input);
    NoTapAnswer();
    DidApp(s, 0, Fresh(a));
    var (st, v) := AppStep(s, 0, Fresh(a));
    assert ChainFrom(s, 0, Fresh(a)) == ChainFrom(s, 1, st) == (st, Next);
  }

  // ----- What the call holds -------------------------------------------------

  /** What is out is o and the stash. */
  ghost predicate HoldsStash(o: multiset<PortPair>, b: Alloc, ts: seq<Tap>) {
    AllocInv(b) && Out(b) == o + multiset(Pairs(ts))
  }

  /** The same, with an acquired tap in hand. */
  ghost predicate HoldsTap(o: multiset<PortPair>, b: Alloc, ts: seq<Tap>, t: Tap) {
    AllocInv(b) && Out(b) == (o + multiset(Pairs(ts))) + multiset{t.caller} + multiset{t.callee}
  }

  lemma OutGrouped(o: multiset<PortPair>, x: multiset<PortPair>, p: PortPair, q: PortPair)
    ensures (o + x) + multiset{p} + multiset{q} == o + (x + multiset{p, q})
  {
  }

  lemma TapKept(o: multiset<PortPair>, b: Alloc, ts: seq<Tap>, t: Tap)
    requires HoldsTap(o, b, ts, t)
    ensures HoldsStash(o, b, ts + [t])
  {
    PairsSnoc(ts, t);
    OutGrouped(o, multiset(Pairs(ts)), t.caller, t.callee);
  }

  lemma TapFreed(o: multiset<PortPair>, b: Alloc, ts: seq<Tap>, t: Tap)
    requires HoldsTap(o, b, ts, t)
    ensures HoldsStash(o, GiveTap(b, t), ts)
  {
    GivesBackTwo(b, o + multiset(Pairs(ts)), t.caller, t.callee);
  }

  lemma TapTried(o: multiset<PortPair>, a: Alloc, ts: seq<Tap>, net: Net)
    requires HoldsStash(o, a, ts)
    ensures var (b, r) := TryTap(a, net);
      if r.Ok? then HoldsTap(o, b, ts, r.value) else HoldsStash(o, b, ts)
  {
    TryTapAllOrNothing(a, net);
  }

  /** What an application's turn can do to the allocator and the stash. */
  predicate Turned(a: Alloc, ts: seq<Tap>, net: Net, tapped: bool, b: Alloc, us: seq<Tap>) {
    var (a1, r) := TryTap(a, net);
    || (b == a && us == ts)
    || (tapped && r.Err? && b == a1 && us == ts)
    || (tapped && r.Ok? && b == GiveTap(a1, r.value) && us == ts)
    || (tapped && r.Ok? && b == a1 && us == ts + [r.value])
  }

  lemma DialTurned(app: Application, net: Net, i: nat, st: Chained, tap: Option<Tap>, body: string)
    ensures var st1 := DialStep(app, net, i, st, tap, body).0;
      if tap.None? then st1.alloc == st.alloc && st1.pending == st.pending
      else || (st1.alloc == GiveTap(st.alloc, tap.value) && st1.pending == st.pending)
           || (st1.alloc == st.alloc && st1.pending == st.pending + [tap.value])
  {
  }

  lemma AppTurned(s: Setup, i: nat, st: Chained, st1: Chained)
    requires i < |s.apps| == |s.nets| && st1 == AppStep(s, i, st).0
    ensures Turned(st.alloc, st.pending, s.nets[i], s.apps[i].tap, st1.alloc, st1.pending)
  {
    var app, net := s.apps[i], s.nets[i];
    if Visited(s, i) && app.uriOk {
      var (a, r) := TryTap(st.alloc, net);
      if !app.tap {
        var body := Body(s, app, None);
        if body.Ok? {
          DialTurned(app, net, i, st, None, body.value);
        }
      } else if r.Ok? {
        var body := Body(s, app, Some(r.value));
        if body.Ok? {
          DialTurned(app, net, i, st.(alloc := a), Some(r.value), body.value);
        }
      }
    }
  }

  lemma TurnHolds(o: multiset<PortPair>, a: Alloc, ts: seq<Tap>, net: Net, tapped: bool, b: Alloc, us: seq<Tap>)
    requires HoldsStash(o, a, ts) && Turned(a, ts, net, tapped, b, us)
    ensures HoldsStash(o, b, us)
  {
    TapTried(o, a, ts, net);
    var (a1, r) := TryTap(a, net);
    if r.Ok? {
      TapKept(o, a1, ts, r.value);
      TapFreed(o, a1, ts, r.value);
    }
  }

  lemma AppHoldsStash(s: Setup, o: multiset<PortPair>, i: nat, st: Chained, st1: Chained)
    requires i < |s.apps| == |s.nets| && HoldsStash(o, st.alloc, st.pending) && st1 == AppStep(s, i, st).0
    ensures HoldsStash(o, st1.alloc, st1.pending)
  {
    AppTurned(s, i, st, st1);
    TurnHolds(o, st.alloc, st.pending, s.nets[i], s.apps[i].tap, st1.alloc, st1.pending);
  }

  ghost function Holding(o: multiset<PortPair>): (nat, Chained) -> bool {
    (k: nat, st: Chained) => HoldsStash(o, st.alloc, st.pending)
  }

  lemma HoldsSteadily(s: Setup, o: multiset<PortPair>)
    requires |s.apps| == |s.nets|
    ensures Steady(s, Holding(o))
  {
    forall j: nat, x: Chained | j < |s.apps| && Holding(o)(j, x) && AppStep(s, j, x).1.Next?
      ensures Holding(o)(j + 1, AppStep(s, j, x).0)
    {
      AppHoldsStash(s, o, j, x, AppStep(s, j, x).0);
    }
  }

  lemma ChainHoldsStash(s: Setup, o: multiset<PortPair>, st: Chained)
    requires |s.apps| == |s.nets| && HoldsStash(o, st.alloc, st.pending)
    ensures HoldsStash(o, ChainFrom(s, 0, st).0.alloc, ChainFrom(s, 0, st).0.pending)
  {
    HoldsSteadily(s, o);
    var k, x := ChainBy(s, Holding(o), 0, st);
    if k < |s.apps| {
      AppHoldsStash(s, o, k, x, ChainFrom(s, 0, st).0);
    }
  }


  lemma Peel(o: multiset<PortPair>, ps: seq<PortPair>)
    requires ps != []
    ensures o + multiset(ps) == (o + multiset(ps[1..])) + multiset{ps[0]}
  {
    FirstOut(ps);
  }

  lemma {:induction false} GivesBackAll(a: Alloc, o: multiset<PortPair>, ps: seq<PortPair>)
    requires AllocInv(a) && Out(a) == o + multiset(ps)
    ensures AllocInv(GiveAll(a, ps)) && Out(GiveAll(a, ps)) == o
    decreases |ps|
  {
    if ps == [] {
      assert GiveAll(a, ps) == a;
    } else {
      Peel(o, ps);
      GivesBack(a, o + multiset(ps[1..]), ps[0]);
      GivesBackAll(Give(a, ps[0]), o, ps[1..]);
      GiveRest(a, ps);
    }
  }

  lemma GiveRest(a: Alloc, ps: seq<PortPair>)
    requires ps != []
    ensures GiveAll(Give(a, ps[0]), ps[1..]) == GiveAll(a, ps)
  {
    assert (a.free + [ps[0]]) + ps[1..] == a.free + ps;
  }

  /** When the chain runs through, the call holds exactly the two pairs of each stashed tap
      and nothing else; when it is cut, giving the stash back leaves nothing held. */
  lemma ChainHolds(s: Setup, a: Alloc)
    requires |s.apps| == |s.nets| && AllocInv(a)
    ensures var st := ChainFrom(s, 0, Fresh(a)).0;
      && AllocInv(st.alloc) && Out(st.alloc) == Out(a) + multiset(Pairs(st.pending))
      && |Pairs(st.pending)| == 2 * |st.pending|
      && AllocInv(GiveAll(st.alloc, Pairs(st.pending))) && Out(GiveAll(st.alloc, Pairs(st.pending))) == Out(a)
  {
    NothingStashed(a);
    ChainHoldsStash(s, Out(a), Fresh(a));
    var st := ChainFrom(s, 0, Fresh(a)).0;
    GivesBackAll(st.alloc, Out(a), Pairs(st.pending));
    TwoEach(st.pending);
  }

  lemma NothingStashed(a: Alloc)
    requires AllocInv(a)
    ensures HoldsStash(Out(a), a, [])
  {
    assert Out(a) + multiset([]) == Out(a);
  }

  lemma {:induction false} TwoEach(ts: seq<Tap>)
    ensures |Pairs(ts)| == 2 * |ts|
  {
    if ts != [] {
      TwoEach(ts[1..]);
    }
  }
}
