/** Who owns which port pair: under every interleaving each pair ever minted is in exactly
    one place, and at rest a call owns nothing unless one of its steps lost a tap. */
module Ownership {
  import opened Ledger
  import opened Lifecycle
  import opened Ports
  import Sdp
  import opened Wrappers

  // ----- Where a call's pairs are --------------------------------------------

  function Hands(pc: Pc): seq<PortPair> {
    match pc
    case TapCallee(_, p) => [p]
    case TapHeld(_, p, q) => [p, q]
    case AnchorPbx(_, ep) => [ep]
    case AnchorHeld(_, ep, pbx) => [ep, pbx]
    case SecuredHeld(pbx) => [pbx]
    case Free(todo, _) => todo
    case _ => []
  }

  /** Stashed taps that are not on the session yet. */
  function Stashed(c: Call): seq<Tap> {
    if c.pc.Establishing? && c.pc.k <= |c.pending| then c.pending[c.pc.k..] else c.pending
  }

  function HookPairs(c: Call): seq<PortPair> {
    match c.undo.winner
    case NoWinner => if c.hook.Some? then c.hook.value else []
    case Closing(todo) => todo
    case ClosingTaps(todo) => todo
    case _ => []
  }

  /** Session taps that the release hook has not taken over. */
  function SessionTaps(c: Call): seq<Tap> {
    if c.snap <= |c.taps| then c.taps[c.snap..] else []
  }

  ghost function Owned(c: Call): multiset<PortPair> {
    multiset(Hands(c.pc)) + multiset(Pairs(Stashed(c))) + multiset(HookPairs(c)) + multiset(Pairs(SessionTaps(c)))
  }

  // ----- The shape of a reachable call ---------------------------------------

  /** Before the media session exists. */
  predicate BeforeMedia(pc: Pc) {
    match pc
    case Free(_, next) => next.ToChain? || next.ToAppend?
    case _ => pc.Chain? || pc.TapCallee? || pc.TapHeld? || pc.AppendLeg? || pc.AnchorPbx? || pc.AnchorHeld?
              || pc.SecuredRegister?
  }

  predicate WithMedia(pc: Pc) {
    pc.SecuredPbx? || pc.SecuredHeld? || pc.Dial? || pc.Ringing? || pc.Answered? || pc.Ready? || pc.Establishing?
    || pc.Answering? || pc.Up?
  }

  /** The media session exists and no tap has been put on it yet. */
  predicate TapsToCome(pc: Pc) {
    pc.SecuredPbx? || pc.SecuredHeld? || pc.Dial? || pc.Ringing? || pc.Answered? || pc.Ready?
  }

  /** Past the point where the stashed taps were taken. */
  predicate Emptied(pc: Pc) {
    pc.Answering? || pc.Up? || pc.Teardown? || (pc.Free? && pc.next.ToTeardown?)
  }

  /** The release hook has read the session's tap list, or will never read it. */
  predicate TapListRead(c: Call) {
    c.undo.winner.ClosingTaps? || c.undo.winner.Deregister? || c.undo.winner.Byes? || c.undo.winner.Finished?
  }

  predicate Shape(c: Call) {
    && (c.undo.winner == NoWinner <==> c.state != TearingDown)
    && (BeforeMedia(c.pc) ==> c.hook.None?)
    && (WithMedia(c.pc) ==> c.hook.Some?)
    && (c.pc.SecuredPbx? || c.pc.SecuredHeld? ==> c.hook == Some([]))
    && (c.hook.None?
        ==> c.taps == [] && !c.undo.winner.Closing? && !c.undo.winner.Snapshot? && !c.undo.winner.ClosingTaps?)
    && (TapsToCome(c.pc) ==> c.taps == [])
    && (Emptied(c.pc) ==> c.pending == [])
    && (c.pc.Establishing? ==> c.pc.k <= |c.pending|)
    && c.snap <= |c.taps|
    && (!TapListRead(c) ==> c.snap == 0)
  }

  lemma ShapeRefuse(cfg: Config, c: Call)
    requires Shape(c) && RefuseStep(cfg, c).Some?
    ensures Shape(RefuseStep(cfg, c).value)
  {
  }

  lemma ShapeGrab(cfg: Config, a: Alloc, c: Call)
    requires Shape(c) && GrabStep(cfg, a, c).Some?
    ensures Shape(GrabStep(cfg, a, c).value.1)
  {
  }

  lemma ShapeBindFail(cfg: Config, c: Call)
    requires Shape(c) && BindFailStep(cfg, c).Some?
    ensures Shape(BindFailStep(cfg, c).value)
  {
  }

  lemma ShapeInvite(cfg: Config, c: Call, ev: BridgeEvent)
    requires Shape(c) && InviteStep(cfg, c, ev).Some?
    ensures Shape(InviteStep(cfg, c, ev).value)
  {
  }

  lemma ShapeRegister(c: Call)
    requires Shape(c) && RegisterStep(c).Some?
    ensures Shape(RegisterStep(c).value)
  {
  }

  lemma ShapeEstablish(cfg: Config, c: Call)
    requires Shape(c) && EstablishStep(cfg, c).Some?
    ensures Shape(EstablishStep(cfg, c).value)
  {
  }

  lemma ShapeRelease(a: Alloc, c: Call)
    requires Shape(c) && ReleaseStep(a, c).Some?
    ensures Shape(ReleaseStep(a, c).value.1)
  {
  }

  lemma ShapeCommit(c: Call)
    requires Shape(c)
    ensures Shape(Commit(c))
  {
  }

  lemma ShapeAnchor(cfg: Config, a: Alloc, c: Call, e: Sdp.Endpoint)
    requires Shape(c) && AnchorStep(cfg, a, c, e).Some?
    ensures Shape(AnchorStep(cfg, a, c, e).value.1)
  {
  }

  lemma ShapeChain(cfg: Config, c: Call, ev: BridgeEvent)
    requires Shape(c) && Quiet(cfg, c, ev).Some?
    requires ev.Skip? || ev.Append? || ev.AnchorSecured? || ev.Dialed? || ev.PbxAnswered? || ev.PointPbx?
    ensures Shape(Quiet(cfg, c, ev).value)
  {
  }

  lemma ShapeUp(cfg: Config, c: Call, ev: BridgeEvent)
    requires Shape(c) && Quiet(cfg, c, ev).Some?
    requires ev.AddTap? || ev.Unlock? || ev.Respond? || ev.CollectPending? || ev.Cancelled?
    ensures Shape(Quiet(cfg, c, ev).value)
  {
  }

  lemma ShapeQuiet(cfg: Config, c: Call, ev: BridgeEvent)
    requires Shape(c) && Quiet(cfg, c, ev).Some?
    ensures Shape(Quiet(cfg, c, ev).value)
  {
    match ev
    case Refuse => ShapeRefuse(cfg, c);
    case BindFail => ShapeBindFail(cfg, c);
    case InviteFailed => ShapeInvite(cfg, c, ev);
    case BadTapAnswer => ShapeInvite(cfg, c, ev);
    case Accepted => ShapeInvite(cfg, c, ev);
    case Register => ShapeRegister(c);
    case Establish => ShapeEstablish(cfg, c);
    case CallTeardown => ShapeCommit(c);
    case AddTap => ShapeUp(cfg, c, ev);
    case Unlock => ShapeUp(cfg, c, ev);
    case Respond(_) => ShapeUp(cfg, c, ev);
    case CollectPending => ShapeUp(cfg, c, ev);
    case Cancelled => ShapeUp(cfg, c, ev);
    case _ => ShapeChain(cfg, c, ev);
  }

  lemma ShapeBridge(cfg: Config, a: Alloc, c: Call, ev: BridgeEvent)
    requires Shape(c) && Bridge(cfg, a, c, ev).Some?
    ensures Shape(Bridge(cfg, a, c, ev).value.1)
  {
    match ev
    case Grab => ShapeGrab(cfg, a, c);
    case AnchorPlain(e) => ShapeAnchor(cfg, a, c, e);
    case ReleaseOne => ShapeRelease(a, c);
    case _ => ShapeQuiet(cfg, c, ev);
  }

  lemma ShapeWinner(a: Alloc, c: Call)
    requires Shape(c) && WinnerStep(a, c).Some?
    ensures Shape(WinnerStep(a, c).value.1)
  {
  }

  lemma ShapeAside(cfg: Config, c: Call, ev: OtherEvent)
    requires Shape(c) && Aside(cfg, c, ev).Some?
    ensures Shape(Aside(cfg, c, ev).value)
  {
    if ev.ForeignTeardown? {
      ShapeCommit(c);
    }
  }

  lemma ShapeOther(cfg: Config, a: Alloc, c: Call, ev: OtherEvent)
    requires Shape(c) && Other(cfg, a, c, ev).Some?
    ensures Shape(Other(cfg, a, c, ev).value.1)
  {
    if ev.WinnerMoves? {
      ShapeWinner(a, c);
    } else {
      ShapeAside(cfg, c, ev);
    }
  }

  // ----- One step moves at most one pair -------------------------------------

  lemma {:induction false} PairsAppend(a: seq<Tap>, b: seq<Tap>)
    ensures Pairs(a + b) == Pairs(a) + Pairs(b)
  {
    if a == [] {
      assert a + b == b;
    } else {
      assert (a + b)[1..] == a[1..] + b;
      PairsAppend(a[1..], b);
    }
  }

  lemma PairsSnoc(ts: seq<Tap>, t: Tap)
    ensures multiset(Pairs(ts + [t])) == multiset(Pairs(ts)) + multiset{t.caller, t.callee}
  {
    PairsAppend(ts, [t]);
    assert [t][1..] == [];
    assert Pairs([t]) == [t.caller, t.callee];
  }

  lemma PairsFirst(ts: seq<Tap>)
    requires ts != []
    ensures multiset(Pairs(ts)) == multiset{ts[0].caller, ts[0].callee} + multiset(Pairs(ts[1..]))
  {
    assert multiset([ts[0].caller, ts[0].callee]) == multiset{ts[0].caller, ts[0].callee};
  }

  /** c and d own the same pairs, or d one more than c. */
  ghost predicate Gains(c: Call, d: Call, p: Option<PortPair>) {
    Owned(d) == if p.Some? then Owned(c) + multiset{p.value} else Owned(c)
  }

  /** The pairs everyone else owns are the same before and after. */
  ghost predicate OthersKeep(a: Alloc, c: Call, b: Alloc, d: Call) {
    AllocInv(b) && b.min == a.min && b.max == a.max && Owned(d) <= Out(b) && Out(b) - Owned(d) == Out(a) - Owned(c)
  }

  lemma KeptAll(a: Alloc, c: Call, d: Call)
    requires AllocInv(a) && Owned(c) <= Out(a) && Owned(d) == Owned(c)
    ensures OthersKeep(a, c, a, d)
  {
  }

  lemma Lent(o: multiset<PortPair>, c: multiset<PortPair>, p: PortPair)
    requires c <= o
    ensures c + multiset{p} <= o + multiset{p} && (o + multiset{p}) - (c + multiset{p}) == o - c
  {
  }

  lemma Returned(o: multiset<PortPair>, d: multiset<PortPair>, p: PortPair)
    requires d + multiset{p} <= o
    ensures p in o && d <= o - multiset{p} && (o - multiset{p}) - d == o - (d + multiset{p})
  {
    assert (d + multiset{p})[p] <= o[p];
  }

  lemma TookOne(a: Alloc, c: Call, d: Call)
    requires AllocInv(a) && Owned(c) <= Out(a) && Gains(c, d, Take(a).1)
    ensures OthersKeep(a, c, Take(a).0, d)
  {
    TakeMoves(a);
    if Take(a).1.Some? {
      Lent(Out(a), Owned(c), Take(a).1.value);
    }
  }

  lemma GaveOne(a: Alloc, c: Call, d: Call, p: PortPair)
    requires AllocInv(a) && Owned(c) <= Out(a) && Gains(d, c, Some(p))
    ensures OthersKeep(a, c, Give(a, p), d)
  {
    Returned(Out(a), Owned(d), p);
    GiveMoves(a, p);
  }

  /** Only the bridge's hands differ. */
  ghost predicate SameElsewhere(c: Call, d: Call) {
    Stashed(d) == Stashed(c) && HookPairs(d) == HookPairs(c) && SessionTaps(d) == SessionTaps(c)
  }

  ghost function Opt(p: Option<PortPair>): multiset<PortPair> {
    if p.Some? then multiset{p.value} else multiset{}
  }

  lemma HandsGain(c: Call, d: Call, p: Option<PortPair>)
    requires SameElsewhere(c, d) && multiset(Hands(d.pc)) == multiset(Hands(c.pc)) + Opt(p)
    ensures Gains(c, d, p)
  {
    Regroup(multiset(Hands(c.pc)), Opt(p), multiset(Pairs(Stashed(c))), multiset(HookPairs(c)),
            multiset(Pairs(SessionTaps(c))));
  }

  lemma Regroup(h: multiset<PortPair>, o: multiset<PortPair>, a: multiset<PortPair>, b: multiset<PortPair>,
                t: multiset<PortPair>)
    ensures (h + o) + a + b + t == h + a + b + t + o
  {
  }

  function Listed(p: Option<PortPair>): seq<PortPair> {
    if p.Some? then [p.value] else []
  }

  lemma HandsGrab(cfg: Config, pc: Pc, r: Option<PortPair>)
    requires AfterGrab(cfg, pc, r).Some?
    ensures !pc.Establishing? && !AfterGrab(cfg, pc, r).value.Establishing?
    ensures Hands(AfterGrab(cfg, pc, r).value) == Hands(pc) + Listed(r)
  {
    match pc
    case Chain(i) =>
    case TapCallee(i, p) =>
    case AnchorPbx(e, ep) =>
    case SecuredPbx =>
    case _ =>
  }

  lemma MoreInHand(held: seq<PortPair>, r: Option<PortPair>)
    ensures multiset(held + Listed(r)) == multiset(held) + Opt(r)
  {
  }

  lemma OwnedGrab(cfg: Config, a: Alloc, c: Call)
    requires GrabStep(cfg, a, c).Some?
    ensures Gains(c, GrabStep(cfg, a, c).value.1, Take(a).1)
    ensures GrabStep(cfg, a, c).value.0 == Take(a).0
  {
    HandsGrab(cfg, c.pc, Take(a).1);
    MoreInHand(Hands(c.pc), Take(a).1);
    HandsGain(c, GrabStep(cfg, a, c).value.1, Take(a).1);
  }

  lemma OwnedSame(c: Call, d: Call)
    requires Hands(d.pc) == Hands(c.pc) && SameElsewhere(c, d)
    ensures Owned(d) == Owned(c)
  {
  }

  lemma OwnedInvite(cfg: Config, c: Call, ev: BridgeEvent)
    requires InviteStep(cfg, c, ev).Some?
    ensures Owned(InviteStep(cfg, c, ev).value) == Owned(c)
  {
    var d := InviteStep(cfg, c, ev).value;
    if c.pc.TapHeld? && ev.Accepted? {
      Stashing(c, d, c.pc.caller, c.pc.callee);
    } else {
      OwnedSame(c, d);
    }
  }

  lemma Stashing(c: Call, d: Call, p: PortPair, q: PortPair)
    requires Hands(c.pc) == [p, q] && Hands(d.pc) == [] && HookPairs(d) == HookPairs(c)
    requires SessionTaps(d) == SessionTaps(c) && Stashed(d) == Stashed(c) + [Tap(p, q)]
    ensures Owned(d) == Owned(c)
  {
    PairsSnoc(Stashed(c), Tap(p, q));
    assert multiset([p, q]) == multiset{p, q};
  }

  lemma OwnedRegister(c: Call)
    requires Shape(c) && RegisterStep(c).Some?
    ensures Owned(RegisterStep(c).value) == Owned(c)
  {
    var d := RegisterStep(c).value;
    if c.state == TearingDown {
      OwnedSame(c, d);
    } else {
      Registering(c, d);
    }
  }

  lemma Registering(c: Call, d: Call)
    requires HookPairs(c) == [] && Hands(d.pc) == [] && HookPairs(d) == Hands(c.pc)
    requires Stashed(d) == Stashed(c) && SessionTaps(d) == SessionTaps(c)
    ensures Owned(d) == Owned(c)
  {
  }

  lemma Adding(c: Call, d: Call, t: Tap)
    requires Hands(d.pc) == Hands(c.pc) && HookPairs(d) == HookPairs(c)
    requires Stashed(c) == [t] + Stashed(d) && SessionTaps(d) == SessionTaps(c) + [t]
    ensures Owned(d) == Owned(c)
  {
    PairsFirst(Stashed(c));
    assert Stashed(c)[1..] == Stashed(d);
    PairsSnoc(SessionTaps(c), t);
  }

  lemma OwnedAddTap(c: Call)
    requires Shape(c) && c.pc.Establishing? && c.pc.k < |c.pending|
    ensures Owned(c.(pc := Establishing(c.pc.k + 1), taps := c.taps + [c.pending[c.pc.k]])) == Owned(c)
  {
    var k, t := c.pc.k, c.pending[c.pc.k];
    var d := c.(pc := Establishing(k + 1), taps := c.taps + [t]);
    assert Stashed(c) == [t] + Stashed(d);
    assert SessionTaps(d) == SessionTaps(c) + [t];
    Adding(c, d, t);
  }

  lemma OwnedCommit(c: Call)
    requires Shape(c)
    ensures Owned(Commit(c)) == Owned(c)
  {
    OwnedSame(c, Commit(c));
  }

  lemma FirstOut(todo: seq<PortPair>)
    requires todo != []
    ensures multiset(todo) == multiset{todo[0]} + multiset(todo[1..])
  {
    assert todo == [todo[0]] + todo[1..];
  }

  lemma ReleaseGains(c: Call, d: Call, todo: seq<PortPair>, next: After)
    requires todo != [] && c.pc == Free(todo, next) && d == c.(pc := Free(todo[1..], next))
    ensures Gains(d, c, Some(todo[0]))
  {
    FirstOut(todo);
    HandsGain(d, c, Some(todo[0]));
  }

  lemma OwnedRelease(a: Alloc, c: Call)
    requires AllocInv(a) && Owned(c) <= Out(a) && ReleaseStep(a, c).Some?
    ensures OthersKeep(a, c, ReleaseStep(a, c).value.0, ReleaseStep(a, c).value.1)
  {
    if c.pc.todo != [] {
      OwnedReleaseOne(a, c, c.pc.todo, c.pc.next);
    } else {
      OwnedReleaseNone(a, c, c.pc.next);
    }
  }

  lemma OwnedReleaseNone(a: Alloc, c: Call, next: After)
    requires AllocInv(a) && Owned(c) <= Out(a) && c.pc == Free([], next)
    ensures OthersKeep(a, c, a, c.(pc := Goto(next)))
  {
    NothingInHand(next);
    PcMoves(c, Goto(next));
    KeptAll(a, c, c.(pc := Goto(next)));
  }

  lemma NothingInHand(next: After)
    ensures Hands(Goto(next)) == [] && !Goto(next).Establishing?
  {
  }

  lemma OwnedReleaseOne(a: Alloc, c: Call, todo: seq<PortPair>, next: After)
    requires AllocInv(a) && Owned(c) <= Out(a) && todo != [] && c.pc == Free(todo, next)
    ensures OthersKeep(a, c, Give(a, todo[0]), c.(pc := Free(todo[1..], next)))
  {
    var d := c.(pc := Free(todo[1..], next));
    ReleaseGains(c, d, todo, next);
    GaveOne(a, c, d, todo[0]);
  }

  lemma Collecting(c: Call, d: Call)
    requires Hands(c.pc) == [] && Stashed(d) == [] && Hands(d.pc) == Pairs(Stashed(c))
    requires HookPairs(d) == HookPairs(c) && SessionTaps(d) == SessionTaps(c)
    ensures Owned(d) == Owned(c)
  {
  }

  lemma OwnedCollect(c: Call)
    requires c.pc.TakePending?
    ensures Owned(c.(pc := Free(Pairs(c.pending), ToTeardown), pending := [])) == Owned(c)
  {
    Collecting(c, c.(pc := Free(Pairs(c.pending), ToTeardown), pending := []));
  }

  lemma OwnedUnlock(c: Call)
    requires c.pc.Establishing? && c.pc.k == |c.pending|
    ensures Owned(c.(pc := Answering, pending := [])) == Owned(c)
  {
    OwnedSame(c, c.(pc := Answering, pending := []));
  }

  lemma OwnedEstablish(cfg: Config, c: Call)
    requires EstablishStep(cfg, c).Some? && Shape(c)
    ensures Owned(EstablishStep(cfg, c).value) == Owned(c)
  {
    OwnedSame(c, EstablishStep(cfg, c).value);
  }

  lemma OwnedAnchor(cfg: Config, a: Alloc, c: Call, e: Sdp.Endpoint)
    requires AnchorStep(cfg, a, c, e).Some?
    ensures Gains(c, AnchorStep(cfg, a, c, e).value.1, Take(a).1)
    ensures AnchorStep(cfg, a, c, e).value.0 == Take(a).0
  {
    HandsGain(c, AnchorStep(cfg, a, c, e).value.1, Take(a).1);
  }

  /** The steps that move nothing. */
  lemma OwnedStill(cfg: Config, c: Call, ev: BridgeEvent)
    requires Quiet(cfg, c, ev).Some?
    requires ev.Skip? || ev.Append? || ev.AnchorSecured? || ev.Dialed? || ev.PbxAnswered? || ev.PointPbx?
             || ev.Respond? || ev.Cancelled?
    ensures Owned(Quiet(cfg, c, ev).value) == Owned(c)
  {
    OwnedSame(c, Quiet(cfg, c, ev).value);
  }

  lemma OwnedRefuse(cfg: Config, c: Call)
    requires RefuseStep(cfg, c).Some?
    ensures Owned(RefuseStep(cfg, c).value) == Owned(c)
  {
    OwnedSame(c, RefuseStep(cfg, c).value);
  }

  lemma OwnedBindFail(cfg: Config, c: Call)
    requires BindFailStep(cfg, c).Some?
    ensures Owned(BindFailStep(cfg, c).value) == Owned(c)
  {
    OwnedSame(c, BindFailStep(cfg, c).value);
  }

  lemma OwnedTeardown(c: Call)
    requires Shape(c) && c.pc.Teardown?
    ensures Owned(Commit(c).(pc := Done)) == Owned(c)
  {
    OwnedSame(c, Commit(c).(pc := Done));
  }

  lemma PcMoves(c: Call, pc: Pc)
    requires Hands(c.pc) == Hands(pc) && !c.pc.Establishing? && !pc.Establishing?
    ensures Owned(c.(pc := pc)) == Owned(c)
  {
    OwnedSame(c, c.(pc := pc));
  }

  /** The steps that leave the allocator alone leave the call's pairs alone. */
  lemma OwnedQuiet(cfg: Config, c: Call, ev: BridgeEvent)
    requires Shape(c) && Quiet(cfg, c, ev).Some?
    ensures Owned(Quiet(cfg, c, ev).value) == Owned(c)
  {
    match ev
    case Refuse => OwnedRefuse(cfg, c);
    case BindFail => OwnedBindFail(cfg, c);
    case InviteFailed => OwnedInvite(cfg, c, ev);
    case BadTapAnswer => OwnedInvite(cfg, c, ev);
    case Accepted => OwnedInvite(cfg, c, ev);
    case Register => OwnedRegister(c);
    case Establish => OwnedEstablish(cfg, c);
    case AddTap => OwnedAddTap(c);
    case Unlock => OwnedUnlock(c);
    case CollectPending => OwnedCollect(c);
    case CallTeardown => OwnedTeardown(c);
    case _ => OwnedStill(cfg, c, ev);
  }

  lemma OwnedGrabbed(cfg: Config, a: Alloc, c: Call)
    requires AllocInv(a) && Owned(c) <= Out(a) && GrabStep(cfg, a, c).Some?
    ensures OthersKeep(a, c, GrabStep(cfg, a, c).value.0, GrabStep(cfg, a, c).value.1)
  {
    OwnedGrab(cfg, a, c);
    TookOne(a, c, GrabStep(cfg, a, c).value.1);
  }

  lemma OwnedAnchored(cfg: Config, a: Alloc, c: Call, e: Sdp.Endpoint)
    requires AllocInv(a) && Owned(c) <= Out(a) && AnchorStep(cfg, a, c, e).Some?
    ensures OthersKeep(a, c, AnchorStep(cfg, a, c, e).value.0, AnchorStep(cfg, a, c, e).value.1)
  {
    OwnedAnchor(cfg, a, c, e);
    TookOne(a, c, AnchorStep(cfg, a, c, e).value.1);
  }

  lemma OwnedAlloc(cfg: Config, a: Alloc, c: Call, ev: BridgeEvent)
    requires AllocInv(a) && Owned(c) <= Out(a) && UsesAlloc(ev) && AllocStep(cfg, a, c, ev).Some?
    ensures OthersKeep(a, c, AllocStep(cfg, a, c, ev).value.0, AllocStep(cfg, a, c, ev).value.1)
  {
    match ev
    case Grab => OwnedGrabbed(cfg, a, c);
    case AnchorPlain(e) => OwnedAnchored(cfg, a, c, e);
    case ReleaseOne => OwnedRelease(a, c);
  }

  lemma OwnedBridge(cfg: Config, a: Alloc, c: Call, ev: BridgeEvent)
    requires Shape(c) && AllocInv(a) && Owned(c) <= Out(a) && Bridge(cfg, a, c, ev).Some?
    ensures OthersKeep(a, c, Bridge(cfg, a, c, ev).value.0, Bridge(cfg, a, c, ev).value.1)
  {
    if UsesAlloc(ev) {
      OwnedAlloc(cfg, a, c, ev);
    } else {
      OwnedQuiet(cfg, c, ev);
      KeptAll(a, c, Quiet(cfg, c, ev).value);
    }
  }

  // ----- The other goroutines ------------------------------------------------

  lemma HookGives(a: Alloc, c: Call, d: Call, todo: seq<PortPair>)
    requires AllocInv(a) && Owned(c) <= Out(a) && todo != []
    requires HookPairs(c) == todo && HookPairs(d) == todo[1..]
    requires Hands(d.pc) == Hands(c.pc) && Stashed(d) == Stashed(c) && SessionTaps(d) == SessionTaps(c)
    ensures OthersKeep(a, c, Give(a, todo[0]), d)
  {
    FirstOut(todo);
    GaveOne(a, c, d, todo[0]);
  }

  lemma HookReads(c: Call, d: Call)
    requires HookPairs(c) == [] && SessionTaps(d) == [] && HookPairs(d) == Pairs(SessionTaps(c))
    requires Hands(d.pc) == Hands(c.pc) && Stashed(d) == Stashed(c)
    ensures Owned(d) == Owned(c)
  {
  }

  lemma OwnedWinner(a: Alloc, c: Call)
    requires Shape(c) && AllocInv(a) && Owned(c) <= Out(a) && WinnerStep(a, c).Some?
    ensures OthersKeep(a, c, WinnerStep(a, c).value.0, WinnerStep(a, c).value.1)
  {
    var d := WinnerStep(a, c).value.1;
    var todo := HookPairs(c);
    if todo != [] {
      WinnerGives(a, c);
      HookGives(a, c, d, todo);
    } else {
      OwnedWinnerKept(a, c);
      KeptAll(a, c, d);
    }
  }

  lemma WinnerGives(a: Alloc, c: Call)
    requires WinnerStep(a, c).Some? && HookPairs(c) != []
    ensures WinnerStep(a, c).value.0 == Give(a, HookPairs(c)[0])
    ensures HookPairs(WinnerStep(a, c).value.1) == HookPairs(c)[1..]
    ensures Hands(WinnerStep(a, c).value.1.pc) == Hands(c.pc)
    ensures Stashed(WinnerStep(a, c).value.1) == Stashed(c)
    ensures SessionTaps(WinnerStep(a, c).value.1) == SessionTaps(c)
  {
  }

  lemma OwnedWinnerKept(a: Alloc, c: Call)
    requires Shape(c) && WinnerStep(a, c).Some? && HookPairs(c) == []
    ensures WinnerStep(a, c).value.0 == a && Owned(WinnerStep(a, c).value.1) == Owned(c)
  {
    var d := WinnerStep(a, c).value.1;
    if c.undo.winner.Snapshot? {
      assert SessionTaps(c) == c.taps;
      HookReads(c, d);
    } else {
      OwnedSame(c, d);
    }
  }

  lemma OwnedAside(cfg: Config, c: Call, ev: OtherEvent)
    requires Shape(c) && Aside(cfg, c, ev).Some?
    ensures Owned(Aside(cfg, c, ev).value) == Owned(c)
  {
    if ev.ForeignTeardown? {
      OwnedCommit(c);
    } else {
      OwnedSame(c, Aside(cfg, c, ev).value);
    }
  }

  lemma OwnedOther(cfg: Config, a: Alloc, c: Call, ev: OtherEvent)
    requires Shape(c) && AllocInv(a) && Owned(c) <= Out(a) && Other(cfg, a, c, ev).Some?
    ensures OthersKeep(a, c, Other(cfg, a, c, ev).value.0, Other(cfg, a, c, ev).value.1)
  {
    if ev.WinnerMoves? {
      OwnedWinner(a, c);
    } else {
      OwnedAside(cfg, c, ev);
      KeptAll(a, c, Aside(cfg, c, ev).value);
    }
  }

  lemma OwnedStep(cfg: Config, a: Alloc, c: Call, ev: CallEvent)
    requires Shape(c) && AllocInv(a) && Owned(c) <= Out(a) && CallStep(cfg, a, c, ev).Some?
    ensures Shape(CallStep(cfg, a, c, ev).value.1)
    ensures OthersKeep(a, c, CallStep(cfg, a, c, ev).value.0, CallStep(cfg, a, c, ev).value.1)
  {
    match ev
    case OfBridge(b) =>
      ShapeBridge(cfg, a, c, b);
      OwnedBridge(cfg, a, c, b);
    case OfOther(o) =>
      ShapeOther(cfg, a, c, o);
      OwnedOther(cfg, a, c, o);
  }

  // ----- All calls together --------------------------------------------------

  ghost function Holdings(cs: seq<Call>): (ms: seq<multiset<PortPair>>)
    ensures |ms| == |cs|
  {
    if cs == [] then [] else Holdings(cs[..|cs| - 1]) + [Owned(cs[|cs| - 1])]
  }

  lemma {:induction false} HoldingAt(cs: seq<Call>, i: nat)
    requires i < |cs|
    ensures Holdings(cs)[i] == Owned(cs[i])
  {
    if i < |cs| - 1 {
      HoldingAt(cs[..|cs| - 1], i);
    }
  }

  lemma HoldingsUpdate(cs: seq<Call>, i: nat, d: Call)
    requires i < |cs|
    ensures Holdings(cs[i := d]) == Holdings(cs)[i := Owned(d)]
  {
    var ds := cs[i := d];
    forall j | 0 <= j < |cs| ensures Holdings(ds)[j] == Holdings(cs)[i := Owned(d)][j] {
      HoldingAt(ds, j);
      HoldingAt(cs, j);
    }
  }

  lemma HoldingsAppend(cs: seq<Call>, c: Call)
    ensures Holdings(cs + [c]) == Holdings(cs) + [Owned(c)]
  {
    assert (cs + [c])[..|cs|] == cs;
  }

  ghost predicate AllShaped(cs: seq<Call>) {
    forall i | 0 <= i < |cs| :: Shape(cs[i])
  }

  ghost predicate OwnInv(w: World) {
    AllocInv(w.alloc) && Total(Holdings(w.calls)) == Out(w.alloc) && AllShaped(w.calls)
  }

  lemma HeldIsOut(w: World, i: nat)
    requires OwnInv(w) && i < |w.calls|
    ensures Owned(w.calls[i]) <= Out(w.alloc)
  {
    HoldingAt(w.calls, i);
    TotalUpdate(Holdings(w.calls), i, Owned(w.calls[i]));
  }

  lemma UpdateTotal(w: World, i: nat, b: Alloc, d: Call)
    requires OwnInv(w) && i < |w.calls| && OthersKeep(w.alloc, w.calls[i], b, d)
    ensures Total(Holdings(w.calls[i := d])) == Out(b)
  {
    var ms := Holdings(w.calls);
    HoldingAt(w.calls, i);
    HoldingsUpdate(w.calls, i, d);
    TotalUpdate(ms, i, Owned(d));
    TotalKeeps(Total(ms), Total(ms[i := Owned(d)]), Owned(w.calls[i]), Owned(d), Out(w.alloc), Out(b));
  }

  lemma ActKeeps(cfg: Config, w: World, i: nat, ev: CallEvent)
    requires OwnInv(w) && Step(cfg, w, Act(i, ev)).Some?
    ensures OwnInv(Step(cfg, w, Act(i, ev)).value)
    ensures Step(cfg, w, Act(i, ev)).value.alloc.min == w.alloc.min
    ensures Step(cfg, w, Act(i, ev)).value.alloc.max == w.alloc.max
  {
    var (b, d) := CallStep(cfg, w.alloc, w.calls[i], ev).value;
    HeldIsOut(w, i);
    OwnedStep(cfg, w.alloc, w.calls[i], ev);
    UpdateTotal(w, i, b, d);
    ShapedUpdate(w.calls, i, d);
    assert Step(cfg, w, Act(i, ev)).value.calls == w.calls[i := d];
  }

  lemma ShapedUpdate(cs: seq<Call>, i: nat, d: Call)
    requires AllShaped(cs) && i < |cs| && Shape(d)
    ensures AllShaped(cs[i := d])
  {
  }

  lemma NewCallOwnsNothing(id: string, dialog: string)
    ensures Shape(NewCall(id, dialog)) && Owned(NewCall(id, dialog)) == multiset{}
  {
  }

  lemma SpawnKeeps(w: World, id: string, dialog: string)
    requires OwnInv(w)
    ensures Total(Holdings(w.calls + [NewCall(id, dialog)])) == Out(w.alloc)
    ensures AllShaped(w.calls + [NewCall(id, dialog)])
  {
    var c := NewCall(id, dialog);
    NewCallOwnsNothing(id, dialog);
    HoldingsAppend(w.calls, c);
    TotalAppend(Holdings(w.calls), multiset{});
  }

  lemma StepKeeps(cfg: Config, w: World, act: Action)
    requires OwnInv(w) && Step(cfg, w, act).Some?
    ensures OwnInv(Step(cfg, w, act).value)
    ensures Step(cfg, w, act).value.alloc.min == w.alloc.min && Step(cfg, w, act).value.alloc.max == w.alloc.max
  {
    match act
    case Spawn(id, dialog) => SpawnKeeps(w, id, dialog);
    case Act(i, ev) => ActKeeps(cfg, w, i, ev);
  }

  lemma {:induction false} RunKeeps(cfg: Config, min: int, max: int, acts: seq<Action>)
    requires min <= max && Run(cfg, Start(min, max), acts).Some?
    ensures OwnInv(Run(cfg, Start(min, max), acts).value)
    ensures Run(cfg, Start(min, max), acts).value.alloc.min == min
    ensures Run(cfg, Start(min, max), acts).value.alloc.max == max
    decreases |acts|
  {
    if acts == [] {
      assert Minted(min, min) == multiset{};
    } else {
      var n := |acts| - 1;
      RunKeeps(cfg, min, max, acts[..n]);
      StepKeeps(cfg, Run(cfg, Start(min, max), acts[..n]).value, acts[n]);
    }
  }

  /** Pair p is free once or owned once, and not both. */
  ghost predicate OnePlace(w: World, p: PortPair) {
    multiset(w.alloc.free)[p] + Total(Holdings(w.calls))[p] == 1
  }

  /** Every pair minted so far is in one place, and no two calls own the same pair. */
  ghost predicate OnePlaceEach(w: World) {
    && (forall p | p in Minted(w.alloc.min, w.alloc.next) :: OnePlace(w, p))
    && (forall i, p | 0 <= i < |w.calls| && p in Owned(w.calls[i]) :: OwnedRightly(w, i, p))
    && (forall i, j | 0 <= i < j < |w.calls| :: Apart(w, i, j))
  }

  /** Call i owns p once, p was minted and p is not free. */
  ghost predicate OwnedRightly(w: World, i: nat, p: PortPair)
    requires i < |w.calls|
  {
    p in Minted(w.alloc.min, w.alloc.next) && Owned(w.calls[i])[p] == 1 && p !in w.alloc.free
  }

  ghost predicate Apart(w: World, i: nat, j: nat)
    requires i < |w.calls| && j < |w.calls|
  {
    Owned(w.calls[i]) !! Owned(w.calls[j])
  }

  lemma FreeOrOwned(w: World, p: PortPair)
    requires OwnInv(w) && p in Minted(w.alloc.min, w.alloc.next)
    ensures OnePlace(w, p)
  {
    var m, f := Minted(w.alloc.min, w.alloc.next), multiset(w.alloc.free);
    MintedShape(w.alloc.min, w.alloc.next);
    assert (m - f)[p] == m[p] - f[p];
  }

  lemma OwnedOnce(w: World, i: nat, p: PortPair)
    requires OwnInv(w) && i < |w.calls| && p in Owned(w.calls[i])
    ensures OwnedRightly(w, i, p)
  {
    HeldIsOut(w, i);
    assert Owned(w.calls[i])[p] <= Out(w.alloc)[p];
    OutPair(w.alloc, p);
  }

  lemma NoneShared(w: World, i: nat, j: nat)
    requires OwnInv(w) && i < j < |w.calls|
    ensures Apart(w, i, j)
  {
    HoldingAt(w.calls, i);
    HoldingAt(w.calls, j);
    TwoOf(Holdings(w.calls), i, j);
    MintedShape(w.alloc.min, w.alloc.next);
    Disjoint(Owned(w.calls[i]), Owned(w.calls[j]), Out(w.alloc), Minted(w.alloc.min, w.alloc.next));
  }

  lemma OneEach(w: World)
    requires OwnInv(w)
    ensures OnePlaceEach(w)
  {
    forall p | p in Minted(w.alloc.min, w.alloc.next) ensures OnePlace(w, p) {
      FreeOrOwned(w, p);
    }
    forall i, p | 0 <= i < |w.calls| && p in Owned(w.calls[i]) ensures OwnedRightly(w, i, p) {
      OwnedOnce(w, i, p);
    }
    forall i, j | 0 <= i < j < |w.calls| ensures Apart(w, i, j) {
      NoneShared(w, i, j);
    }
  }

  /** Linear ownership, for every interleaving of any number of calls: in every reachable
      world each minted pair is in exactly one place, so none is free twice and none has
      two holders. */
  lemma LinearOwnership(cfg: Config, min: int, max: int, acts: seq<Action>)
    requires 0 < min < max && min % 2 == 0 && Run(cfg, Start(min, max), acts).Some?
    ensures OnePlaceEach(Run(cfg, Start(min, max), acts).value)
  {
    RunKeeps(cfg, min, max, acts);
    OneEach(Run(cfg, Start(min, max), acts).value);
  }
}
