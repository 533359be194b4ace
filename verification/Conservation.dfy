/** Conservation at rest: what a call still owns once it has been torn down and its bridge
    has returned is exactly what its losing steps lost. */
module Conservation {
  import opened Ledger
  import opened Lifecycle
  import opened Ownership
  import opened Ports
  import opened Registry
  import opened Runs
  import opened Wrappers

  // ----- Loss ----------------------------------------------------------------

  /** The bridge will not look at the stash again. */
  predicate Dropped(pc: Pc) {
    pc.Done? || (pc.Free? && pc.next.ToDone?)
  }

  /** Taps nobody will release any more. */
  function LostTaps(c: Call): seq<Tap> {
    (if Dropped(c.pc) then c.pending else []) + (if TapListRead(c) then SessionTaps(c) else [])
  }

  /** The two steps that lose taps: media registration refused while taps are stashed, and a
      tap added to a session whose release hook has read the tap list. */
  predicate Losing(c: Call, ev: CallEvent) {
    match ev
    case OfBridge(Register) => c.state == TearingDown && c.pending != []
    case OfBridge(AddTap) => TapListRead(c)
    case _ => false
  }

  ghost predicate LostExactly(c: Call, ev: CallEvent, d: Call) {
    && (LostTaps(d) == [] <==> LostTaps(c) == [] && !Losing(c, ev))
    && (forall t | t in LostTaps(c) :: t in LostTaps(d))
  }

  lemma SameLost(c: Call, ev: CallEvent, d: Call)
    requires LostTaps(d) == LostTaps(c) && !Losing(c, ev)
    ensures LostExactly(c, ev, d)
  {
  }

  /** The bridge returns with its stash, or never held one. */
  lemma LostStash(c: Call, ev: CallEvent, d: Call)
    requires !Dropped(c.pc) && Dropped(d.pc) && d.pending == c.pending && SessionTaps(c) == [] && SessionTaps(d) == []
    requires Losing(c, ev) <==> c.pending != []
    ensures LostExactly(c, ev, d)
  {
    assert LostTaps(c) == [];
    assert LostTaps(d) == c.pending;
  }

  lemma LostRegister(c: Call)
    requires Shape(c) && RegisterStep(c).Some?
    ensures LostExactly(c, OfBridge(Register), RegisterStep(c).value)
  {
    if c.state == TearingDown {
      RefusedShape(c);
      LostStash(c, OfBridge(Register), RegisterStep(c).value);
    } else {
      SameLost(c, OfBridge(Register), RegisterStep(c).value);
    }
  }

  lemma RefusedShape(c: Call)
    requires Shape(c) && RegisterStep(c).Some? && c.state == TearingDown
    ensures !Dropped(c.pc) && Dropped(RegisterStep(c).value.pc)
    ensures RegisterStep(c).value.pending == c.pending
    ensures SessionTaps(c) == [] && SessionTaps(RegisterStep(c).value) == []
  {
    assert c.taps == [];
  }

  lemma LostAddTap(cfg: Config, c: Call)
    requires Shape(c) && Quiet(cfg, c, AddTap).Some?
    ensures LostExactly(c, OfBridge(AddTap), Quiet(cfg, c, AddTap).value)
  {
    var d := Quiet(cfg, c, AddTap).value;
    assert SessionTaps(d) == SessionTaps(c) + [c.pending[c.pc.k]];
  }

  lemma LostCommit(c: Call)
    requires Shape(c)
    ensures LostTaps(Commit(c)) == LostTaps(c)
  {
  }

  /** Steps that touch neither the stash nor the session's taps. */
  lemma LostElsewhere(c: Call, ev: CallEvent, d: Call)
    requires d.pending == c.pending && d.taps == c.taps && d.snap == c.snap
    requires Dropped(d.pc) == Dropped(c.pc) && TapListRead(d) == TapListRead(c) && !Losing(c, ev)
    ensures LostExactly(c, ev, d)
  {
    SameLost(c, ev, d);
  }

  lemma LostSetup(cfg: Config, c: Call, ev: BridgeEvent)
    requires Quiet(cfg, c, ev).Some?
    requires ev.Skip? || ev.Refuse? || ev.BindFail? || ev.InviteFailed? || ev.BadTapAnswer? || ev.Append?
             || ev.AnchorSecured? || ev.Dialed? || ev.PbxAnswered? || ev.PointPbx? || ev.Establish?
    ensures LostExactly(c, OfBridge(ev), Quiet(cfg, c, ev).value)
  {
    LostElsewhere(c, OfBridge(ev), Quiet(cfg, c, ev).value);
  }

  lemma LostStashing(cfg: Config, c: Call)
    requires Quiet(cfg, c, Accepted).Some?
    ensures LostExactly(c, OfBridge(Accepted), Quiet(cfg, c, Accepted).value)
  {
    SameLost(c, OfBridge(Accepted), Quiet(cfg, c, Accepted).value);
  }

  lemma LostEnding(cfg: Config, c: Call, ev: BridgeEvent)
    requires Shape(c) && Quiet(cfg, c, ev).Some?
    requires ev.Unlock? || ev.Respond? || ev.CollectPending? || ev.Cancelled?
    ensures LostExactly(c, OfBridge(ev), Quiet(cfg, c, ev).value)
  {
    SameLost(c, OfBridge(ev), Quiet(cfg, c, ev).value);
  }

  lemma LostTeardown(c: Call)
    requires Shape(c) && c.pc.Teardown?
    ensures LostExactly(c, OfBridge(CallTeardown), Commit(c).(pc := Done))
  {
    LostCommit(c);
    SameLost(c, OfBridge(CallTeardown), Commit(c).(pc := Done));
  }

  lemma LostQuiet(cfg: Config, c: Call, ev: BridgeEvent)
    requires Shape(c) && Quiet(cfg, c, ev).Some?
    ensures LostExactly(c, OfBridge(ev), Quiet(cfg, c, ev).value)
  {
    match ev
    case Register => LostRegister(c);
    case AddTap => LostAddTap(cfg, c);
    case CallTeardown => LostTeardown(c);
    case Accepted => LostStashing(cfg, c);
    case Unlock => LostEnding(cfg, c, ev);
    case Respond(_) => LostEnding(cfg, c, ev);
    case CollectPending => LostEnding(cfg, c, ev);
    case Cancelled => LostEnding(cfg, c, ev);
    case _ => LostSetup(cfg, c, ev);
  }

  lemma LostGrab(cfg: Config, a: Alloc, c: Call)
    requires GrabStep(cfg, a, c).Some?
    ensures LostTaps(GrabStep(cfg, a, c).value.1) == LostTaps(c)
  {
  }

  lemma LostAlloc(cfg: Config, a: Alloc, c: Call, ev: BridgeEvent)
    requires Shape(c) && UsesAlloc(ev) && AllocStep(cfg, a, c, ev).Some?
    ensures LostExactly(c, OfBridge(ev), AllocStep(cfg, a, c, ev).value.1)
  {
    var d := AllocStep(cfg, a, c, ev).value.1;
    if ev.Grab? {
      LostGrab(cfg, a, c);
    } else {
      assert d.pending == c.pending && Dropped(d.pc) == Dropped(c.pc);
      assert LostTaps(d) == LostTaps(c);
    }
    SameLost(c, OfBridge(ev), d);
  }

  lemma LostWinner(a: Alloc, c: Call)
    requires Shape(c) && WinnerStep(a, c).Some?
    ensures LostExactly(c, OfOther(WinnerMoves), WinnerStep(a, c).value.1)
  {
    SameLost(c, OfOther(WinnerMoves), WinnerStep(a, c).value.1);
  }

  lemma LostAside(cfg: Config, c: Call, ev: OtherEvent)
    requires Shape(c) && Aside(cfg, c, ev).Some?
    ensures LostExactly(c, OfOther(ev), Aside(cfg, c, ev).value)
  {
    LostCommit(c);
    SameLost(c, OfOther(ev), Aside(cfg, c, ev).value);
  }

  lemma LostStep(cfg: Config, a: Alloc, c: Call, ev: CallEvent)
    requires Shape(c) && CallStep(cfg, a, c, ev).Some?
    ensures LostExactly(c, ev, CallStep(cfg, a, c, ev).value.1)
  {
    match ev
    case OfBridge(b) => if UsesAlloc(b) { LostAlloc(cfg, a, c, b); } else { LostQuiet(cfg, c, b); }
    case OfOther(o) => if o.WinnerMoves? { LostWinner(a, c); } else { LostAside(cfg, c, o); }
  }

  // ----- At rest -------------------------------------------------------------

  /** The call is torn down, its release hook has run and its bridge has returned. */
  predicate AtRest(c: Call) {
    c.pc.Done? && (c.undo.winner.Deregister? || c.undo.winner.Byes? || c.undo.winner.Finished?)
  }

  lemma RestOwnsLost(c: Call)
    requires AtRest(c)
    ensures Owned(c) == multiset(Pairs(LostTaps(c)))
  {
    RestHolds(c);
    PairsAppend(c.pending, SessionTaps(c));
    Joined(Pairs(c.pending), Pairs(SessionTaps(c)));
  }

  lemma RestHolds(c: Call)
    requires AtRest(c)
    ensures LostTaps(c) == c.pending + SessionTaps(c)
    ensures Hands(c.pc) == [] && HookPairs(c) == [] && Stashed(c) == c.pending
  {
  }

  lemma Joined(a: seq<PortPair>, b: seq<PortPair>)
    ensures multiset(a + b) == multiset([]) + multiset(a) + multiset([]) + multiset(b)
  {
    assert multiset(a + b) == multiset(a) + multiset(b);
  }

  lemma NoPairsNoTaps(ts: seq<Tap>)
    ensures multiset(Pairs(ts)) == multiset{} <==> ts == []
  {
    if ts != [] {
      PairsFirst(ts);
      assert ts[0].caller in multiset(Pairs(ts));
    }
  }

  // ----- Whole runs ----------------------------------------------------------

  ghost predicate NoLoss(cfg: Config, w: World, acts: seq<Action>, i: nat) {
    AtEach(cfg, w, acts, i, (c, ev) => !Losing(c, ev))
  }

  lemma LostAction(cfg: Config, w: World, act: Action, i: nat)
    requires OwnInv(w) && Step(cfg, w, act).Some? && i < |w.calls|
    requires act.Act? && act.i == i
    ensures LostExactly(w.calls[i], act.ev, Step(cfg, w, act).value.calls[i])
  {
    ActionOn(cfg, w, act, i);
    LostStep(cfg, w.alloc, w.calls[i], act.ev);
  }

  lemma {:induction false} LostOverRun(cfg: Config, min: int, max: int, acts: seq<Action>, i: nat)
    requires min <= max && Run(cfg, Start(min, max), acts).Some?
    requires i < |Run(cfg, Start(min, max), acts).value.calls|
    ensures LostTaps(Run(cfg, Start(min, max), acts).value.calls[i]) == [] <==> NoLoss(cfg, Start(min, max), acts, i)
    decreases |acts|
  {
    if acts != [] {
      var n := |acts| - 1;
      var w := Run(cfg, Start(min, max), acts[..n]).value;
      RunKeeps(cfg, min, max, acts[..n]);
      ActionOn(cfg, w, acts[n], i);
      if i < |w.calls| {
        LostOverRun(cfg, min, max, acts[..n], i);
        if acts[n].Act? && acts[n].i == i {
          LostAction(cfg, w, acts[n], i);
        }
      } else {
        Untouched(cfg, Start(min, max), acts[..n], i, (c, ev) => !Losing(c, ev));
      }
    }
  }

  /** Conservation at rest, exactly: in every run, a call that has come to rest has given
      every pair back if and only if none of its steps was a losing one. */
  lemma ConservedAtRest(cfg: Config, min: int, max: int, acts: seq<Action>, i: nat)
    requires min <= max && Run(cfg, Start(min, max), acts).Some?
    requires i < |Run(cfg, Start(min, max), acts).value.calls| && AtRest(Run(cfg, Start(min, max), acts).value.calls[i])
    ensures Owned(Run(cfg, Start(min, max), acts).value.calls[i]) == multiset{}
      <==> NoLoss(cfg, Start(min, max), acts, i)
  {
    var c := Run(cfg, Start(min, max), acts).value.calls[i];
    RestOwnsLost(c);
    NoPairsNoTaps(LostTaps(c));
    LostOverRun(cfg, min, max, acts, i);
  }

  // ----- What is enough to lose nothing --------------------------------------

  /** If every step of call i that meets ok keeps the invariant, and meets good while the
      invariant holds, then a run that meets ok at each of its steps meets good at each. */
  lemma {:induction false} AlongRun(cfg: Config, min: int, max: int, acts: seq<Action>, i: nat,
                                    inv: Call -> bool, ok: (Call, CallEvent) -> bool)
    requires min <= max && Run(cfg, Start(min, max), acts).Some?
    requires AtEach(cfg, Start(min, max), acts, i, ok)
    requires forall id, dialog :: inv(NewCall(id, dialog))
    requires Guarded(cfg, inv, ok)
    ensures NoLoss(cfg, Start(min, max), acts, i)
    ensures i < |Run(cfg, Start(min, max), acts).value.calls| ==> inv(Run(cfg, Start(min, max), acts).value.calls[i])
    decreases |acts|
  {
    if acts != [] {
      var n := |acts| - 1;
      var w := Run(cfg, Start(min, max), acts[..n]).value;
      AlongRun(cfg, min, max, acts[..n], i, inv, ok);
      RunKeeps(cfg, min, max, acts[..n]);
      if i < |Step(cfg, w, acts[n]).value.calls| {
        ActionOn(cfg, w, acts[n], i);
        if acts[n].Act? && acts[n].i == i {
          GuardedAt(cfg, w.alloc, w.calls[i], acts[n].ev, inv, ok);
        }
      }
    }
  }

  ghost predicate Guarded(cfg: Config, inv: Call -> bool, ok: (Call, CallEvent) -> bool) {
    forall a, c, ev | GuardedStep(cfg, a, c, ev) && inv(c) && ok(c, ev) ::
      !Losing(c, ev) && inv(CallStep(cfg, a, c, ev).value.1)
  }

  predicate GuardedStep(cfg: Config, a: Alloc, c: Call, ev: CallEvent) {
    Shape(c) && CallStep(cfg, a, c, ev).Some?
  }

  lemma GuardedAt(cfg: Config, a: Alloc, c: Call, ev: CallEvent, inv: Call -> bool, ok: (Call, CallEvent) -> bool)
    requires Guarded(cfg, inv, ok) && Shape(c) && CallStep(cfg, a, c, ev).Some? && inv(c) && ok(c, ev)
    ensures !Losing(c, ev) && inv(CallStep(cfg, a, c, ev).value.1)
  {
    assert GuardedStep(cfg, a, c, ev);
  }

  /** The step acquires the first pair of a tap. */
  predicate StartsTap(c: Call, ev: CallEvent) {
    ev == OfBridge(Grab) && c.pc.Chain?
  }

  predicate Tapless(c: Call) {
    c.pending == [] && c.taps == [] && !c.pc.TapCallee? && !c.pc.TapHeld?
  }

  lemma TaplessStep(cfg: Config, a: Alloc, c: Call, ev: CallEvent)
    requires Shape(c) && CallStep(cfg, a, c, ev).Some? && Tapless(c) && !StartsTap(c, ev)
    ensures Tapless(CallStep(cfg, a, c, ev).value.1) && !Losing(c, ev)
  {
    match ev
    case OfBridge(b) => if UsesAlloc(b) { assert b.Grab? ==> !c.pc.Chain?; } else { TaplessQuiet(cfg, c, b); }
    case OfOther(o) =>
  }

  lemma TaplessQuiet(cfg: Config, c: Call, ev: BridgeEvent)
    requires Quiet(cfg, c, ev).Some? && Tapless(c)
    ensures Tapless(Quiet(cfg, c, ev).value) && !Losing(c, OfBridge(ev))
  {
  }

  /** A call that never started a tap has given every pair back once it is at rest, whatever
      the interleaving. */
  lemma TaplessConserved(cfg: Config, min: int, max: int, acts: seq<Action>, i: nat)
    requires min <= max && Run(cfg, Start(min, max), acts).Some?
    requires i < |Run(cfg, Start(min, max), acts).value.calls| && AtRest(Run(cfg, Start(min, max), acts).value.calls[i])
    requires AtEach(cfg, Start(min, max), acts, i, (c, ev) => !StartsTap(c, ev))
    ensures Owned(Run(cfg, Start(min, max), acts).value.calls[i]) == multiset{}
  {
    var inv, ok := (c: Call) => Tapless(c), (c: Call, ev: CallEvent) => !StartsTap(c, ev);
    forall a, c, ev | GuardedStep(cfg, a, c, ev) && inv(c) && ok(c, ev)
      ensures !Losing(c, ev) && inv(CallStep(cfg, a, c, ev).value.1)
    {
      TaplessStep(cfg, a, c, ev);
    }
    assert Guarded(cfg, inv, ok);
    SameSteps(cfg, Start(min, max), acts, i, (c, ev) => !StartsTap(c, ev), ok);
    AlongRun(cfg, min, max, acts, i, inv, ok);
    ConservedAtRest(cfg, min, max, acts, i);
  }

  // ----- Teardown by others only when the taps are settled -------------------

  predicate TapFrom(cfg: Config, i: nat) {
    exists j | i <= j < |cfg.apps| :: cfg.apps[j].tap
  }

  /** The bridge can still stash a tap. */
  predicate TapsAhead(cfg: Config, pc: Pc) {
    match pc
    case Chain(i) => TapFrom(cfg, i)
    case AppendLeg(i) => TapFrom(cfg, i + 1)
    case Free(_, ToChain(i)) => TapFrom(cfg, i)
    case Free(_, ToAppend(i)) => TapFrom(cfg, i + 1)
    case _ => pc.TapCallee? || pc.TapHeld?
  }

  /** Every tap the call acquired is on its session or back, and no other will come. */
  predicate Settled(cfg: Config, c: Call) {
    Stashed(c) == [] && !TapsAhead(cfg, c.pc)
  }

  /** Another goroutine's teardown commits with this step, before the taps are settled. */
  predicate CutsTaps(cfg: Config, c: Call, ev: CallEvent) {
    ev == OfOther(ForeignTeardown) && c.state != TearingDown && !Settled(cfg, c)
  }

  predicate SettledIfDown(cfg: Config, c: Call) {
    c.state == TearingDown ==> Settled(cfg, c)
  }

  lemma SettledQuiet(cfg: Config, c: Call, ev: BridgeEvent)
    requires Shape(c) && Quiet(cfg, c, ev).Some? && Settled(cfg, c)
    ensures Settled(cfg, Quiet(cfg, c, ev).value) && !Losing(c, OfBridge(ev))
  {
  }

  lemma SettledAlloc(cfg: Config, a: Alloc, c: Call, ev: BridgeEvent)
    requires UsesAlloc(ev) && AllocStep(cfg, a, c, ev).Some? && Settled(cfg, c)
    ensures Settled(cfg, AllocStep(cfg, a, c, ev).value.1)
  {
  }

  lemma SettledOther(cfg: Config, a: Alloc, c: Call, ev: OtherEvent)
    requires Other(cfg, a, c, ev).Some? && Settled(cfg, c)
    ensures Settled(cfg, Other(cfg, a, c, ev).value.1)
  {
  }

  lemma StillUpQuiet(cfg: Config, c: Call, ev: BridgeEvent)
    requires Shape(c) && Quiet(cfg, c, ev).Some? && c.state != TearingDown
    ensures SettledIfDown(cfg, Quiet(cfg, c, ev).value) && !Losing(c, OfBridge(ev))
  {
  }

  lemma StillUpOther(cfg: Config, a: Alloc, c: Call, ev: OtherEvent)
    requires Shape(c) && Other(cfg, a, c, ev).Some? && c.state != TearingDown && !CutsTaps(cfg, c, OfOther(ev))
    ensures SettledIfDown(cfg, Other(cfg, a, c, ev).value.1)
  {
  }

  lemma StillUpAlloc(cfg: Config, a: Alloc, c: Call, ev: BridgeEvent)
    requires UsesAlloc(ev) && AllocStep(cfg, a, c, ev).Some?
    ensures AllocStep(cfg, a, c, ev).value.1.state == c.state
  {
  }

  lemma SettledStep(cfg: Config, a: Alloc, c: Call, ev: CallEvent)
    requires Shape(c) && CallStep(cfg, a, c, ev).Some? && SettledIfDown(cfg, c) && !CutsTaps(cfg, c, ev)
    ensures SettledIfDown(cfg, CallStep(cfg, a, c, ev).value.1) && !Losing(c, ev)
  {
    match ev
    case OfBridge(b) =>
      if UsesAlloc(b) {
        StillUpAlloc(cfg, a, c, b);
        if c.state == TearingDown { SettledAlloc(cfg, a, c, b); }
      } else if c.state == TearingDown {
        SettledQuiet(cfg, c, b);
      } else {
        StillUpQuiet(cfg, c, b);
      }
    case OfOther(o) =>
      if c.state == TearingDown { SettledOther(cfg, a, c, o); } else { StillUpOther(cfg, a, c, o); }
  }

  /** A call whose taps were settled whenever another goroutine's teardown committed has given
      every pair back once it is at rest. */
  lemma SettledConserved(cfg: Config, min: int, max: int, acts: seq<Action>, i: nat)
    requires min <= max && Run(cfg, Start(min, max), acts).Some?
    requires i < |Run(cfg, Start(min, max), acts).value.calls| && AtRest(Run(cfg, Start(min, max), acts).value.calls[i])
    requires AtEach(cfg, Start(min, max), acts, i, (c, ev) => !CutsTaps(cfg, c, ev))
    ensures Owned(Run(cfg, Start(min, max), acts).value.calls[i]) == multiset{}
  {
    var inv, ok := (c: Call) => SettledIfDown(cfg, c), (c: Call, ev: CallEvent) => !CutsTaps(cfg, c, ev);
    forall a, c, ev | GuardedStep(cfg, a, c, ev) && inv(c) && ok(c, ev)
      ensures !Losing(c, ev) && inv(CallStep(cfg, a, c, ev).value.1)
    {
      SettledStep(cfg, a, c, ev);
    }
    assert Guarded(cfg, inv, ok);
    SameSteps(cfg, Start(min, max), acts, i, (c, ev) => !CutsTaps(cfg, c, ev), ok);
    AlongRun(cfg, min, max, acts, i, inv, ok);
    ConservedAtRest(cfg, min, max, acts, i);
  }

  // ----- All calls together --------------------------------------------------

  ghost predicate AllAtRest(cs: seq<Call>) {
    forall i | 0 <= i < |cs| :: AtRest(cs[i])
  }

  lemma {:induction false} NothingHeld(ms: seq<multiset<PortPair>>)
    requires forall k | 0 <= k < |ms| :: ms[k] == multiset{}
    ensures Total(ms) == multiset{}
  {
    if ms != [] {
      NothingHeld(ms[1..]);
    }
  }

  lemma NothingOut(a: Alloc)
    requires AllocInv(a) && Out(a) == multiset{}
    ensures multiset(a.free) == Minted(a.min, a.next)
  {
    var m, f := Minted(a.min, a.next), multiset(a.free);
    forall p ensures m[p] == f[p] {
      assert (m - f)[p] == 0;
    }
  }

  /** When every call is at rest and none of them took a losing step, the free list is exactly
      the pairs ever minted. */
  lemma EverythingBack(cfg: Config, min: int, max: int, acts: seq<Action>)
    requires min <= max && Run(cfg, Start(min, max), acts).Some?
    requires AllAtRest(Run(cfg, Start(min, max), acts).value.calls)
    requires forall i: nat | i < |Run(cfg, Start(min, max), acts).value.calls| :: NoLoss(cfg, Start(min, max), acts, i)
    ensures multiset(Run(cfg, Start(min, max), acts).value.alloc.free)
         == Minted(min, Run(cfg, Start(min, max), acts).value.alloc.next)
  {
    var w := Run(cfg, Start(min, max), acts).value;
    RunKeeps(cfg, min, max, acts);
    forall k | 0 <= k < |w.calls| ensures Holdings(w.calls)[k] == multiset{} {
      HoldingAt(w.calls, k);
      ConservedAtRest(cfg, min, max, acts, k);
    }
    NothingHeld(Holdings(w.calls));
    NothingOut(w.alloc);
  }

  // ----- Loss is for ever ----------------------------------------------------

  lemma {:induction false} PairsOf(ts: seq<Tap>, t: Tap)
    requires t in ts
    ensures t.caller in Pairs(ts) && t.callee in Pairs(ts)
  {
    if t != ts[0] {
      PairsOf(ts[1..], t);
    }
  }

  lemma InSum(a: multiset<PortPair>, b: multiset<PortPair>, h: multiset<PortPair>, t: multiset<PortPair>, p: PortPair)
    requires p in b || p in t
    ensures p in a + b + h + t
  {
  }

  lemma LostIsOwned(c: Call, t: Tap)
    requires t in LostTaps(c)
    ensures t.caller in Owned(c) && t.callee in Owned(c)
  {
    var a, b := multiset(Hands(c.pc)), multiset(Pairs(Stashed(c)));
    var h, s := multiset(HookPairs(c)), multiset(Pairs(SessionTaps(c)));
    if Dropped(c.pc) && t in c.pending {
      PairsOf(Stashed(c), t);
    } else {
      PairsOf(SessionTaps(c), t);
    }
    InSum(a, b, h, s, t.caller);
    InSum(a, b, h, s, t.callee);
  }

  lemma {:induction false} StaysLost(cfg: Config, w: World, more: seq<Action>, i: nat, t: Tap)
    requires OwnInv(w) && i < |w.calls| && t in LostTaps(w.calls[i]) && Run(cfg, w, more).Some?
    ensures OwnInv(Run(cfg, w, more).value) && i < |Run(cfg, w, more).value.calls|
    ensures t in LostTaps(Run(cfg, w, more).value.calls[i])
    decreases |more|
  {
    if more != [] {
      var n := |more| - 1;
      StaysLost(cfg, w, more[..n], i, t);
      var v := Run(cfg, w, more[..n]).value;
      StepKeeps(cfg, v, more[n]);
      CallsStay(cfg, v, more[n]);
      ActionOn(cfg, v, more[n], i);
      if more[n].Act? && more[n].i == i {
        LostAction(cfg, v, more[n], i);
      }
    }
  }

  /** Once lost, a tap's pairs are in no later free list: no continuation of any run brings
      them back. */
  lemma LostForever(cfg: Config, min: int, max: int, acts: seq<Action>, more: seq<Action>, i: nat, t: Tap)
    requires min <= max && Run(cfg, Start(min, max), acts).Some?
    requires i < |Run(cfg, Start(min, max), acts).value.calls|
    requires t in LostTaps(Run(cfg, Start(min, max), acts).value.calls[i])
    requires Run(cfg, Run(cfg, Start(min, max), acts).value, more).Some?
    ensures t.caller !in Run(cfg, Run(cfg, Start(min, max), acts).value, more).value.alloc.free
    ensures t.callee !in Run(cfg, Run(cfg, Start(min, max), acts).value, more).value.alloc.free
  {
    var w := Run(cfg, Start(min, max), acts).value;
    RunKeeps(cfg, min, max, acts);
    StaysLost(cfg, w, more, i, t);
    var v := Run(cfg, w, more).value;
    LostIsOwned(v.calls[i], t);
    OwnedOnce(v, i, t.caller);
    OwnedOnce(v, i, t.callee);
  }

  // ----- A run that leaks ----------------------------------------------------

  lemma Then(cfg: Config, w: World, acts: seq<Action>, v: World, act: Action, v': World)
    requires Run(cfg, w, acts) == Some(v) && Step(cfg, v, act) == Some(v')
    ensures Run(cfg, w, acts + [act]) == Some(v')
  {
    assert (acts + [act])[..|acts|] == acts;
  }

  /** The call's own step, for a world with one call. */
  lemma ThenOne(cfg: Config, w: World, acts: seq<Action>, a: Alloc, c: Call, x: Index<nat>, ev: CallEvent, b: Alloc,
                d: Call)
    requires Run(cfg, w, acts) == Some(World(a, [c], x)) && CallStep(cfg, a, c, ev) == Some((b, d))
    requires !Deregisters(c, ev)
    ensures Run(cfg, w, acts + [Act(0, ev)]) == Some(World(b, [d], x))
  {
    assert [c][0 := d] == [d];
    Then(cfg, w, acts, World(a, [c], x), Act(0, ev), World(b, [d], x));
  }

  function LeakTap(min: int): Tap {
    Tap(PortPair(min, min + 1), PortPair(min + 2, min + 3))
  }

  /** A call with one application, tapped. */
  function TapTaken(): seq<Action> {
    [] + [Spawn("c", "")] + [Act(0, OfBridge(Grab))] + [Act(0, OfBridge(Grab))] + [Act(0, OfBridge(Accepted))]
  }

  /** Another goroutine tears it down while its tap is stashed; the bridge runs on. */
  function LeakActs(): seq<Action> {
    TapTaken() + [Act(0, OfOther(ForeignTeardown))] + [Act(0, OfBridge(Append))] + [Act(0, OfBridge(AnchorSecured))]
    + [Act(0, OfBridge(Register))]
  }

  function Tapped(id: string, min: int): Call {
    NewCall(id, "").(pc := AppendLeg(0), pending := [LeakTap(min)])
  }

  lemma LeakSpawn(cfg: Config, min: int, max: int, id: string)
    ensures Step(cfg, Start(min, max), Spawn(id, ""))
         == Some(World(Fresh(min, max), [NewCall(id, "")], Index(map[id := 0], map[])))
  {
    assert [] + [NewCall(id, "")] == [NewCall(id, "")];
    assert map[][id := 0] == map[id := 0];
  }

  lemma LeakTaken(cfg: Config, min: int, max: int)
    requires cfg.apps == [App(true, false)] && min + 3 <= max
    ensures Run(cfg, Start(min, max), TapTaken())
         == Some(World(Alloc(min, max, min + 4, []), [Tapped("c", min)], Index(map["c" := 0], map[])))
  {
    var w, x := Start(min, max), Index(map["c" := 0], map[]);
    var c0 := NewCall("c", "");
    var c1 := c0.(pc := TapCallee(0, LeakTap(min).caller));
    var c2 := c0.(pc := TapHeld(0, LeakTap(min).caller, LeakTap(min).callee));
    var a0, a1, a2 := Fresh(min, max), Alloc(min, max, min + 2, []), Alloc(min, max, min + 4, []);
    LeakSpawn(cfg, min, max, "c");
    var s1 := [] + [Spawn("c", "")];
    Then(cfg, w, [], w, Spawn("c", ""), World(a0, [c0], x));
    ThenOne(cfg, w, s1, a0, c0, x, OfBridge(Grab), a1, c1);
    var s2 := s1 + [Act(0, OfBridge(Grab))];
    ThenOne(cfg, w, s2, a1, c1, x, OfBridge(Grab), a2, c2);
    assert [] + [LeakTap(min)] == [LeakTap(min)];
    ThenOne(cfg, w, s2 + [Act(0, OfBridge(Grab))], a2, c2, x, OfBridge(Accepted), a2, Tapped("c", min));
  }

  lemma LeakSteps(cfg: Config, a: Alloc, id: string, min: int)
    requires cfg.apps == [App(true, false)]
    ensures CallStep(cfg, a, Cut(id, min), OfBridge(Append)) == Some((a, Gone(id, min).(pc := Chain(1))))
    ensures CallStep(cfg, a, Gone(id, min).(pc := Chain(1)), OfBridge(AnchorSecured))
         == Some((a, Gone(id, min).(pc := SecuredRegister)))
    ensures CallStep(cfg, a, Gone(id, min).(pc := SecuredRegister), OfBridge(Register)) == Some((a, Gone(id, min)))
  {
    assert [] + [0] == [0];
  }

  function Cut(id: string, min: int): Call {
    Tapped(id, min).(state := TearingDown, undo := Undo(Deregister, [], [Committed([])]))
  }

  function Gone(id: string, min: int): Call {
    Cut(id, min).(pc := Done, legs := Legs([0], false, None, 0))
  }

  lemma LeakCut(cfg: Config, a: Alloc, id: string, min: int)
    ensures CallStep(cfg, a, Tapped(id, min), OfOther(ForeignTeardown)) == Some((a, Cut(id, min)))
  {
    assert LegsAt(Tapped(id, min)) == [];
    assert [] + [Committed([])] == [Committed([])];
  }

  lemma LeakRun(cfg: Config, min: int, max: int)
    requires cfg.apps == [App(true, false)] && min + 3 <= max
    ensures Run(cfg, Start(min, max), LeakActs())
         == Some(World(Alloc(min, max, min + 4, []), [Gone("c", min)], Index(map["c" := 0], map[])))
  {
    var w, x, a := Start(min, max), Index(map["c" := 0], map[]), Alloc(min, max, min + 4, []);
    var cut, gone := Cut("c", min), Gone("c", min);
    LeakTaken(cfg, min, max);
    LeakCut(cfg, a, "c", min);
    LeakSteps(cfg, a, "c", min);
    var s1 := TapTaken() + [Act(0, OfOther(ForeignTeardown))];
    ThenOne(cfg, w, TapTaken(), a, Tapped("c", min), x, OfOther(ForeignTeardown), a, cut);
    ThenOne(cfg, w, s1, a, cut, x, OfBridge(Append), a, gone.(pc := Chain(1)));
    ThenOne(cfg, w, s1 + [Act(0, OfBridge(Append))], a, gone.(pc := Chain(1)), x, OfBridge(AnchorSecured),
            a, gone.(pc := SecuredRegister));
    ThenOne(cfg, w, s1 + [Act(0, OfBridge(Append))] + [Act(0, OfBridge(AnchorSecured))], a,
            gone.(pc := SecuredRegister), x,
            OfBridge(Register), a, gone);
  }

  /** On every range with room for a tap there is a run after which the call is at rest and
      two pairs are neither free nor ever to be freed. */
  lemma LeakExists(cfg: Config, min: int, max: int)
    requires cfg.apps == [App(true, false)] && min + 3 <= max
    ensures var r := Run(cfg, Start(min, max), LeakActs());
      && r.Some? && |r.value.calls| == 1 && AtRest(r.value.calls[0])
      && LostTaps(r.value.calls[0]) == [LeakTap(min)] && r.value.alloc.free == []
  {
    LeakRun(cfg, min, max);
  }
}
