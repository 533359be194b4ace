/** Calls come to rest: a bridge takes a bounded number of steps, and from every reachable world
    any call can be brought to rest. */
module Rest {
  import opened CallObject
  import opened Conservation
  import opened Lifecycle
  import opened Ownership
  import opened Ports
  import opened Registry
  import opened Runs
  import opened Sdp
  import opened Text
  import opened Wrappers

  // ----- A bridge ends -------------------------------------------------------

  /** The applications behind number i. */
  function Behind(cfg: Config, i: nat): nat {
    if i < |cfg.apps| then |cfg.apps| - i - 1 else 0
  }

  /** More steps than the bridge can still take from here, the stash apart. */
  function Ahead(cfg: Config, c: Call): nat {
    match c.pc
    case Chain(i) => 13 + 16 * (if i <= |cfg.apps| then |cfg.apps| - i else 0)
    case TapCallee(i, _) => 19 + 16 * Behind(cfg, i)
    case TapHeld(i, _, _) => 18 + 16 * Behind(cfg, i)
    case AppendLeg(i) => 14 + 16 * Behind(cfg, i)
    case AnchorPbx(_, _) => 11
    case AnchorHeld(_, _, _) => 10
    case SecuredRegister => 12
    case SecuredPbx => 11
    case SecuredHeld(_) => 10
    case Dial => 9
    case Ringing => 8
    case Answered(_) => 7
    case Ready(_) => 6
    case Establishing(_) => 5
    case Answering => 4
    case Up => 1
    case TakePending => 3
    case Free(todo, next) => |todo| + AheadOf(cfg, next)
    case Teardown => 1
    case Done => 0
  }

  function AheadOf(cfg: Config, next: After): nat {
    match next
    case ToChain(i) => 14 + 16 * (if i <= |cfg.apps| then |cfg.apps| - i else 0)
    case ToAppend(i) => 15 + 16 * Behind(cfg, i)
    case ToPending => 4
    case ToTeardown => 2
    case ToDone => 1
  }

  /** A stashed tap costs its two releases, or being put on the session. */
  function StashAhead(c: Call): nat {
    if c.pc.Establishing? && c.pc.k <= |c.pending| then 3 * |c.pending| - c.pc.k else 3 * |c.pending|
  }

  function StepsLeft(cfg: Config, c: Call): nat {
    Ahead(cfg, c) + StashAhead(c)
  }

  lemma {:induction false} TwoPairsEach(ts: seq<Tap>)
    ensures |Pairs(ts)| == 2 * |ts|
  {
    if ts != [] {
      TwoPairsEach(ts[1..]);
    }
  }

  lemma AllocFalls(cfg: Config, a: Alloc, c: Call, ev: BridgeEvent)
    requires UsesAlloc(ev) && AllocStep(cfg, a, c, ev).Some?
    ensures StepsLeft(cfg, AllocStep(cfg, a, c, ev).value.1) < StepsLeft(cfg, c)
  {
  }

  lemma InviteFalls(cfg: Config, c: Call, ev: BridgeEvent)
    requires InviteStep(cfg, c, ev).Some?
    ensures StepsLeft(cfg, InviteStep(cfg, c, ev).value) < StepsLeft(cfg, c)
  {
  }

  lemma QuietFalls(cfg: Config, c: Call, ev: BridgeEvent)
    requires Quiet(cfg, c, ev).Some?
    ensures StepsLeft(cfg, Quiet(cfg, c, ev).value) < StepsLeft(cfg, c)
  {
    if ev.InviteFailed? || ev.BadTapAnswer? || ev.Accepted? {
      InviteFalls(cfg, c, ev);
    } else if ev.Refuse? {
      RefuseFalls(cfg, c);
    } else if ev.BindFail? {
      BindFailFalls(cfg, c);
    } else if ev.CollectPending? {
      TwoPairsEach(c.pending);
    } else if ev.Register? {
      RegisterFalls(cfg, c);
    } else if ev.Establish? {
      EstablishFalls(cfg, c);
    } else {
      OnwardFalls(cfg, c, ev);
    }
  }

  lemma RefuseFalls(cfg: Config, c: Call)
    requires RefuseStep(cfg, c).Some?
    ensures StepsLeft(cfg, RefuseStep(cfg, c).value) < StepsLeft(cfg, c)
  {
  }

  lemma BindFailFalls(cfg: Config, c: Call)
    requires BindFailStep(cfg, c).Some?
    ensures StepsLeft(cfg, BindFailStep(cfg, c).value) < StepsLeft(cfg, c)
  {
  }

  lemma RegisterFalls(cfg: Config, c: Call)
    requires RegisterStep(c).Some?
    ensures StepsLeft(cfg, RegisterStep(c).value) < StepsLeft(cfg, c)
  {
  }

  lemma EstablishFalls(cfg: Config, c: Call)
    requires EstablishStep(cfg, c).Some?
    ensures StepsLeft(cfg, EstablishStep(cfg, c).value) < StepsLeft(cfg, c)
  {
  }

  predicate MovesOn(ev: BridgeEvent) {
    !(ev.InviteFailed? || ev.BadTapAnswer? || ev.Accepted? || ev.Refuse? || ev.BindFail? || ev.CollectPending?
      || ev.Register? || ev.Establish?)
  }

  /** The steps that only move on. */
  lemma OnwardFalls(cfg: Config, c: Call, ev: BridgeEvent)
    requires Quiet(cfg, c, ev).Some? && MovesOn(ev)
    ensures StepsLeft(cfg, Quiet(cfg, c, ev).value) < StepsLeft(cfg, c)
  {
    if ev.CallTeardown? {
      assert Commit(c).pending == c.pending;
    }
  }

  lemma BridgeFalls(cfg: Config, a: Alloc, c: Call, ev: BridgeEvent)
    requires Bridge(cfg, a, c, ev).Some?
    ensures StepsLeft(cfg, Bridge(cfg, a, c, ev).value.1) < StepsLeft(cfg, c)
  {
    if UsesAlloc(ev) {
      AllocFalls(cfg, a, c, ev);
    } else {
      QuietFalls(cfg, c, ev);
    }
  }

  lemma OtherKeepsPc(cfg: Config, a: Alloc, c: Call, ev: OtherEvent)
    requires Other(cfg, a, c, ev).Some?
    ensures Other(cfg, a, c, ev).value.1.pc == c.pc && Other(cfg, a, c, ev).value.1.pending == c.pending
  {
  }

  /** How many steps call i's own bridge takes in the run. */
  function BridgeSteps(acts: seq<Action>, i: nat): nat
    decreases |acts|
  {
    if acts == [] then 0
    else
      var act := acts[|acts| - 1];
      BridgeSteps(acts[..|acts| - 1], i) + if act.Act? && act.i == i && act.ev.OfBridge? then 1 else 0
  }

  /** Under every interleaving and whatever the network does, a call's bridge takes at most sixteen
      steps an application and thirteen more. */
  lemma {:induction false} BridgeEnds(cfg: Config, min: int, max: int, acts: seq<Action>, i: nat)
    requires Run(cfg, Start(min, max), acts).Some?
    ensures var w := Run(cfg, Start(min, max), acts).value;
      if i < |w.calls| then BridgeSteps(acts, i) + StepsLeft(cfg, w.calls[i]) <= 16 * |cfg.apps| + 13
      else BridgeSteps(acts, i) == 0
    decreases |acts|
  {
    if acts != [] {
      var n := |acts| - 1;
      var w := Run(cfg, Start(min, max), acts[..n]).value;
      BridgeEnds(cfg, min, max, acts[..n], i);
      CallsStay(cfg, w, acts[n]);
      if i < |Step(cfg, w, acts[n]).value.calls| {
        ActionOn(cfg, w, acts[n], i);
        if acts[n].Act? && acts[n].i == i {
          StepFalls(cfg, w.alloc, w.calls[i], acts[n].ev);
        }
      }
    }
  }

  lemma StepFalls(cfg: Config, a: Alloc, c: Call, ev: CallEvent)
    requires CallStep(cfg, a, c, ev).Some?
    ensures StepsLeft(cfg, CallStep(cfg, a, c, ev).value.1) + (if ev.OfBridge? then 1 else 0) <= StepsLeft(cfg, c)
  {
    match ev
    case OfBridge(b) => BridgeFalls(cfg, a, c, b);
    case OfOther(o) => OtherKeepsPc(cfg, a, c, o);
  }

  // ----- Any call can be brought to rest -------------------------------------

  /** The bridge is at an application there is, or past the last one. */
  predicate InRange(cfg: Config, c: Call) {
    var n := |cfg.apps|;
    match c.pc
    case Chain(i) => i <= n
    case TapCallee(i, _) => i < n
    case TapHeld(i, _, _) => i < n
    case AppendLeg(i) => i < n
    case Free(_, next) => (next.ToChain? ==> next.i <= n) && (next.ToAppend? ==> next.i < n)
    case _ => true
  }

  lemma RangeKept(cfg: Config, a: Alloc, c: Call, ev: CallEvent)
    requires InRange(cfg, c) && CallStep(cfg, a, c, ev).Some?
    ensures InRange(cfg, CallStep(cfg, a, c, ev).value.1)
  {
    match ev
    case OfBridge(b) =>
      if UsesAlloc(b) {
        RangeAlloc(cfg, a, c, b);
      } else {
        RangeQuiet(cfg, c, b);
      }
    case OfOther(o) => OtherKeepsPc(cfg, a, c, o);
  }

  lemma RangeAlloc(cfg: Config, a: Alloc, c: Call, ev: BridgeEvent)
    requires InRange(cfg, c) && UsesAlloc(ev) && AllocStep(cfg, a, c, ev).Some?
    ensures InRange(cfg, AllocStep(cfg, a, c, ev).value.1)
  {
  }

  lemma RangeQuiet(cfg: Config, c: Call, ev: BridgeEvent)
    requires InRange(cfg, c) && Quiet(cfg, c, ev).Some?
    ensures InRange(cfg, Quiet(cfg, c, ev).value)
  {
  }

  lemma RangeInRun(cfg: Config, min: int, max: int, acts: seq<Action>, i: nat)
    requires Run(cfg, Start(min, max), acts).Some? && i < |Run(cfg, Start(min, max), acts).value.calls|
    ensures InRange(cfg, Run(cfg, Start(min, max), acts).value.calls[i])
  {
    var inv := (c: Call) => InRange(cfg, c);
    forall a, c, ev | inv(c) && CallStep(cfg, a, c, ev).Some? ensures inv(CallStep(cfg, a, c, ev).value.1) {
      RangeKept(cfg, a, c, ev);
    }
    Invariant(cfg, min, max, acts, i, inv);
  }

  /** A step towards rest: the bridge gives up, or is cancelled once the call is up; then the call
      is torn down and the winner goes on. */
  function Homeward(cfg: Config, c: Call): CallEvent {
    match c.pc
    case Chain(_) => OfBridge(Refuse)
    case TapCallee(_, _) => OfBridge(Grab)
    case TapHeld(_, _, _) => OfBridge(Refuse)
    case AppendLeg(_) => OfBridge(Append)
    case AnchorPbx(_, _) => OfBridge(Grab)
    case AnchorHeld(_, _, _) => OfBridge(BindFail)
    case SecuredRegister => OfBridge(Register)
    case SecuredPbx => OfBridge(Grab)
    case SecuredHeld(_) => OfBridge(BindFail)
    case Dial => OfBridge(Refuse)
    case Ringing => OfBridge(Refuse)
    case Answered(sdp) => OfBridge(if Media(Lines(sdp), cfg.isIP).Err? then Refuse else PointPbx)
    case Ready(sdp) =>
      OfBridge(if c.neg.epPort.Some? && Rewrite(sdp, cfg.mediaHost, c.neg.epPort.value).Err? then Refuse else Establish)
    case Establishing(k) => OfBridge(if k < |c.pending| then AddTap else Unlock)
    case Answering => OfBridge(BridgeEvent.Respond(false))
    case Up => OfBridge(Cancelled)
    case TakePending => OfBridge(CollectPending)
    case Free(_, _) => OfBridge(ReleaseOne)
    case Teardown => OfBridge(CallTeardown)
    case Done => OfOther(if c.state == TearingDown then WinnerMoves else ForeignTeardown)
  }

  /** What is left of the way to rest once the bridge has returned. */
  function TeardownLeft(c: Call): nat {
    if c.state != TearingDown then 6 else Rank(c.undo)
  }

  lemma HomewardBridge(cfg: Config, a: Alloc, c: Call)
    requires Shape(c) && InRange(cfg, c) && !c.pc.Done?
    ensures Homeward(cfg, c).OfBridge? && CallStep(cfg, a, c, Homeward(cfg, c)).Some?
  {
  }

  lemma HomewardStep(cfg: Config, a: Alloc, c: Call)
    requires Shape(c) && InRange(cfg, c) && !AtRest(c)
    ensures CallStep(cfg, a, c, Homeward(cfg, c)).Some?
    ensures var d := CallStep(cfg, a, c, Homeward(cfg, c)).value.1;
      || StepsLeft(cfg, d) < StepsLeft(cfg, c)
      || (StepsLeft(cfg, d) == StepsLeft(cfg, c) && TeardownLeft(d) < TeardownLeft(c))
      || (StepsLeft(cfg, d) == StepsLeft(cfg, c) && TeardownLeft(d) == TeardownLeft(c) && Left(d.undo) < Left(c.undo))
  {
    if c.pc.Done? {
      OtherKeepsPc(cfg, a, c, Homeward(cfg, c).o);
    } else {
      HomewardBridge(cfg, a, c);
      BridgeFalls(cfg, a, c, Homeward(cfg, c).b);
    }
  }

  lemma ActOn(cfg: Config, w: World, i: nat, ev: CallEvent)
    requires i < |w.calls| && CallStep(cfg, w.alloc, w.calls[i], ev).Some?
    ensures Step(cfg, w, Act(i, ev)).Some?
    ensures |Step(cfg, w, Act(i, ev)).value.calls| == |w.calls|
    ensures Step(cfg, w, Act(i, ev)).value.calls[i] == CallStep(cfg, w.alloc, w.calls[i], ev).value.1
  {
  }

  lemma {:induction false} HomewardAll(cfg: Config, min: int, max: int, acts: seq<Action>, i: nat)
    returns (all: seq<Action>)
    requires min <= max && Run(cfg, Start(min, max), acts).Some? && i < |Run(cfg, Start(min, max), acts).value.calls|
    ensures acts <= all && Run(cfg, Start(min, max), all).Some?
    ensures i < |Run(cfg, Start(min, max), all).value.calls| && AtRest(Run(cfg, Start(min, max), all).value.calls[i])
    decreases StepsLeft(cfg, Run(cfg, Start(min, max), acts).value.calls[i]),
              TeardownLeft(Run(cfg, Start(min, max), acts).value.calls[i]),
              Left(Run(cfg, Start(min, max), acts).value.calls[i].undo)
  {
    var w := Run(cfg, Start(min, max), acts).value;
    var c := w.calls[i];
    if AtRest(c) {
      all := acts;
    } else {
      RunKeeps(cfg, min, max, acts);
      RangeInRun(cfg, min, max, acts, i);
      HomewardStep(cfg, w.alloc, c);
      ActOn(cfg, w, i, Homeward(cfg, c));
      var act := Act(i, Homeward(cfg, c));
      Then(cfg, Start(min, max), acts, w, act, Step(cfg, w, act).value);
      all := HomewardAll(cfg, min, max, acts + [act], i);
    }
  }

  /** From every world any run reaches, some continuation brings a given call to rest. */
  lemma RestReachable(cfg: Config, min: int, max: int, acts: seq<Action>, i: nat)
    requires min <= max && Run(cfg, Start(min, max), acts).Some? && i < |Run(cfg, Start(min, max), acts).value.calls|
    ensures exists all :: acts <= all && Run(cfg, Start(min, max), all).Some?
                          && i < |Run(cfg, Start(min, max), all).value.calls|
                          && AtRest(Run(cfg, Start(min, max), all).value.calls[i])
  {
    var all := HomewardAll(cfg, min, max, acts, i);
  }

  // ----- A run that loses nothing --------------------------------------------

  /** The tap is taken and stashed, and then the call is given up by its own bridge. */
  function CleanActs(): seq<Action> {
    TapTaken() + [Act(0, OfBridge(Append))] + [Act(0, OfBridge(Refuse))] + [Act(0, OfBridge(CollectPending))]
    + [Act(0, OfBridge(ReleaseOne))] + [Act(0, OfBridge(ReleaseOne))] + [Act(0, OfBridge(ReleaseOne))]
    + [Act(0, OfBridge(CallTeardown))]
  }

  function Emptying(id: string, pc: Pc): Call {
    NewCall(id, "").(pc := pc, legs := Legs([0], false, None, 0))
  }

  function Ended(id: string): Call {
    Emptying(id, Done).(state := TearingDown, undo := Undo(Deregister, [AppLeg(0)], [Committed([AppLeg(0)])]))
  }

  lemma CleanSteps(cfg: Config, a: Alloc, id: string, min: int)
    requires cfg.apps == [App(true, false)]
    ensures var (c, t) := (Emptying(id, Chain(1)).(pending := [LeakTap(min)]), LeakTap(min));
      && CallStep(cfg, a, Tapped(id, min), OfBridge(Append)) == Some((a, c))
      && CallStep(cfg, a, c, OfBridge(Refuse)) == Some((a, c.(pc := TakePending)))
      && CallStep(cfg, a, c.(pc := TakePending), OfBridge(CollectPending))
         == Some((a, Emptying(id, Free([t.caller, t.callee], ToTeardown))))
  {
    assert [] + [0] == [0];
    assert [LeakTap(min)][1..] == [];
    assert Pairs([LeakTap(min)]) == [LeakTap(min).caller, LeakTap(min).callee];
  }

  lemma CleanReleases(cfg: Config, a: Alloc, id: string, p: PortPair, q: PortPair)
    ensures var c := Emptying(id, Free([p, q], ToTeardown));
      && CallStep(cfg, a, c, OfBridge(ReleaseOne)) == Some((Give(a, p), c.(pc := Free([q], ToTeardown))))
      && CallStep(cfg, a, c.(pc := Free([q], ToTeardown)), OfBridge(ReleaseOne))
         == Some((Give(a, q), c.(pc := Free([], ToTeardown))))
      && CallStep(cfg, a, c.(pc := Free([], ToTeardown)), OfBridge(ReleaseOne)) == Some((a, c.(pc := Pc.Teardown)))
      && CallStep(cfg, a, c.(pc := Pc.Teardown), OfBridge(CallTeardown)) == Some((a, Ended(id)))
  {
    assert [p, q][1..] == [q] && [q][1..] == [];
    var c := Emptying(id, Pc.Teardown);
    assert LegsAt(c) == [AppLeg(0)];
    assert [] + [Committed([AppLeg(0)])] == [Committed([AppLeg(0)])];
  }

  /** On every range with room for a tap there is a run in which a call takes a tap's two pairs,
      comes to rest, and everything minted is free again. */
  lemma CleanRunExists(cfg: Config, min: int, max: int)
    requires cfg.apps == [App(true, false)] && min + 3 <= max
    ensures var r := Run(cfg, Start(min, max), CleanActs());
      && r.Some? && |r.value.calls| == 1 && AtRest(r.value.calls[0]) && LostTaps(r.value.calls[0]) == []
      && r.value.alloc == Alloc(min, max, min + 4, [LeakTap(min).caller, LeakTap(min).callee])
      && NoLoss(cfg, Start(min, max), CleanActs(), 0)
  {
    var w, x, t := Start(min, max), Index(map["c" := 0], map[]), LeakTap(min);
    var a := Alloc(min, max, min + 4, []);
    var c := Emptying("c", Chain(1)).(pending := [t]);
    var f := Emptying("c", Free([t.caller, t.callee], ToTeardown));
    LeakTaken(cfg, min, max);
    CleanSteps(cfg, a, "c", min);
    var s0 := TapTaken();
    ThenOne(cfg, w, s0, a, Tapped("c", min), x, OfBridge(Append), a, c);
    var s1 := s0 + [Act(0, OfBridge(Append))];
    ThenOne(cfg, w, s1, a, c, x, OfBridge(Refuse), a, c.(pc := TakePending));
    var s2 := s1 + [Act(0, OfBridge(Refuse))];
    ThenOne(cfg, w, s2, a, c.(pc := TakePending), x, OfBridge(CollectPending), a, f);
    var s3 := s2 + [Act(0, OfBridge(CollectPending))];
    CleanEnd(cfg, w, s3, a, x, "c", t);
    LostOverRun(cfg, min, max, CleanActs(), 0);
  }

  lemma CleanEnd(cfg: Config, w: World, s: seq<Action>, a: Alloc, x: Index<nat>, id: string, t: Tap)
    requires Run(cfg, w, s) == Some(World(a, [Emptying(id, Free([t.caller, t.callee], ToTeardown))], x)) && a.free == []
    ensures Run(cfg, w, s
                + [Act(0, OfBridge(ReleaseOne))] + [Act(0, OfBridge(ReleaseOne))] + [Act(0, OfBridge(ReleaseOne))]
                        + [Act(0, OfBridge(CallTeardown))])
         == Some(World(a.(free := [t.caller, t.callee]), [Ended(id)], x))
  {
    var p, q := t.caller, t.callee;
    var f, r := Emptying(id, Free([p, q], ToTeardown)), [Act(0, OfBridge(ReleaseOne))];
    var b, d := Give(a, p), Give(Give(a, p), q);
    CleanReleases(cfg, a, id, p, q);
    CleanReleases(cfg, b, id, p, q);
    CleanReleases(cfg, d, id, p, q);
    ThenOne(cfg, w, s, a, f, x, OfBridge(ReleaseOne), b, f.(pc := Free([q], ToTeardown)));
    ThenOne(cfg, w, s + r, b, f.(pc := Free([q], ToTeardown)), x, OfBridge(ReleaseOne), d,
            f.(pc := Free([], ToTeardown)));
    ThenOne(cfg, w, s + r + r, d, f.(pc := Free([], ToTeardown)), x, OfBridge(ReleaseOne), d, f.(pc := Pc.Teardown));
    ThenOne(cfg, w, s + r + r + r, d, f.(pc := Pc.Teardown), x, OfBridge(CallTeardown), d, Ended(id));
    assert [] + [p] + [q] == [p, q];
  }
}
