/** Teardown is exactly once: of any number of concurrent attempts one passes the guard, and
    only that one runs the release hook, deregisters the call and says BYE. */
module Teardown {
  import opened Lifecycle
  import opened Ports
  import opened Runs
  import opened Wrappers

  // ----- What the winner does ------------------------------------------------

  function ByesTo(legs: seq<Leg>): (es: seq<Event>)
    ensures |es| == |legs| && forall k | 0 <= k < |legs| :: es[k] == Bye(legs[k])
  {
    if legs == [] then [] else ByesTo(legs[..|legs| - 1]) + [Bye(legs[|legs| - 1])]
  }

  /** The whole of teardown's effects: the commitment, the release hook if one was registered,
      the deregistration, one BYE a recorded leg. */
  function Effects(legs: seq<Leg>, hooked: bool): seq<Event> {
    [Committed(legs)] + (if hooked then [HookRun] else []) + [Deregistered] + ByesTo(legs)
  }

  /** Their order: the commitment first, the hook before the deregistration, and every BYE behind it,
      one for each leg in the order the legs were recorded. */
  lemma EffectsInTurn(legs: seq<Leg>, hooked: bool)
    ensures var (es, d) := (Effects(legs, hooked), if hooked then 2 else 1);
      && |es| == d + 1 + |legs| && es[0] == Committed(legs) && (hooked ==> es[1] == HookRun) && es[d] == Deregistered
      && forall k | 0 <= k < |legs| :: es[d + 1 + k] == Bye(legs[k])
  {
  }

  /** How many of the effects have happened. */
  function Progress(c: Call): nat {
    var hook := if c.hook.Some? then 1 else 0;
    match c.undo.winner
    case NoWinner => 0
    case Closing(_) => 2
    case Snapshot => 2
    case ClosingTaps(_) => 2
    case Deregister => 1 + hook
    case Byes(n) => 2 + hook + n
    case Finished => 2 + hook + |c.undo.byes|
  }

  ghost predicate LogInv(c: Call) {
    && (c.undo.winner == NoWinner <==> c.state != TearingDown)
    && (c.undo.winner.Closing? || c.undo.winner.Snapshot? || c.undo.winner.ClosingTaps? ==> c.hook.Some?)
    && (c.undo.winner.Byes? ==> c.undo.winner.n <= |c.undo.byes|)
    && Progress(c) <= |Effects(c.undo.byes, c.hook.Some?)|
    && c.undo.log == Effects(c.undo.byes, c.hook.Some?)[..Progress(c)]
  }

  lemma LogNew(id: string, dialog: string)
    ensures LogInv(NewCall(id, dialog))
  {
  }

  /** A step that leaves the winner, its hook and the state alone keeps the trace right. */
  lemma LogKept(c: Call, d: Call)
    requires LogInv(c) && d.undo == c.undo && (d.state == TearingDown <==> c.state == TearingDown)
    requires d.hook == c.hook || c.undo.winner == NoWinner
    ensures LogInv(d)
  {
  }

  lemma LogCommit(c: Call)
    requires LogInv(c)
    ensures LogInv(Commit(c))
  {
    if c.state != TearingDown {
      var u := Passed(c);
      assert c.undo.log == [];
      assert u.log == Effects(u.byes, c.hook.Some?)[..|u.log|];
    }
  }

  lemma OneMore(es: seq<Event>, n: nat)
    requires n < |es|
    ensures es[..n] + [es[n]] == es[..n + 1]
  {
  }

  lemma LogWinner(a: Alloc, c: Call)
    requires LogInv(c) && WinnerStep(a, c).Some?
    ensures LogInv(WinnerStep(a, c).value.1)
  {
    var d := WinnerStep(a, c).value.1;
    if Progress(d) == Progress(c) + 1 {
      OneMore(Effects(c.undo.byes, c.hook.Some?), Progress(c));
    }
  }

  /** What a quiet step of the bridge can do to the winner's business. */
  lemma QuietApart(cfg: Config, c: Call, ev: BridgeEvent)
    requires Quiet(cfg, c, ev).Some? && !ev.CallTeardown?
    ensures var d := Quiet(cfg, c, ev).value;
      && d.undo == c.undo && (d.state == TearingDown <==> c.state == TearingDown)
      && (d.hook == c.hook || c.state != TearingDown)
  {
  }

  lemma AllocApart(cfg: Config, a: Alloc, c: Call, ev: BridgeEvent)
    requires UsesAlloc(ev) && AllocStep(cfg, a, c, ev).Some?
    ensures var d := AllocStep(cfg, a, c, ev).value.1;
      d.undo == c.undo && d.state == c.state && d.hook == c.hook && d.legs == c.legs
  {
  }

  lemma AsideApart(cfg: Config, c: Call, ev: OtherEvent)
    requires Aside(cfg, c, ev).Some? && !ev.ForeignTeardown?
    ensures var d := Aside(cfg, c, ev).value; d.undo == c.undo && d.state == c.state && d.hook == c.hook
  {
  }

  lemma LogStep(cfg: Config, a: Alloc, c: Call, ev: CallEvent)
    requires LogInv(c) && CallStep(cfg, a, c, ev).Some?
    ensures LogInv(CallStep(cfg, a, c, ev).value.1)
  {
    var d := CallStep(cfg, a, c, ev).value.1;
    if ev == OfBridge(CallTeardown) || ev == OfOther(ForeignTeardown) {
      LogCommit(c);
      LogKept(Commit(c), d);
    } else {
      match ev
      case OfBridge(b) =>
        if UsesAlloc(b) { AllocApart(cfg, a, c, b); } else { QuietApart(cfg, c, b); }
        LogKept(c, d);
      case OfOther(o) =>
        if o.WinnerMoves? { LogWinner(a, c); } else { AsideApart(cfg, c, o); LogKept(c, d); }
    }
  }

  // ----- Each leg once -------------------------------------------------------

  /** The chain position the call's application legs are below. */
  function Below(pc: Pc): Option<nat> {
    match pc
    case Chain(i) => Some(i)
    case TapCallee(i, _) => Some(i)
    case TapHeld(i, _, _) => Some(i)
    case AppendLeg(i) => Some(i)
    case Free(_, ToChain(i)) => Some(i)
    case Free(_, ToAppend(i)) => Some(i)
    case _ => None
  }

  ghost predicate LegsInv(c: Call) {
    && (forall j, k | 0 <= j < k < |c.legs.apps| :: c.legs.apps[j] < c.legs.apps[k])
    && (Below(c.pc).Some? ==> forall k | 0 <= k < |c.legs.apps| :: c.legs.apps[k] < Below(c.pc).value)
  }

  lemma LegsKept(c: Call, d: Call)
    requires LegsInv(c) && d.legs.apps == c.legs.apps
    requires Below(d.pc).Some? ==> Below(c.pc).Some? && Below(c.pc).value <= Below(d.pc).value
    ensures LegsInv(d)
  {
  }

  lemma LegsQuiet(cfg: Config, c: Call, ev: BridgeEvent)
    requires LegsInv(c) && Quiet(cfg, c, ev).Some?
    ensures LegsInv(Quiet(cfg, c, ev).value)
  {
    if !ev.Append? {
      BelowQuiet(cfg, c, ev);
      LegsKept(c, Quiet(cfg, c, ev).value);
    }
  }

  lemma BelowQuiet(cfg: Config, c: Call, ev: BridgeEvent)
    requires Quiet(cfg, c, ev).Some? && !ev.Append?
    ensures var d := Quiet(cfg, c, ev).value;
      && d.legs.apps == c.legs.apps
      && (Below(d.pc).Some? ==> Below(c.pc).Some? && Below(c.pc).value <= Below(d.pc).value)
  {
  }

  lemma LegsAlloc(cfg: Config, a: Alloc, c: Call, ev: BridgeEvent)
    requires LegsInv(c) && UsesAlloc(ev) && AllocStep(cfg, a, c, ev).Some?
    ensures LegsInv(AllocStep(cfg, a, c, ev).value.1)
  {
    LegsKept(c, AllocStep(cfg, a, c, ev).value.1);
  }

  lemma LegsOther(cfg: Config, a: Alloc, c: Call, ev: OtherEvent)
    requires LegsInv(c) && Other(cfg, a, c, ev).Some?
    ensures LegsInv(Other(cfg, a, c, ev).value.1)
  {
    LegsKept(c, Other(cfg, a, c, ev).value.1);
  }

  lemma LegsStep(cfg: Config, a: Alloc, c: Call, ev: CallEvent)
    requires LegsInv(c) && CallStep(cfg, a, c, ev).Some?
    ensures LegsInv(CallStep(cfg, a, c, ev).value.1)
  {
    match ev
    case OfBridge(b) => if UsesAlloc(b) { LegsAlloc(cfg, a, c, b); } else { LegsQuiet(cfg, c, b); }
    case OfOther(o) => LegsOther(cfg, a, c, o);
  }

  ghost predicate NoRepeats<T(!new)>(s: seq<T>) {
    forall j, k | 0 <= j < k < |s| :: s[j] != s[k]
  }

  function AppLegs(apps: seq<nat>): (ls: seq<Leg>)
    ensures |ls| == |apps| && forall k | 0 <= k < |apps| :: ls[k] == AppLeg(apps[k])
  {
    seq(|apps|, i requires 0 <= i < |apps| => AppLeg(apps[i]))
  }

  lemma LegsAtParts(c: Call)
    ensures LegsAt(c) == (if c.state == Established then [Inbound] else []) + AppLegs(c.legs.apps)
                         + (if c.legs.pbx then [Pbx] else [])
                         + (if c.legs.target.Some? then [Target(c.legs.target.value)] else [])
  {
    assert AppLegs(c.legs.apps)
        == seq(|c.legs.apps|, i requires 0 <= i < |c.legs.apps| => AppLeg(c.legs.apps[i]));
  }

  lemma ConcatDistinct(a: seq<Leg>, b: seq<Leg>)
    requires NoRepeats(a) && NoRepeats(b) && forall j, k | 0 <= j < |a| && 0 <= k < |b| :: a[j] != b[k]
    ensures NoRepeats(a + b)
  {
  }

  lemma LegsAtDistinct(c: Call)
    requires LegsInv(c)
    ensures NoRepeats(LegsAt(c))
  {
    var inbound := if c.state == Established then [Inbound] else [];
    var apps := AppLegs(c.legs.apps);
    var pbx := if c.legs.pbx then [Pbx] else [];
    var target := if c.legs.target.Some? then [Target(c.legs.target.value)] else [];
    LegsAtParts(c);
    ConcatDistinct(inbound, apps);
    ConcatDistinct(inbound + apps, pbx);
    ConcatDistinct(inbound + apps + pbx, target);
  }

  /** The legs recorded at a commitment are those the call has then, the inbound one only once
      it is established. */
  lemma LegsAtAre(c: Call, l: Leg)
    ensures l in LegsAt(c) <==>
              match l
              case Inbound => c.state == Established
              case AppLeg(i) => i in c.legs.apps
              case Pbx => c.legs.pbx
              case Target(n) => c.legs.target == Some(n)
  {
    LegsAtParts(c);
    if l.AppLeg? && l.i in c.legs.apps {
      var k :| 0 <= k < |c.legs.apps| && c.legs.apps[k] == l.i;
      assert AppLegs(c.legs.apps)[k] == l;
    }
  }

  lemma EffectsDistinct(legs: seq<Leg>, hooked: bool)
    requires NoRepeats(legs)
    ensures NoRepeats(Effects(legs, hooked))
  {
  }

  // ----- Over a whole run ----------------------------------------------------

  /** A teardown attempt that gets past the guard. */
  predicate Passes(c: Call, ev: CallEvent) {
    (ev == OfBridge(CallTeardown) || ev == OfOther(ForeignTeardown)) && c.state != TearingDown
  }

  /** Call i as it was each time a teardown attempt got past the guard, in order. */
  ghost function Committing(cfg: Config, w: World, acts: seq<Action>, i: nat): seq<Call>
    decreases |acts|
  {
    if acts == [] then []
    else
      var init, act := acts[..|acts| - 1], acts[|acts| - 1];
      Committing(cfg, w, init, i) +
      (if act.Act? && act.i == i && Run(cfg, w, init).Some? && i < |Run(cfg, w, init).value.calls|
          && Passes(Run(cfg, w, init).value.calls[i], act.ev)
       then [Run(cfg, w, init).value.calls[i]] else [])
  }

  /** The passes so far against the call as it is: none and the call is up, or one, and it
      recorded the legs and the hook of that moment. */
  ghost predicate PassedOnce(passes: seq<Call>, c: Call) {
    if c.state == TearingDown then
      |passes| == 1 && LegsInv(passes[0]) && c.undo.byes == LegsAt(passes[0]) && c.hook.Some? == passes[0].hook.Some?
    else passes == []
  }

  lemma PassQuiet(cfg: Config, c: Call, ev: BridgeEvent, passes: seq<Call>)
    requires LogInv(c) && PassedOnce(passes, c) && Quiet(cfg, c, ev).Some? && !ev.CallTeardown?
    ensures PassedOnce(passes, Quiet(cfg, c, ev).value)
  {
    QuietApart(cfg, c, ev);
  }

  lemma PassCommit(c: Call, passes: seq<Call>)
    requires LegsInv(c) && PassedOnce(passes, c)
    ensures PassedOnce(passes + (if c.state != TearingDown then [c] else []), Commit(c))
  {
  }

  lemma PassWinner(a: Alloc, c: Call, passes: seq<Call>)
    requires PassedOnce(passes, c) && WinnerStep(a, c).Some?
    ensures PassedOnce(passes, WinnerStep(a, c).value.1)
  {
  }

  lemma PassBridge(cfg: Config, a: Alloc, c: Call, ev: BridgeEvent, passes: seq<Call>)
    requires LogInv(c) && LegsInv(c) && PassedOnce(passes, c) && Bridge(cfg, a, c, ev).Some?
    ensures PassedOnce(passes + (if Passes(c, OfBridge(ev)) then [c] else []), Bridge(cfg, a, c, ev).value.1)
  {
    assert passes + [] == passes;
    if UsesAlloc(ev) {
      AllocApart(cfg, a, c, ev);
    } else if ev.CallTeardown? {
      PassCommit(c, passes);
    } else {
      PassQuiet(cfg, c, ev, passes);
    }
  }

  lemma PassOther(cfg: Config, a: Alloc, c: Call, ev: OtherEvent, passes: seq<Call>)
    requires LogInv(c) && LegsInv(c) && PassedOnce(passes, c) && Other(cfg, a, c, ev).Some?
    ensures PassedOnce(passes + (if Passes(c, OfOther(ev)) then [c] else []), Other(cfg, a, c, ev).value.1)
  {
    assert passes + [] == passes;
    if ev.WinnerMoves? {
      PassWinner(a, c, passes);
    } else if ev.ForeignTeardown? {
      PassCommit(c, passes);
    } else {
      AsideApart(cfg, c, ev);
    }
  }

  lemma PassStep(cfg: Config, a: Alloc, c: Call, ev: CallEvent, passes: seq<Call>)
    requires LogInv(c) && LegsInv(c) && PassedOnce(passes, c) && CallStep(cfg, a, c, ev).Some?
    ensures PassedOnce(passes + (if Passes(c, ev) then [c] else []), CallStep(cfg, a, c, ev).value.1)
  {
    match ev
    case OfBridge(b) => PassBridge(cfg, a, c, b, passes);
    case OfOther(o) => PassOther(cfg, a, c, o, passes);
  }

  ghost predicate TearInv(c: Call) {
    LogInv(c) && LegsInv(c)
  }

  lemma TearHolds(cfg: Config, min: int, max: int, acts: seq<Action>, i: nat)
    requires Run(cfg, Start(min, max), acts).Some? && i < |Run(cfg, Start(min, max), acts).value.calls|
    ensures TearInv(Run(cfg, Start(min, max), acts).value.calls[i])
  {
    var inv := (c: Call) => TearInv(c);
    forall a, c, ev | inv(c) && CallStep(cfg, a, c, ev).Some? ensures inv(CallStep(cfg, a, c, ev).value.1) {
      LogStep(cfg, a, c, ev);
      LegsStep(cfg, a, c, ev);
    }
    forall id, dialog ensures inv(NewCall(id, dialog)) {
      LogNew(id, dialog);
    }
    Invariant(cfg, min, max, acts, i, inv);
  }

  lemma NoPassYet(cfg: Config, w: World, acts: seq<Action>, i: nat)
    requires Run(cfg, w, acts).Some? && |Run(cfg, w, acts).value.calls| <= i
    ensures Committing(cfg, w, acts, i) == []
    decreases |acts|
  {
    if acts != [] {
      var init := acts[..|acts| - 1];
      CallsStay(cfg, Run(cfg, w, init).value, acts[|acts| - 1]);
      NoPassYet(cfg, w, init, i);
    }
  }

  lemma {:induction false} PassesOnce(cfg: Config, min: int, max: int, acts: seq<Action>, i: nat)
    requires Run(cfg, Start(min, max), acts).Some? && i < |Run(cfg, Start(min, max), acts).value.calls|
    ensures PassedOnce(Committing(cfg, Start(min, max), acts, i), Run(cfg, Start(min, max), acts).value.calls[i])
    decreases |acts|
  {
    if acts != [] {
      var n := |acts| - 1;
      var w := Run(cfg, Start(min, max), acts[..n]).value;
      ActionOn(cfg, w, acts[n], i);
      if i < |w.calls| {
        PassesOnce(cfg, min, max, acts[..n], i);
        TearHolds(cfg, min, max, acts[..n], i);
        if acts[n].Act? && acts[n].i == i {
          PassStep(cfg, w.alloc, w.calls[i], acts[n].ev, Committing(cfg, Start(min, max), acts[..n], i));
        }
      } else {
        NoPassYet(cfg, Start(min, max), acts[..n], i);
      }
    }
  }

  /** Exactly once, for every interleaving. A call that is up has had no attempt past the
      guard; one that is tearing down has had exactly one, and what has been done to it is an
      initial part of: commit, run the hook if media was registered then, deregister, BYE once
      each leg recorded then. No effect is repeated, and the inbound leg is among those legs
      just when the call was established. */
  ghost predicate TornDownOnce(passes: seq<Call>, c: Call) {
    if c.state != TearingDown then passes == [] && c.undo.log == []
    else
      && |passes| == 1
      && c.undo.log <= Effects(LegsAt(passes[0]), passes[0].hook.Some?)
      && (c.undo.winner.Finished? ==> c.undo.log == Effects(LegsAt(passes[0]), passes[0].hook.Some?))
      && NoRepeats(c.undo.log)
      && (Bye(Inbound) in c.undo.log ==> passes[0].state == Established)
  }

  lemma PrefixDistinct(es: seq<Event>, n: nat)
    requires NoRepeats(es) && n <= |es|
    ensures NoRepeats(es[..n])
  {
  }

  lemma ByeRecorded(legs: seq<Leg>, hooked: bool, leg: Leg)
    requires Bye(leg) in Effects(legs, hooked)
    ensures leg in legs
  {
    assert Bye(leg) in ByesTo(legs);
  }

  lemma OnceFrom(passes: seq<Call>, c: Call)
    requires LogInv(c) && PassedOnce(passes, c)
    ensures TornDownOnce(passes, c)
  {
    if c.state == TearingDown {
      var es := Effects(c.undo.byes, c.hook.Some?);
      LegsAtDistinct(passes[0]);
      LegsAtAre(passes[0], Inbound);
      EffectsDistinct(c.undo.byes, c.hook.Some?);
      PrefixDistinct(es, Progress(c));
      if Bye(Inbound) in c.undo.log {
        assert Bye(Inbound) in es;
        ByeRecorded(c.undo.byes, c.hook.Some?, Inbound);
      }
    }
  }

  lemma TeardownOnce(cfg: Config, min: int, max: int, acts: seq<Action>, i: nat)
    requires Run(cfg, Start(min, max), acts).Some? && i < |Run(cfg, Start(min, max), acts).value.calls|
    ensures TornDownOnce(Committing(cfg, Start(min, max), acts, i), Run(cfg, Start(min, max), acts).value.calls[i])
  {
    PassesOnce(cfg, min, max, acts, i);
    TearHolds(cfg, min, max, acts, i);
    OnceFrom(Committing(cfg, Start(min, max), acts, i), Run(cfg, Start(min, max), acts).value.calls[i]);
  }

  /** The state never leaves TearingDown. */
  lemma {:induction false} StaysDown(cfg: Config, w: World, more: seq<Action>, i: nat)
    requires i < |w.calls| && w.calls[i].state == TearingDown && Run(cfg, w, more).Some?
    ensures i < |Run(cfg, w, more).value.calls| && Run(cfg, w, more).value.calls[i].state == TearingDown
    decreases |more|
  {
    if more != [] {
      var n := |more| - 1;
      StaysDown(cfg, w, more[..n], i);
      var v := Run(cfg, w, more[..n]).value;
      CallsStay(cfg, v, more[n]);
      ActionOn(cfg, v, more[n], i);
      if more[n].Act? && more[n].i == i {
        DownStep(cfg, v.alloc, v.calls[i], more[n].ev);
      }
    }
  }

  lemma DownStep(cfg: Config, a: Alloc, c: Call, ev: CallEvent)
    requires c.state == TearingDown && CallStep(cfg, a, c, ev).Some?
    ensures CallStep(cfg, a, c, ev).value.1.state == TearingDown
  {
    match ev
    case OfBridge(b) =>
      if UsesAlloc(b) { AllocApart(cfg, a, c, b); } else if !b.CallTeardown? { QuietApart(cfg, c, b); }
    case OfOther(o) =>
      if !o.WinnerMoves? && !o.ForeignTeardown? { AsideApart(cfg, c, o); }
  }
}
