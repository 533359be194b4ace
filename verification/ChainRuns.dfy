/** The application loop is a run of the step machine's bridge: each turn of the loop, and
    what follows a cut chain, is a sequence of its steps. */
module ChainRuns {
  import opened AppChain
  import opened CallObject
  import opened ChainLaws
  import opened Lifecycle
  import opened Ownership
  import opened Ports
  import opened Routing
  import opened Sdp
  import opened Text
  import opened Wrappers

  /** The bridge's steps, in order, with no other goroutine between them. */
  ghost function BridgeRun(cfg: Config, a: Alloc, c: Call, evs: seq<BridgeEvent>): Option<(Alloc, Call)>
    decreases |evs|
  {
    if evs == [] then Some((a, c))
    else match BridgeRun(cfg, a, c, evs[..|evs| - 1])
      case None => None
      case Some((b, d)) => Bridge(cfg, b, d, evs[|evs| - 1])
  }

  ghost predicate Reaches(cfg: Config, a: Alloc, c: Call, b: Alloc, d: Call) {
    exists evs :: BridgeRun(cfg, a, c, evs) == Some((b, d))
  }

  lemma Here(cfg: Config, a: Alloc, c: Call)
    ensures Reaches(cfg, a, c, a, c)
  {
    assert BridgeRun(cfg, a, c, []) == Some((a, c));
  }

  lemma Go(cfg: Config, a0: Alloc, c0: Call, a: Alloc, c: Call, ev: BridgeEvent, b: Alloc, d: Call)
    requires Reaches(cfg, a0, c0, a, c) && Bridge(cfg, a, c, ev) == Some((b, d))
    ensures Reaches(cfg, a0, c0, b, d)
  {
    var evs :| BridgeRun(cfg, a0, c0, evs) == Some((a, c));
    assert (evs + [ev])[..|evs|] == evs;
    assert BridgeRun(cfg, a0, c0, evs + [ev]) == Some((b, d));
  }

  lemma FreeStep(cfg: Config, a: Alloc, c: Call, todo: seq<PortPair>, next: After)
    requires c.pc == Free(todo, next)
    ensures Bridge(cfg, a, c, ReleaseOne)
         == Some(if todo == [] then (a, c.(pc := Goto(next))) else (Give(a, todo[0]), c.(pc := Free(todo[1..], next))))
  {
  }

  lemma GiveOn(a: Alloc, todo: seq<PortPair>)
    ensures todo == [] ==> GiveAll(a, todo) == a
    ensures todo != [] ==> GiveAll(Give(a, todo[0]), todo[1..]) == GiveAll(a, todo)
  {
    if todo == [] {
      assert a.free + [] == a.free;
    } else {
      assert (a.free + [todo[0]]) + todo[1..] == a.free + todo;
    }
  }

  /** The bridge gives pairs back one by one and goes on. */
  lemma {:induction false} GoFree(cfg: Config, a0: Alloc, c0: Call, a: Alloc, c: Call, todo: seq<PortPair>, next: After)
    requires Reaches(cfg, a0, c0, a, c) && c.pc == Free(todo, next)
    ensures Reaches(cfg, a0, c0, GiveAll(a, todo), c.(pc := Goto(next)))
    decreases |todo|
  {
    FreeStep(cfg, a, c, todo, next);
    GiveOn(a, todo);
    if todo == [] {
      Go(cfg, a0, c0, a, c, ReleaseOne, a, c.(pc := Goto(next)));
    } else {
      var b, d := Give(a, todo[0]), c.(pc := Free(todo[1..], next));
      Go(cfg, a0, c0, a, c, ReleaseOne, b, d);
      GoFree(cfg, a0, c0, b, d, todo[1..], next);
      assert d.(pc := Goto(next)) == c.(pc := Goto(next));
    }
  }

  /** The machine's configuration has the loop's applications. */
  ghost predicate Configured(cfg: Config, s: Setup) {
    && |cfg.apps| == |s.apps| == |s.nets|
    && forall i | 0 <= i < |s.apps| :: cfg.apps[i] == App(s.apps[i].tap, s.apps[i].abort)
  }

  /** The call at application i with the chain's stash and legs. */
  function At(c: Call, pc: Pc, st: Chained): Call {
    AfterChain(c, st).(pc := pc)
  }

  function Onward(i: nat, v: Verdict): Pc {
    if v.Next? then Chain(i + 1) else TakePending
  }

  /** After a failed leg whose pairs are back. */
  function Onto(i: nat, abort: bool): After {
    if abort then ToPending else ToChain(i + 1)
  }

  lemma GiveTwo(a: Alloc, t: Tap)
    ensures GiveAll(a, [t.caller, t.callee]) == GiveTap(a, t)
  {
  }

  /** From application i, ready to invite (with its tap in hand if it has one), to its end. */
  lemma DialReaches(cfg: Config, s: Setup, i: nat, c: Call, a0: Alloc, c0: Call, st: Chained, tap: Option<Tap>,
                    body: string)
    requires Configured(cfg, s) && i < |s.apps| && tap.Some? == s.apps[i].tap
    requires var pc := if tap.Some? then TapHeld(i, tap.value.caller, tap.value.callee) else Chain(i);
      Reaches(cfg, a0, c0, st.alloc, At(c, pc, st))
    ensures var (st1, v) := DialStep(s.apps[i], s.nets[i], i, st, tap, body);
      Reaches(cfg, a0, c0, st1.alloc, At(c, Onward(i, v), st1))
  {
    match s.nets[i].leg
    case LegAnswered(answer) => AnsweredReaches(cfg, s, i, c, a0, c0, st, tap, body, answer);
    case _ => FailedReaches(cfg, s, i, c, a0, c0, st, tap, body);
  }

  lemma FailedReaches(cfg: Config, s: Setup, i: nat, c: Call, a0: Alloc, c0: Call, st: Chained, tap: Option<Tap>,
                      body: string)
    requires Configured(cfg, s) && i < |s.apps| && tap.Some? == s.apps[i].tap && !s.nets[i].leg.LegAnswered?
    requires var pc := if tap.Some? then TapHeld(i, tap.value.caller, tap.value.callee) else Chain(i);
      Reaches(cfg, a0, c0, st.alloc, At(c, pc, st))
    ensures var (st1, v) := DialStep(s.apps[i], s.nets[i], i, st, tap, body);
      Reaches(cfg, a0, c0, st1.alloc, At(c, Onward(i, v), st1))
  {
    var (st1, v) := DialStep(s.apps[i], s.nets[i], i, st, tap, body);
    assert cfg.apps[i] == App(s.apps[i].tap, s.apps[i].abort);
    var onto := Onto(i, s.apps[i].abort);
    if tap.Some? {
      var held := At(c, TapHeld(i, tap.value.caller, tap.value.callee), st);
      var d := At(c, Free([tap.value.caller, tap.value.callee], onto), st);
      Go(cfg, a0, c0, st.alloc, held, InviteFailed, st.alloc, d);
      GoFree(cfg, a0, c0, st.alloc, d, [tap.value.caller, tap.value.callee], onto);
      GiveTwo(st.alloc, tap.value);
      assert d.(pc := Goto(onto)) == At(c, Onward(i, v), st1);
    } else {
      Go(cfg, a0, c0, st.alloc, At(c, Chain(i), st), InviteFailed, st.alloc, At(c, Goto(onto), st));
      assert At(c, Goto(onto), st) == At(c, Onward(i, v), st1);
    }
  }

  lemma AnsweredReaches(cfg: Config, s: Setup, i: nat, c: Call, a0: Alloc, c0: Call, st: Chained, tap: Option<Tap>,
                        body: string, answer: string)
    requires Configured(cfg, s) && i < |s.apps| && tap.Some? == s.apps[i].tap && s.nets[i].leg == LegAnswered(answer)
    requires var pc := if tap.Some? then TapHeld(i, tap.value.caller, tap.value.callee) else Chain(i);
      Reaches(cfg, a0, c0, st.alloc, At(c, pc, st))
    ensures var (st1, v) := DialStep(s.apps[i], s.nets[i], i, st, tap, body);
      Reaches(cfg, a0, c0, st1.alloc, At(c, Onward(i, v), st1))
  {
    assert cfg.apps[i] == App(s.apps[i].tap, s.apps[i].abort);
    var st1 := DialStep(s.apps[i], s.nets[i], i, st, tap, body).0;
    if tap.None? {
      Go(cfg, a0, c0, st.alloc, At(c, Chain(i), st), Accepted, st.alloc, At(c, AppendLeg(i), st));
      Appended(cfg, i, c, a0, c0, st, answer);
      assert At(c, Chain(i + 1), st1) == At(c, Chain(i + 1), st.(legs := st.legs + [OutboundLeg(i, answer)]));
    } else {
      var t := tap.value;
      var held := At(c, TapHeld(i, t.caller, t.callee), st);
      if TapAnswer(Lines(answer)).Ok? {
        var kept := st.(pending := st.pending + [t]);
        Go(cfg, a0, c0, st.alloc, held, Accepted, st.alloc, At(c, AppendLeg(i), kept));
        Appended(cfg, i, c, a0, c0, kept, answer);
        assert At(c, Chain(i + 1), st1) == At(c, Chain(i + 1), kept.(legs := kept.legs + [OutboundLeg(i, answer)]));
      } else {
        var d := At(c, Free([t.caller, t.callee], ToAppend(i)), st);
        Go(cfg, a0, c0, st.alloc, held, BadTapAnswer, st.alloc, d);
        GoFree(cfg, a0, c0, st.alloc, d, [t.caller, t.callee], ToAppend(i));
        GiveTwo(st.alloc, t);
        Appended(cfg, i, c, a0, c0, st.(alloc := GiveTap(st.alloc, t)), answer);
        assert At(c, Chain(i + 1), st1) == At(c, Chain(i + 1), st.(legs := st.legs + [OutboundLeg(i, answer)]));
      }
    }
  }

  lemma Appended(cfg: Config, i: nat, c: Call, a0: Alloc, c0: Call, st: Chained, answer: string)
    requires Reaches(cfg, a0, c0, st.alloc, At(c, AppendLeg(i), st))
    ensures Reaches(cfg, a0, c0, st.alloc, At(c, Chain(i + 1), st.(legs := st.legs + [OutboundLeg(i, answer)])))
  {
    assert Apps(st.legs + [OutboundLeg(i, answer)]) == Apps(st.legs) + [i];
    Go(cfg, a0, c0, st.alloc, At(c, AppendLeg(i), st), Append,
       st.alloc, At(c, Chain(i + 1), st.(legs := st.legs + [OutboundLeg(i, answer)])));
  }

  /** Acquiring the tap: it is in hand, or everything is back and the policy decides. */
  lemma TapReaches(cfg: Config, s: Setup, i: nat, c: Call, a0: Alloc, c0: Call, st: Chained)
    requires Configured(cfg, s) && i < |s.apps| && s.apps[i].tap
    requires Reaches(cfg, a0, c0, st.alloc, At(c, Chain(i), st))
    ensures var (b, r) := TryTap(st.alloc, s.nets[i]);
      if r.Ok? then Reaches(cfg, a0, c0, b, At(c, TapHeld(i, r.value.caller, r.value.callee), st))
      else Reaches(cfg, a0, c0, b, At(c, Goto(Onto(i, s.apps[i].abort)), st))
  {
    assert cfg.apps[i] == App(s.apps[i].tap, s.apps[i].abort);
    var onto := Onto(i, s.apps[i].abort);
    var (a1, p) := Take(st.alloc);
    if p.None? {
      Go(cfg, a0, c0, st.alloc, At(c, Chain(i), st), Grab, a1, At(c, Goto(onto), st));
      assert a1 == st.alloc;
    } else {
      Go(cfg, a0, c0, st.alloc, At(c, Chain(i), st), Grab, a1, At(c, TapCallee(i, p.value), st));
      var (a2, q) := Take(a1);
      if q.None? {
        var d := At(c, Free([p.value], onto), st);
        Go(cfg, a0, c0, a1, At(c, TapCallee(i, p.value), st), Grab, a2, d);
        GoFree(cfg, a0, c0, a2, d, [p.value], onto);
      } else {
        var held := At(c, TapHeld(i, p.value, q.value), st);
        Go(cfg, a0, c0, a1, At(c, TapCallee(i, p.value), st), Grab, a2, held);
        if !s.nets[i].callerBinds || !s.nets[i].calleeBinds {
          var d := At(c, Free([p.value, q.value], onto), st);
          Go(cfg, a0, c0, a2, held, BindFail, a2, d);
          GoFree(cfg, a0, c0, a2, d, [p.value, q.value], onto);
          GiveTwo(a2, Tap(p.value, q.value));
        }
      }
    }
  }

  lemma AppReaches(cfg: Config, s: Setup, i: nat, c: Call, a0: Alloc, c0: Call, st: Chained)
    requires Configured(cfg, s) && i < |s.apps|
    requires Reaches(cfg, a0, c0, st.alloc, At(c, Chain(i), st))
    ensures var (st1, v) := AppStep(s, i, st);
      Reaches(cfg, a0, c0, st1.alloc, At(c, Onward(i, v), st1))
  {
    var app, net := s.apps[i], s.nets[i];
    var here := At(c, Chain(i), st);
    if !Matches(app.rule, s.input) {
      Go(cfg, a0, c0, st.alloc, here, Skip, st.alloc, At(c, Chain(i + 1), st));
    } else if !app.uriOk {
      Go(cfg, a0, c0, st.alloc, here, Refuse, st.alloc, At(c, TakePending, st));
    } else if app.tap {
      TappedReaches(cfg, s, i, c, a0, c0, st);
    } else {
      var body := Body(s, app, None);
      if body.Err? {
        Go(cfg, a0, c0, st.alloc, here, Refuse, st.alloc, At(c, TakePending, st));
      } else {
        DialReaches(cfg, s, i, c, a0, c0, st, None, body.value);
      }
    }
  }

  /** The offer cannot be built: the tap goes back and the call is given up. */
  lemma UnbuiltReaches(cfg: Config, i: nat, c: Call, a0: Alloc, c0: Call, st: Chained, b: Alloc, t: Tap)
    requires Reaches(cfg, a0, c0, b, At(c, TapHeld(i, t.caller, t.callee), st))
    ensures Reaches(cfg, a0, c0, GiveTap(b, t), At(c, TakePending, st))
  {
    var d := At(c, Free([t.caller, t.callee], ToPending), st);
    Go(cfg, a0, c0, b, At(c, TapHeld(i, t.caller, t.callee), st), Refuse, b, d);
    GoFree(cfg, a0, c0, b, d, [t.caller, t.callee], ToPending);
    GiveTwo(b, t);
  }

  lemma TappedReaches(cfg: Config, s: Setup, i: nat, c: Call, a0: Alloc, c0: Call, st: Chained)
    requires Configured(cfg, s) && i < |s.apps|
    requires Matches(s.apps[i].rule, s.input) && s.apps[i].uriOk && s.apps[i].tap
    requires Reaches(cfg, a0, c0, st.alloc, At(c, Chain(i), st))
    ensures var (st1, v) := AppStep(s, i, st);
      Reaches(cfg, a0, c0, st1.alloc, At(c, Onward(i, v), st1))
  {
    TapReaches(cfg, s, i, c, a0, c0, st);
    var (b, r) := TryTap(st.alloc, s.nets[i]);
    if r.Ok? {
      var t, st2 := r.value, st.(alloc := b);
      var body := Body(s, s.apps[i], Some(t));
      assert At(c, TapHeld(i, t.caller, t.callee), st2) == At(c, TapHeld(i, t.caller, t.callee), st);
      if body.Ok? {
        DialReaches(cfg, s, i, c, a0, c0, st2, Some(t), body.value);
        assert AppStep(s, i, st) == DialStep(s.apps[i], s.nets[i], i, st2, Some(t), body.value);
      } else {
        UnbuiltReaches(cfg, i, c, a0, c0, st, b, t);
        assert AppStep(s, i, st) == (Freed(st2, Some(t)), Stop(500));
      }
    } else {
      NoTapReaches(cfg, s, i, c, a0, c0, st, b, r.error);
    }
  }

  lemma NoTapReaches(cfg: Config, s: Setup, i: nat, c: Call, a0: Alloc, c0: Call, st: Chained, b: Alloc, e: TapError)
    requires Configured(cfg, s) && i < |s.apps|
    requires Matches(s.apps[i].rule, s.input) && s.apps[i].uriOk && s.apps[i].tap
    requires TryTap(st.alloc, s.nets[i]) == (b, Err(e))
    requires Reaches(cfg, a0, c0, b, At(c, Goto(Onto(i, s.apps[i].abort)), st))
    ensures var (st1, v) := AppStep(s, i, st);
      Reaches(cfg, a0, c0, st1.alloc, At(c, Onward(i, v), st1))
  {
    var (st1, v) := AppStep(s, i, st);
    assert At(c, Onward(i, v), st1) == At(c, Goto(Onto(i, s.apps[i].abort)), st);
  }

  /** The machine's bridge has come as far as the chain. */
  ghost function Abreast(cfg: Config, c: Call, a0: Alloc, c0: Call): (nat, Chained) -> bool {
    (i: nat, st: Chained) => Reaches(cfg, a0, c0, st.alloc, At(c, Chain(i), st))
  }

  lemma AbreastSteadily(cfg: Config, s: Setup, c: Call, a0: Alloc, c0: Call)
    requires Configured(cfg, s)
    ensures Steady(s, Abreast(cfg, c, a0, c0))
  {
    forall j: nat, x: Chained | j < |s.apps| && Abreast(cfg, c, a0, c0)(j, x) && AppStep(s, j, x).1.Next?
      ensures Abreast(cfg, c, a0, c0)(j + 1, AppStep(s, j, x).0)
    {
      AppReaches(cfg, s, j, c, a0, c0, x);
    }
  }

  lemma FromReaches(cfg: Config, s: Setup, c: Call, a0: Alloc, c0: Call, st: Chained, end: (Chained, Verdict))
    requires Configured(cfg, s) && end == ChainFrom(s, 0, st)
    requires Reaches(cfg, a0, c0, st.alloc, At(c, Chain(0), st))
    ensures Reaches(cfg, a0, c0, end.0.alloc, At(c, if end.1.Next? then Chain(|s.apps|) else TakePending, end.0))
  {
    AbreastSteadily(cfg, s, c, a0, c0);
    var k, x := ChainBy(s, Abreast(cfg, c, a0, c0), 0, st);
    if k < |s.apps| {
      AppReaches(cfg, s, k, c, a0, c0, x);
    }
  }

  /** The loop's fold is a run of the machine. When it goes through, the bridge stands past
      the last application with the fold's stash, legs and allocator; when it is cut, the
      bridge goes on to give the stash back and tear the call down. */
  lemma ChainIsARun(cfg: Config, s: Setup, a: Alloc, c: Call, legs: seq<OutboundLeg>)
    requires Configured(cfg, s) && c.pc == Chain(0) && c.legs.apps == Apps(legs)
    ensures var (st, v) := ChainFrom(s, 0, Chained(a, c.pending, legs, []));
      if v.Next? then Reaches(cfg, a, c, st.alloc, At(c, Chain(|s.apps|), st))
      else Reaches(cfg, a, c, GiveAll(st.alloc, Pairs(st.pending)),
                   Commit(At(c, Pc.Teardown, st).(pending := [])).(pc := Done))
  {
    var st0 := Chained(a, c.pending, legs, []);
    Here(cfg, a, c);
    assert At(c, Chain(0), st0) == c;
    var (st, v) := ChainFrom(s, 0, st0);
    FromReaches(cfg, s, c, a, c, st0, (st, v));
    if v.Stop? {
      CutReaches(cfg, a, c, st.alloc, At(c, TakePending, st));
    }
  }

  lemma CutReaches(cfg: Config, a0: Alloc, c0: Call, a: Alloc, c: Call)
    requires Reaches(cfg, a0, c0, a, c) && c.pc == TakePending
    ensures Reaches(cfg, a0, c0, GiveAll(a, Pairs(c.pending)),
                    Commit(c.(pc := Pc.Teardown, pending := [])).(pc := Done))
  {
    var ps := Pairs(c.pending);
    var d := c.(pc := Free(ps, ToTeardown), pending := []);
    Go(cfg, a0, c0, a, c, CollectPending, a, d);
    GoFree(cfg, a0, c0, a, d, ps, ToTeardown);
    assert d.(pc := Goto(ToTeardown)) == c.(pc := Pc.Teardown, pending := []);
    GoDown(cfg, a0, c0, GiveAll(a, ps), c.(pc := Pc.Teardown, pending := []));
  }

  lemma GoDown(cfg: Config, a0: Alloc, c0: Call, a: Alloc, c: Call)
    requires Reaches(cfg, a0, c0, a, c) && c.pc == Pc.Teardown
    ensures Reaches(cfg, a0, c0, a, Commit(c).(pc := Done))
  {
    Go(cfg, a0, c0, a, c, CallTeardown, a, Commit(c).(pc := Done));
  }
}
