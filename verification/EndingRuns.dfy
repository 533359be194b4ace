/** A whole bridge that nobody interrupts is a run of the step machine: what Endings says of it
    is what the machine's bridge, and then its teardown winner, come to. */
module EndingRuns {
  import opened AppChain
  import opened CallObject
  import opened ChainLaws
  import opened ChainRuns
  import opened Endings
  import opened Lifecycle
  import opened Ports
  import opened Sdp
  import opened Text
  import opened Wrappers

  /** The bridge gets from (a0, c0) to its last step, and with the winner, if there is one, to
      the end of its work, the call and the allocator are e's. */
  ghost predicate EndsAs(cfg: Config, a0: Alloc, c0: Call, e: End) {
    exists b, d :: Reaches(cfg, a0, c0, b, d) && (d.pc == Up || d.pc == Done) && ToFinish(b, d) == (e.alloc, e.call)
  }

  /** A step that leaves the allocator alone. */
  lemma GoQuiet(cfg: Config, a0: Alloc, c0: Call, a: Alloc, c: Call, ev: BridgeEvent, d: Call)
    requires Reaches(cfg, a0, c0, a, c) && !UsesAlloc(ev) && Quiet(cfg, c, ev) == Some(d)
    ensures Reaches(cfg, a0, c0, a, d)
  {
    Go(cfg, a0, c0, a, c, ev, a, d);
  }

  /** From the taking of the stash on. */
  lemma TakingEnds(cfg: Config, a0: Alloc, c0: Call, a: Alloc, c: Call, status: int)
    requires Reaches(cfg, a0, c0, a, c.(pc := TakePending)) && c.state != TearingDown
    ensures EndsAs(cfg, a0, c0, FailedEnd(a, c, status))
  {
    CutReaches(cfg, a0, c0, a, c.(pc := TakePending));
    var d := Commit(c.(pc := Pc.Teardown, pending := [])).(pc := Done);
    assert Commit(c.(pc := TakePending).(pc := Pc.Teardown, pending := [])).(pc := Done) == d;
    assert Reaches(cfg, a0, c0, GiveAll(a, Pairs(c.pending)), d) && d.pc == Done;
    assert ToFinish(GiveAll(a, Pairs(c.pending)), d) == (FailedEnd(a, c, status).alloc, FailedEnd(a, c, status).call);
  }

  /** From pairs in hand that go back first. */
  lemma FreeingEnds(cfg: Config, a0: Alloc, c0: Call, a: Alloc, c: Call, todo: seq<PortPair>, status: int)
    requires Reaches(cfg, a0, c0, a, c.(pc := Free(todo, ToPending))) && c.state != TearingDown
    ensures EndsAs(cfg, a0, c0, FailedEnd(GiveAll(a, todo), c, status))
  {
    GoFree(cfg, a0, c0, a, c.(pc := Free(todo, ToPending)), todo, ToPending);
    assert c.(pc := Free(todo, ToPending)).(pc := Goto(ToPending)) == c.(pc := TakePending);
    TakingEnds(cfg, a0, c0, GiveAll(a, todo), c, status);
  }

  /** From where the bridge refuses to go on. */
  lemma RefusedEnds(cfg: Config, a0: Alloc, c0: Call, a: Alloc, c: Call, at: Pc, status: int)
    requires Reaches(cfg, a0, c0, a, c.(pc := at)) && c.state != TearingDown
    requires RefuseStep(cfg, c.(pc := at)) == Some(c.(pc := TakePending))
    ensures EndsAs(cfg, a0, c0, FailedEnd(a, c, status))
  {
    GoQuiet(cfg, a0, c0, a, c.(pc := at), Refuse, c.(pc := TakePending));
    TakingEnds(cfg, a0, c0, a, c, status);
  }

  // ----- The PBX leg ---------------------------------------------------------

  lemma AddsOne(cfg: Config, a0: Alloc, c0: Call, a: Alloc, c: Call, taps: seq<Tap>, k: nat)
    requires k < |c.pending| && Reaches(cfg, a0, c0, a, c.(pc := Establishing(k), taps := taps))
    ensures Reaches(cfg, a0, c0, a, c.(pc := Establishing(k + 1), taps := taps + [c.pending[k]]))
  {
    GoQuiet(cfg, a0, c0, a, c.(pc := Establishing(k), taps := taps), AddTap,
            c.(pc := Establishing(k + 1), taps := taps + [c.pending[k]]));
  }

  lemma AddsNone(cfg: Config, a0: Alloc, c0: Call, a: Alloc, c: Call, taps: seq<Tap>)
    requires Reaches(cfg, a0, c0, a, c.(pc := Establishing(|c.pending|), taps := taps))
    ensures Reaches(cfg, a0, c0, a, c.(pc := Answering, pending := [], taps := taps))
  {
    GoQuiet(cfg, a0, c0, a, c.(pc := Establishing(|c.pending|), taps := taps), Unlock,
            c.(pc := Answering, pending := [], taps := taps));
  }

  /** The stashed taps from the k-th on go onto the session one by one, and then all are there. */
  lemma {:induction false} AddsTaps(cfg: Config, a0: Alloc, c0: Call, a: Alloc, c: Call,
                                    taps: seq<Tap>, k: nat, all: seq<Tap>)
    requires k <= |c.pending| && all == taps + c.pending[k..]
    requires Reaches(cfg, a0, c0, a, c.(pc := Establishing(k), taps := taps))
    ensures Reaches(cfg, a0, c0, a, c.(pc := Answering, pending := [], taps := all))
    decreases |c.pending| - k
  {
    if k == |c.pending| {
      assert all == taps;
      AddsNone(cfg, a0, c0, a, c, taps);
      return;
    }
    AddsOne(cfg, a0, c0, a, c, taps, k);
    NextTap(taps, c.pending, k);
    AddsTaps(cfg, a0, c0, a, c, taps + [c.pending[k]], k + 1, all);
  }

  lemma NextTap(taps: seq<Tap>, pending: seq<Tap>, k: nat)
    requires k < |pending|
    ensures taps + pending[k..] == taps + [pending[k]] + pending[k + 1..]
  {
  }

  /** What the machine answers a plain endpoint; a secured one has its own answer. */
  predicate RightAnswer(cfg: Config, c: Call, sdp: string, answer: string) {
    c.neg.epPort.Some? ==> Rewrite(sdp, cfg.mediaHost, c.neg.epPort.value) == Ok(answer)
  }

  /** The call is established with its taps on the session. */
  lemma GoEstablished(cfg: Config, a0: Alloc, c0: Call, a: Alloc, c: Call, sdp: string, answer: string)
    requires c.state == CallState.Setup
    requires Reaches(cfg, a0, c0, a, c.(pc := Pc.Ready(sdp))) && RightAnswer(cfg, c, sdp, answer)
    ensures Reaches(cfg, a0, c0, a, EstablishedOn(c, answer).(pc := Answering))
  {
    var up := EstablishedOn(c, answer);
    var begun := up.(pc := Establishing(0), taps := c.taps, pending := c.pending);
    GoQuiet(cfg, a0, c0, a, c.(pc := Pc.Ready(sdp)), BridgeEvent.Establish, begun);
    assert begun.pending[0..] == c.pending;
    AddsTaps(cfg, a0, c0, a, begun, c.taps, 0, up.taps);
  }

  lemma RespondedUp(cfg: Config, a0: Alloc, c0: Call, a: Alloc, up: Call, answer: string)
    requires up.undo.winner == NoWinner && Reaches(cfg, a0, c0, a, up.(pc := Answering))
    ensures EndsAs(cfg, a0, c0, End(a, up.(pc := Up), Ok(answer), None))
  {
    GoQuiet(cfg, a0, c0, a, up.(pc := Answering), Respond(true), up.(pc := Up));
    assert ToFinish(a, up.(pc := Up)) == (a, up.(pc := Up));
  }

  lemma RespondedDown(cfg: Config, a0: Alloc, c0: Call, a: Alloc, up: Call, answer: string)
    requires up.state != TearingDown && Reaches(cfg, a0, c0, a, up.(pc := Answering))
    ensures EndsAs(cfg, a0, c0, End(Down(a, up).0, Down(a, up).1, Ok(answer), None))
  {
    GoQuiet(cfg, a0, c0, a, up.(pc := Answering), Respond(false), up.(pc := TakePending));
    TakingEnds(cfg, a0, c0, a, up, 0);
    SameEnd(cfg, a0, c0, FailedEnd(a, up, 0), End(Down(a, up).0, Down(a, up).1, Ok(answer), None));
  }

  /** What was answered and what the PBX was offered is not the machine's to say. */
  lemma SameEnd(cfg: Config, a0: Alloc, c0: Call, e: End, f: End)
    requires EndsAs(cfg, a0, c0, e) && f.alloc == e.alloc && f.call == e.call
    ensures EndsAs(cfg, a0, c0, f)
  {
  }

  /** From a PBX answer that describes media to the end. */
  lemma ReadyEnds(cfg: Config, a0: Alloc, c0: Call, a: Alloc, c: Call, sdp: string, answer: string, respondOk: bool)
    requires c.state == CallState.Setup && c.undo.winner == NoWinner
    requires Reaches(cfg, a0, c0, a, c.(pc := Pc.Ready(sdp))) && RightAnswer(cfg, c, sdp, answer)
    ensures EndsAs(cfg, a0, c0, Concluded(a, c, Ok(answer), respondOk))
  {
    var up := EstablishedOn(c, answer);
    GoEstablished(cfg, a0, c0, a, c, sdp, answer);
    if respondOk {
      RespondedUp(cfg, a0, c0, a, up, answer);
    } else {
      RespondedDown(cfg, a0, c0, a, up, answer);
    }
  }

  /** The answer is what the caller is to be answered when the PBX leg came to this. */
  ghost predicate Fits(cfg: Config, c: Call, leg: Dialing, answer: Result<string, int>) {
    if PbxResult(leg, cfg.isIP).Err? then answer.Err?
    else if answer.Ok? then RightAnswer(cfg, c, leg.body, answer.value)
    else c.neg.epPort.Some? && Rewrite(leg.body, cfg.mediaHost, c.neg.epPort.value).Err?
  }

  /** From the dial to the end. The offer was built or not, and answer is what the caller is to
      be answered. */
  lemma DialEnds(cfg: Config, a0: Alloc, c0: Call, a: Alloc, c: Call, offered: bool, leg: Dialing,
                 answer: Result<string, int>, respondOk: bool)
    requires c.state == CallState.Setup && c.undo.winner == NoWinner
    requires Reaches(cfg, a0, c0, a, c.(pc := Dial))
    requires if offered then Fits(cfg, c, leg, answer) else answer.Err?
    ensures EndsAs(cfg, a0, c0, Concluded(a, DialledOn(c, offered, leg, cfg.isIP), answer, respondOk))
  {
    if !offered || leg.BadUri? || leg.Unreached? {
      RefusedEnds(cfg, a0, c0, a, c, Dial, answer.error);
    } else {
      var rung := c.(legs := c.legs.(pbx := true));
      GoDialed(cfg, a0, c0, a, c);
      if leg.Unanswered? {
        RefusedEnds(cfg, a0, c0, a, rung, Ringing, answer.error);
      } else {
        AnsweredEnds(cfg, a0, c0, a, c, rung, leg, answer, respondOk);
      }
    }
  }

  lemma GoDialed(cfg: Config, a0: Alloc, c0: Call, a: Alloc, c: Call)
    requires Reaches(cfg, a0, c0, a, c.(pc := Dial))
    ensures Reaches(cfg, a0, c0, a, c.(legs := c.legs.(pbx := true)).(pc := Ringing))
  {
    GoQuiet(cfg, a0, c0, a, c.(pc := Dial), BridgeEvent.Dialed, c.(legs := c.legs.(pbx := true)).(pc := Ringing));
  }

  function Heard(c: Call, raw: string): Call {
    c.(neg := c.neg.(answer := Some(raw)))
  }

  function Pointed(c: Call, raw: string, isIP: string -> bool): Call
    requires Media(Lines(raw), isIP).Ok?
  {
    c.(neg := c.neg.(pbxRemote := Some(RemoteOf(Media(Lines(raw), isIP).value))))
  }

  lemma DialledIs(c: Call, leg: Dialing, isIP: string -> bool)
    requires leg.Replied?
    ensures var heard := Heard(c.(legs := c.legs.(pbx := true)), leg.body);
      DialledOn(c, true, leg, isIP)
      == if Media(Lines(leg.body), isIP).Ok? then Pointed(heard, leg.body, isIP) else heard
  {
  }

  lemma AnsweredEnds(cfg: Config, a0: Alloc, c0: Call, a: Alloc, c: Call, rung: Call, leg: Dialing,
                     answer: Result<string, int>, respondOk: bool)
    requires c.state == CallState.Setup && c.undo.winner == NoWinner && leg.Replied?
    requires rung == c.(legs := c.legs.(pbx := true)) && Reaches(cfg, a0, c0, a, rung.(pc := Ringing))
    requires Fits(cfg, c, leg, answer)
    ensures EndsAs(cfg, a0, c0, Concluded(a, DialledOn(c, true, leg, cfg.isIP), answer, respondOk))
  {
    var raw := leg.body;
    DialledIs(c, leg, cfg.isIP);
    GoQuiet(cfg, a0, c0, a, rung.(pc := Ringing), PbxAnswered(raw), Heard(rung, raw).(pc := Answered(raw)));
    if Media(Lines(raw), cfg.isIP).Err? {
      RefusedEnds(cfg, a0, c0, a, Heard(rung, raw), Answered(raw), answer.error);
    } else {
      MediaEnds(cfg, a0, c0, a, Heard(rung, raw), raw, answer, respondOk);
    }
  }

  /** From a PBX answer that describes media, before the PBX side faces it. */
  lemma MediaEnds(cfg: Config, a0: Alloc, c0: Call, a: Alloc, c: Call, raw: string,
                  answer: Result<string, int>, respondOk: bool)
    requires c.state == CallState.Setup && c.undo.winner == NoWinner && Media(Lines(raw), cfg.isIP).Ok?
    requires Reaches(cfg, a0, c0, a, c.(pc := Answered(raw))) && Fits(cfg, c, Replied(raw), answer)
    ensures EndsAs(cfg, a0, c0, Concluded(a, Pointed(c, raw, cfg.isIP), answer, respondOk))
  {
    GoPointed(cfg, a0, c0, a, c, raw);
    PointedEnds(cfg, a0, c0, a, Pointed(c, raw, cfg.isIP), raw, answer, respondOk);
  }

  lemma GoPointed(cfg: Config, a0: Alloc, c0: Call, a: Alloc, c: Call, raw: string)
    requires Media(Lines(raw), cfg.isIP).Ok? && Reaches(cfg, a0, c0, a, c.(pc := Answered(raw)))
    ensures Reaches(cfg, a0, c0, a, Pointed(c, raw, cfg.isIP).(pc := Pc.Ready(raw)))
  {
    GoQuiet(cfg, a0, c0, a, c.(pc := Answered(raw)), PointPbx, Pointed(c, raw, cfg.isIP).(pc := Pc.Ready(raw)));
  }

  lemma PointedEnds(cfg: Config, a0: Alloc, c0: Call, a: Alloc, c: Call, raw: string,
                    answer: Result<string, int>, respondOk: bool)
    requires c.state == CallState.Setup && c.undo.winner == NoWinner && Reaches(cfg, a0, c0, a, c.(pc := Pc.Ready(raw)))
    requires if answer.Ok? then RightAnswer(cfg, c, raw, answer.value)
             else c.neg.epPort.Some? && Rewrite(raw, cfg.mediaHost, c.neg.epPort.value).Err?
    ensures EndsAs(cfg, a0, c0, Concluded(a, c, answer, respondOk))
  {
    if answer.Ok? {
      ReadyEnds(cfg, a0, c0, a, c, raw, answer.value, respondOk);
    } else {
      RefusedEnds(cfg, a0, c0, a, c, Pc.Ready(raw), answer.error);
    }
  }

  // ----- The phases after the chain ------------------------------------------

  predicate Bare(c: Call) {
    && c.state == CallState.Setup && c.undo.winner == NoWinner && c.neg.epPort == None
  }

  lemma PlainEnds(cfg: Config, offer: string, net: Fortune, a0: Alloc, c0: Call, a: Alloc, c: Call)
    requires Bare(c) && Reaches(cfg, a0, c0, a, c.(pc := Chain(|cfg.apps|)))
    ensures EndsAs(cfg, a0, c0, PlainEnd(offer, cfg.mediaHost, cfg.isIP, net, a, c))
  {
    var here := c.(pc := Chain(|cfg.apps|));
    var e := Media(Lines(offer), cfg.isIP);
    if e.Err? {
      RefusedEnds(cfg, a0, c0, a, c, Chain(|cfg.apps|), 488);
    } else {
      var (b, p) := Take(a);
      if p.None? {
        Go(cfg, a0, c0, a, here, AnchorPlain(e.value), b, c.(pc := TakePending));
        assert b == a;
        TakingEnds(cfg, a0, c0, b, c, 503);
      } else {
        Go(cfg, a0, c0, a, here, AnchorPlain(e.value), b, c.(pc := AnchorPbx(e.value, p.value)));
        SidesEnd(cfg, offer, net, a0, c0, a, c, e.value, b, p.value);
      }
    }
  }

  /** With the endpoint's pair in hand. */
  lemma SidesEnd(cfg: Config, offer: string, net: Fortune, a0: Alloc, c0: Call, a: Alloc, c: Call,
                 e: Endpoint, b: Alloc, p: PortPair)
    requires Bare(c) && Media(Lines(offer), cfg.isIP) == Ok(e) && Take(a) == (b, Some(p))
    requires Reaches(cfg, a0, c0, b, c.(pc := AnchorPbx(e, p)))
    ensures EndsAs(cfg, a0, c0, PlainEnd(offer, cfg.mediaHost, cfg.isIP, net, a, c))
  {
    var (b2, q) := Take(b);
    if q.None? {
      Go(cfg, a0, c0, b, c.(pc := AnchorPbx(e, p)), Grab, b2, c.(pc := Free([p], ToPending)));
      FreeingEnds(cfg, a0, c0, b2, c, [p], 503);
    } else {
      var held := c.(pc := AnchorHeld(e, p, q.value));
      Go(cfg, a0, c0, b, c.(pc := AnchorPbx(e, p)), Grab, b2, held);
      if !net.sides.callerBinds || !net.sides.calleeBinds {
        UnboundEnds(cfg, a0, c0, b2, c, e, Tap(p, q.value));
      } else {
        BoundEnds(cfg, offer, net, a0, c0, b2, c, e, Tap(p, q.value));
      }
    }
  }

  lemma UnboundEnds(cfg: Config, a0: Alloc, c0: Call, a: Alloc, c: Call, e: Endpoint, t: Tap)
    requires c.state != TearingDown && Reaches(cfg, a0, c0, a, c.(pc := AnchorHeld(e, t.caller, t.callee)))
    ensures EndsAs(cfg, a0, c0, FailedEnd(GiveTap(a, t), c, 500))
  {
    GoQuiet(cfg, a0, c0, a, c.(pc := AnchorHeld(e, t.caller, t.callee)), BindFail,
            c.(pc := Free([t.caller, t.callee], ToPending)));
    FreeingEnds(cfg, a0, c0, a, c, [t.caller, t.callee], 500);
    GiveTwo(a, t);
  }

  lemma BoundEnds(cfg: Config, offer: string, net: Fortune, a0: Alloc, c0: Call, a: Alloc, c: Call, e: Endpoint, t: Tap)
    requires Bare(c) && Reaches(cfg, a0, c0, a, c.(pc := AnchorHeld(e, t.caller, t.callee)))
    ensures EndsAs(cfg, a0, c0, PlainDial(offer, cfg.mediaHost, cfg.isIP, net, a, AnchoredOn(c, e, t), t))
  {
    var d := AnchoredOn(c, e, t);
    GoQuiet(cfg, a0, c0, a, c.(pc := AnchorHeld(e, t.caller, t.callee)), BridgeEvent.Register, d.(pc := Dial));
    PlainDialEnds(cfg, offer, net, a0, c0, a, d, t);
  }

  lemma PlainDialEnds(cfg: Config, offer: string, net: Fortune, a0: Alloc, c0: Call, a: Alloc, c: Call, t: Tap)
    requires c.state == CallState.Setup && c.undo.winner == NoWinner && c.neg.epPort == Some(t.caller.rtp)
    requires Reaches(cfg, a0, c0, a, c.(pc := Dial))
    ensures EndsAs(cfg, a0, c0, PlainDial(offer, cfg.mediaHost, cfg.isIP, net, a, c, t))
  {
    var answer := PlainAnswer(offer, cfg.mediaHost, t.caller.rtp, t.callee.rtp, cfg.isIP, net.pbx);
    var offered := Rewrite(offer, cfg.mediaHost, t.callee.rtp).Ok?;
    DialEnds(cfg, a0, c0, a, c, offered, net.pbx, answer, net.respondOk);
    SameEnd(cfg, a0, c0, Concluded(a, DialledOn(c, offered, net.pbx, cfg.isIP), answer, net.respondOk),
            PlainDial(offer, cfg.mediaHost, cfg.isIP, net, a, c, t));
  }

  lemma SecuredEnds(cfg: Config, offer: string, net: Fortune, a0: Alloc, c0: Call, a: Alloc, c: Call)
    requires Bare(c) && Reaches(cfg, a0, c0, a, c.(pc := Chain(|cfg.apps|)))
    ensures EndsAs(cfg, a0, c0, SecuredEnd(offer, cfg.mediaHost, cfg.isIP, net, a, c))
  {
    var here := c.(pc := Chain(|cfg.apps|));
    if net.secured.None? {
      RefusedEnds(cfg, a0, c0, a, c, Chain(|cfg.apps|), 488);
    } else {
      var d := c.(hook := Some([]));
      GoQuiet(cfg, a0, c0, a, here, AnchorSecured, c.(pc := SecuredRegister));
      GoQuiet(cfg, a0, c0, a, c.(pc := SecuredRegister), BridgeEvent.Register, d.(pc := SecuredPbx));
      SecuredRestEnds(cfg, offer, net.secured.value, net, a0, c0, a, d);
    }
  }

  lemma SecuredRestEnds(cfg: Config, offer: string, secured: string, net: Fortune, a0: Alloc, c0: Call, a: Alloc,
                        c: Call)
    requires Bare(c) && Reaches(cfg, a0, c0, a, c.(pc := SecuredPbx))
    ensures EndsAs(cfg, a0, c0, SecuredRest(offer, secured, cfg.mediaHost, cfg.isIP, net, a, c))
  {
    var (b, p) := Take(a);
    if p.None? {
      Go(cfg, a0, c0, a, c.(pc := SecuredPbx), Grab, b, c.(pc := TakePending));
      TakingEnds(cfg, a0, c0, b, c, 503);
    } else {
      var held := c.(pc := SecuredHeld(p.value));
      Go(cfg, a0, c0, a, c.(pc := SecuredPbx), Grab, b, held);
      if !net.sides.calleeBinds {
        GoQuiet(cfg, a0, c0, b, held, BindFail, c.(pc := Free([p.value], ToPending)));
        FreeingEnds(cfg, a0, c0, b, c, [p.value], 500);
      } else {
        var d := c.(hook := Some([p.value]));
        GoQuiet(cfg, a0, c0, b, held, BridgeEvent.Register, d.(pc := Dial));
        SecuredDialEnds(cfg, offer, secured, p.value.rtp, net, a0, c0, b, d);
      }
    }
  }

  lemma SecuredDialEnds(cfg: Config, offer: string, secured: string, port: int, net: Fortune, a0: Alloc, c0: Call,
                        a: Alloc, c: Call)
    requires Bare(c) && Reaches(cfg, a0, c0, a, c.(pc := Dial))
    ensures EndsAs(cfg, a0, c0, SecuredDial(offer, secured, cfg.mediaHost, port, cfg.isIP, net, a, c))
  {
    var offered, answer := Extract(Lines(offer)).Ok?, SecuredAnswer(offer, secured, cfg.isIP, net.pbx);
    DialEnds(cfg, a0, c0, a, c, offered, net.pbx, answer, net.respondOk);
    SameEnd(cfg, a0, c0, Concluded(a, DialledOn(c, offered, net.pbx, cfg.isIP), answer, net.respondOk),
            SecuredDial(offer, secured, cfg.mediaHost, port, cfg.isIP, net, a, c));
  }

  // ----- The whole bridge ----------------------------------------------------

  /** Whatever the applications, the network and the sockets do, the bridge nobody interrupts
      ends where a run of the machine's bridge and winner does: the same allocator, the same
      state, stash, hook, taps and legs, the same negotiation, the same trace of teardown. */
  lemma BridgeIsARun(cfg: Config, s: Setup, net: Fortune, a: Alloc, c: Call)
    requires Configured(cfg, s) && s.host == cfg.mediaHost && Begins(c) && c.pc == Chain(0) && c.neg.epPort == None
    ensures EndsAs(cfg, a, c, BridgeEnd(s, cfg.isIP, net, a, c))
  {
    var st0 := ChainLaws.Fresh(a);
    assert Apps([]) == [];
    Here(cfg, a, c);
    assert At(c, Chain(0), st0) == c;
    var (st, v) := ChainFrom(s, 0, st0);
    FromReaches(cfg, s, c, a, c, st0, (st, v));
    var d := AfterChain(c, st);
    if v.Stop? {
      TakingEnds(cfg, a, c, st.alloc, d, v.status);
    } else if WebRtc(Lines(s.offer)) {
      SecuredEnds(cfg, s.offer, net, a, c, st.alloc, d);
    } else {
      PlainEnds(cfg, s.offer, net, a, c, st.alloc, d);
    }
  }
}
