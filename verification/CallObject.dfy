/** A bridged call as the sequencer keeps it: the fields its lock guards, and the operations
    that take the lock. The step machine runs these operations' critical sections apart;
    here each runs to its end, and the lemmas tie the two together. */
module CallObject {
  import opened Lifecycle
  import opened Ownership
  import opened Ports
  import opened Registry
  import opened Teardown
  import opened Wrappers

  class AnchorSide {
    const pair: PortPair
    var remote: Option<Remote>
    var closed: bool

    constructor (pair: PortPair)
      ensures this.pair == pair && remote == None && !closed
    {
      this.pair, remote, closed := pair, None, false;
    }

    method SetRemote(r: Option<Remote>)
      modifies `remote
      ensures remote == r
    {
      remote := r;
    }
  }

  function RemoteAt(side: AnchorSide?): Option<Remote>
    reads side
  {
    if side == null then None else side.remote
  }

  class MediaSession {
    const endpointSide: AnchorSide?
    var pbxSide: AnchorSide?  // set later on the secured path
    var taps: seq<Tap>
    var closed: bool
    var lastActivity: int  // 0 before the relay has started

    /** Two sides are two, and a bound side has a real port. */
    ghost predicate Valid()
      reads this
    {
      && (endpointSide != null && pbxSide != null ==> endpointSide != pbxSide)
      && (endpointSide != null ==> endpointSide.pair.rtp > 0)
    }

    constructor (endpointSide: AnchorSide?, pbxSide: AnchorSide?)
      ensures this.endpointSide == endpointSide && this.pbxSide == pbxSide && taps == [] && !closed && lastActivity == 0
    {
      this.endpointSide, this.pbxSide, taps, closed, lastActivity := endpointSide, pbxSide, [], false, 0;
    }

    method AddTap(t: Tap)
      modifies `taps
      ensures taps == old(taps) + [t]
    {
      taps := taps + [t];
    }

    method Close()
      modifies `closed
      ensures closed
    {
      closed := true;
    }
  }

  method ReleasePairs(ports: PortAllocator, pairs: seq<PortPair>)
    modifies ports
    ensures ports.View() == GiveAll(old(ports.View()), pairs)
  {
    ghost var a := ports.View();
    for i := 0 to |pairs|
      invariant ports.View() == GiveAll(a, pairs[..i])
    {
      ports.Release(pairs[i]);
      assert pairs[..i + 1] == pairs[..i] + [pairs[i]];
    }
    assert pairs[..|pairs|] == pairs;
  }

  /** Both pairs of each tap, in order. */
  method ReleaseTaps(ports: PortAllocator, taps: seq<Tap>)
    modifies ports
    ensures ports.View() == GiveAll(old(ports.View()), Pairs(taps))
  {
    ghost var a := ports.View();
    for i := 0 to |taps|
      invariant ports.View() == GiveAll(a, Pairs(taps[..i]))
    {
      PairsNext(taps, i);
      ports.Release(taps[i].caller);
      ports.Release(taps[i].callee);
    }
    assert taps[..|taps|] == taps;
  }

  lemma PairsNext(taps: seq<Tap>, i: nat)
    requires i < |taps|
    ensures Pairs(taps[..i + 1]) == Pairs(taps[..i]) + [taps[i].caller] + [taps[i].callee]
  {
    PairsAppend(taps[..i], [taps[i]]);
    assert taps[..i + 1] == taps[..i] + [taps[i]];
    PairsOfOne(taps[i]);
  }

  lemma GivesOn(a: Alloc, ps: seq<PortPair>, qs: seq<PortPair>)
    ensures GiveAll(GiveAll(a, ps), qs) == GiveAll(a, ps + qs)
  {
    assert a.free + ps + qs == a.free + (ps + qs);
  }

  /** mediaReleaser's hook: close the session, then give back the fixed pairs and each
      registered tap's two. */
  method ReleaseMedia(sess: MediaSession, ports: PortAllocator, fixed: seq<PortPair>)
    modifies sess`closed, ports
    ensures sess.closed
    ensures ports.View() == GiveAll(old(ports.View()), fixed + Pairs(sess.taps))
  {
    ghost var a := ports.View();
    sess.Close();
    ReleasePairs(ports, fixed);
    ReleaseTaps(ports, sess.taps);
    GivesOn(a, fixed, Pairs(sess.taps));
  }

  lemma PairsOfOne(t: Tap)
    ensures Pairs([t]) == [t.caller, t.callee]
  {
    assert [t][1..] == [];
  }

  lemma EffectsInOrder(log: seq<Event>, legs: seq<Leg>, hooked: bool)
    ensures log + [Committed(legs)] + (if hooked then [HookRun] else []) + [Deregistered] + ByesTo(legs)
         == log + Effects(legs, hooked)
  {
  }

  /** An application leg with the body it answered. */
  datatype OutboundLeg = OutboundLeg(app: nat, answer: string)

  function Apps(legs: seq<OutboundLeg>): seq<nat> {
    seq(|legs|, i requires 0 <= i < |legs| => legs[i].app)
  }

  class BridgedCall {
    const id: string
    const dialog: string
    const offer: string
    var state: CallState
    var appLegs: seq<OutboundLeg>
    var pbxLeg: bool
    var pbxAnswer: Option<string>
    var target: Option<nat>
    var media: MediaSession?
    var hook: Option<seq<PortPair>>  // releaseMedia: the fixed pairs it frees
    var pending: seq<Tap>
    var inboundDetached: bool
    var log: seq<Event>

    constructor (id: string, dialog: string, offer: string)
      ensures Valid() && this.id == id && this.dialog == dialog && this.offer == offer
      ensures state == Setup && appLegs == [] && !pbxLeg && target == None && pending == [] && log == []
      ensures media == null && hook == None && pbxAnswer == None && !inboundDetached
    {
      this.id, this.dialog, this.offer := id, dialog, offer;
      state, appLegs, pbxLeg, target, pending, log := Setup, [], false, None, [], [];
      media, hook, pbxAnswer, inboundDetached := null, None, None, false;
    }

    /** A release hook comes with the session it closes. */
    ghost predicate Valid()
      reads this
    {
      hook.Some? ==> media != null
    }

    function Taps(): seq<Tap>
      reads this, media
    {
      if media == null then [] else media.taps
    }

    /** The call as the step machine sees it when its bridge is at pc. */
    function View(pc: Pc): Call
      reads this, media
    {
      Call(id, dialog, state, pc, pending, hook, Taps(), 0, Undo(NoWinner, [], log),
           Legs(Apps(appLegs), pbxLeg, target, 0), Negotiation(None, pbxAnswer, None, None, None, 0, 0))
    }

    /** Records the media session and its release hook, unless the call is tearing down. */
    method RegisterMedia(sess: MediaSession, fixed: seq<PortPair>) returns (ok: bool)
      requires Valid()
      modifies this`media, this`hook
      ensures Valid() && ok == (state != TearingDown)
      ensures if ok then media == sess && hook == Some(fixed) else media == old(media) && hook == old(hook)
    {
      if state == TearingDown {
        return false;
      }
      media, hook := sess, Some(fixed);
      return true;
    }

    method DetachInbound()
      modifies this`inboundDetached
      ensures inboundDetached
    {
      inboundDetached := true;
    }

    method SendByes(byes: seq<Leg>)
      modifies this`log
      ensures log == old(log) + ByesTo(byes)
    {
      for i := 0 to |byes|
        invariant log == old(log) + ByesTo(byes[..i])
      {
        assert byes[..i + 1] == byes[..i] + [byes[i]];
        log := log + [Bye(byes[i])];
      }
      assert byes[..|byes|] == byes;
    }

    /** The guard: the first attempt wins and records the legs to say BYE to. */
    method PassGuard() returns (byes: Option<seq<Leg>>)
      modifies this`state, this`log
      ensures state == TearingDown
      ensures old(state) == TearingDown ==> byes == None && log == old(log)
      ensures old(state) != TearingDown ==>
                byes == Some(old(LegsAt(View(Pc.Teardown)))) && log == old(log) + [Committed(byes.value)]
    {
      if !CanTransition(state, TearingDown) {
        return None;
      }
      byes := Some(LegsAt(View(Pc.Teardown)));
      state := TearingDown;
      log := log + [Committed(byes.value)];
    }

    method RunHook(ports: PortAllocator)
      requires Valid()
      modifies this`log, ports, media
      ensures log == old(log) + (if hook.Some? then [HookRun] else [])
      ensures ports.View() == GiveAll(old(ports.View()), if hook.Some? then hook.value + Pairs(Taps()) else [])
      ensures Taps() == old(Taps()) && (hook.Some? ==> media.closed)
      ensures media != null ==> media.pbxSide == old(media.pbxSide) && media.lastActivity == old(media.lastActivity)
    {
      if hook.Some? {
        log := log + [HookRun];
        ReleaseMedia(media, ports, hook.value);
      } else {
        assert ports.View().free + [] == ports.View().free;
      }
    }

    /** The attempt past the guard takes the call down: the hook frees its pairs and the
        taps', the registry forgets the call, each leg recorded at that moment gets a BYE.
        Any other attempt changes nothing. */
    method Teardown(ports: PortAllocator, reg: Calls<nat>)
      requires Valid()
      modifies this`state, this`log, ports, reg, media
      ensures Valid() && state == TearingDown && Taps() == old(Taps())
      ensures media != null ==> media.pbxSide == old(media.pbxSide) && media.lastActivity == old(media.lastActivity)
      ensures old(state) == TearingDown ==>
                log == old(log) && ports.View() == old(ports.View()) && reg.View() == old(reg.View())
      ensures old(state) != TearingDown ==>
                && log == old(log) + Effects(old(LegsAt(View(Pc.Teardown))), hook.Some?)
                && ports.View() == GiveAll(old(ports.View()), if hook.Some? then hook.value + Pairs(Taps()) else [])
                && reg.View() == Remove(old(reg.View()), id, dialog)
                && (hook.Some? ==> media.closed)
    {
      var byes := PassGuard();
      if byes.None? {
        return;
      }
      RunHook(ports);
      reg.Deregister(id, dialog);
      log := log + [Deregistered];
      SendByes(byes.value);
      EffectsInOrder(old(log), byes.value, hook.Some?);
    }

    /** Gives back the pairs of the taps that never reached a session, and forgets them. */
    method ReleasePendingTaps(ports: PortAllocator)
      modifies this`pending, ports
      ensures pending == [] && ports.View() == GiveAll(old(ports.View()), Pairs(old(pending)))
    {
      var pts := pending;
      pending := [];
      ReleaseTaps(ports, pts);
    }

    /** Marks the call established and puts the stashed taps on its session. */
    method Establish(sess: MediaSession)
      modifies this`state, this`pending, sess`taps
      ensures state == if old(state) == Setup then Established else old(state)
      ensures pending == [] && sess.taps == old(sess.taps) + old(pending)
    {
      if CanTransition(state, Established) {
        state := Established;
      }
      for i := 0 to |pending|
        invariant state == (if old(state) == Setup then Established else old(state))
        invariant pending == old(pending) && sess.taps == old(sess.taps) + pending[..i]
      {
        sess.AddTap(pending[i]);
      }
      pending := [];
    }
  }

  lemma SameLegs(c: Call, d: Call)
    requires c.state == d.state
    requires c.legs.apps == d.legs.apps && c.legs.pbx == d.legs.pbx && c.legs.target == d.legs.target
    ensures LegsAt(c) == LegsAt(d)
  {
  }

  // ----- The machine's winner, run to its end --------------------------------

  function Rank(u: Undo): nat {
    match u.winner
    case NoWinner => 0
    case Closing(todo) => 5
    case Snapshot => 4
    case ClosingTaps(todo) => 3
    case Deregister => 2
    case Byes(n) => 1
    case Finished => 0
  }

  function Left(u: Undo): nat {
    match u.winner
    case Closing(todo) => |todo|
    case ClosingTaps(todo) => |todo|
    case Byes(n) => if n <= |u.byes| then |u.byes| - n else 0
    case _ => 0
  }

  /** The winner's steps, one after another until none is left. */
  function ToFinish(a: Alloc, c: Call): (Alloc, Call)
    decreases Rank(c.undo), Left(c.undo)
  {
    match WinnerStep(a, c)
    case None => (a, c)
    case Some((b, d)) => ToFinish(b, d)
  }

  lemma {:induction false} CloseAll(a: Alloc, c: Call, todo: seq<PortPair>)
    requires c.undo.winner == Closing(todo)
    ensures ToFinish(a, c) == ToFinish(GiveAll(a, todo), c.(undo := c.undo.(winner := Snapshot)))
    decreases |todo|
  {
    if todo == [] {
      assert a.free + todo == a.free;
    } else {
      var d := c.(undo := c.undo.(winner := Closing(todo[1..])));
      CloseAll(Give(a, todo[0]), d, todo[1..]);
      assert (a.free + [todo[0]]) + todo[1..] == a.free + todo;
    }
  }

  lemma {:induction false} CloseTaps(a: Alloc, c: Call, todo: seq<PortPair>)
    requires c.undo.winner == ClosingTaps(todo)
    ensures ToFinish(a, c) == ToFinish(GiveAll(a, todo), c.(undo := c.undo.(winner := Deregister)))
    decreases |todo|
  {
    if todo == [] {
      assert a.free + todo == a.free;
    } else {
      var d := c.(undo := c.undo.(winner := ClosingTaps(todo[1..])));
      CloseTaps(Give(a, todo[0]), d, todo[1..]);
      assert (a.free + [todo[0]]) + todo[1..] == a.free + todo;
    }
  }

  lemma {:induction false} SayByes(a: Alloc, c: Call, n: nat)
    requires c.undo.winner == Byes(n) && n <= |c.undo.byes|
    ensures ToFinish(a, c) == (a, c.(undo := Undo(Finished, c.undo.byes, c.undo.log + ByesTo(c.undo.byes)[n..])))
    decreases |c.undo.byes| - n
  {
    var byes := c.undo.byes;
    if n < |byes| {
      var d := c.(undo := Undo(Byes(n + 1), byes, c.undo.log + [Bye(byes[n])]));
      SayByes(a, d, n + 1);
      assert ByesTo(byes)[n..] == [Bye(byes[n])] + ByesTo(byes)[n + 1..];
      assert c.undo.log + ByesTo(byes)[n..] == d.undo.log + ByesTo(byes)[n + 1..];
    } else {
      assert c.undo.log + ByesTo(byes)[n..] == c.undo.log;
    }
  }

  /** The end of teardown from its deregistration on. */
  lemma FromDeregister(a: Alloc, c: Call)
    requires c.undo.winner == Deregister
    ensures ToFinish(a, c)
         == (a, c.(undo := Undo(Finished, c.undo.byes, c.undo.log + [Deregistered] + ByesTo(c.undo.byes))))
  {
    var d := c.(undo := Undo(Byes(0), c.undo.byes, c.undo.log + [Deregistered]));
    SayByes(a, d, 0);
    assert ByesTo(c.undo.byes)[0..] == ByesTo(c.undo.byes);
  }

  /** The winner's end: what it freed and what it left. */
  ghost predicate Finishes(a: Alloc, c: Call, freed: seq<PortPair>, byes: seq<Leg>, log: seq<Event>) {
    var (b, d) := ToFinish(a, c);
    b == GiveAll(a, freed) && d.state == c.state && d.undo == Undo(Finished, byes, log)
  }

  lemma FinishUnhooked(a: Alloc, c: Call)
    requires c.undo.winner == Deregister
    ensures Finishes(a, c, [], c.undo.byes, c.undo.log + [Deregistered] + ByesTo(c.undo.byes))
  {
    FromDeregister(a, c);
    assert a.free + [] == a.free;
  }

  lemma FinishFrom(a: Alloc, c: Call, a1: Alloc, c1: Call, ps: seq<PortPair>, qs: seq<PortPair>, log: seq<Event>)
    requires ToFinish(a, c) == ToFinish(a1, c1) && a1 == GiveAll(a, ps) && c1.state == c.state
    requires Finishes(a1, c1, qs, c1.undo.byes, log)
    ensures Finishes(a, c, ps + qs, c1.undo.byes, log)
  {
    assert a.free + ps + qs == a.free + (ps + qs);
  }

  lemma FinishTaps(a: Alloc, c: Call)
    requires c.undo.winner == Snapshot
    ensures Finishes(a, c, Pairs(c.taps), c.undo.byes, c.undo.log + [Deregistered] + ByesTo(c.undo.byes))
  {
    var c1 := c.(undo := c.undo.(winner := ClosingTaps(Pairs(c.taps))), snap := |c.taps|);
    var c2 := c1.(undo := c1.undo.(winner := Deregister));
    var a2 := GiveAll(a, Pairs(c.taps));
    assert ToFinish(a, c) == ToFinish(a, c1);
    CloseTaps(a, c1, Pairs(c.taps));
    FinishUnhooked(a2, c2);
    FinishFrom(a, c, a2, c2, Pairs(c.taps), [], c.undo.log + [Deregistered] + ByesTo(c.undo.byes));
    assert Pairs(c.taps) + [] == Pairs(c.taps);
  }

  lemma FinishHooked(a: Alloc, c: Call, fixed: seq<PortPair>)
    requires c.undo.winner == Closing(fixed)
    ensures Finishes(a, c, fixed + Pairs(c.taps), c.undo.byes, c.undo.log + [Deregistered] + ByesTo(c.undo.byes))
  {
    var c1 := c.(undo := c.undo.(winner := Snapshot));
    CloseAll(a, c, fixed);
    FinishTaps(GiveAll(a, fixed), c1);
    FinishFrom(a, c, GiveAll(a, fixed), c1, fixed, Pairs(c.taps), c.undo.log + [Deregistered] + ByesTo(c.undo.byes));
  }

  /** The winner's end from just past the guard. */
  lemma FinishPassed(a: Alloc, c: Call, d: Call, legs: seq<Leg>)
    requires d.hook == c.hook && d.taps == c.taps && d.undo.byes == legs
    requires d.undo.winner == (if c.hook.Some? then Closing(c.hook.value) else Deregister)
    requires d.undo.log == c.undo.log + [Committed(legs)] + (if c.hook.Some? then [HookRun] else [])
    ensures Finishes(a, d, if c.hook.Some? then c.hook.value + Pairs(c.taps) else [], legs,
                     c.undo.log + Effects(legs, c.hook.Some?))
  {
    EffectsInOrder(c.undo.log, legs, c.hook.Some?);
    if c.hook.Some? {
      FinishHooked(a, d, c.hook.value);
    } else {
      FinishUnhooked(a, d);
    }
  }

  lemma CommitPasses(c: Call)
    requires c.state != TearingDown
    ensures var d := Commit(c);
      && d.state == TearingDown && d.hook == c.hook && d.taps == c.taps && d.undo.byes == LegsAt(c)
      && d.undo.winner == (if c.hook.Some? then Closing(c.hook.value) else Deregister)
      && d.undo.log == c.undo.log + [Committed(LegsAt(c))] + (if c.hook.Some? then [HookRun] else [])
  {
  }

  /** A teardown that no other step interrupts is BridgedCall.Teardown: from the same call it
      frees the same pairs and leaves the same trace. */
  lemma Uninterrupted(a: Alloc, c: Call)
    requires c.state != TearingDown
    ensures Commit(c).state == TearingDown
    ensures Finishes(a, Commit(c), if c.hook.Some? then c.hook.value + Pairs(c.taps) else [], LegsAt(c),
                     c.undo.log + Effects(LegsAt(c), c.hook.Some?))
  {
    CommitPasses(c);
    FinishPassed(a, c, Commit(c), LegsAt(c));
  }
}
