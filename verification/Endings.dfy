/** How a bridge ends that no other goroutine interrupts, as values: the phases after the chain
    and what each failure leaves of the call and the allocator. */
module Endings {
  import opened AppChain
  import opened CallObject
  import opened ChainLaws
  import opened Lifecycle
  import opened Ownership
  import opened Ports
  import opened Sdp
  import opened SdpLaws
  import opened Teardown
  import opened Text
  import opened Wrappers

  /** What dialing the PBX meets: its URI does not parse, no leg can be originated, the leg is
      rejected with a status (None when it times out), or it answers with a body. */
  datatype Dialing = BadUri | Unreached | Unanswered(status: Option<int>) | Replied(body: string)

  /** What sockets and network do to the call: whether the two sides bind (on a webphone's call
      only the callee's, the PBX side), the secured leg's answer if it can be brought up, what
      the PBX leg comes to, whether the caller can be answered. */
  datatype Fortune = Fortune(sides: Net, secured: Option<string>, pbx: Dialing, respondOk: bool)

  /** What dialing the PBX comes to: its raw answer, which describes media, or the status the
      call fails with. */
  function PbxResult(leg: Dialing, isIP: string -> bool): Result<string, int> {
    match leg
    case BadUri => Err(500)
    case Unreached => Err(503)
    case Unanswered(status) => Err(FailureStatus(status))
    case Replied(raw) => if Media(Lines(raw), isIP).Ok? then Ok(raw) else Err(488)
  }

  /** What the caller is to be answered on a plain call, or the status it fails with. */
  function PlainAnswer(offer: string, host: string, epPort: int, pbxPort: int, isIP: string -> bool, leg: Dialing)
    : Result<string, int>
  {
    if Rewrite(offer, host, pbxPort).Err? then Err(500)
    else match PbxResult(leg, isIP)
      case Err(status) => Err(status)
      case Ok(raw) => if Rewrite(raw, host, epPort).Ok? then Ok(Rewrite(raw, host, epPort).value) else Err(500)
  }

  /** With a real endpoint port the last failure cannot happen: the caller is answered exactly
      when the offer could be anchored and the PBX answered with media. And whatever it answered,
      no codec mismatch is counted between the two legs. */
  lemma PlainAnswerSure(offer: string, host: string, epPort: int, pbxPort: int, isIP: string -> bool, leg: Dialing)
    requires epPort > 0
    ensures var r := PlainAnswer(offer, host, epPort, pbxPort, isIP, leg);
      && (r.Ok? <==> Rewrite(offer, host, pbxPort).Ok? && PbxResult(leg, isIP).Ok?)
      && (r.Ok? && Clean(host) ==> !CountsMismatch(r.value, PbxResult(leg, isIP).value))
  {
    var pbx := PbxResult(leg, isIP);
    if pbx.Ok? {
      ParsedCanBeAnchored(pbx.value, isIP, host, epPort);
      if Clean(host) {
        PlainPathNeverMismatches(pbx.value, host, epPort);
      }
    }
  }

  /** What the caller is to be answered on a webphone's call: the secured leg's own SDP. */
  function SecuredAnswer(offer: string, secured: string, isIP: string -> bool, leg: Dialing): Result<string, int> {
    if Extract(Lines(offer)).Err? then Err(500)
    else match PbxResult(leg, isIP)
      case Err(status) => Err(status)
      case Ok(_) => Ok(secured)
  }

  // ----- The phases ----------------------------------------------------------

  /** The allocator and the call at the end, what the caller was answered with, a 200 and a body or
      an error status, and the offer the PBX was dialed with, if it was. */
  datatype End = End(alloc: Alloc, call: Call, reply: Result<string, int>, dialed: Option<string>)

  function Status(reply: Result<string, int>): int {
    if reply.Err? then reply.error else 200
  }

  /** The stash is given back and the call torn down to the end. */
  function Down(a: Alloc, c: Call): (Alloc, Call) {
    ToFinish(GiveAll(a, Pairs(c.pending)), Commit(c.(pc := Pc.Teardown, pending := [])).(pc := Done))
  }

  function FailedEnd(a: Alloc, c: Call, status: int): End {
    End(Down(a, c).0, Down(a, c).1, Err(status), None)
  }

  /** The call with its plain sides and their hook. */
  function AnchoredOn(c: Call, e: Endpoint, t: Tap): Call {
    c.(hook := Some([t.caller, t.callee]), neg := c.neg.(epPort := Some(t.caller.rtp), epRemote := Some(RemoteOf(e))))
  }

  /** What the PBX leg leaves on the call, if there was an offer for it. */
  function DialledOn(c: Call, offered: bool, leg: Dialing, isIP: string -> bool): Call {
    if !offered || leg.BadUri? || leg.Unreached? then c
    else
      c.(legs := c.legs.(pbx := true),
         neg := if leg.Unanswered? then c.neg
                else c.neg.(answer := Some(leg.body),
                            pbxRemote := if PbxResult(leg, isIP).Ok?
                                         then Some(RemoteOf(Media(Lines(leg.body), isIP).value))
                                         else c.neg.pbxRemote))
  }

  lemma DialledKeeps(c: Call, offered: bool, leg: Dialing, isIP: string -> bool)
    ensures var d := DialledOn(c, offered, leg, isIP);
      && d.state == c.state && d.pending == c.pending && d.hook == c.hook && d.taps == c.taps && d.undo == c.undo
      && d.legs.apps == c.legs.apps && d.neg.epPort == c.neg.epPort && Holds(d) == Holds(c)
  {
  }

  function EstablishedOn(c: Call, answer: string): Call {
    c.(state := Established, taps := c.taps + c.pending, pending := [],
       neg := if c.neg.epPort.None? then c.neg else c.neg.(epAnswer := Some(answer)))
  }

  /** From the PBX leg's result on. */
  function Concluded(a: Alloc, c: Call, answer: Result<string, int>, respondOk: bool): End {
    if answer.Err? then FailedEnd(a, c, answer.error)
    else if respondOk then End(a, EstablishedOn(c, answer.value).(pc := Up), answer, None)
    else
      var (b, d) := Down(a, EstablishedOn(c, answer.value));
      End(b, d, answer, None)
  }

  function PlainEnd(offer: string, host: string, isIP: string -> bool, net: Fortune, a: Alloc, c: Call): End {
    var (e, t) := (Media(Lines(offer), isIP), TryTap(a, net.sides));
    if e.Err? then FailedEnd(a, c, 488)
    else if t.1.Err? then FailedEnd(t.0, c, if t.1.error == Exhausted then 503 else 500)
    else PlainDial(offer, host, isIP, net, t.0, AnchoredOn(c, e.value, t.1.value), t.1.value)
  }

  /** dialPBX with these two sides. */
  function PlainDial(offer: string, host: string, isIP: string -> bool, net: Fortune, a: Alloc, c: Call, t: Tap): End {
    Concluded(a, DialledOn(c, Rewrite(offer, host, t.callee.rtp).Ok?, net.pbx, isIP),
              PlainAnswer(offer, host, t.caller.rtp, t.callee.rtp, isIP, net.pbx), net.respondOk)
      .(dialed := DialedWith(Rewrite(offer, host, t.callee.rtp), net.pbx))
  }

  /** The offer the PBX is dialed with: none if it could not be made or there is nobody to dial. */
  function DialedWith(offer: Result<string, SdpError>, leg: Dialing): Option<string> {
    if offer.Err? || leg.BadUri? then None else Some(offer.value)
  }

  function SecuredEnd(offer: string, host: string, isIP: string -> bool, net: Fortune, a: Alloc, c: Call): End {
    if net.secured.None? then FailedEnd(a, c, 488)
    else SecuredRest(offer, net.secured.value, host, isIP, net, a, c.(hook := Some([])))
  }

  /** bridgeSecuredToPBX of a call that holds only its stash. */
  function SecuredRest(offer: string, secured: string, host: string, isIP: string -> bool, net: Fortune, a: Alloc,
                       c: Call): End
  {
    var (b, p) := Take(a);
    if p.None? then FailedEnd(b, c, 503)
    else if !net.sides.calleeBinds then FailedEnd(Give(b, p.value), c, 500)
    else SecuredDial(offer, secured, host, p.value.rtp, isIP, net, b, c.(hook := Some([p.value])))
  }

  /** bridgeSecuredToPBX from its offer on. */
  function SecuredDial(offer: string, secured: string, host: string, port: int, isIP: string -> bool, net: Fortune,
                       a: Alloc, c: Call): End
  {
    Concluded(a, DialledOn(c, Extract(Lines(offer)).Ok?, net.pbx, isIP),
              SecuredAnswer(offer, secured, isIP, net.pbx), net.respondOk)
      .(dialed := DialedWith(PlainFrom(offer, host, port), net.pbx))
  }

  /** The phases after the chain. */
  function MediaEnd(offer: string, host: string, isIP: string -> bool, net: Fortune, a: Alloc, c: Call): End {
    if WebRtc(Lines(offer)) then SecuredEnd(offer, host, isIP, net, a, c) else PlainEnd(offer, host, isIP, net, a, c)
  }

  /** The whole bridge of a fresh call. */
  function BridgeEnd(s: Setup, isIP: string -> bool, net: Fortune, a: Alloc, c: Call): End
    requires |s.apps| == |s.nets|
  {
    var (st, v) := ChainFrom(s, 0, ChainLaws.Fresh(a));
    var d := AfterChain(c, st);
    if v.Stop? then FailedEnd(st.alloc, d, v.status) else MediaEnd(s.offer, s.host, isIP, net, st.alloc, d)
  }

  // ----- What going down means -----------------------------------------------

  lemma {:induction false} FinishKeeps(a: Alloc, c: Call)
    ensures var d := ToFinish(a, c).1;
      && d.id == c.id && d.dialog == c.dialog && d.pc == c.pc && d.pending == c.pending && d.hook == c.hook
      && d.taps == c.taps && d.legs == c.legs && d.neg == c.neg
    decreases Rank(c.undo), Left(c.undo)
  {
    match WinnerStep(a, c)
    case None =>
    case Some((b, d)) => FinishKeeps(b, d);
  }

  /** Going down gives back the stash and the hook's pairs and the taps', and leaves teardown's
      whole trace; legs, media and negotiation stay as they were. */
  lemma DownIs(a: Alloc, c: Call)
    requires c.state != TearingDown
    ensures var (b, d) := Down(a, c);
      && b == GiveAll(GiveAll(a, Pairs(c.pending)), if c.hook.Some? then c.hook.value + Pairs(c.taps) else [])
      && d.state == TearingDown && d.pending == [] && d.pc == Done
      && d.undo == Undo(Finished, LegsAt(c), c.undo.log + Effects(LegsAt(c), c.hook.Some?))
      && d.id == c.id && d.dialog == c.dialog && d.hook == c.hook && d.taps == c.taps
      && d.legs == c.legs && d.neg == c.neg
  {
    var before := c.(pc := Pc.Teardown, pending := []);
    var now := Commit(before).(pc := Done);
    CommitPasses(before);
    assert LegsAt(before) == LegsAt(c);
    FinishPassed(GiveAll(a, Pairs(c.pending)), before, now, LegsAt(c));
    FinishKeeps(GiveAll(a, Pairs(c.pending)), now);
  }

  // ----- Balance -------------------------------------------------------------

  /** Only o is out. */
  ghost predicate OnlyOut(o: multiset<PortPair>, a: Alloc) {
    AllocInv(a) && Out(a) == o
  }

  /** What a call holds: its stash, its hook's pairs, its taps'. */
  function Holds(c: Call): seq<PortPair> {
    Pairs(c.pending) + if c.hook.Some? then c.hook.value + Pairs(c.taps) else []
  }

  /** An end is balanced: an established call holds what it holds, any other has given all
      back. */
  ghost predicate Balanced(o: multiset<PortPair>, e: End) {
    if e.call.state == Established then OnlyOut(o + multiset(Holds(e.call)), e.alloc) else OnlyOut(o, e.alloc)
  }

  lemma DownBalances(o: multiset<PortPair>, a: Alloc, c: Call)
    requires c.state != TearingDown && OnlyOut(o + multiset(Holds(c)), a)
    ensures OnlyOut(o, Down(a, c).0) && Down(a, c).1.state == TearingDown
  {
    DownIs(a, c);
    var rest := if c.hook.Some? then c.hook.value + Pairs(c.taps) else [];
    TwoGivesBack(o, a, Pairs(c.pending), rest);
  }

  lemma TwoGivesBack(o: multiset<PortPair>, a: Alloc, ps: seq<PortPair>, rest: seq<PortPair>)
    requires OnlyOut(o + multiset(ps + rest), a)
    ensures OnlyOut(o, GiveAll(GiveAll(a, ps), rest))
  {
    assert o + multiset(ps + rest) == (o + multiset(rest)) + multiset(ps);
    GivesBackAll(a, o + multiset(rest), ps);
    GivesBackAll(GiveAll(a, ps), o, rest);
  }

  lemma ConcludedBalances(o: multiset<PortPair>, a: Alloc, c: Call, answer: Result<string, int>, respondOk: bool)
    requires c.state == CallState.Setup && c.hook.Some? && OnlyOut(o + multiset(Holds(c)), a)
    ensures Balanced(o, Concluded(a, c, answer, respondOk))
  {
    if answer.Err? {
      DownBalances(o, a, c);
    } else {
      var up := EstablishedOn(c, answer.value);
      PairsAppend(c.taps, c.pending);
      assert multiset(Holds(up)) == multiset(Holds(c));
      if !respondOk {
        DownBalances(o, a, up);
      }
    }
  }

  lemma PlainDialBalances(o: multiset<PortPair>, offer: string, host: string, isIP: string -> bool, net: Fortune,
                          a: Alloc, c: Call, t: Tap)
    requires c.state == CallState.Setup && c.hook.Some? && OnlyOut(o + multiset(Holds(c)), a)
    ensures Balanced(o, PlainDial(offer, host, isIP, net, a, c, t))
  {
    var offered := Rewrite(offer, host, t.callee.rtp).Ok?;
    DialledKeeps(c, offered, net.pbx, isIP);
    ConcludedBalances(o, a, DialledOn(c, offered, net.pbx, isIP),
                      PlainAnswer(offer, host, t.caller.rtp, t.callee.rtp, isIP, net.pbx), net.respondOk);
  }

  lemma HoldsTwoMore(o: multiset<PortPair>, c: Call, e: Endpoint, t: Tap)
    requires c.hook == None && c.taps == []
    ensures o + multiset(Holds(AnchoredOn(c, e, t))) == o + multiset(Holds(c)) + multiset{t.caller} + multiset{t.callee}
  {
    assert Pairs([]) == [];
    var ps := Pairs(c.pending);
    assert Holds(c) == ps;
    assert ps + ([t.caller, t.callee] + []) == ps + [t.caller] + [t.callee];
    assert multiset(ps + [t.caller] + [t.callee]) == multiset(ps) + multiset{t.caller} + multiset{t.callee};
  }

  lemma PlainBalances(o: multiset<PortPair>, offer: string, host: string, isIP: string -> bool, net: Fortune,
                      a: Alloc, c: Call)
    requires c.state == CallState.Setup && c.hook == None && c.taps == [] && OnlyOut(o + multiset(Holds(c)), a)
    ensures Balanced(o, PlainEnd(offer, host, isIP, net, a, c))
  {
    TryTapAllOrNothing(a, net.sides);
    var (e, t) := (Media(Lines(offer), isIP), TryTap(a, net.sides));
    if e.Err? {
      DownBalances(o, a, c);
    } else if t.1.Err? {
      DownBalances(o, t.0, c);
    } else {
      HoldsTwoMore(o, c, e.value, t.1.value);
      PlainDialBalances(o, offer, host, isIP, net, t.0, AnchoredOn(c, e.value, t.1.value), t.1.value);
    }
  }

  lemma SecuredDialBalances(o: multiset<PortPair>, offer: string, secured: string, host: string, port: int,
                            isIP: string -> bool, net: Fortune, a: Alloc, c: Call)
    requires c.state == CallState.Setup && c.hook.Some? && OnlyOut(o + multiset(Holds(c)), a)
    ensures Balanced(o, SecuredDial(offer, secured, host, port, isIP, net, a, c))
  {
    var offered := Extract(Lines(offer)).Ok?;
    DialledKeeps(c, offered, net.pbx, isIP);
    ConcludedBalances(o, a, DialledOn(c, offered, net.pbx, isIP), SecuredAnswer(offer, secured, isIP, net.pbx),
                      net.respondOk);
  }

  lemma HoldsOneMore(o: multiset<PortPair>, c: Call, p: PortPair)
    requires c.hook == None && c.taps == []
    ensures Holds(c.(hook := Some([]))) == Holds(c)
    ensures o + multiset(Holds(c.(hook := Some([p])))) == o + multiset(Holds(c)) + multiset{p}
  {
    assert Holds(c.(hook := Some([p]))) == Holds(c) + [p];
  }

  lemma SecuredBalances(o: multiset<PortPair>, offer: string, host: string, isIP: string -> bool, net: Fortune,
                        a: Alloc, c: Call)
    requires c.state == CallState.Setup && c.hook == None && c.taps == [] && OnlyOut(o + multiset(Holds(c)), a)
    ensures Balanced(o, SecuredEnd(offer, host, isIP, net, a, c))
  {
    TakeMoves(a);
    var (b, p) := Take(a);
    if net.secured.None? {
      DownBalances(o, a, c);
    } else if p.None? {
      HoldsOneMore(o, c, PortPair(0, 0));
      DownBalances(o, b, c.(hook := Some([])));
    } else {
      HoldsOneMore(o, c, p.value);
      if net.sides.calleeBinds {
        SecuredDialBalances(o, offer, net.secured.value, host, p.value.rtp, isIP, net, b, c.(hook := Some([p.value])));
      } else {
        GivesBack(b, o + multiset(Holds(c)), p.value);
        DownBalances(o, Give(b, p.value), c.(hook := Some([])));
      }
    }
  }

  lemma MediaBalances(o: multiset<PortPair>, offer: string, host: string, isIP: string -> bool, net: Fortune,
                      a: Alloc, c: Call)
    requires c.state == CallState.Setup && c.hook == None && c.taps == [] && OnlyOut(o + multiset(Holds(c)), a)
    ensures Balanced(o, MediaEnd(offer, host, isIP, net, a, c))
  {
    if WebRtc(Lines(offer)) {
      SecuredBalances(o, offer, host, isIP, net, a, c);
    } else {
      PlainBalances(o, offer, host, isIP, net, a, c);
    }
  }

  lemma FailedBalances(o: multiset<PortPair>, a: Alloc, c: Call, status: int)
    requires c.state != TearingDown && OnlyOut(o + multiset(Holds(c)), a)
    ensures Balanced(o, FailedEnd(a, c, status))
  {
    DownBalances(o, a, c);
  }

  /** A fresh call, as its bridge takes it up. */
  predicate Begins(c: Call) {
    && c.state == CallState.Setup && c.pending == [] && c.hook == None && c.taps == []
    && c.legs.apps == [] && c.undo.winner == NoWinner
  }

  lemma StashHeld(c: Call, st: Chained)
    requires Begins(c)
    ensures var d := AfterChain(c, st);
      Holds(d) == Pairs(st.pending) && d.state == CallState.Setup && d.hook == None && d.taps == []
  {
  }

  /** Whatever the applications, the network and the sockets do: an established call holds
      exactly its hook's pairs and its taps' on top of what was out, and one that is not has
      given back every pair it acquired in any phase. It is established exactly when it was
      answered with a 200 that could be delivered. */
  lemma BridgeBalances(s: Setup, isIP: string -> bool, net: Fortune, a: Alloc, c: Call)
    requires |s.apps| == |s.nets| && AllocInv(a) && Begins(c)
    ensures Balanced(Out(a), BridgeEnd(s, isIP, net, a, c))
  {
    ChainHolds(s, a);
    var (st, v) := ChainFrom(s, 0, ChainLaws.Fresh(a));
    var d := AfterChain(c, st);
    StashHeld(c, st);
    if v.Stop? {
      FailedBalances(Out(a), st.alloc, d, v.status);
    } else {
      MediaBalances(Out(a), s.offer, s.host, isIP, net, st.alloc, d);
    }
  }

  /** An end's state and what it holds, by what was answered. */
  ghost predicate Settled(e: End, respondOk: bool) {
    if e.reply.Ok? && respondOk then e.call.state == Established && e.call.pending == [] && e.call.hook.Some?
    else e.call.state == TearingDown && e.call.pending == []
  }

  lemma FailedSettled(a: Alloc, c: Call, status: int, respondOk: bool)
    requires c.state != TearingDown
    ensures Settled(FailedEnd(a, c, status), respondOk)
  {
    DownIs(a, c);
  }

  lemma ConcludedSettled(a: Alloc, c: Call, offered: bool, leg: Dialing, isIP: string -> bool,
                         answer: Result<string, int>, respondOk: bool)
    requires c.state == CallState.Setup && c.hook.Some?
    ensures Settled(Concluded(a, DialledOn(c, offered, leg, isIP), answer, respondOk), respondOk)
  {
    var d := DialledOn(c, offered, leg, isIP);
    DialledKeeps(c, offered, leg, isIP);
    if answer.Err? {
      DownIs(a, d);
    } else if !respondOk {
      DownIs(a, EstablishedOn(d, answer.value));
    }
  }

  /** A call ends established exactly when it was answered and the answer could be delivered. */
  lemma EndStates(s: Setup, isIP: string -> bool, net: Fortune, a: Alloc, c: Call)
    requires |s.apps| == |s.nets| && Begins(c)
    ensures Settled(BridgeEnd(s, isIP, net, a, c), net.respondOk)
  {
    var (st, v) := ChainFrom(s, 0, ChainLaws.Fresh(a));
    var d := AfterChain(c, st);
    if v.Stop? {
      FailedSettled(st.alloc, d, v.status, net.respondOk);
    } else if WebRtc(Lines(s.offer)) {
      SecuredSettled(s.offer, s.host, isIP, net, st.alloc, d);
    } else {
      PlainSettled(s.offer, s.host, isIP, net, st.alloc, d);
    }
  }

  lemma PlainSettled(offer: string, host: string, isIP: string -> bool, net: Fortune, a: Alloc, c: Call)
    requires c.state == CallState.Setup
    ensures Settled(PlainEnd(offer, host, isIP, net, a, c), net.respondOk)
  {
    var (e, t) := (Media(Lines(offer), isIP), TryTap(a, net.sides));
    if e.Err? {
      FailedSettled(a, c, 488, net.respondOk);
    } else if t.1.Err? {
      FailedSettled(t.0, c, if t.1.error == Exhausted then 503 else 500, net.respondOk);
    } else {
      var (p, q) := (t.1.value.caller.rtp, t.1.value.callee.rtp);
      ConcludedSettled(t.0, AnchoredOn(c, e.value, t.1.value), Rewrite(offer, host, q).Ok?, net.pbx, isIP,
                       PlainAnswer(offer, host, p, q, isIP, net.pbx), net.respondOk);
    }
  }

  lemma SecuredSettled(offer: string, host: string, isIP: string -> bool, net: Fortune, a: Alloc, c: Call)
    requires c.state == CallState.Setup
    ensures Settled(SecuredEnd(offer, host, isIP, net, a, c), net.respondOk)
  {
    var (b, p) := Take(a);
    if net.secured.None? {
      FailedSettled(a, c, 488, net.respondOk);
    } else if p.None? {
      FailedSettled(b, c.(hook := Some([])), 503, net.respondOk);
    } else if !net.sides.calleeBinds {
      FailedSettled(Give(b, p.value), c.(hook := Some([])), 500, net.respondOk);
    } else {
      ConcludedSettled(b, c.(hook := Some([p.value])), Extract(Lines(offer)).Ok?, net.pbx, isIP,
                       SecuredAnswer(offer, net.secured.value, isIP, net.pbx), net.respondOk);
    }
  }
}
