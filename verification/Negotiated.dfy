/** What a call has negotiated: in every reachable established call the PBX side's remotes
    are those of the stored PBX answer, and a session refresh repeats the last anchored
    answer. */
module Negotiated {
  import opened AnchorLaws
  import opened Ledger
  import opened Lifecycle
  import opened Ownership
  import opened Ports
  import opened Runs
  import opened Sdp
  import opened SdpLaws
  import opened Text
  import opened Wrappers

  // ----- Where negotiation can happen ----------------------------------------

  /** The bridge has not marked the call established yet. */
  predicate BeforeUp(pc: Pc) {
    match pc
    case Free(_, next) => !next.ToTeardown?
    case _ => BeforeMedia(pc) || TapsToCome(pc)
  }

  /** Mid-call handlers run only once the call has been established. */
  predicate UpInv(c: Call) {
    BeforeUp(c.pc) ==> c.state != Established && c.neg.reInvites == 0 && c.neg.refers == 0
  }

  lemma UpQuiet(cfg: Config, c: Call, ev: BridgeEvent)
    requires UpInv(c) && Quiet(cfg, c, ev).Some?
    ensures UpInv(Quiet(cfg, c, ev).value)
  {
  }

  lemma UpAlloc(cfg: Config, a: Alloc, c: Call, ev: BridgeEvent)
    requires UpInv(c) && UsesAlloc(ev) && AllocStep(cfg, a, c, ev).Some?
    ensures UpInv(AllocStep(cfg, a, c, ev).value.1)
  {
  }

  lemma UpOther(cfg: Config, a: Alloc, c: Call, ev: OtherEvent)
    requires UpInv(c) && Other(cfg, a, c, ev).Some?
    ensures UpInv(Other(cfg, a, c, ev).value.1)
  {
  }

  lemma UpStep(cfg: Config, a: Alloc, c: Call, ev: CallEvent)
    requires UpInv(c) && CallStep(cfg, a, c, ev).Some?
    ensures UpInv(CallStep(cfg, a, c, ev).value.1)
  {
    match ev
    case OfBridge(b) => if UsesAlloc(b) { UpAlloc(cfg, a, c, b); } else { UpQuiet(cfg, c, b); }
    case OfOther(o) => UpOther(cfg, a, c, o);
  }

  // ----- The remotes follow the stored answer --------------------------------

  predicate Pointed(cfg: Config, n: Negotiation) {
    && n.answer.Some?
    && Media(Lines(n.answer.value), cfg.isIP).Ok?
    && n.pbxRemote == Some(RemoteOf(Media(Lines(n.answer.value), cfg.isIP).value))
  }

  /** What a session refresh would answer is what the endpoint was last answered. */
  predicate Refreshable(cfg: Config, n: Negotiation) {
    n.epPort.Some? && n.epAnswer.Some? ==>
      n.answer.Some? && Rewrite(n.answer.value, cfg.mediaHost, n.epPort.value) == Ok(n.epAnswer.value)
  }

  /** Established, or established once and still renegotiating. */
  predicate WasUp(c: Call) {
    c.state == Established || c.neg.reInvites > 0 || c.neg.refers > 0
  }

  predicate NegInv(cfg: Config, c: Call) {
    && (BeforeUp(c.pc) ==> c.neg.epAnswer.None?)
    && (c.pc.Answered? ==> c.neg.answer == Some(c.pc.sdp))
    && (c.pc.Ready? ==> c.neg.answer == Some(c.pc.sdp) && Pointed(cfg, c.neg))
    && (c.pc.Establishing? || WasUp(c) ==> Pointed(cfg, c.neg) && (c.neg.epPort.Some? ==> c.neg.epAnswer.Some?))
    && Refreshable(cfg, c.neg)
    && (c.neg.epPort.Some? ==> c.neg.epPort.value > 0)
  }

  lemma NegSame(cfg: Config, c: Call, d: Call)
    requires NegInv(cfg, c) && d.neg == c.neg
    requires BeforeUp(d.pc) ==> BeforeUp(c.pc)
    requires !d.pc.Answered? && !d.pc.Ready? && (d.pc.Establishing? ==> c.pc.Establishing?)
    requires d.state == Established ==> WasUp(c)
    ensures NegInv(cfg, d)
  {
  }

  lemma NegQuiet(cfg: Config, c: Call, ev: BridgeEvent)
    requires NegInv(cfg, c) && UpInv(c) && Quiet(cfg, c, ev).Some?
    requires !ev.Register? && !ev.PbxAnswered? && !ev.PointPbx? && !ev.Establish?
    ensures NegInv(cfg, Quiet(cfg, c, ev).value)
  {
    NegSame(cfg, c, Quiet(cfg, c, ev).value);
  }

  lemma NegRegister(cfg: Config, c: Call)
    requires NegInv(cfg, c) && UpInv(c) && RegisterStep(c).Some?
    requires c.pc.AnchorHeld? ==> c.pc.ep.rtp > 0
    ensures NegInv(cfg, RegisterStep(c).value)
  {
  }

  lemma NegAnswer(cfg: Config, c: Call, ev: BridgeEvent)
    requires NegInv(cfg, c) && UpInv(c) && Quiet(cfg, c, ev).Some? && (ev.PbxAnswered? || ev.PointPbx?)
    ensures NegInv(cfg, Quiet(cfg, c, ev).value)
  {
  }

  lemma NegEstablish(cfg: Config, c: Call)
    requires NegInv(cfg, c) && UpInv(c) && EstablishStep(cfg, c).Some?
    ensures NegInv(cfg, EstablishStep(cfg, c).value)
  {
  }

  lemma NegReInvite(cfg: Config, c: Call, e: Endpoint, sdp: string)
    requires NegInv(cfg, c) && UpInv(c) && ReInviteStep(cfg, c, e, sdp).Some? && cfg.mediaHost != ""
    ensures NegInv(cfg, ReInviteStep(cfg, c, e, sdp).value)
  {
    ParsedCanBeAnchored(sdp, cfg.isIP, cfg.mediaHost, c.neg.epPort.value);
  }

  lemma NegAside(cfg: Config, c: Call, ev: OtherEvent)
    requires NegInv(cfg, c) && UpInv(c) && Aside(cfg, c, ev).Some? && cfg.mediaHost != ""
    ensures NegInv(cfg, Aside(cfg, c, ev).value)
  {
    if ev.ReInviteCommit? {
      NegReInvite(cfg, c, ev.remote, ev.sdp);
    }
  }

  lemma NegWinner(cfg: Config, a: Alloc, c: Call)
    requires NegInv(cfg, c) && WinnerStep(a, c).Some?
    ensures NegInv(cfg, WinnerStep(a, c).value.1)
  {
  }

  lemma NegAlloc(cfg: Config, a: Alloc, c: Call, ev: BridgeEvent)
    requires NegInv(cfg, c) && UpInv(c) && UsesAlloc(ev) && AllocStep(cfg, a, c, ev).Some?
    ensures NegInv(cfg, AllocStep(cfg, a, c, ev).value.1)
  {
    NegSame(cfg, c, AllocStep(cfg, a, c, ev).value.1);
  }

  /** The pair the endpoint side is bound to is a real port. */
  predicate EpPairOk(c: Call) {
    c.pc.AnchorHeld? ==> c.pc.ep.rtp > 0
  }

  lemma NegStep(cfg: Config, a: Alloc, c: Call, ev: CallEvent)
    requires NegInv(cfg, c) && UpInv(c) && EpPairOk(c) && CallStep(cfg, a, c, ev).Some? && cfg.mediaHost != ""
    ensures NegInv(cfg, CallStep(cfg, a, c, ev).value.1)
  {
    match ev
    case OfBridge(b) =>
      if UsesAlloc(b) { NegAlloc(cfg, a, c, b); }
      else if b.Register? { NegRegister(cfg, c); }
      else if b.PbxAnswered? || b.PointPbx? { NegAnswer(cfg, c, b); }
      else if b.Establish? { NegEstablish(cfg, c); }
      else { NegQuiet(cfg, c, b); }
    case OfOther(o) =>
      if o.WinnerMoves? { NegWinner(cfg, a, c); } else { NegAside(cfg, c, o); }
  }

  // ----- Every reachable call ------------------------------------------------

  lemma HeldPortsAreReal(w: World, i: nat)
    requires OwnInv(w) && i < |w.calls| && w.alloc.min > 0
    ensures EpPairOk(w.calls[i])
  {
    var c := w.calls[i];
    if c.pc.AnchorHeld? {
      HeldIsOut(w, i);
      assert c.pc.ep in multiset(Hands(c.pc));
      InFront(multiset(Hands(c.pc)), multiset(Pairs(Stashed(c))), multiset(HookPairs(c)),
              multiset(Pairs(SessionTaps(c))),
              c.pc.ep);
      OutPair(w.alloc, c.pc.ep);
    }
  }

  lemma InFront(h: multiset<PortPair>, a: multiset<PortPair>, b: multiset<PortPair>, t: multiset<PortPair>, p: PortPair)
    requires p in h
    ensures p in h + a + b + t
  {
  }

  lemma {:induction false} Holds(cfg: Config, min: int, max: int, acts: seq<Action>, i: nat)
    requires 0 < min <= max && cfg.mediaHost != "" && Run(cfg, Start(min, max), acts).Some?
    requires i < |Run(cfg, Start(min, max), acts).value.calls|
    ensures NegInv(cfg, Run(cfg, Start(min, max), acts).value.calls[i])
    ensures UpInv(Run(cfg, Start(min, max), acts).value.calls[i])
    decreases |acts|
  {
    if acts != [] {
      var n := |acts| - 1;
      var w := Run(cfg, Start(min, max), acts[..n]).value;
      RunKeeps(cfg, min, max, acts[..n]);
      ActionOn(cfg, w, acts[n], i);
      if i < |w.calls| {
        Holds(cfg, min, max, acts[..n], i);
        HeldPortsAreReal(w, i);
        if acts[n].Act? && acts[n].i == i {
          NegStep(cfg, w.alloc, w.calls[i], acts[n].ev);
          UpStep(cfg, w.alloc, w.calls[i], acts[n].ev);
        }
      }
    }
  }

  /** In every reachable world an established call's PBX side faces the address and port its
      stored PBX answer gives, with RTCP on the next port. */
  lemma RemotesFollowAnswer(cfg: Config, min: int, max: int, acts: seq<Action>, i: nat)
    requires 0 < min <= max && cfg.mediaHost != "" && Run(cfg, Start(min, max), acts).Some?
    requires i < |Run(cfg, Start(min, max), acts).value.calls|
    requires Run(cfg, Start(min, max), acts).value.calls[i].state == Established
    ensures var n := Run(cfg, Start(min, max), acts).value.calls[i].neg;
      && n.answer.Some? && Media(Lines(n.answer.value), cfg.isIP).Ok? && n.pbxRemote.Some?
      && n.pbxRemote.value.host == Media(Lines(n.answer.value), cfg.isIP).value.host
      && n.pbxRemote.value.rtp == Media(Lines(n.answer.value), cfg.isIP).value.port
      && n.pbxRemote.value.rtcp == n.pbxRemote.value.rtp + 1
  {
    Holds(cfg, min, max, acts, i);
  }

  /** On an established plain call a session refresh is never refused, and what it answers is,
      byte for byte, the anchored answer the endpoint was given last. */
  lemma RefreshRepeats(cfg: Config, min: int, max: int, acts: seq<Action>, i: nat)
    requires 0 < min <= max && cfg.mediaHost != "" && Run(cfg, Start(min, max), acts).Some?
    requires i < |Run(cfg, Start(min, max), acts).value.calls|
    requires MidCallOk(Run(cfg, Start(min, max), acts).value.calls[i])
    ensures var n := Run(cfg, Start(min, max), acts).value.calls[i].neg;
      && n.answer.Some? && n.epAnswer.Some?
      && Rewrite(n.answer.value, cfg.mediaHost, n.epPort.value) == Ok(n.epAnswer.value)
  {
    Holds(cfg, min, max, acts, i);
  }

  /** Once a PBX answer has been parsed, anchoring it for the endpoint cannot fail: the dialing
      bridge has no refusal left on a plain call, and a re-INVITE that commits always has a 200
      to answer with. */
  lemma AnchoringNeverFails(cfg: Config, min: int, max: int, acts: seq<Action>, i: nat, e: Endpoint, sdp: string)
    requires 0 < min <= max && cfg.mediaHost != "" && Run(cfg, Start(min, max), acts).Some?
    requires i < |Run(cfg, Start(min, max), acts).value.calls|
    ensures var c := Run(cfg, Start(min, max), acts).value.calls[i];
      && (c.pc.Ready? && c.neg.epPort.Some? ==> RefuseStep(cfg, c).None? && EstablishStep(cfg, c).Some?)
      && (ReInviteStep(cfg, c, e, sdp).Some? ==> ReInviteStep(cfg, c, e, sdp).value.neg.epAnswer.Some?)
  {
    Holds(cfg, min, max, acts, i);
    var c := Run(cfg, Start(min, max), acts).value.calls[i];
    if c.neg.epPort.Some? {
      if Media(Lines(sdp), cfg.isIP).Ok? {
        ParsedCanBeAnchored(sdp, cfg.isIP, cfg.mediaHost, c.neg.epPort.value);
      }
      if c.pc.Ready? {
        ParsedCanBeAnchored(c.pc.sdp, cfg.isIP, cfg.mediaHost, c.neg.epPort.value);
      }
    }
  }

  /** The endpoint of an established plain call was answered with the PBX's codecs, so no
      mismatch is counted, and when the PBX answer has one connection line and one audio line
      the endpoint reads the sequencer's own host and port from it. */
  lemma EndpointAnchored(cfg: Config, min: int, max: int, acts: seq<Action>, i: nat)
    requires 0 < min <= max && cfg.mediaHost != "" && Clean(cfg.mediaHost) && Run(cfg, Start(min, max), acts).Some?
    requires i < |Run(cfg, Start(min, max), acts).value.calls|
    requires MidCallOk(Run(cfg, Start(min, max), acts).value.calls[i])
    ensures var n := Run(cfg, Start(min, max), acts).value.calls[i].neg;
      && n.answer.Some? && n.epAnswer.Some?
      && !CountsMismatch(n.epAnswer.value, n.answer.value)
      && (cfg.isIP(cfg.mediaHost) && n.epPort.value <= INT64_MAX && |Select(Lines(n.answer.value), CONN)| == 1
          && OneAudio(Lines(n.answer.value), First(Lines(n.answer.value), AUDIO))
          ==> Media(Lines(n.epAnswer.value), cfg.isIP) == Ok(Endpoint(cfg.mediaHost, n.epPort.value)))
  {
    Holds(cfg, min, max, acts, i);
    var n := Run(cfg, Start(min, max), acts).value.calls[i].neg;
    PlainPathNeverMismatches(n.answer.value, cfg.mediaHost, n.epPort.value);
    if cfg.isIP(cfg.mediaHost) && n.epPort.value <= INT64_MAX && |Select(Lines(n.answer.value), CONN)| == 1
      && OneAudio(Lines(n.answer.value), First(Lines(n.answer.value), AUDIO)) {
      AnchorIsReadOnce(n.answer.value, cfg.isIP, cfg.mediaHost, n.epPort.value);
    }
  }

  // ----- What mid-call requests leave alone ----------------------------------

  lemma PastUpQuiet(cfg: Config, c: Call, ev: BridgeEvent)
    requires !BeforeUp(c.pc) && Quiet(cfg, c, ev).Some?
    ensures var d := Quiet(cfg, c, ev).value;
      !BeforeUp(d.pc) && d.id == c.id && d.legs == c.legs && d.neg == c.neg
  {
  }

  lemma PastUpAlloc(cfg: Config, a: Alloc, c: Call, ev: BridgeEvent)
    requires !BeforeUp(c.pc) && UsesAlloc(ev) && AllocStep(cfg, a, c, ev).Some?
    ensures var d := AllocStep(cfg, a, c, ev).value.1;
      !BeforeUp(d.pc) && d.id == c.id && d.legs == c.legs && d.neg == c.neg
  {
  }

  lemma PastUpOther(cfg: Config, a: Alloc, c: Call, ev: OtherEvent)
    requires !BeforeUp(c.pc) && Other(cfg, a, c, ev).Some?
    ensures var d := Other(cfg, a, c, ev).value.1;
      && !BeforeUp(d.pc) && d.id == c.id && d.legs.apps == c.legs.apps && d.legs.pbx == c.legs.pbx
      && (!ev.ReInviteCommit? ==>
            d.neg.answer == c.neg.answer && d.neg.pbxRemote == c.neg.pbxRemote && d.neg.epAnswer == c.neg.epAnswer
            && d.neg.epPort == c.neg.epPort)
  {
  }

  /** The bridge is past establishing, and the legs and the id are those of c; so is the PBX
      side of the negotiation unless it was renegotiated. */
  ghost predicate Kept(c: Call, d: Call, renegotiated: bool) {
    && !BeforeUp(d.pc) && d.id == c.id && d.legs.apps == c.legs.apps && d.legs.pbx == c.legs.pbx
    && (!renegotiated ==>
          d.neg.answer == c.neg.answer && d.neg.pbxRemote == c.neg.pbxRemote && d.neg.epAnswer == c.neg.epAnswer
          && d.neg.epPort == c.neg.epPort)
  }

  lemma PastUpStep(cfg: Config, a: Alloc, c: Call, ev: CallEvent)
    requires !BeforeUp(c.pc) && CallStep(cfg, a, c, ev).Some?
    ensures Kept(c, CallStep(cfg, a, c, ev).value.1, ev.OfOther? && ev.o.ReInviteCommit?)
  {
    match ev
    case OfBridge(b) => if UsesAlloc(b) { PastUpAlloc(cfg, a, c, b); } else { PastUpQuiet(cfg, c, b); }
    case OfOther(o) => PastUpOther(cfg, a, c, o);
  }

  predicate Renegotiates(ev: CallEvent) {
    ev.OfOther? && ev.o.ReInviteCommit?
  }

  lemma {:induction false} KeptOverRun(cfg: Config, w: World, more: seq<Action>, i: nat)
    requires i < |w.calls| && !BeforeUp(w.calls[i].pc) && Run(cfg, w, more).Some?
    ensures i < |Run(cfg, w, more).value.calls|
    ensures Kept(w.calls[i], Run(cfg, w, more).value.calls[i], !AtEach(cfg, w, more, i, (c, ev) => !Renegotiates(ev)))
    decreases |more|
  {
    if more != [] {
      var n := |more| - 1;
      var v := Run(cfg, w, more[..n]).value;
      KeptOverRun(cfg, w, more[..n], i);
      CallsStay(cfg, v, more[n]);
      ActionOn(cfg, v, more[n], i);
      if more[n].Act? && more[n].i == i {
        PastUpStep(cfg, v.alloc, v.calls[i], more[n].ev);
      }
    }
  }

  /** However an established call goes on - re-INVITEs, REFERs, teardown - its application
      legs, its PBX leg and its id stay as they are; and unless a re-INVITE commits, REFERs
      included, so do the stored PBX answer, the PBX remotes and what a refresh answers. */
  lemma MidCallFrame(cfg: Config, min: int, max: int, acts: seq<Action>, more: seq<Action>, i: nat)
    requires 0 < min <= max && cfg.mediaHost != "" && Run(cfg, Start(min, max), acts).Some?
    requires i < |Run(cfg, Start(min, max), acts).value.calls|
    requires Run(cfg, Start(min, max), acts).value.calls[i].state == Established
    requires Run(cfg, Run(cfg, Start(min, max), acts).value, more).Some?
    ensures i < |Run(cfg, Run(cfg, Start(min, max), acts).value, more).value.calls|
    ensures var w := Run(cfg, Start(min, max), acts).value;
      Kept(w.calls[i], Run(cfg, w, more).value.calls[i], !AtEach(cfg, w, more, i, (c, ev) => !Renegotiates(ev)))
  {
    Holds(cfg, min, max, acts, i);
    KeptOverRun(cfg, Run(cfg, Start(min, max), acts).value, more, i);
  }
}
