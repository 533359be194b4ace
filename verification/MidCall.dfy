/** Requests inside an established call: re-INVITE, session refresh and REFER. */
module MidCall {
  import opened CallObject
  import opened Lifecycle
  import opened Ports
  import opened Sdp
  import opened SdpLaws
  import opened Text
  import opened Wrappers

  datatype Response = Response(status: int, body: string)

  /** What the PBX does with a re-INVITE; NoContact when its dialog gave no address. */
  datatype PbxNet = NoContact | Broken | Final(status: int, body: string)

  /** The body and the PBX's answer to it both describe media. */
  predicate Agreed(body: string, net: PbxNet, isIP: string -> bool) {
    && Media(Lines(body), isIP).Ok?
    && net.Final? && net.status < 300 && Media(Lines(net.body), isIP).Ok?
  }

  /** What a call negotiated and where its two sides send. */
  datatype Anchors = Anchors(answer: Option<string>, ep: Option<Remote>, pbx: Option<Remote>)

  /** Everything mid-call requests and teardown write on an established call. */
  datatype Moment = Moment(state: CallState, anchors: Anchors, target: Option<nat>, detached: bool)

  function MomentOf(call: BridgedCall): Moment
    requires call.media != null
    reads call, call.media, call.media.endpointSide, call.media.pbxSide
  {
    Moment(call.state, Anchors(call.pbxAnswer, RemoteAt(call.media.endpointSide), RemoteAt(call.media.pbxSide)),
           call.target, call.inboundDetached)
  }

  /** The lock is free: other goroutines leave the call as m says. A call's sides stay. */
  method Meanwhile(call: BridgedCall, m: Moment)
    requires call.media != null && call.media.endpointSide != null && call.media.pbxSide != null && call.media.Valid()
    modifies call`state, call`pbxAnswer, call`target, call`inboundDetached
    modifies call.media.endpointSide`remote, call.media.pbxSide`remote
    ensures MomentOf(call) == m
  {
    call.state, call.target, call.inboundDetached := m.state, m.target, m.detached;
    call.pbxAnswer := m.anchors.answer;
    call.media.endpointSide.SetRemote(m.anchors.ep);
    call.media.pbxSide.SetRemote(m.anchors.pbx);
  }

  /** The call has a plain endpoint side to renegotiate. */
  predicate Plain(call: BridgedCall)
    reads call, call.media
  {
    call.media != null && call.media.endpointSide != null
  }

  /** A plain established call has both sides and a stored PBX answer. */
  ghost predicate Ready(call: BridgedCall)
    reads call, call.media
  {
    call.state == Established && Plain(call) ==>
      call.media.Valid() && call.media.pbxSide != null && call.pbxAnswer.Some?
  }

  /** The side sends its RTP there and its RTCP to the next port. */
  predicate SendsTo(side: AnchorSide, e: Endpoint)
    reads side
  {
    side.remote == Some(Remote(e.host, e.port, e.port + 1))
  }

  /** Both remotes and the stored answer replaced at once. */
  function Reanchored(m: Moment, e: Endpoint, answer: string, isIP: string -> bool): Moment
    requires Media(Lines(answer), isIP).Ok?
  {
    m.(anchors := Anchors(Some(answer), Some(RemoteOf(e)), Some(RemoteOf(Media(Lines(answer), isIP).value))))
  }

  /** handleReInvite. Past the guard others may leave the call in any state before the second
      critical section, and the handler's answer does not depend on it. The endpoint is answered
      once. Either with a 200, and then both remotes and the stored answer are replaced together
      and nothing else is; or with an error, and then what the others left stays. Past the
      parsing of the PBX answer nothing can fail any more. */
  method HandleReInvite(call: BridgedCall, host: string, isIP: string -> bool, body: string, net: PbxNet,
                        between: Moment)
    returns (r: Response, reOffer: Option<string>)
    requires Ready(call)
    modifies call`state, call`pbxAnswer, call`target, call`inboundDetached
    modifies if call.media == null then {} else {call.media.endpointSide, call.media.pbxSide}
    ensures old(call.state != Established) ==> r.status == 481
    ensures old(call.state == Established && !Plain(call)) ==> r.status == 488
    ensures old(call.state != Established || !Plain(call)) ==>
              reOffer == None && (call.media != null ==> MomentOf(call) == old(MomentOf(call)))
    ensures old(call.state == Established && Plain(call)) && body != "" ==>
              && (Media(Lines(body), isIP).Err? ==> r.status == 488)
              && (Media(Lines(body), isIP).Ok? && reOffer.None? ==> r.status == 500)
              && (reOffer.Some? && net.Broken? ==> r.status == 503)
              && (reOffer.Some? && net.Final? && net.status >= 300 ==> r == Response(net.status, net.body))
              && (reOffer.Some? && net.Final? && net.status < 300 ==>
                    r.status == if Media(Lines(net.body), isIP).Ok? then 200 else 488)
              && (r.status == 200 <==> Agreed(body, net, isIP) && host != "" && call.media.pbxSide.pair.rtp > 0)
              && (reOffer.None? <==> Media(Lines(body), isIP).Err? || host == "" || call.media.pbxSide.pair.rtp <= 0
                                     || net.NoContact?)
              && (reOffer.Some? ==> Rewrite(body, host, call.media.pbxSide.pair.rtp) == Ok(reOffer.value))
              && (if r.status == 200 then
                    && Rewrite(net.body, host, call.media.endpointSide.pair.rtp) == Ok(r.body)
                    && MomentOf(call) == Reanchored(between, Media(Lines(body), isIP).value, net.body, isIP)
                    && call.pbxAnswer == Some(net.body)
                    && SendsTo(call.media.endpointSide, Media(Lines(body), isIP).value)
                    && SendsTo(call.media.pbxSide, Media(Lines(net.body), isIP).value)
                  else MomentOf(call) == between)
    ensures old(call.state == Established && Plain(call)) && body == "" ==>
              && MomentOf(call) == between && reOffer == None
              && r == match Rewrite(old(call.pbxAnswer).value, host, call.media.endpointSide.pair.rtp)
                      case Ok(again) => Response(200, again)
                      case Err(_) => Response(500, "")
  {
    if call.state != Established {
      return Response(481, ""), None;
    }
    if call.media == null || call.media.endpointSide == null {
      return Response(488, ""), None;
    }
    var media, epPort, pbxPort := call.media, call.media.endpointSide.pair.rtp, call.media.pbxSide.pair.rtp;
    var pbxAnswer := call.pbxAnswer.value;
    Meanwhile(call, between);
    if body == "" {
      var again := RewriteToAnchor(pbxAnswer, host, epPort);
      if again.Err? {
        return Response(500, ""), None;
      }
      return Response(200, again.value), None;
    }
    var ep := ParseMedia(body, isIP);
    if ep.Err? {
      return Response(488, ""), None;
    }
    ParsedCanBeAnchored(body, isIP, host, pbxPort);
    var offer := RewriteToAnchor(body, host, pbxPort);
    if offer.Err? {
      return Response(500, ""), None;
    }
    if net.NoContact? {
      return Response(500, ""), None;
    }
    reOffer := Some(offer.value);
    if net.Broken? {
      return Response(503, ""), reOffer;
    }
    if net.status >= 300 {
      return Response(net.status, net.body), reOffer;
    }
    var pbx := ParseMedia(net.body, isIP);
    if pbx.Err? {
      return Response(488, ""), reOffer;
    }
    media.endpointSide.SetRemote(Some(RemoteOf(ep.value)));
    media.pbxSide.SetRemote(Some(RemoteOf(pbx.value)));
    call.pbxAnswer := Some(net.body);
    var answer := RewriteToAnchor(net.body, host, epPort);
    ParsedCanBeAnchored(net.body, isIP, host, epPort);
    if answer.Err? {
      assert false;
    }
    return Response(200, answer.value), reOffer;
  }

  // ----- REFER ---------------------------------------------------------------

  /** How a transfer fares: the header is missing or does not parse, the target cannot be
      reached, does not answer, or answers with a body. */
  datatype TargetNet = BadReferTo | Unreachable | Unanswered | TargetAnswered(body: string)

  /** What the referrer and the target hear: a response, a NOTIFY, a BYE. */
  datatype Sent = Responded(status: int) | Notified(status: int) | ByeTarget | ByeReferrer

  /** The transfer goes through. */
  predicate Transfers(offer: Result<string, SdpError>, net: TargetNet, isIP: string -> bool) {
    offer.Ok? && net.TargetAnswered? && Media(Lines(net.body), isIP).Ok?
  }

  /** The outcome the referrer is notified of, and whether the target is sent away again. */
  function Outcome(offer: Result<string, SdpError>, net: TargetNet, isIP: string -> bool): (int, bool) {
    match net
    case BadReferTo => (400, false)
    case _ =>
      if offer.Err? then (500, false)
      else match net
        case Unreachable => (503, false)
        case Unanswered => (503, true)
        case _ => if Transfers(offer, net, isIP) then (200, false) else (488, true)
  }

  /** What the referrer and the target hear up to the outcome. A referrer that gave no Contact in
      its INVITE gets no NOTIFY. */
  function Heard(offer: Result<string, SdpError>, net: TargetNet, isIP: string -> bool, contact: bool): seq<Sent> {
    var (status, goes) := Outcome(offer, net, isIP);
    [Responded(202)] + (if goes then [ByeTarget] else []) + (if contact then [Notified(status)] else [])
  }

  /** Outcome by outcome, for a referrer that gave a Contact: what is notified, and when the target
      gets a BYE before that. */
  lemma HeardIs(offer: Result<string, SdpError>, net: TargetNet, isIP: string -> bool)
    ensures var heard := Heard(offer, net, isIP, true);
      && (net.BadReferTo? ==> heard == [Responded(202), Notified(400)])
      && (!net.BadReferTo? && offer.Err? ==> heard == [Responded(202), Notified(500)])
      && (net.Unreachable? && offer.Ok? ==> heard == [Responded(202), Notified(503)])
      && (net.Unanswered? && offer.Ok? ==> heard == [Responded(202), ByeTarget, Notified(503)])
      && (net.TargetAnswered? && offer.Ok? && Media(Lines(net.body), isIP).Err? ==>
            heard == [Responded(202), ByeTarget, Notified(488)])
      && (net.TargetAnswered? && offer.Ok? && Media(Lines(net.body), isIP).Ok? ==>
            heard == [Responded(202), Notified(200)])
    ensures var (heard, all) := (Heard(offer, net, isIP, false), Heard(offer, net, isIP, true));
      heard == all[..|all| - 1]
  {
  }

  /** sendReferNotify. */
  method Notify(sent: seq<Sent>, status: int, contact: bool) returns (more: seq<Sent>)
    ensures more == sent + (if contact then [Notified(status)] else [])
  {
    more := sent;
    if contact {
      more := more + [Notified(status)];
    }
  }

  /** handleRefer up to its second critical section, before which others may act: a transfer
      that goes through moves the endpoint side to the target and records the target, and
      nothing else is written; any other outcome writes nothing. The application legs, the PBX
      leg, the stored PBX answer and the PBX side are never touched. */
  method Transfer(call: BridgedCall, host: string, isIP: string -> bool, net: TargetNet, leg: nat, contact: bool,
                  between: Moment)
    returns (sent: seq<Sent>, offered: Option<string>, ok: bool)
    requires Ready(call)
    modifies call`state, call`pbxAnswer, call`target, call`inboundDetached
    modifies if call.media == null then {} else {call.media.endpointSide, call.media.pbxSide}
    ensures old(call.state != Established) ==> sent == [Responded(403)]
    ensures old(call.state == Established && !Plain(call)) ==> sent == [Responded(488)]
    ensures old(call.state != Established || !Plain(call)) ==>
              offered == None && !ok && (call.media != null ==> MomentOf(call) == old(MomentOf(call)))
    ensures old(call.state == Established && Plain(call)) ==>
              var offer := Rewrite(old(call.pbxAnswer).value, host, call.media.endpointSide.pair.rtp);
              && sent == Heard(offer, net, isIP, contact)
              && offered == (if offer.Ok? && !net.BadReferTo? then Some(offer.value) else None)
              && ok == Transfers(offer, net, isIP)
              && (ok <==> offer.Ok? && net.TargetAnswered? && Media(Lines(net.body), isIP).Ok?)
              && (ok ==>
                    call.target == Some(leg) && SendsTo(call.media.endpointSide, Media(Lines(net.body), isIP).value))
              && MomentOf(call) == if ok then Moved(between, Media(Lines(net.body), isIP).value, leg) else between
  {
    if call.state != Established {
      return [Responded(403)], None, false;
    }
    if call.media == null || call.media.endpointSide == null {
      return [Responded(488)], None, false;
    }
    var media, epPort := call.media, call.media.endpointSide.pair.rtp;
    var pbxAnswer := call.pbxAnswer.value;
    Meanwhile(call, between);
    sent, offered, ok := [Responded(202)], None, false;
    if net.BadReferTo? {
      sent := Notify(sent, 400, contact);
      return;
    }
    var offer := RewriteToAnchor(pbxAnswer, host, epPort);
    if offer.Err? {
      sent := Notify(sent, 500, contact);
      return;
    }
    offered := Some(offer.value);
    if net.Unreachable? {
      sent := Notify(sent, 503, contact);
      return;
    }
    if net.Unanswered? {
      sent := Notify(sent + [ByeTarget], 503, contact);
      return;
    }
    var target := ParseMedia(net.body, isIP);
    if target.Err? {
      sent := Notify(sent + [ByeTarget], 488, contact);
      return;
    }
    media.endpointSide.SetRemote(Some(RemoteOf(target.value)));
    call.target := Some(leg);
    sent := Notify(sent, 200, contact);
    ok := true;
  }

  function Moved(m: Moment, e: Endpoint, leg: nat): Moment {
    m.(anchors := m.anchors.(ep := Some(RemoteOf(e))), target := Some(leg))
  }

  /** handleRefer. While the referrer is notified of a transfer that went through others may act
      again; then the inbound leg is detached, and only after that it gets its BYE. */
  method HandleRefer(call: BridgedCall, host: string, isIP: string -> bool, net: TargetNet, leg: nat, contact: bool,
                     between: Moment, later: Moment)
    returns (sent: seq<Sent>, offered: Option<string>)
    requires Ready(call)
    modifies call`state, call`pbxAnswer, call`target, call`inboundDetached
    modifies if call.media == null then {} else {call.media.endpointSide, call.media.pbxSide}
    ensures old(call.state == Established && Plain(call)) ==>
              var offer := Rewrite(old(call.pbxAnswer).value, host, call.media.endpointSide.pair.rtp);
              && sent == Heard(offer, net, isIP, contact) + (if Transfers(offer, net, isIP) then [ByeReferrer] else [])
              && offered == (if offer.Ok? && !net.BadReferTo? then Some(offer.value) else None)
              && MomentOf(call) == if Transfers(offer, net, isIP) then later.(detached := true) else between
    ensures old(call.state != Established || !Plain(call)) ==>
              && sent == [Responded(if old(call.state) != Established then 403 else 488)] && offered == None
              && (call.media != null ==> MomentOf(call) == old(MomentOf(call)))
  {
    var ok;
    sent, offered, ok := Transfer(call, host, isIP, net, leg, contact, between);
    if ok {
      Meanwhile(call, later);
      call.DetachInbound();
      sent := sent + [ByeReferrer];
    }
  }

  // ----- The handlers' sections are the machine's ----------------------------

  /** What the step machine says mid-call requests write. */
  function MomentIn(c: Call, detached: bool): Moment {
    Moment(c.state, Anchors(c.neg.answer, c.neg.epRemote, c.neg.pbxRemote), c.legs.target, detached)
  }

  /** A handler past its guard, on a call in whatever state the others left it, ends in the
      machine's commit exactly where HandleReInvite answers 200, and the two leave the same
      behind; the body of the 200 is what the machine records as the endpoint's answer. */
  lemma ReInviteIsAStep(cfg: Config, c: Call, e: Endpoint, sdp: string, detached: bool)
    requires c.neg.reInvites > 0 && LockFree(c) && c.neg.epPort.Some? && c.neg.epPort.value > 0 && cfg.mediaHost != ""
    ensures var step := Aside(cfg, c, ReInviteCommit(e, sdp));
      && (step.Some? <==> Media(Lines(sdp), cfg.isIP).Ok?)
      && (step.Some? ==>
            && MomentIn(step.value, detached) == Reanchored(MomentIn(c, detached), e, sdp, cfg.isIP)
            && step.value.neg.epAnswer.Some?
            && Rewrite(sdp, cfg.mediaHost, c.neg.epPort.value) == Ok(step.value.neg.epAnswer.value))
      && Aside(cfg, c, ReInviteDrop).Some?
      && MomentIn(Aside(cfg, c, ReInviteDrop).value, detached) == MomentIn(c, detached)
  {
    if Media(Lines(sdp), cfg.isIP).Ok? {
      ParsedCanBeAnchored(sdp, cfg.isIP, cfg.mediaHost, c.neg.epPort.value);
    }
  }

  lemma ReferIsAStep(cfg: Config, c: Call, e: Endpoint, detached: bool)
    requires c.neg.refers > 0 && LockFree(c)
    ensures var step := Aside(cfg, c, ReferCommit(e));
      && step.Some? && MomentIn(step.value, detached) == Moved(MomentIn(c, detached), e, c.legs.targets)
      && Aside(cfg, c, ReferDrop).Some? && MomentIn(Aside(cfg, c, ReferDrop).value, detached) == MomentIn(c, detached)
  {
  }
}
