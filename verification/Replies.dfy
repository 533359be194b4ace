/** What the caller is answered and what the PBX is offered, case by case, with the statuses written
    out. */
module Replies {
  import opened AppChain
  import opened ChainAnswers
  import opened ChainLaws
  import opened Endings
  import opened Lifecycle
  import opened Ports
  import opened Sdp
  import opened Text
  import opened Wrappers

  /** What the PBX leg comes to: 500 for a URI that does not parse, 503 when no leg can be originated
      or it times out, the PBX's own status when it rejects, 488 for an answer without media. */
  lemma LegReply(leg: Dialing, isIP: string -> bool)
    ensures leg.BadUri? ==> PbxResult(leg, isIP) == Err(500)
    ensures leg.Unreached? ==> PbxResult(leg, isIP) == Err(503)
    ensures leg == Unanswered(None) ==> PbxResult(leg, isIP) == Err(503)
    ensures leg.Unanswered? && leg.status.Some? ==> PbxResult(leg, isIP) == Err(leg.status.value)
    ensures leg.Replied? && Media(Lines(leg.body), isIP).Err? ==> PbxResult(leg, isIP) == Err(488)
    ensures leg.Replied? && Media(Lines(leg.body), isIP).Ok? ==> PbxResult(leg, isIP) == Ok(leg.body)
  {
  }

  /** What a plain caller is answered, once the chain has gone through: 488 for an offer without
      media, 503 when two pairs cannot be had, 500 when one cannot be bound or the offer cannot be
      anchored, what the PBX leg comes to, and otherwise the PBX's answer anchored at the first of
      the two pairs. */
  lemma PlainReply(offer: string, host: string, isIP: string -> bool, net: Fortune, a: Alloc, c: Call)
    ensures var (e, r) := (Media(Lines(offer), isIP), PlainEnd(offer, host, isIP, net, a, c).reply);
      && (e.Err? ==> r == Err(488))
      && (e.Ok? && Room(a) < 2 ==> r == Err(503))
      && (e.Ok? && Room(a) >= 2 && !(net.sides.callerBinds && net.sides.calleeBinds) ==> r == Err(500))
      && (e.Ok? && Room(a) >= 2 && net.sides.callerBinds && net.sides.calleeBinds ==>
            Take(a).1.Some? && Take(Take(a).0).1.Some? &&
            var (p, q) := (Take(a).1.value.rtp, Take(Take(a).0).1.value.rtp);
            && (Rewrite(offer, host, q).Err? ==> r == Err(500))
            && (Rewrite(offer, host, q).Ok? && PbxResult(net.pbx, isIP).Err? ==>
                  r == Err(PbxResult(net.pbx, isIP).error))
            && (Rewrite(offer, host, q).Ok? && PbxResult(net.pbx, isIP).Ok? ==>
                  r == if Rewrite(net.pbx.body, host, p).Ok? then Ok(Rewrite(net.pbx.body, host, p).value)
                       else Err(500)))
  {
    TryTapRoom(a, net.sides);
    TakeRoom(a);
    TakeRoom(Take(a).0);
  }

  /** What a webphone is answered: 488 when its secured leg cannot be brought up, 503 when no pair can
      be had, 500 when it cannot be bound or the offer has no audio, what the PBX leg comes to, and
      otherwise the secured leg's own SDP, whatever the PBX said. */
  lemma SecuredReply(offer: string, host: string, isIP: string -> bool, net: Fortune, a: Alloc, c: Call)
    ensures var r := SecuredEnd(offer, host, isIP, net, a, c).reply;
      && (net.secured.None? ==> r == Err(488))
      && (net.secured.Some? && Room(a) < 1 ==> r == Err(503))
      && (net.secured.Some? && Room(a) >= 1 && !net.sides.calleeBinds ==> r == Err(500))
      && (net.secured.Some? && Room(a) >= 1 && net.sides.calleeBinds ==>
            && (Extract(Lines(offer)).Err? ==> r == Err(500))
            && (Extract(Lines(offer)).Ok? && PbxResult(net.pbx, isIP).Err? ==> r == Err(PbxResult(net.pbx, isIP).error))
            && (Extract(Lines(offer)).Ok? && PbxResult(net.pbx, isIP).Ok? ==> r == Ok(net.secured.value)))
  {
    TakeRoom(a);
  }

  /** The PBX can be dialed: its side has a pair and the offer at that pair can be made, the sides
      bind, the endpoint's leg is there, and there is somebody to dial. */
  predicate Dials(s: Setup, isIP: string -> bool, net: Fortune, a: Alloc)
    requires |s.apps| == |s.nets|
  {
    && PbxOffer(s, a).Some? && PbxOffer(s, a).value.Ok? && !net.pbx.BadUri? && net.sides.calleeBinds
    && if WebRtc(Lines(s.offer)) then net.secured.Some? else net.sides.callerBinds && Media(Lines(s.offer), isIP).Ok?
  }

  /** The PBX is dialed exactly then, and with that offer: the one that ChainAnswers is about. */
  lemma BridgeDials(s: Setup, isIP: string -> bool, net: Fortune, a: Alloc, c: Call)
    requires |s.apps| == |s.nets|
    ensures BridgeEnd(s, isIP, net, a, c).dialed
         == if Dials(s, isIP, net, a) then Some(PbxOffer(s, a).value.value) else None
  {
    var (st, v) := ChainFrom(s, 0, ChainLaws.Fresh(a));
    if v.Next? {
      if WebRtc(Lines(s.offer)) {
        SecuredDials(s.offer, s.host, isIP, net, st.alloc, AfterChain(c, st));
      } else {
        PlainDials(s.offer, s.host, isIP, net, st.alloc, AfterChain(c, st));
      }
    }
  }

  lemma PlainDials(offer: string, host: string, isIP: string -> bool, net: Fortune, a: Alloc, c: Call)
    ensures var pair := LastTaken(a, 2);
      PlainEnd(offer, host, isIP, net, a, c).dialed
      == if pair.Some? && net.sides.callerBinds && net.sides.calleeBinds && Media(Lines(offer), isIP).Ok?
            && Rewrite(offer, host, pair.value.rtp).Ok? && !net.pbx.BadUri?
         then Some(Rewrite(offer, host, pair.value.rtp).value) else None
  {
  }

  lemma SecuredDials(offer: string, host: string, isIP: string -> bool, net: Fortune, a: Alloc, c: Call)
    ensures var pair := LastTaken(a, 1);
      SecuredEnd(offer, host, isIP, net, a, c).dialed
      == if pair.Some? && net.sides.calleeBinds && net.secured.Some?
            && PlainFrom(offer, host, pair.value.rtp).Ok? && !net.pbx.BadUri?
         then Some(PlainFrom(offer, host, pair.value.rtp).value) else None
  {
  }
}
