/** Setting up a call's media and its PBX leg, after the application chain: each phase either
    goes through or has answered the caller, given everything back and torn the call down. */
module SetUp {
  import opened AppChain
  import opened CallObject
  import opened ChainLaws
  import opened Endings
  import opened Lifecycle
  import opened Ownership
  import opened Ports
  import opened Registry
  import opened Sdp
  import opened SdpLaws
  import opened Teardown
  import opened Text
  import opened Wrappers

  // ----- The call as the machine sees it -------------------------------------

  /** The call is c, as far as c's bridge has come. */
  predicate Same(call: BridgedCall, c: Call)
    reads call, call.media
    reads if call.media == null then {} else {call.media.endpointSide, call.media.pbxSide}
  {
    && call.id == c.id && call.dialog == c.dialog && call.state == c.state && call.pending == c.pending
    && call.hook == c.hook && call.Taps() == c.taps && call.log == c.undo.log
    && Apps(call.appLegs) == c.legs.apps && call.pbxLeg == c.legs.pbx && call.target == c.legs.target
    && call.pbxAnswer == c.neg.answer
    && (if call.media == null then c.neg.epRemote == None && c.neg.pbxRemote == None
        else c.neg.epRemote == RemoteAt(call.media.endpointSide) && c.neg.pbxRemote == RemoteAt(call.media.pbxSide))
  }

  /** The bridge ended as e says, the caller got one final response, a 200 with its body, and the PBX
      was offered what e says. */
  twostate predicate Ends(call: BridgedCall, ports: PortAllocator, rec: Recorder, e: End)
    reads call, call.media, ports, rec
    reads if call.media == null then {} else {call.media.endpointSide, call.media.pbxSide}
  {
    && Same(call, e.call) && ports.View() == e.alloc && rec.responses == old(rec.responses) + [Status(e.reply)]
    && rec.answers == (if e.reply.Ok? then old(rec.answers) + [e.reply.value] else old(rec.answers))
    && rec.dialed == (if e.dialed.Some? then old(rec.dialed) + [e.dialed.value] else old(rec.dialed))
  }

  /** fail, with all that it does. */
  method FailWith(call: BridgedCall, status: int, ports: PortAllocator, reg: Calls<nat>, rec: Recorder, ghost c: Call)
    requires call.Valid() && Same(call, c)
    modifies call`pending, call`state, call`log, call.media, ports, reg, rec`responses
    ensures TakenDown(call, ports) && rec.responses == old(rec.responses) + [status]
    ensures c.state != TearingDown ==> Ends(call, ports, rec, FailedEnd(old(ports.View()), c, status))
  {
    ghost var a := ports.View();
    SameLegs(c, call.View(Pc.Teardown));
    Fail(call, status, ports, reg, rec);
    if c.state != TearingDown {
      TakenIs(call, c, a, ports.View());
    }
  }

  /** The stash given back and the call torn down, with all that this does. */
  method TakeDownAs(call: BridgedCall, ports: PortAllocator, reg: Calls<nat>, ghost c: Call)
    requires call.Valid() && Same(call, c) && c.state != TearingDown
    modifies call`pending, call`state, call`log, call.media, ports, reg
    ensures Same(call, Down(old(ports.View()), c).1) && ports.View() == Down(old(ports.View()), c).0
  {
    ghost var a := ports.View();
    SameLegs(c, call.View(Pc.Teardown));
    TakeDown(call, ports, reg);
    TakenIs(call, c, a, ports.View());
  }

  /** What a call is that was taken down. */
  lemma TakenIs(call: BridgedCall, c: Call, a: Alloc, b: Alloc)
    requires c.state != TearingDown && call.state == TearingDown && call.pending == []
    requires call.id == c.id && call.dialog == c.dialog && call.hook == c.hook && call.Taps() == c.taps
    requires call.log == c.undo.log + Effects(LegsAt(c), c.hook.Some?)
    requires Apps(call.appLegs) == c.legs.apps && call.pbxLeg == c.legs.pbx && call.target == c.legs.target
    requires call.pbxAnswer == c.neg.answer
    requires if call.media == null then c.neg.epRemote == None && c.neg.pbxRemote == None
             else c.neg.epRemote == RemoteAt(call.media.endpointSide) && c.neg.pbxRemote == RemoteAt(call.media.pbxSide)
    requires b == GiveAll(a, Pairs(c.pending) + if c.hook.Some? then c.hook.value + Pairs(c.taps) else [])
    ensures Same(call, Down(a, c).1) && b == Down(a, c).0
  {
    DownIs(a, c);
    GivesOn(a, Pairs(c.pending), if c.hook.Some? then c.hook.value + Pairs(c.taps) else []);
  }

  // ----- Anchoring the endpoint ----------------------------------------------

  /** The session is registered on the call with its two sides, the endpoint's facing e. */
  ghost predicate Anchored(call: BridgedCall, sess: MediaSession, pairs: Tap, e: Endpoint)
    reads call, sess, sess.endpointSide, sess.pbxSide
  {
    && sess.endpointSide != null && sess.pbxSide != null && sess.endpointSide != sess.pbxSide
    && sess.endpointSide.pair == pairs.caller && sess.pbxSide.pair == pairs.callee
    && sess.endpointSide.remote == Some(RemoteOf(e)) && sess.taps == []
    && call.media == sess && call.hook == Some([pairs.caller, pairs.callee])
  }

  /** The sides' session and its release hook are put on the call, or, when the call is already
      tearing down, released again. */
  method Register(call: BridgedCall, e: Endpoint, pairs: Tap, ports: PortAllocator) returns (sess: MediaSession?)
    requires call.Valid()
    modifies call`media, call`hook, ports
    ensures call.Valid() && (sess == null <==> call.state == TearingDown)
    ensures sess == null ==>
              ports.View() == GiveAll(old(ports.View()), [pairs.caller, pairs.callee])
              && call.hook == old(call.hook) && call.media == old(call.media)
    ensures sess != null ==>
              ports.View() == old(ports.View()) && Anchored(call, sess, pairs, e)
              && fresh(sess) && fresh(sess.endpointSide) && fresh(sess.pbxSide) && sess.pbxSide.remote == None
  {
    var epSide := new AnchorSide(pairs.caller);
    var pbxSide := new AnchorSide(pairs.callee);
    epSide.SetRemote(Some(RemoteOf(e)));
    sess := new MediaSession(epSide, pbxSide);
    var ok := call.RegisterMedia(sess, [pairs.caller, pairs.callee]);
    if !ok {
      ReleaseMedia(sess, ports, [pairs.caller, pairs.callee]);
      assert [pairs.caller, pairs.callee] + [] == [pairs.caller, pairs.callee];
      return null;
    }
  }

  /** The call's session has this PBX side and another endpoint side. */
  predicate Facing(call: BridgedCall, pbx: AnchorSide)
    reads call, call.media
  {
    call.media != null && call.media.pbxSide == pbx && call.media.endpointSide != pbx
  }

  /** anchorMedia, plain endpoint. It fails with one final response and everything given back,
      or is refused because the call is tearing down: then the two pairs are back, and the
      stash is left behind; or the call's hook now covers the two pairs. */
  method AnchorMedia(call: BridgedCall, host: string, isIP: string -> bool, net: Fortune,
                     ports: PortAllocator, reg: Calls<nat>, rec: Recorder, ghost c: Call)
    returns (r: Result<MediaSession, bool>)
    requires call.Valid() && call.media == null && call.hook == None && Same(call, c)
    modifies call`pending, call`state, call`log, call`media, call`hook, ports, reg, rec`responses
    ensures call.Valid()
    ensures var (e, t) := (Media(Lines(call.offer), isIP), TryTap(old(ports.View()), net.sides));
      match r
      case Err(refused) =>
        if e.Err? || t.1.Err? then
          && !refused && call.state == TearingDown && call.pending == [] && call.hook == None
          && ports.View() == GiveAll(if e.Err? then old(ports.View()) else t.0, old(Pairs(call.pending)))
          && rec.responses == old(rec.responses) + [if e.Err? then 488 else if t.1.error == Exhausted then 503 else 500]
        else
          && refused && call.state == old(call.state) == TearingDown && call.pending == old(call.pending)
          && ports.View() == GiveAll(t.0, [t.1.value.caller, t.1.value.callee])
          && rec.responses == old(rec.responses)
      case Ok(sess) =>
        && e.Ok? && t.1.Ok? && ports.View() == t.0 && Anchored(call, sess, t.1.value, e.value)
        && call.state == old(call.state) != TearingDown && call.pending == old(call.pending)
        && rec.responses == old(rec.responses)
    ensures r.Ok? ==>
              && fresh(r.value) && fresh(r.value.endpointSide) && fresh(r.value.pbxSide)
              && r.value.pbxSide.remote == None
              && Facing(call, r.value.pbxSide) && call.log == old(call.log)
    ensures r == Err(false) && c.state != TearingDown ==>
              Ends(call, ports, rec, PlainEnd(call.offer, host, isIP, net, old(ports.View()), c))
  {
    ghost var stash := Pairs(call.pending);
    assert stash + [] == stash;
    var ep := ParseMedia(call.offer, isIP);
    if ep.Err? {
      FailWith(call, 488, ports, reg, rec, c);
      return Err(false);
    }
    var pairs := AcquireTap(ports, net.sides);
    if pairs.Err? {
      FailWith(call, if pairs.error == Exhausted then 503 else 500, ports, reg, rec, c);
      return Err(false);
    }
    var sess := Register(call, ep.value, pairs.value, ports);
    if sess == null {
      return Err(true);
    }
    return Ok(sess);
  }

  // ----- The PBX leg ---------------------------------------------------------

  /** What the PBX leg leaves on the call and on its side, if there was an offer for it: the leg
      counts as soon as it is dialed, the answer is stored as soon as it comes, and the side
      faces it only if it describes media. */
  twostate predicate Reached(call: BridgedCall, pbx: AnchorSide, offered: bool, leg: Dialing, isIP: string -> bool)
    reads call, pbx
  {
    && call.pbxLeg == (old(call.pbxLeg) || (offered && !leg.BadUri? && !leg.Unreached?))
    && call.pbxAnswer == (if offered && leg.Replied? then Some(leg.body) else old(call.pbxAnswer))
    && pbx.remote == (if offered && PbxResult(leg, isIP).Ok?
                      then Some(RemoteOf(Media(Lines(PbxResult(leg, isIP).value), isIP).value))
                      else old(pbx.remote))
  }

  /** originatePBX with this offer and the parsing of the answer: the PBX side then faces it. */
  method ReachPbx(call: BridgedCall, pbx: AnchorSide, offer: string, isIP: string -> bool, leg: Dialing, rec: Recorder)
    returns (r: Result<string, int>)
    modifies call`pbxLeg, call`pbxAnswer, pbx`remote, rec`dialed
    ensures r == PbxResult(leg, isIP) && Reached(call, pbx, true, leg, isIP)
    ensures rec.dialed == if leg.BadUri? then old(rec.dialed) else old(rec.dialed) + [offer]
    ensures leg.BadUri? ==> r == Err(500)
    ensures leg.Unreached? ==> r == Err(503)
    ensures leg.Unanswered? ==> r == Err(if leg.status.Some? then leg.status.value else 503)
    ensures leg.Replied? ==> r == if Media(Lines(leg.body), isIP).Ok? then Ok(leg.body) else Err(488)
  {
    if leg.BadUri? {
      return Err(500);
    }
    rec.Dial(offer);
    match leg
    case Unreached => return Err(503);
    case Unanswered(status) =>
      call.pbxLeg := true;
      return Err(FailureStatus(status));
    case Replied(raw) =>
      call.pbxLeg := true;
      call.pbxAnswer := Some(raw);
      var media := ParseMedia(raw, isIP);
      if media.Err? {
        return Err(488);
      }
      pbx.SetRemote(Some(RemoteOf(media.value)));
      return Ok(raw);
  }

  /** reportCodecAgreement: true when a mismatch is counted. */
  method ReportCodecAgreement(endpointSdp: string, pbxSdp: string) returns (mismatch: bool)
    ensures mismatch == CountsMismatch(endpointSdp, pbxSdp)
  {
    var ep := SelectedAudioCodec(endpointSdp);
    if ep.Err? {
      return false;
    }
    var pbx := SelectedAudioCodec(pbxSdp);
    if pbx.Err? {
      return false;
    }
    return !CodecsMatch(ep.value, pbx.value);
  }

  /** A failed phase answers its status; or the 200 itself could not be delivered; or media
      registration was refused. */
  datatype DialError = Failing(status: int) | AnswerLost | NotRegistered

  /** How the phase that ended so returns. */
  function Returned(e: End, respondOk: bool): Result<string, DialError> {
    match e.reply
    case Err(status) => Err(Failing(status))
    case Ok(answer) => if respondOk then Ok(answer) else Err(AnswerLost)
  }

  /** The call is established with its taps on the session and the caller is answered; when
      that cannot be delivered, everything goes back. */
  method AnswerCaller(call: BridgedCall, sess: MediaSession, answer: string, respondOk: bool,
                      ports: PortAllocator, reg: Calls<nat>, rec: Recorder, ghost c: Call)
    requires call.Valid() && call.media == sess && Same(call, c) && c.state == CallState.Setup
    modifies call`pending, call`state, call`log, sess, ports, reg, rec`responses, rec`answers
    ensures Ends(call, ports, rec, Concluded(old(ports.View()), c, Ok(answer), respondOk))
  {
    call.Establish(sess);
    ghost var up := EstablishedOn(c, answer);
    assert Same(call, up);
    rec.Answer(answer);
    if !respondOk {
      TakeDownAs(call, ports, reg, up);
    }
  }

  /** The caller is answered, or the call fails with the error's status. */
  method Conclude(call: BridgedCall, sess: MediaSession, answer: Result<string, int>, respondOk: bool,
                  ports: PortAllocator, reg: Calls<nat>, rec: Recorder, ghost c: Call)
    returns (r: Result<string, DialError>)
    requires call.Valid() && call.media == sess && Same(call, c) && c.state == CallState.Setup
    modifies call`pending, call`state, call`log, sess, ports, reg, rec`responses, rec`answers
    ensures var e := Concluded(old(ports.View()), c, answer, respondOk);
      Ends(call, ports, rec, e) && r == Returned(e, respondOk)
  {
    if answer.Err? {
      FailWith(call, answer.error, ports, reg, rec, c);
      return Err(Failing(answer.error));
    }
    AnswerCaller(call, sess, answer.value, respondOk, ports, reg, rec, c);
    return if respondOk then Ok(answer.value) else Err(AnswerLost);
  }

  /** The PBX leg of a plain call, to what the caller is to be answered. */
  method PlainLeg(call: BridgedCall, epPort: int, pbx: AnchorSide, host: string, isIP: string -> bool, leg: Dialing,
                  rec: Recorder, ghost c: Call)
    returns (answer: Result<string, int>, mismatch: bool)
    requires Same(call, c) && Facing(call, pbx)
    modifies call`pbxLeg, call`pbxAnswer, pbx`remote, rec`dialed
    ensures answer == PlainAnswer(call.offer, host, epPort, pbx.pair.rtp, isIP, leg)
    ensures answer.Ok? ==> leg.Replied? && Rewrite(leg.body, host, epPort) == Ok(answer.value)
    ensures var offer := Rewrite(call.offer, host, pbx.pair.rtp);
      rec.dialed == if offer.Ok? && !leg.BadUri? then old(rec.dialed) + [offer.value] else old(rec.dialed)
    ensures Same(call, DialledOn(c, Rewrite(call.offer, host, pbx.pair.rtp).Ok?, leg, isIP))
    ensures mismatch == (answer.Ok? && CountsMismatch(answer.value, PbxResult(leg, isIP).value))
  {
    var offer := RewriteToAnchor(call.offer, host, pbx.pair.rtp);
    if offer.Err? {
      return Err(500), false;
    }
    var raw := ReachPbx(call, pbx, offer.value, isIP, leg, rec);
    if raw.Err? {
      return Err(raw.error), false;
    }
    var anchored := RewriteToAnchor(raw.value, host, epPort);
    if anchored.Err? {
      return Err(500), false;
    }
    mismatch := ReportCodecAgreement(anchored.value, raw.value);
    return Ok(anchored.value), mismatch;
  }

  /** dialPBX. */
  method DialPbx(call: BridgedCall, sess: MediaSession, ep: AnchorSide, pbx: AnchorSide, host: string,
                 isIP: string -> bool,
                 net: Fortune, ports: PortAllocator, reg: Calls<nat>, rec: Recorder, ghost c: Call)
    returns (r: Result<string, DialError>)
    requires call.Valid() && call.media == sess && Facing(call, pbx) && Same(call, c) && c.state == CallState.Setup
    modifies call`pending, call`state, call`log, call`pbxLeg, call`pbxAnswer
    modifies sess, pbx`remote, ports, reg, rec`responses, rec`answers, rec`dialed
    ensures var e := PlainDial(call.offer, host, isIP, net, old(ports.View()), c, Tap(ep.pair, pbx.pair));
      Ends(call, ports, rec, e) && r == Returned(e, net.respondOk)
    ensures r.Ok? ==>
              && net.pbx.Replied? && Rewrite(net.pbx.body, host, ep.pair.rtp) == Ok(r.value)
              && rec.answers == old(rec.answers) + [r.value]
  {
    ghost var offered := Rewrite(call.offer, host, pbx.pair.rtp).Ok?;
    var answer, mismatch := PlainLeg(call, ep.pair.rtp, pbx, host, isIP, net.pbx, rec, c);
    DialledKeeps(c, offered, net.pbx, isIP);
    r := Conclude(call, sess, answer, net.respondOk, ports, reg, rec, DialledOn(c, offered, net.pbx, isIP));
  }

  // ----- A webphone's call ---------------------------------------------------

  /** anchorWebRTC: the secured leg is brought up and registered; it takes no port pair. */
  method AnchorWebRtc(call: BridgedCall, secured: Option<string>, ports: PortAllocator, reg: Calls<nat>, rec: Recorder,
                      ghost c: Call)
    returns (r: Result<MediaSession, bool>)
    requires call.Valid() && call.media == null && call.hook == None && Same(call, c)
    modifies call`pending, call`state, call`log, call`media, call`hook, ports, reg, rec`responses
    ensures call.Valid()
    ensures match r
      case Err(refused) =>
        if secured.None? then
          && !refused && call.state == TearingDown && call.pending == [] && call.hook == None
          && ports.View() == GiveAll(old(ports.View()), old(Pairs(call.pending)))
          && rec.responses == old(rec.responses) + [488]
        else
          && refused && call.state == old(call.state) == TearingDown && call.pending == old(call.pending)
          && ports.View() == old(ports.View()) && rec.responses == old(rec.responses)
      case Ok(sess) =>
        && secured.Some? && fresh(sess) && sess.endpointSide == null && sess.pbxSide == null && sess.taps == []
        && call.media == sess && call.hook == Some([])
        && call.state == old(call.state) != TearingDown && call.pending == old(call.pending)
        && ports.View() == old(ports.View()) && rec.responses == old(rec.responses) && call.log == old(call.log)
    ensures r == Err(false) && c.state != TearingDown ==> Ends(call, ports, rec, FailedEnd(old(ports.View()), c, 488))
  {
    if secured.None? {
      assert Pairs(call.pending) + [] == Pairs(call.pending);
      FailWith(call, 488, ports, reg, rec, c);
      return Err(false);
    }
    var sess := new MediaSession(null, null);
    var ok := call.RegisterMedia(sess, []);
    if !ok {
      GiveNothing(ports.View());
      ReleaseMedia(sess, ports, []);
      return Err(true);
    }
    return Ok(sess);
  }

  lemma GiveNothing(a: Alloc)
    ensures GiveAll(a, []) == a && GiveAll(a, [] + Pairs([])) == a
  {
    assert a.free + [] == a.free;
  }

  /** The PBX side's pair is acquired, bound and registered on the session; or the call fails
      with a status and the pair is back; or the registration is refused, and then the pair is
      back and the stash is left. */
  method TakePbxSide(call: BridgedCall, sess: MediaSession, net: Fortune, ports: PortAllocator, reg: Calls<nat>,
                     rec: Recorder,
                     ghost c: Call)
    returns (r: Result<AnchorSide, DialError>)
    requires call.Valid() && call.media == sess && call.hook == Some([]) && sess.taps == []
    requires sess.endpointSide == null && sess.pbxSide == null && Same(call, c)
    modifies call`pending, call`state, call`log, call`media, call`hook, sess, ports, reg, rec`responses
    ensures call.Valid() && call.media == sess
    ensures var (b, p) := Take(old(ports.View()));
      match r
      case Err(Failing(status)) =>
        && (p.None? || !net.sides.calleeBinds) && status == (if p.None? then 503 else 500)
        && (c.state != TearingDown
            ==> Ends(call, ports, rec, FailedEnd(if p.None? then b else Give(b, p.value), c, status)))
        && (c.state == TearingDown ==>
              && call.pending == [] && rec.responses == old(rec.responses) + [status]
              && ports.View() == GiveAll(if p.None? then b else Give(b, p.value), old(Pairs(call.pending))))
      case Err(AnswerLost) => false
      case Err(NotRegistered) =>
        && p.Some? && net.sides.calleeBinds && c.state == TearingDown && Same(call, c)
        && ports.View() == Give(b, p.value) && rec.responses == old(rec.responses)
      case Ok(pbx) =>
        && p.Some? && net.sides.calleeBinds && c.state != TearingDown && fresh(pbx) && pbx.pair == p.value
        && Same(call, c.(hook := Some([p.value]))) && Facing(call, pbx)
        && ports.View() == b && rec.responses == old(rec.responses)
  {
    ghost var stash := Pairs(call.pending);
    assert stash + [] == stash;
    var p := ports.Acquire();
    if p.None? {
      FailWith(call, 503, ports, reg, rec, c);
      return Err(Failing(503));
    }
    if !net.sides.calleeBinds {
      ports.Release(p.value);
      FailWith(call, 500, ports, reg, rec, c);
      return Err(Failing(500));
    }
    var pbx := new AnchorSide(p.value);
    var ok := call.RegisterMedia(sess, [p.value]);
    if !ok {
      ports.Release(p.value);
      return Err(NotRegistered);
    }
    sess.pbxSide := pbx;
    return Ok(pbx);
  }

  /** The PBX leg of a webphone's call, to what the caller is to be answered. */
  method SecuredPbxLeg(call: BridgedCall, pbx: AnchorSide, secured: string, host: string, isIP: string -> bool,
                       leg: Dialing, rec: Recorder, ghost c: Call)
    returns (answer: Result<string, int>, mismatch: bool)
    requires Same(call, c) && Facing(call, pbx)
    modifies call`pbxLeg, call`pbxAnswer, pbx`remote, rec`dialed
    ensures answer == SecuredAnswer(call.offer, secured, isIP, leg) && (answer.Ok? ==> answer.value == secured)
    ensures var offer := PlainFrom(call.offer, host, pbx.pair.rtp);
      rec.dialed == if offer.Ok? && !leg.BadUri? then old(rec.dialed) + [offer.value] else old(rec.dialed)
    ensures Same(call, DialledOn(c, Extract(Lines(call.offer)).Ok?, leg, isIP))
    ensures mismatch == (answer.Ok? && CountsMismatch(secured, PbxResult(leg, isIP).value))
  {
    var offer := BuildPlainOfferFromWebRTC(call.offer, host, pbx.pair.rtp);
    if offer.Err? {
      return Err(500), false;
    }
    var raw := ReachPbx(call, pbx, offer.value, isIP, leg, rec);
    if raw.Err? {
      return Err(raw.error), false;
    }
    mismatch := ReportCodecAgreement(secured, raw.value);
    return Ok(secured), mismatch;
  }

  /** bridgeSecuredToPBX from its offer on. */
  method DialSecured(call: BridgedCall, sess: MediaSession, pbx: AnchorSide, secured: string, host: string,
                     isIP: string -> bool, net: Fortune, ports: PortAllocator, reg: Calls<nat>, rec: Recorder,
                     ghost c: Call)
    returns (r: Result<string, DialError>, mismatch: bool)
    requires call.Valid() && call.media == sess && Facing(call, pbx) && Same(call, c) && c.state == CallState.Setup
    modifies call`pending, call`state, call`log, call`pbxLeg, call`pbxAnswer
    modifies sess, pbx`remote, ports, reg, rec`responses, rec`answers, rec`dialed
    ensures var e := SecuredDial(call.offer, secured, host, pbx.pair.rtp, isIP, net, old(ports.View()), c);
      Ends(call, ports, rec, e) && r == Returned(e, net.respondOk)
    ensures r.Ok? ==> r.value == secured && rec.answers == old(rec.answers) + [secured]
    ensures mismatch <==>
              && SecuredAnswer(call.offer, secured, isIP, net.pbx).Ok?
              && CountsMismatch(secured, PbxResult(net.pbx, isIP).value)
  {
    ghost var offered := Extract(Lines(call.offer)).Ok?;
    var answer;
    answer, mismatch := SecuredPbxLeg(call, pbx, secured, host, isIP, net.pbx, rec, c);
    DialledKeeps(c, offered, net.pbx, isIP);
    r := Conclude(call, sess, answer, net.respondOk, ports, reg, rec, DialledOn(c, offered, net.pbx, isIP));
  }

  /** bridgeSecuredToPBX: the PBX side is taken and the PBX dialed. */
  method BridgeSecured(call: BridgedCall, sess: MediaSession, secured: string, host: string, isIP: string -> bool,
                       net: Fortune, ports: PortAllocator, reg: Calls<nat>, rec: Recorder, ghost c: Call)
    returns (r: Result<string, DialError>)
    requires call.Valid() && call.media == sess && call.hook == Some([]) && sess.taps == []
    requires sess.endpointSide == null && sess.pbxSide == null && Same(call, c) && c.state != Established
    modifies call`pending, call`state, call`log, call`media, call`hook, call`pbxLeg, call`pbxAnswer
    modifies sess, ports, reg, rec`responses, rec`answers, rec`dialed
    ensures call.media == sess
    ensures c.state == CallState.Setup ==>
              var e := SecuredRest(call.offer, secured, host, isIP, net, old(ports.View()), c);
              Ends(call, ports, rec, e) && r == Returned(e, net.respondOk)
    ensures r.Ok? ==> r.value == secured && rec.answers == old(rec.answers) + [secured]
    ensures c.state == TearingDown && r == Err(NotRegistered) ==>
              && Take(old(ports.View())).1.Some? && call.pending == old(call.pending)
              && rec.responses == old(rec.responses)
              && ports.View() == Give(Take(old(ports.View())).0, Take(old(ports.View())).1.value)
  {
    var pbx := TakePbxSide(call, sess, net, ports, reg, rec, c);
    if pbx.Err? {
      return Err(pbx.error);
    }
    var mismatch;
    r, mismatch := DialSecured(call, sess, pbx.value, secured, host, isIP, net, ports, reg, rec,
                               c.(hook := Some([pbx.value.pair])));
  }

  // ----- The whole bridge ----------------------------------------------------

  /** A plain call that is up: the one 200 carried the PBX's answer anchored at the endpoint side's
      own port. */
  predicate PlainUp(call: BridgedCall, host: string, net: Fortune, before: seq<string>, answers: seq<string>)
    reads call, call.media
  {
    && call.media != null && call.media.endpointSide != null && net.pbx.Replied?
    && Rewrite(net.pbx.body, host, call.media.endpointSide.pair.rtp).Ok?
    && answers == before + [Rewrite(net.pbx.body, host, call.media.endpointSide.pair.rtp).value]
  }

  /** A webphone's call that is up: the one 200 carried the secured leg's own SDP. */
  predicate SecuredUp(call: BridgedCall, net: Fortune, before: seq<string>, answers: seq<string>)
    reads call, call.media
  {
    && call.media != null && call.media.endpointSide == null
    && net.secured.Some? && answers == before + [net.secured.value]
  }

  /** A plain endpoint, from the end of the chain on. */
  method BridgePlain(call: BridgedCall, host: string, isIP: string -> bool, net: Fortune,
                     ports: PortAllocator, reg: Calls<nat>, rec: Recorder, ghost c: Call)
    returns (up: bool)
    requires call.Valid() && call.media == null && call.hook == None && Same(call, c) && c.state == CallState.Setup
    modifies call`pending, call`state, call`log, call`media, call`hook, call`pbxLeg, call`pbxAnswer
    modifies ports, reg, rec`responses, rec`answers, rec`dialed
    ensures var e := PlainEnd(call.offer, host, isIP, net, old(ports.View()), c);
      Ends(call, ports, rec, e) && up == (e.reply.Ok? && net.respondOk)
    ensures up ==> PlainUp(call, host, net, old(rec.answers), rec.answers)
  {
    var anchored := AnchorMedia(call, host, isIP, net, ports, reg, rec, c);
    if anchored.Err? {
      return false;
    }
    var sess := anchored.value;
    ghost var pair := TryTap(old(ports.View()), net.sides).1.value;
    ghost var d := AnchoredOn(c, Media(Lines(call.offer), isIP).value, pair);
    var r := DialPbx(call, sess, sess.endpointSide, sess.pbxSide, host, isIP, net, ports, reg, rec, d);
    return r.Ok?;
  }

  /** A webphone, from the end of the chain on. */
  method BridgeWebphone(call: BridgedCall, host: string, isIP: string -> bool, net: Fortune,
                        ports: PortAllocator, reg: Calls<nat>, rec: Recorder, ghost c: Call)
    returns (up: bool)
    requires call.Valid() && call.media == null && call.hook == None && Same(call, c) && c.state == CallState.Setup
    modifies call`pending, call`state, call`log, call`media, call`hook, call`pbxLeg, call`pbxAnswer
    modifies ports, reg, rec`responses, rec`answers, rec`dialed
    ensures var e := SecuredEnd(call.offer, host, isIP, net, old(ports.View()), c);
      Ends(call, ports, rec, e) && up == (e.reply.Ok? && net.respondOk)
    ensures up ==> SecuredUp(call, net, old(rec.answers), rec.answers)
  {
    var anchored := AnchorWebRtc(call, net.secured, ports, reg, rec, c);
    if anchored.Err? {
      return false;
    }
    var r := BridgeSecured(call, anchored.value, net.secured.value, host, isIP, net, ports, reg, rec,
                           c.(hook := Some([])));
    return r.Ok?;
  }

  /** The phases after the chain. */
  method BridgeMedia(call: BridgedCall, host: string, isIP: string -> bool, net: Fortune,
                     ports: PortAllocator, reg: Calls<nat>, rec: Recorder, ghost c: Call)
    returns (up: bool)
    requires call.Valid() && call.media == null && call.hook == None && Same(call, c) && c.state == CallState.Setup
    modifies call`pending, call`state, call`log, call`media, call`hook, call`pbxLeg, call`pbxAnswer
    modifies ports, reg, rec`responses, rec`answers, rec`dialed
    ensures var e := MediaEnd(call.offer, host, isIP, net, old(ports.View()), c);
      Ends(call, ports, rec, e) && up == (e.reply.Ok? && net.respondOk)
    ensures up ==> if WebRtc(Lines(call.offer)) then SecuredUp(call, net, old(rec.answers), rec.answers)
                   else PlainUp(call, host, net, old(rec.answers), rec.answers)
  {
    var webphone := OfferIsWebRTC(call.offer);
    if webphone {
      up := BridgeWebphone(call, host, isIP, net, ports, reg, rec, c);
    } else {
      up := BridgePlain(call, host, isIP, net, ports, reg, rec, c);
    }
  }

  /** The end of a fresh call whose chain is cut; d has the legs of the call as it is then. */
  lemma ChainDown(st: Chained, c: Call, d: Call, status: int)
    requires c.state == CallState.Setup == d.state && c.hook == None && c.taps == []
    requires d.legs.apps == Apps(st.legs) && d.legs.pbx == c.legs.pbx && d.legs.target == c.legs.target
    ensures var e := FailedEnd(st.alloc, AfterChain(c, st), status);
      && e.alloc == GiveAll(st.alloc, Pairs(st.pending)) && e.reply == Err(status) && e.dialed == None
      && e.call.id == c.id && e.call.dialog == c.dialog && e.call.state == TearingDown && e.call.pending == []
      && e.call.hook == None && e.call.taps == [] && e.call.neg == c.neg
      && e.call.legs == c.legs.(apps := Apps(st.legs))
      && e.call.undo.log == c.undo.log + Effects(LegsAt(d), false)
  {
    DownIs(st.alloc, AfterChain(c, st));
    GiveNothing(GiveAll(st.alloc, Pairs(st.pending)));
    SameLegs(AfterChain(c, st), d);
  }

  /** The chain of a fresh call, as the first part of its bridge. */
  method BridgeChain(call: BridgedCall, s: Setup, ports: PortAllocator, reg: Calls<nat>, rec: Recorder)
    returns (ok: bool)
    requires |s.apps| == |s.nets|
    requires call.Valid() && call.state == CallState.Setup && call.media == null && call.hook == None
    requires call.pending == [] && call.appLegs == [] && rec.events == []
    modifies ports, call`pending, call`appLegs, call`state, call`log, call.media, reg
    modifies rec`events, rec`responses
    ensures var (st, v) := ChainFrom(s, 0, ChainLaws.Fresh(old(ports.View())));
      var d := AfterChain(old(call.View(Chain(0))), st);
      && call.Valid() && ok == v.Next?
      && (ok ==> Same(call, d) && ports.View() == st.alloc && rec.responses == old(rec.responses))
      && (!ok ==> Ends(call, ports, rec, FailedEnd(st.alloc, d, v.status)))
  {
    ghost var a, c := ports.View(), call.View(Chain(0));
    ok := RunAppChain(s, ports, call, reg, rec);
    if !ok {
      ghost var (st, v) := ChainFrom(s, 0, ChainLaws.Fresh(a));
      ChainDown(st, c, call.View(Pc.Teardown).(state := CallState.Setup), v.status);
    }
  }

  method BridgePhases(call: BridgedCall, s: Setup, isIP: string -> bool, net: Fortune,
                      ports: PortAllocator, reg: Calls<nat>, rec: Recorder)
    returns (up: bool)
    requires |s.apps| == |s.nets| && s.offer == call.offer
    requires call.Valid() && call.state == CallState.Setup && call.media == null && call.hook == None
    requires call.pending == [] && call.appLegs == [] && rec.events == []
    modifies call, ports, reg, rec
    ensures var e := BridgeEnd(s, isIP, net, old(ports.View()), old(call.View(Chain(0))));
      Ends(call, ports, rec, e) && up == (e.reply.Ok? && net.respondOk)
    ensures up ==> if WebRtc(Lines(call.offer)) then SecuredUp(call, net, old(rec.answers), rec.answers)
                   else PlainUp(call, s.host, net, old(rec.answers), rec.answers)
  {
    ghost var a, c := ports.View(), call.View(Chain(0));
    ghost var (st, v) := ChainFrom(s, 0, ChainLaws.Fresh(a));
    ghost var e := BridgeEnd(s, isIP, net, a, c);
    up := BridgeChain(call, s, ports, reg, rec);
    if up {
      assert e == MediaEnd(call.offer, s.host, isIP, net, ports.View(), AfterChain(c, st));
      up := BridgeMedia(call, s.host, isIP, net, ports, reg, rec, AfterChain(c, st));
      assert Ends(call, ports, rec, e);
    } else {
      assert e == FailedEnd(st.alloc, AfterChain(c, st), v.status);
      assert Ends(call, ports, rec, e);
    }
  }

  /** The bridge of a fresh call, with no other goroutine in its way, ends exactly as BridgeEnd
      says. So exactly one final response is sent, with the status of the first thing that went
      wrong, or a 200. On a 200 that was delivered the call is established and holds exactly its
      hook's pairs and its taps'; otherwise it is down and every pair it acquired, from any
      phase, is back. */
  method BridgeCall(call: BridgedCall, s: Setup, isIP: string -> bool, net: Fortune,
                    ports: PortAllocator, reg: Calls<nat>, rec: Recorder)
    returns (up: bool)
    requires |s.apps| == |s.nets| && s.offer == call.offer
    requires call.Valid() && call.state == CallState.Setup && call.media == null && call.hook == None
    requires call.pending == [] && call.appLegs == [] && rec.events == [] && AllocInv(ports.View())
    modifies call, ports, reg, rec
    ensures var e := BridgeEnd(s, isIP, net, old(ports.View()), old(call.View(Chain(0))));
      Ends(call, ports, rec, e) && up == (e.reply.Ok? && net.respondOk)
    ensures up ==>
              && call.state == Established && call.media != null && call.hook.Some?
              && rec.responses == old(rec.responses) + [200]
              && (if WebRtc(Lines(call.offer)) then SecuredUp(call, net, old(rec.answers), rec.answers)
                  else PlainUp(call, s.host, net, old(rec.answers), rec.answers))
              && OnlyOut(old(Out(ports.View())) + multiset(call.hook.value + Pairs(call.media.taps)), ports.View())
    ensures !up ==> call.state == TearingDown && OnlyOut(old(Out(ports.View())), ports.View())
  {
    ghost var a, c := ports.View(), call.View(Chain(0));
    up := BridgePhases(call, s, isIP, net, ports, reg, rec);
    ghost var e := BridgeEnd(s, isIP, net, a, c);
    BridgeBalances(s, isIP, net, a, c);
    EndStates(s, isIP, net, a, c);
    HoldsOnly(e.call);
  }

  lemma HoldsOnly(c: Call)
    ensures c.pending == [] && c.hook.Some? ==> Holds(c) == c.hook.value + Pairs(c.taps)
  {
  }
}
