/** One application's turn, outcome by outcome: how it rules on the call, with the statuses written
    out, and what the application is invited with. */
module Invites {
  import opened AppChain
  import opened ChainLaws
  import opened Lifecycle
  import opened Ports
  import opened Routing
  import opened Sdp
  import opened SdpOffers
  import opened TapNegotiation
  import opened Text
  import opened Wrappers

  /** The policy's word on a failure with this status. */
  function Abort(app: Application, status: int): Verdict {
    if app.abort then Stop(status) else Next
  }

  /** The application's tap, if it wants one, was set up. */
  predicate Ready(s: Setup, i: nat, a: Alloc)
    requires i < |s.apps| == |s.nets|
  {
    s.apps[i].tap ==> Room(a) >= 2 && s.nets[i].callerBinds && s.nets[i].calleeBinds
  }

  /** What a visited application's turn comes to. A bad URI and an offer without audio stop the call
      with 500 whatever the policy; a failure skips the application or stops the call: with 503
      when the ports are exhausted, 500 when a tap cannot be bound, 503 when the leg cannot be
      originated or times out, and the application's own status when it rejects. */
  lemma TurnVerdict(s: Setup, i: nat, st: Chained)
    requires i < |s.apps| == |s.nets|
    ensures var (app, net, v) := (s.apps[i], s.nets[i], AppStep(s, i, st).1);
      && (!Matches(app.rule, s.input) ==> v == Next)
      && (Matches(app.rule, s.input) ==>
            && (!app.uriOk ==> v == Stop(500))
            && (app.uriOk && app.tap && Room(st.alloc) < 2 ==> v == Abort(app, 503))
            && (app.uriOk && app.tap && Room(st.alloc) >= 2 && !(net.callerBinds && net.calleeBinds) ==>
                  v == Abort(app, 500))
            && (app.uriOk && Ready(s, i, st.alloc) && Extract(Lines(s.offer)).Err? ==> v == Stop(500))
            && (app.uriOk && Ready(s, i, st.alloc) && Extract(Lines(s.offer)).Ok? ==>
                  && (net.leg.NotOriginated? ==> v == Abort(app, 503))
                  && (net.leg == NotAnswered(None) ==> v == Abort(app, 503))
                  && (net.leg.NotAnswered? && net.leg.status.Some? ==> v == Abort(app, net.leg.status.value))
                  && (net.leg.LegAnswered? ==> v == Next)))
  {
    TryTapRoom(st.alloc, s.nets[i]);
  }

  // ----- What it is invited with ---------------------------------------------

  /** The two pairs the tap gets: the caller's first. */
  predicate GetsPairs(a: Alloc, t: Tap) {
    Take(a).1 == Some(t.caller) && Take(Take(a).0).1 == Some(t.callee)
  }

  /** A tapped application is invited with an offer of the call's codecs on the two ports of its own
      tap, the caller's stream first, both receive-only; if it answers with a tap answer it is that
      tap that is kept. */
  lemma TappedInvite(s: Setup, i: nat, st: Chained) returns (t: Tap, body: string)
    requires i < |s.apps| == |s.nets| && Matches(s.apps[i].rule, s.input) && s.apps[i].uriOk && s.apps[i].tap
    requires Room(st.alloc) >= 2 && s.nets[i].callerBinds && s.nets[i].calleeBinds
    requires Extract(Lines(s.offer)).Ok? && Clean(s.host)
    ensures GetsPairs(st.alloc, t) && TapInvite(s, t, body) && InvitedWith(i, body, st, AppStep(s, i, st).0)
    ensures s.nets[i].leg.LegAnswered? && TapAnswer(Lines(s.nets[i].leg.body)).Ok? ==>
              AppStep(s, i, st).0.pending == st.pending + [t]
  {
    TryTapRoom(st.alloc, s.nets[i]);
    var (b, r) := TryTap(st.alloc, s.nets[i]);
    t := r.value;
    body := AppChain.Body(s, s.apps[i], Some(t)).value;
    ExtractYields(s.offer);
    TapBody(s, Extract(Lines(s.offer)).value, t);
    DialedWithTap(s, i, st, b, t, body);
  }

  /** The first thing that happens in the turn is the INVITE with this body. */
  predicate InvitedWith(i: nat, body: string, st: Chained, st': Chained) {
    |st.events| < |st'.events| && st'.events[..|st.events| + 1] == st.events + [Invited(i, body)]
  }

  lemma DialedWithTap(s: Setup, i: nat, st: Chained, b: Alloc, t: Tap, body: string)
    requires i < |s.apps| == |s.nets| && Matches(s.apps[i].rule, s.input) && s.apps[i].uriOk && s.apps[i].tap
    requires TryTap(st.alloc, s.nets[i]) == (b, Ok(t)) && AppChain.Body(s, s.apps[i], Some(t)) == Ok(body)
    ensures InvitedWith(i, body, st, AppStep(s, i, st).0)
    ensures s.nets[i].leg.LegAnswered? && TapAnswer(Lines(s.nets[i].leg.body)).Ok? ==>
              AppStep(s, i, st).0.pending == st.pending + [t]
  {
    var st1 := st.(alloc := b);
    assert AppStep(s, i, st) == DialStep(s.apps[i], s.nets[i], i, st1, Some(t), body);
    DialEvents(s.apps[i], s.nets[i], i, st1, Some(t), body);
    DialHolds(s.apps[i], s.nets[i], i, st1, Some(t), body);
  }

  /** The body offers the call's codecs on the tap's ports, in order, in two sections that each end
      receive-only. */
  ghost predicate TapInvite(s: Setup, t: Tap, body: string) {
    var ls := Lines(body);
    && Extract(ls) == Extract(Lines(s.offer))
    && (In64(t.caller.rtp) && In64(t.callee.rtp) ==>
          TapAnswer(ls) == Ok((Endpoint(s.host, t.caller.rtp), Endpoint(s.host, t.callee.rtp))))
    && exists m :: TwoSections(ls, "a=recvonly", m)
  }

  /** A section ends before line m, which opens another one, and that one ends with the body. */
  predicate TwoSections(ls: seq<string>, d: string, m: int) {
    0 < m < |ls| - 1 && HasPrefix(ls[m], AUDIO) && ls[m - 1] == d && ls[|ls| - 2] == d
  }

  predicate In64(n: int) {
    -INT64_MAX - 1 <= n <= INT64_MAX
  }

  lemma TapBody(s: Setup, c: Codecs, t: Tap)
    requires Extract(Lines(s.offer)) == Ok(c) && Extracted(c) && Clean(s.host)
    ensures TapInvite(s, t, Crlf(TapOffer(c, s.host, t.caller.rtp, t.callee.rtp)))
  {
    var p, q := t.caller.rtp, t.callee.rtp;
    BuildersUndoExtraction(s.offer, s.host, p, q, "a=recvonly");
    if In64(p) && In64(q) {
      SequencerReadsAnswer(c, s.host, p, q);
    }
    TapOfferLines(c, s.host, p, q);
    var m := ReceiveOnly(c, s.host, p, q, "a=recvonly", TapOffer(c, s.host, p, q) + [""]);
  }

  lemma OfferSections(c: Codecs, host: string, p: int, q: int, d: string) returns (m: int)
    requires Extracted(c)
    ensures TwoSections(Preamble(host) + AudioBlock(p, host, c, d) + AudioBlock(q, host, c, d) + [""], d, m)
  {
    BlockEnds(c, host, p, d);
    BlockEnds(c, host, q, d);
    Sections(Preamble(host), AudioBlock(p, host, c, d), AudioBlock(q, host, c, d), d);
    m := |Preamble(host) + AudioBlock(p, host, c, d)|;
  }

  lemma TapOfferIs(c: Codecs, host: string, p: int, q: int, d: string)
    requires d == "a=recvonly"
    ensures TapOffer(c, host, p, q) == Preamble(host) + AudioBlock(p, host, c, d) + AudioBlock(q, host, c, d)
  {
  }

  lemma ReceiveOnly(c: Codecs, host: string, p: int, q: int, d: string, ls: seq<string>) returns (m: int)
    requires Extracted(c) && d == "a=recvonly" && ls == TapOffer(c, host, p, q) + [""]
    ensures TwoSections(ls, d, m)
  {
    TapOfferIs(c, host, p, q, d);
    m := OfferSections(c, host, p, q, d);
  }

  lemma BlockEnds(c: Codecs, host: string, port: int, d: string)
    requires Extracted(c)
    ensures var b := AudioBlock(port, host, c, d); |b| > 1 && HasPrefix(b[0], AUDIO) && b[|b| - 1] == d
  {
    BlockShape(port, host, c, d);
    AudioLineExtracted(port, c);
  }

  lemma Sections(pre: seq<string>, b1: seq<string>, b2: seq<string>, d: string)
    requires |b1| > 1 && |b2| > 1 && HasPrefix(b2[0], AUDIO) && b1[|b1| - 1] == d && b2[|b2| - 1] == d
    ensures TwoSections(pre + b1 + b2 + [""], d, |pre + b1|)
  {
    var ls, m := pre + b1 + b2 + [""], |pre + b1|;
    assert ls[m] == b2[0] && ls[m - 1] == b1[|b1| - 1] && ls[|ls| - 2] == b2[|b2| - 1];
  }

  /** An untapped application is invited with an offer of the call's codecs on port 0, inactive. */
  lemma UntappedInvite(s: Setup, i: nat, st: Chained) returns (body: string)
    requires i < |s.apps| == |s.nets| && Matches(s.apps[i].rule, s.input) && s.apps[i].uriOk && !s.apps[i].tap
    requires Extract(Lines(s.offer)).Ok? && Clean(s.host)
    ensures InvitedWith(i, body, st, AppStep(s, i, st).0) && InactiveInvite(s, body)
  {
    body := AppChain.Body(s, s.apps[i], None).value;
    ExtractYields(s.offer);
    InactiveBody(s, Extract(Lines(s.offer)).value);
    DialedWithout(s, i, st, body);
  }

  /** The body offers the call's codecs in one section, on port 0, that ends inactive. */
  predicate InactiveInvite(s: Setup, body: string) {
    var ls := Lines(body);
    && Extract(ls) == Extract(Lines(s.offer))
    && |ls| > 5 && First(ls, AUDIO) == 4 && |Fields(ls[4])| > 2 && Fields(ls[4])[1] == "0"
    && ls[|ls| - 2] == "a=inactive"
  }

  lemma InactiveBody(s: Setup, c: Codecs)
    requires Extract(Lines(s.offer)) == Ok(c) && Extracted(c) && Clean(s.host)
    ensures InactiveInvite(s, Crlf(SingleOffer(c, s.host, 0, "a=inactive")))
  {
    BuildersUndoExtraction(s.offer, s.host, 0, 0, "a=inactive");
    SingleOfferLines(c, s.host, 0, "a=inactive");
    SingleOfferHost(c, s.host, 0, "a=inactive");
    OneSection(c, s.host, 0, "a=inactive");
    FirstIs(SingleOffer(c, s.host, 0, "a=inactive") + [""], 4, AUDIO);
    FirstFacts(SingleOffer(c, s.host, 0, "a=inactive") + [""], AUDIO);
    assert Itoa(0) == "0";
  }

  lemma OneSection(c: Codecs, host: string, port: int, d: string)
    requires Extracted(c)
    ensures var ls := SingleOffer(c, host, port, d) + [""];
      |ls| > 5 && |Fields(ls[4])| > 2 && Fields(ls[4])[1] == Itoa(port) && ls[|ls| - 2] == d
  {
    var b := AudioBlock(port, host, c, d);
    BlockShape(port, host, c, d);
    AudioLineExtracted(port, c);
    BlockEnds(c, host, port, d);
    BehindFour(Preamble(host), b);
  }

  lemma BehindFour(pre: seq<string>, b: seq<string>)
    requires |pre| == 4 && |b| > 1
    ensures var ls := pre + b + [""]; |ls| > 5 && ls[4] == b[0] && ls[|ls| - 2] == b[|b| - 1]
  {
  }

  lemma DialedWithout(s: Setup, i: nat, st: Chained, body: string)
    requires i < |s.apps| == |s.nets| && Matches(s.apps[i].rule, s.input) && s.apps[i].uriOk && !s.apps[i].tap
    requires AppChain.Body(s, s.apps[i], None) == Ok(body)
    ensures InvitedWith(i, body, st, AppStep(s, i, st).0)
  {
    assert AppStep(s, i, st) == DialStep(s.apps[i], s.nets[i], i, st, None, body);
    DialEvents(s.apps[i], s.nets[i], i, st, None, body);
  }

  /** The offer the PBX gets of a webphone's call: the codecs in one section, on that port, in both
      directions. */
  lemma WebphoneOffer(offer: string, host: string, port: int)
    requires Extract(Lines(offer)).Ok? && Clean(host)
    ensures PlainFrom(offer, host, port).Ok?
    ensures var ls := Lines(PlainFrom(offer, host, port).value);
      && Extract(ls) == Extract(Lines(offer))
      && |ls| > 5 && |Fields(ls[4])| > 2 && Fields(ls[4])[1] == Itoa(port) && ls[|ls| - 2] == "a=sendrecv"
  {
    var c, d := Extract(Lines(offer)).value, "a=sendrecv";
    ExtractYields(offer);
    BuildersUndoExtraction(offer, host, port, 0, d);
    SingleOfferLines(c, host, port, d);
    OneSection(c, host, port, d);
  }
}
