/** The application chain: one leg per configured application, in order, with each one's media
    mode and failure policy. */
module AppChain {
  import opened CallObject
  import opened Lifecycle
  import opened Ownership
  import opened Ports
  import opened Registry
  import opened Routing
  import opened Sdp
  import opened Teardown
  import opened Text
  import opened Wrappers

  // ----- One application, and what the network does to it --------------------

  /** A configured application; uriOk says its URI parses. */
  datatype Application = Application(rule: Option<Rule>, uriOk: bool, tap: bool, abort: bool)

  /** What the leg comes to: it cannot be originated, it is rejected with a status (None when
      it times out), or it answers with a body. */
  datatype LegResult = NotOriginated | NotAnswered(status: Option<int>) | LegAnswered(body: string)

  /** One application's fortune: whether its two tap sockets bind, and its leg's result. */
  datatype Net = Net(callerBinds: bool, calleeBinds: bool, leg: LegResult)

  datatype Setup = Setup(apps: seq<Application>, nets: seq<Net>, input: Input, offer: string, host: string)

  /** A leg is invited with a body; an application's failure or its invocation is counted. */
  datatype ChainEvent = Invited(i: nat, body: string) | Failed(i: nat) | Invoked(i: nat)

  // ----- Acquiring a tap -----------------------------------------------------

  datatype TapError = Exhausted | NotBound

  /** Two pairs and two sockets, or nothing taken. */
  function TryTap(a: Alloc, net: Net): (Alloc, Result<Tap, TapError>) {
    var (a1, p) := Take(a);
    if p.None? then (a1, Err(Exhausted))
    else
      var (a2, q) := Take(a1);
      if q.None? then (Give(a2, p.value), Err(Exhausted))
      else if !net.callerBinds || !net.calleeBinds then (Give(Give(a2, p.value), q.value), Err(NotBound))
      else (a2, Ok(Tap(p.value, q.value)))
  }

  method AcquireTap(ports: PortAllocator, net: Net) returns (r: Result<Tap, TapError>)
    modifies ports
    ensures (ports.View(), r) == TryTap(old(ports.View()), net)
  {
    var p := ports.Acquire();
    if p.None? {
      return Err(Exhausted);
    }
    var q := ports.Acquire();
    if q.None? {
      ports.Release(p.value);
      return Err(Exhausted);
    }
    if !net.callerBinds {
      ports.Release(p.value);
      ports.Release(q.value);
      return Err(NotBound);
    }
    if !net.calleeBinds {
      ports.Release(p.value);
      ports.Release(q.value);
      return Err(NotBound);
    }
    return Ok(Tap(p.value, q.value));
  }

  function GiveTap(a: Alloc, t: Tap): Alloc {
    Give(Give(a, t.caller), t.callee)
  }

  // ----- The chain as a fold -------------------------------------------------

  datatype Chained = Chained(alloc: Alloc, pending: seq<Tap>, legs: seq<OutboundLeg>, events: seq<ChainEvent>)

  /** Go on with the next application, or send a final response and tear the call down. */
  datatype Verdict = Next | Stop(status: int)

  function Body(s: Setup, app: Application, tap: Option<Tap>): Result<string, SdpError> {
    match Extract(Lines(s.offer))
    case Err(e) => Err(e)
    case Ok(c) =>
      Ok(Crlf(if tap.Some? then TapOffer(c, s.host, tap.value.caller.rtp, tap.value.callee.rtp)
              else SingleOffer(c, s.host, 0, "a=inactive")))
  }

  function Freed(st: Chained, tap: Option<Tap>): Chained {
    if tap.Some? then st.(alloc := GiveTap(st.alloc, tap.value)) else st
  }

  function Log(st: Chained, e: ChainEvent): Chained {
    st.(events := st.events + [e])
  }

  function Policy(app: Application, status: int): Verdict {
    if app.abort then Stop(status) else Next
  }

  /** mapFailureStatus: a rejection is passed on, anything else is a 503. */
  function FailureStatus(status: Option<int>): int {
    if status.Some? then status.value else 503
  }

  /** The leg is invited with the body and comes to its result. */
  function DialStep(app: Application, net: Net, i: nat, st: Chained, tap: Option<Tap>, body: string)
    : (Chained, Verdict)
  {
    var st1 := Log(st, Invited(i, body));
    match net.leg
    case NotOriginated => (Log(Freed(st1, tap), Failed(i)), Policy(app, 503))
    case NotAnswered(status) => (Log(Freed(st1, tap), Failed(i)), Policy(app, FailureStatus(status)))
    case LegAnswered(answer) =>
      var st2 := if tap.None? then st1
                 else if TapAnswer(Lines(answer)).Ok? then st1.(pending := st1.pending + [tap.value])
                 else Freed(st1, tap);
      (Log(st2.(legs := st2.legs + [OutboundLeg(i, answer)]), Invoked(i)), Next)
  }

  function AppStep(s: Setup, i: nat, st: Chained): (Chained, Verdict)
    requires i < |s.apps| == |s.nets|
  {
    var app, net := s.apps[i], s.nets[i];
    if !Matches(app.rule, s.input) then (st, Next)
    else if !app.uriOk then (st, Stop(500))
    else if app.tap then
      var (a, r) := TryTap(st.alloc, net);
      var st1 := st.(alloc := a);
      if r.Err? then (Log(st1, Failed(i)), Policy(app, if r.error == Exhausted then 503 else 500))
      else
        var body := Body(s, app, Some(r.value));
        if body.Err? then (Freed(st1, Some(r.value)), Stop(500))
        else DialStep(app, net, i, st1, Some(r.value), body.value)
    else
      var body := Body(s, app, None);
      if body.Err? then (st, Stop(500)) else DialStep(app, net, i, st, None, body.value)
  }

  /** Applications i, i+1, ... in order, cut at the first one that stops the call. */
  function ChainFrom(s: Setup, i: nat, st: Chained): (Chained, Verdict)
    requires i <= |s.apps| == |s.nets|
    decreases |s.apps| - i
  {
    if i == |s.apps| then (st, Next)
    else
      var (st1, v) := AppStep(s, i, st);
      if v.Stop? then (st1, v) else ChainFrom(s, i + 1, st1)
  }

  /** The call with the chain's stash and legs. */
  function AfterChain(c: Call, st: Chained): Call {
    c.(pending := st.pending, legs := c.legs.(apps := Apps(st.legs)))
  }

  /** The bridge's metrics and INVITEs, in the order it makes them; the final responses' statuses
      to the caller, and the bodies of the 200s; the offers the PBX was dialed with. */
  class Recorder {
    var events: seq<ChainEvent>
    var responses: seq<int>
    var answers: seq<string>
    var dialed: seq<string>

    constructor ()
      ensures events == [] && responses == [] && answers == [] && dialed == []
    {
      events, responses, answers, dialed := [], [], [], [];
    }

    method Record(e: ChainEvent)
      modifies this`events
      ensures events == old(events) + [e]
    {
      events := events + [e];
    }

    method Respond(status: int)
      modifies this`responses
      ensures responses == old(responses) + [status]
    {
      responses := responses + [status];
    }

    /** A 200 with this body. */
    method Answer(body: string)
      modifies this`responses, this`answers
      ensures responses == old(responses) + [200] && answers == old(answers) + [body]
    {
      responses, answers := responses + [200], answers + [body];
    }

    method Dial(offer: string)
      modifies this`dialed
      ensures dialed == old(dialed) + [offer]
    {
      dialed := dialed + [offer];
    }
  }

  // ----- Failing -------------------------------------------------------------

  /** What the release hook will free. */
  function Hooked(call: BridgedCall): seq<PortPair>
    reads call, call.media
  {
    if call.hook.Some? then call.hook.value + Pairs(call.Taps()) else []
  }

  /** The call is down, its stash and (unless another goroutine won) its hook's pairs back. */
  twostate predicate TakenDown(call: BridgedCall, ports: PortAllocator)
    reads call, call.media, ports
  {
    && call.Valid() && call.state == TearingDown && call.pending == [] && call.Taps() == old(call.Taps())
    && (call.media != null ==> call.media == old(call.media) && call.media.pbxSide == old(call.media.pbxSide))
    && call.log == old(call.log) + (if old(call.state) == TearingDown then []
                                    else Effects(old(LegsAt(call.View(Pc.Teardown))), call.hook.Some?))
    && ports.View() == GiveAll(old(ports.View()),
                               old(Pairs(call.pending))
                               + if old(call.state) != TearingDown then old(Hooked(call)) else [])
  }

  /** releasePendingTaps and teardown. */
  method TakeDown(call: BridgedCall, ports: PortAllocator, reg: Calls<nat>)
    requires call.Valid()
    modifies call`pending, call`state, call`log, call.media, ports, reg
    ensures TakenDown(call, ports)
  {
    ghost var a, stash, hooked := ports.View(), Pairs(call.pending), Hooked(call);
    ghost var c := call.View(Pc.Teardown);
    call.ReleasePendingTaps(ports);
    SameLegs(c, call.View(Pc.Teardown));
    call.Teardown(ports, reg);
    GivesOn(a, stash, hooked);
    assert stash + [] == stash;
  }

  /** fail: one final response, the stash given back, the call torn down. */
  method Fail(call: BridgedCall, status: int, ports: PortAllocator, reg: Calls<nat>, rec: Recorder)
    requires call.Valid()
    modifies call`pending, call`state, call`log, call.media, ports, reg, rec`responses
    ensures TakenDown(call, ports) && rec.responses == old(rec.responses) + [status]
  {
    rec.Respond(status);
    TakeDown(call, ports, reg);
  }

  // ----- The loop ------------------------------------------------------------

  function ViewOf(ports: PortAllocator, call: BridgedCall, rec: Recorder): Chained
    reads ports, call, rec
  {
    Chained(ports.View(), call.pending, call.appLegs, rec.events)
  }

  method ReleaseTap(tap: Option<Tap>, ports: PortAllocator)
    modifies ports
    ensures ports.View() == (if tap.Some? then GiveTap(old(ports.View()), tap.value) else old(ports.View()))
  {
    if tap.Some? {
      ports.Release(tap.value.caller);
      ports.Release(tap.value.callee);
    }
  }

  /** appLegFailed: the bookkeeping of a failed leg; true when the policy aborts. */
  method AppLegFailed(app: Application, i: nat, tap: Option<Tap>, ports: PortAllocator, rec: Recorder)
    returns (abort: bool)
    modifies ports, rec`events
    ensures ports.View() == (if tap.Some? then GiveTap(old(ports.View()), tap.value) else old(ports.View()))
    ensures rec.events == old(rec.events) + [Failed(i)] && abort == app.abort
  {
    ReleaseTap(tap, ports);
    rec.Record(Failed(i));
    return app.abort;
  }

  method BuildBody(s: Setup, app: Application, tap: Option<Tap>) returns (r: Result<string, SdpError>)
    ensures r == Body(s, app, tap)
  {
    if tap.Some? {
      r := BuildTapOffer(s.offer, s.host, tap.value.caller.rtp, tap.value.callee.rtp);
    } else {
      r := BuildInactiveOffer(s.offer, s.host);
    }
  }

  method DialApp(s: Setup, app: Application, net: Net, i: nat, tap: Option<Tap>, body: string,
                 ports: PortAllocator, call: BridgedCall, rec: Recorder)
    returns (v: Verdict)
    modifies ports, call`pending, call`appLegs, rec`events
    ensures (ViewOf(ports, call, rec), v) == DialStep(app, net, i, old(ViewOf(ports, call, rec)), tap, body)
  {
    rec.Record(Invited(i, body));
    match net.leg
    case NotOriginated =>
      var abort := AppLegFailed(app, i, tap, ports, rec);
      return if abort then Stop(503) else Next;
    case NotAnswered(status) =>
      var abort := AppLegFailed(app, i, tap, ports, rec);
      return if abort then Stop(FailureStatus(status)) else Next;
    case LegAnswered(answer) =>
      if tap.Some? {
        var r := ParseTapAnswer(answer);
        if r.Err? {
          ReleaseTap(tap, ports);
        } else {
          call.pending := call.pending + [tap.value];
        }
      }
      call.appLegs := call.appLegs + [OutboundLeg(i, answer)];
      rec.Record(Invoked(i));
      return Next;
  }

  /** One turn of the loop. */
  method RunApp(s: Setup, i: nat, ports: PortAllocator, call: BridgedCall, rec: Recorder) returns (v: Verdict)
    requires i < |s.apps| == |s.nets|
    modifies ports, call`pending, call`appLegs, rec`events
    ensures (ViewOf(ports, call, rec), v) == AppStep(s, i, old(ViewOf(ports, call, rec)))
  {
    var app, net := s.apps[i], s.nets[i];
    if !Matches(app.rule, s.input) {
      return Next;
    }
    if !app.uriOk {
      return Stop(500);
    }
    var tap: Option<Tap> := None;
    if app.tap {
      var r := AcquireTap(ports, net);
      if r.Err? {
        rec.Record(Failed(i));
        if app.abort {
          return Stop(if r.error == Exhausted then 503 else 500);
        }
        return Next;
      }
      tap := Some(r.value);
    }
    var body := BuildBody(s, app, tap);
    if body.Err? {
      ReleaseTap(tap, ports);
      return Stop(500);
    }
    v := DialApp(s, app, net, i, tap, body.value, ports, call, rec);
  }

  /** The legs teardown recorded, from the state the call was in. */
  function LegsDown(call: BridgedCall, before: CallState): seq<Leg>
    reads call, call.media
  {
    LegsAt(call.View(Pc.Teardown).(state := before))
  }

  /** The end of a chain that is cut. */
  method CutChain(call: BridgedCall, status: int, ports: PortAllocator, reg: Calls<nat>, rec: Recorder)
    requires call.Valid()
    modifies call`pending, call`state, call`log, call.media, ports, reg, rec`responses
    ensures call.Valid() && call.state == TearingDown && call.pending == []
    ensures rec.responses == old(rec.responses) + [status]
    ensures call.hook == None ==> ports.View() == GiveAll(old(ports.View()), old(Pairs(call.pending)))
    ensures call.hook == None && old(call.state) != TearingDown ==>
              call.log == old(call.log) + Effects(LegsDown(call, old(call.state)), false)
  {
    ghost var c, stash := call.View(Pc.Teardown), Pairs(call.pending);
    Fail(call, status, ports, reg, rec);
    assert stash + [] == stash;
    SameLegs(c, call.View(Pc.Teardown).(state := c.state));
  }

  /** runAppChain. On true the call's stash, its legs and what was sent are the fold's. On
      false the fold stopped: its status was answered, the stash is back and the call is
      down. */
  method RunAppChain(s: Setup, ports: PortAllocator, call: BridgedCall, reg: Calls<nat>, rec: Recorder)
    returns (ok: bool)
    requires |s.apps| == |s.nets| && call.Valid()
    modifies ports, call`pending, call`appLegs, call`state, call`log, call.media, reg
    modifies rec`events, rec`responses
    ensures call.Valid() && ok == ChainFrom(s, 0, old(ViewOf(ports, call, rec))).1.Next?
    ensures ok ==>
              && ViewOf(ports, call, rec) == ChainFrom(s, 0, old(ViewOf(ports, call, rec))).0
              && rec.responses == old(rec.responses) && call.state == old(call.state) && call.log == old(call.log)
    ensures !ok ==>
              var (st, v) := ChainFrom(s, 0, old(ViewOf(ports, call, rec)));
              && rec.events == st.events && rec.responses == old(rec.responses) + [v.status]
              && call.appLegs == st.legs && call.pending == [] && call.state == TearingDown
              && (old(call.hook) == None ==> ports.View() == GiveAll(st.alloc, Pairs(st.pending)))
              && (old(call.hook) == None && old(call.state) != TearingDown ==>
                    call.log == old(call.log) + Effects(LegsDown(call, old(call.state)), false))
  {
    ghost var st0 := ViewOf(ports, call, rec);
    for i := 0 to |s.apps|
      invariant ChainFrom(s, 0, st0) == ChainFrom(s, i, ViewOf(ports, call, rec))
      invariant rec.responses == old(rec.responses) && call.state == old(call.state) && call.log == old(call.log)
      invariant call.Valid()
    {
      var v := RunApp(s, i, ports, call, rec);
      if v.Stop? {
        CutChain(call, v.status, ports, reg, rec);
        return false;
      }
    }
    return true;
  }
}
