/** The life of calls as a step machine. Every critical section, every allocator call and
    every registry call is one step; what the network and the sockets do is chosen by the
    step's event. A call's bridge has a program counter that carries its local variables;
    the goroutine that wins teardown has one too; re-INVITE and REFER handlers run beside
    them. Steps of all calls interleave freely. */
module Lifecycle {
  import opened Ports
  import opened Registry
  import opened Sdp
  import opened Text
  import opened Wrappers

  // ----- One call ------------------------------------------------------------

  datatype CallState = Setup | Established | TearingDown

  predicate CanTransition(from: CallState, to: CallState) {
    match from
    case Setup => to == Established || to == TearingDown
    case Established => to == TearingDown
    case TearingDown => false
  }

  /** What the bridge needs to know of one application: whether it is tapped, and whether
      its failure aborts the call. */
  datatype App = App(tap: bool, abort: bool)

  datatype Config = Config(apps: seq<App>, mediaHost: string, isIP: string -> bool)

  datatype Tap = Tap(caller: PortPair, callee: PortPair)

  datatype Leg = Inbound | AppLeg(i: nat) | Pbx | Target(n: nat)

  datatype Remote = Remote(host: string, rtp: int, rtcp: int)

  function RemoteOf(e: Endpoint): Remote {
    Remote(e.host, e.port, e.port + 1)
  }

  /** Where the bridge goes once it has given pairs back. */
  datatype After = ToChain(i: nat) | ToAppend(i: nat) | ToPending | ToTeardown | ToDone

  /** Where the bridge is, with the pairs in its hands. */
  datatype Pc =
    | Chain(i: nat)
    | TapCallee(i: nat, caller: PortPair)
    | TapHeld(i: nat, caller: PortPair, callee: PortPair)
    | AppendLeg(i: nat)
    | AnchorPbx(remote: Endpoint, ep: PortPair)
    | AnchorHeld(remote: Endpoint, ep: PortPair, pbx: PortPair)
    | SecuredRegister
    | SecuredPbx
    | SecuredHeld(pbx: PortPair)
    | Dial
    | Ringing
    | Answered(sdp: string)
    | Ready(sdp: string)
    | Establishing(k: nat)  // holds the call lock
    | Answering
    | Up
    | TakePending
    | Free(todo: seq<PortPair>, next: After)
    | Teardown
    | Done

  function Goto(after: After): Pc {
    match after
    case ToChain(i) => Chain(i)
    case ToAppend(i) => AppendLeg(i)
    case ToPending => TakePending
    case ToTeardown => Teardown
    case ToDone => Done
  }

  /** The goroutine that passed teardown's guard. */
  datatype Winner =
    | NoWinner
    | Closing(todo: seq<PortPair>)
    | Snapshot
    | ClosingTaps(todo: seq<PortPair>)
    | Deregister
    | Byes(n: nat)
    | Finished

  datatype Event = Committed(byes: seq<Leg>) | HookRun | Deregistered | Bye(leg: Leg)

  /** What teardown has done so far: its goroutine, the legs it recorded, its trace. */
  datatype Undo = Undo(winner: Winner, byes: seq<Leg>, log: seq<Event>)

  datatype Legs = Legs(apps: seq<nat>, pbx: bool, target: Option<nat>, targets: nat)

  /** The negotiated media of a call. */
  datatype Negotiation = Negotiation(
    epPort: Option<int>,       // local port of the plain endpoint side; None when secured
    answer: Option<string>,    // pbxLeg.answerSDP
    epRemote: Option<Remote>,
    pbxRemote: Option<Remote>,
    epAnswer: Option<string>,  // last anchored answer given to the endpoint
    reInvites: nat,            // handlers between their two critical sections
    refers: nat)

  datatype Call = Call(
    id: string,
    dialog: string,
    state: CallState,
    pc: Pc,
    pending: seq<Tap>,
    hook: Option<seq<PortPair>>,  // the release hook: the fixed pairs it frees
    taps: seq<Tap>,               // the taps on the media session
    snap: nat,                    // how many of them the hook's tapList saw
    undo: Undo,
    legs: Legs,
    neg: Negotiation)

  function NewCall(id: string, dialog: string): Call {
    Call(id, dialog, Setup, Chain(0), [], None, [], 0, Undo(NoWinner, [], []), Legs([], false, None, 0),
         Negotiation(None, None, None, None, None, 0, 0))
  }

  function Pairs(ts: seq<Tap>): seq<PortPair> {
    if ts == [] then [] else [ts[0].caller, ts[0].callee] + Pairs(ts[1..])
  }

  // ----- Teardown's guard ----------------------------------------------------

  function LegsAt(c: Call): seq<Leg> {
    (if c.state == Established then [Inbound] else [])
    + seq(|c.legs.apps|, i requires 0 <= i < |c.legs.apps| => AppLeg(c.legs.apps[i]))
    + (if c.legs.pbx then [Pbx] else [])
    + (if c.legs.target.Some? then [Target(c.legs.target.value)] else [])
  }

  function Passed(c: Call): Undo {
    if c.hook.Some? then Undo(Closing(c.hook.value), LegsAt(c), c.undo.log + [Committed(LegsAt(c)), HookRun])
    else Undo(Deregister, LegsAt(c), c.undo.log + [Committed(LegsAt(c))])
  }

  /** One attempt at teardown: the first passes the guard and records what it will undo. */
  function Commit(c: Call): Call {
    if !CanTransition(c.state, TearingDown) then c else c.(state := TearingDown, undo := Passed(c))
  }

  // ----- The bridge ----------------------------------------------------------

  datatype BridgeEvent =
    | Skip | Refuse | Grab | BindFail | InviteFailed | BadTapAnswer | Accepted | Append
    | AnchorPlain(remote: Endpoint) | AnchorSecured | Register
    | Dialed | PbxAnswered(sdp: string) | PointPbx
    | Establish | AddTap | Unlock | Respond(ok: bool)
    | ReleaseOne | CollectPending | CallTeardown | Cancelled

  function Giveup(cfg: Config, i: nat): After
    requires i < |cfg.apps|
  {
    if cfg.apps[i].abort then ToPending else ToChain(i + 1)
  }

  predicate AtApp(cfg: Config, c: Call) {
    c.pc.Chain? && c.pc.i < |cfg.apps|
  }

  predicate AtAnchor(cfg: Config, c: Call) {
    c.pc.Chain? && c.pc.i == |cfg.apps|
  }

  predicate TapApp(cfg: Config, c: Call) {
    c.pc.TapHeld? && c.pc.i < |cfg.apps|
  }

  function RefuseStep(cfg: Config, c: Call): Option<Call> {
    match c.pc
    case Chain(i) => if i <= |cfg.apps| then Some(c.(pc := TakePending)) else None
    case TapHeld(i, p, q) => Some(c.(pc := Free([p, q], ToPending)))
    case Dial => Some(c.(pc := TakePending))
    case Ringing => Some(c.(pc := TakePending))
    case Answered(sdp) => if Media(Lines(sdp), cfg.isIP).Err? then Some(c.(pc := TakePending)) else None
    case Ready(sdp) =>
      if c.neg.epPort.Some? && Rewrite(sdp, cfg.mediaHost, c.neg.epPort.value).Err?
      then Some(c.(pc := TakePending)) else None
    case _ => None
  }

  /** Where an attempt to acquire a pair leads. */
  function AfterGrab(cfg: Config, pc: Pc, r: Option<PortPair>): Option<Pc> {
    match pc
    case Chain(i) =>
      if i >= |cfg.apps| || !cfg.apps[i].tap then None
      else Some(if r.Some? then TapCallee(i, r.value) else Goto(Giveup(cfg, i)))
    case TapCallee(i, p) =>
      if i >= |cfg.apps| then None
      else Some(if r.Some? then TapHeld(i, p, r.value) else Free([p], Giveup(cfg, i)))
    case AnchorPbx(e, ep) => Some(if r.Some? then AnchorHeld(e, ep, r.value) else Free([ep], ToPending))
    case SecuredPbx => Some(if r.Some? then SecuredHeld(r.value) else TakePending)
    case _ => None
  }

  function GrabStep(cfg: Config, a: Alloc, c: Call): Option<(Alloc, Call)> {
    var (b, r) := Take(a);
    var next := AfterGrab(cfg, c.pc, r);
    if next.Some? then Some((b, c.(pc := next.value))) else None
  }

  function BindFailStep(cfg: Config, c: Call): Option<Call> {
    if TapApp(cfg, c) then
      Some(c.(pc := Free([c.pc.caller, c.pc.callee], Giveup(cfg, c.pc.i))))
    else if c.pc.AnchorHeld? then Some(c.(pc := Free([c.pc.ep, c.pc.pbx], ToPending)))
    else if c.pc.SecuredHeld? then Some(c.(pc := Free([c.pc.pbx], ToPending)))
    else None
  }

  function InviteStep(cfg: Config, c: Call, ev: BridgeEvent): Option<Call> {
    if AtApp(cfg, c) && !cfg.apps[c.pc.i].tap then
      match ev
      case InviteFailed => Some(c.(pc := Goto(Giveup(cfg, c.pc.i))))
      case Accepted => Some(c.(pc := AppendLeg(c.pc.i)))
      case _ => None
    else if TapApp(cfg, c) then
      var (i, p, q) := (c.pc.i, c.pc.caller, c.pc.callee);
      match ev
      case InviteFailed => Some(c.(pc := Free([p, q], Giveup(cfg, i))))
      case BadTapAnswer => Some(c.(pc := Free([p, q], ToAppend(i))))
      case Accepted => Some(c.(pc := AppendLeg(i), pending := c.pending + [Tap(p, q)]))
      case _ => None
    else None
  }

  /** registerMedia and what its caller does when it is refused. */
  function RegisterStep(c: Call): Option<Call> {
    var refused := c.state == TearingDown;
    match c.pc
    case AnchorHeld(e, ep, pbx) =>
      if refused then Some(c.(pc := Free([ep, pbx], ToDone)))
      else Some(c.(pc := Dial, hook := Some([ep, pbx]),
                   neg := c.neg.(epPort := Some(ep.rtp), epRemote := Some(RemoteOf(e)))))
    case SecuredRegister =>
      if refused then Some(c.(pc := Done)) else Some(c.(pc := SecuredPbx, hook := Some([])))
    case SecuredHeld(pbx) =>
      if refused then Some(c.(pc := Free([pbx], ToDone))) else Some(c.(pc := Dial, hook := Some([pbx])))
    case _ => None
  }

  function EstablishStep(cfg: Config, c: Call): Option<Call> {
    if !c.pc.Ready? then None
    else
      var up := if CanTransition(c.state, Established) then c.(state := Established) else c;
      if c.neg.epPort.None? then Some(up.(pc := Establishing(0)))
      else match Rewrite(c.pc.sdp, cfg.mediaHost, c.neg.epPort.value)
        case Err(_) => None
        case Ok(r) => Some(up.(pc := Establishing(0), neg := c.neg.(epAnswer := Some(r))))
  }

  function ReleaseStep(a: Alloc, c: Call): Option<(Alloc, Call)> {
    if !c.pc.Free? then None
    else if c.pc.todo == [] then Some((a, c.(pc := Goto(c.pc.next))))
    else Some((Give(a, c.pc.todo[0]), c.(pc := Free(c.pc.todo[1..], c.pc.next))))
  }

  function AnchorStep(cfg: Config, a: Alloc, c: Call, e: Endpoint): Option<(Alloc, Call)> {
    if !AtAnchor(cfg, c) then None
    else
      var (b, r) := Take(a);
      Some((b, c.(pc := if r.Some? then AnchorPbx(e, r.value) else TakePending)))
  }

  /** The bridge's steps that leave the allocator alone. */
  function Quiet(cfg: Config, c: Call, ev: BridgeEvent): Option<Call> {
    match ev
    case Skip => if AtApp(cfg, c) then Some(c.(pc := Chain(c.pc.i + 1))) else None
    case Refuse => RefuseStep(cfg, c)
    case BindFail => BindFailStep(cfg, c)
    case InviteFailed => InviteStep(cfg, c, ev)
    case BadTapAnswer => InviteStep(cfg, c, ev)
    case Accepted => InviteStep(cfg, c, ev)
    case Append =>
      if c.pc.AppendLeg? then
        Some(c.(pc := Chain(c.pc.i + 1), legs := c.legs.(apps := c.legs.apps + [c.pc.i])))
      else None
    case AnchorSecured => if AtAnchor(cfg, c) then Some(c.(pc := SecuredRegister)) else None
    case Register => RegisterStep(c)
    case Dialed => if c.pc.Dial? then Some(c.(pc := Ringing, legs := c.legs.(pbx := true))) else None
    case PbxAnswered(sdp) =>
      if c.pc.Ringing? then Some(c.(pc := Answered(sdp), neg := c.neg.(answer := Some(sdp)))) else None
    case PointPbx =>
      if c.pc.Answered? && Media(Lines(c.pc.sdp), cfg.isIP).Ok? then
        Some(c.(pc := Ready(c.pc.sdp),
                neg := c.neg.(pbxRemote := Some(RemoteOf(Media(Lines(c.pc.sdp), cfg.isIP).value)))))
      else None
    case Establish => EstablishStep(cfg, c)
    case AddTap =>
      if c.pc.Establishing? && c.pc.k < |c.pending| then
        Some(c.(pc := Establishing(c.pc.k + 1), taps := c.taps + [c.pending[c.pc.k]]))
      else None
    case Unlock =>
      if c.pc.Establishing? && c.pc.k == |c.pending| then Some(c.(pc := Answering, pending := [])) else None
    case Respond(ok) =>
      if c.pc.Answering? then Some(c.(pc := if ok then Up else TakePending)) else None
    case CollectPending =>
      if c.pc.TakePending? then Some(c.(pc := Free(Pairs(c.pending), ToTeardown), pending := [])) else None
    case CallTeardown => if c.pc.Teardown? then Some(Commit(c).(pc := Done)) else None
    case Cancelled => if c.pc.Up? then Some(c.(pc := Done)) else None
    case _ => None
  }

  predicate UsesAlloc(ev: BridgeEvent) {
    ev.Grab? || ev.AnchorPlain? || ev.ReleaseOne?
  }

  function AllocStep(cfg: Config, a: Alloc, c: Call, ev: BridgeEvent): Option<(Alloc, Call)>
    requires UsesAlloc(ev)
  {
    match ev
    case Grab => GrabStep(cfg, a, c)
    case AnchorPlain(e) => AnchorStep(cfg, a, c, e)
    case ReleaseOne => ReleaseStep(a, c)
  }

  function Bridge(cfg: Config, a: Alloc, c: Call, ev: BridgeEvent): Option<(Alloc, Call)> {
    if UsesAlloc(ev) then AllocStep(cfg, a, c, ev) else With(a, Quiet(cfg, c, ev))
  }

  function With(a: Alloc, r: Option<Call>): Option<(Alloc, Call)> {
    if r.Some? then Some((a, r.value)) else None
  }

  // ----- The other goroutines of a call --------------------------------------

  datatype OtherEvent =
    | ForeignTeardown
    | WinnerMoves
    | ReInviteEnter | ReInviteDrop | ReInviteCommit(remote: Endpoint, sdp: string)
    | ReferEnter | ReferDrop | ReferCommit(remote: Endpoint)

  predicate LockFree(c: Call) {
    !c.pc.Establishing?
  }

  /** A mid-call request gets past its guard: the call is established and its endpoint plain. */
  predicate MidCallOk(c: Call) {
    LockFree(c) && c.state == Established && c.neg.epPort.Some?
  }

  /** The re-INVITE's second critical section: both remotes and the stored answer at once. */
  function ReInviteStep(cfg: Config, c: Call, e: Endpoint, sdp: string): Option<Call> {
    if c.neg.reInvites == 0 || !LockFree(c) || Media(Lines(sdp), cfg.isIP).Err? || c.neg.epPort.None? then None
    else
      var r := Rewrite(sdp, cfg.mediaHost, c.neg.epPort.value);
      Some(c.(neg := c.neg.(reInvites := c.neg.reInvites - 1, answer := Some(sdp),
                            epRemote := Some(RemoteOf(e)),
                            pbxRemote := Some(RemoteOf(Media(Lines(sdp), cfg.isIP).value)),
                            epAnswer := if r.Ok? then Some(r.value) else None)))
  }

  /** The REFER's second critical section: the endpoint side now faces the target. */
  function ReferStep(c: Call, e: Endpoint): Option<Call> {
    if c.neg.refers == 0 || !LockFree(c) then None
    else
      Some(c.(neg := c.neg.(refers := c.neg.refers - 1, epRemote := Some(RemoteOf(e))),
              legs := c.legs.(target := Some(c.legs.targets), targets := c.legs.targets + 1)))
  }

  /** The winner's next effect: the hook frees a pair, reads the tap list or ends; the call
      is deregistered; a BYE goes out. */
  function WinnerStep(a: Alloc, c: Call): Option<(Alloc, Call)> {
    var u := c.undo;
    match u.winner
    case NoWinner => None
    case Closing(todo) =>
      if todo == [] then Some((a, c.(undo := u.(winner := Snapshot))))
      else Some((Give(a, todo[0]), c.(undo := u.(winner := Closing(todo[1..])))))
    case Snapshot => Some((a, c.(undo := u.(winner := ClosingTaps(Pairs(c.taps))), snap := |c.taps|)))
    case ClosingTaps(todo) =>
      if todo == [] then Some((a, c.(undo := u.(winner := Deregister))))
      else Some((Give(a, todo[0]), c.(undo := u.(winner := ClosingTaps(todo[1..])))))
    case Deregister => Some((a, c.(undo := u.(winner := Byes(0), log := u.log + [Deregistered]))))
    case Byes(n) =>
      if n < |u.byes| then Some((a, c.(undo := u.(winner := Byes(n + 1), log := u.log + [Bye(u.byes[n])]))))
      else Some((a, c.(undo := u.(winner := Finished))))
    case Finished => None
  }

  /** The other goroutines' steps that leave the allocator alone. */
  function Aside(cfg: Config, c: Call, ev: OtherEvent): Option<Call> {
    match ev
    case ForeignTeardown => if LockFree(c) then Some(Commit(c)) else None
    case ReInviteEnter =>
      if MidCallOk(c) then Some(c.(neg := c.neg.(reInvites := c.neg.reInvites + 1))) else None
    case ReInviteDrop =>
      if c.neg.reInvites > 0 then Some(c.(neg := c.neg.(reInvites := c.neg.reInvites - 1))) else None
    case ReInviteCommit(e, sdp) => ReInviteStep(cfg, c, e, sdp)
    case ReferEnter => if MidCallOk(c) then Some(c.(neg := c.neg.(refers := c.neg.refers + 1))) else None
    case ReferDrop =>
      if c.neg.refers > 0 then Some(c.(neg := c.neg.(refers := c.neg.refers - 1))) else None
    case ReferCommit(e) => ReferStep(c, e)
    case WinnerMoves => None
  }

  function Other(cfg: Config, a: Alloc, c: Call, ev: OtherEvent): Option<(Alloc, Call)> {
    if ev.WinnerMoves? then WinnerStep(a, c) else With(a, Aside(cfg, c, ev))
  }

  // ----- All calls -----------------------------------------------------------

  datatype CallEvent = OfBridge(b: BridgeEvent) | OfOther(o: OtherEvent)

  datatype Action = Spawn(id: string, dialog: string) | Act(i: nat, ev: CallEvent)

  datatype World = World(alloc: Alloc, calls: seq<Call>, registry: Index<nat>)

  function CallStep(cfg: Config, a: Alloc, c: Call, ev: CallEvent): Option<(Alloc, Call)> {
    match ev
    case OfBridge(b) => Bridge(cfg, a, c, b)
    case OfOther(o) => Other(cfg, a, c, o)
  }

  /** Call ids and dialog ids are minted unique. */
  predicate FreshIds(w: World, id: string, dialog: string) {
    forall k | 0 <= k < |w.calls| :: w.calls[k].id != id && (dialog != "" ==> w.calls[k].dialog != dialog)
  }

  function Step(cfg: Config, w: World, act: Action): Option<World> {
    match act
    case Spawn(id, dialog) =>
      if !FreshIds(w, id, dialog) then None
      else
        Some(World(w.alloc, w.calls + [NewCall(id, dialog)],
                   AddDialog(Add(w.registry, id, |w.calls|), dialog, |w.calls|)))
    case Act(i, ev) =>
      if i >= |w.calls| then None
      else match CallStep(cfg, w.alloc, w.calls[i], ev)
        case None => None
        case Some((a, c)) =>
          Some(World(a, w.calls[i := c],
                     if Deregisters(w.calls[i], ev) then Remove(w.registry, c.id, c.dialog) else w.registry))
  }

  predicate Deregisters(c: Call, ev: CallEvent) {
    ev == OfOther(WinnerMoves) && c.undo.winner == Deregister
  }

  function Start(min: int, max: int): World {
    World(Fresh(min, max), [], Index(map[], map[]))
  }

  /** The world after the actions, taken in order; None if one of them was not possible. */
  function Run(cfg: Config, w: World, acts: seq<Action>): Option<World>
    decreases |acts|
  {
    if acts == [] then Some(w)
    else match Run(cfg, w, acts[..|acts| - 1])
      case None => None
      case Some(v) => Step(cfg, v, acts[|acts| - 1])
  }
}
