/** The idle reaper: a periodic sweep that tears down established calls whose media has been
    silent for longer than the timeout. Times are nanoseconds. */
module Reaper {
  import opened CallObject
  import opened Lifecycle
  import opened Ports
  import opened Registry
  import opened Teardown
  import opened Wrappers

  const MAX_INTERVAL := 30_000_000_000

  /** How often the sweep runs. */
  function Interval(timeout: int): int {
    if timeout / 2 > MAX_INTERVAL then MAX_INTERVAL else timeout / 2
  }

  function IdleFor(last: int, now: int): int {
    if last == 0 then 0 else now - last
  }

  predicate IdleExpired(state: CallState, last: Option<int>, now: int, timeout: int) {
    state == Established && last.Some? && IdleFor(last.value, now) > timeout
  }

  // ----- One sweep -----------------------------------------------------------

  function LastActivity(call: BridgedCall): Option<int>
    reads call, call.media
  {
    if call.media == null then None else Some(call.media.lastActivity)
  }

  predicate Expired(call: BridgedCall, now: int, timeout: int)
    reads call, call.media
  {
    IdleExpired(call.state, LastActivity(call), now, timeout)
  }

  /** A registered call as a sweep finds it: whether it goes, and what then goes with it. */
  datatype Seen = Seen(expired: bool, id: string, dialog: string, state: CallState, log: seq<Event>,
                       legs: seq<Leg>, hooked: bool, freed: seq<PortPair>, closed: bool)

  function Look(call: BridgedCall, now: int, timeout: int): Seen
    reads call, call.media
  {
    Seen(Expired(call, now, timeout), call.id, call.dialog, call.state, call.log, LegsAt(call.View(Pc.Teardown)),
         call.hook.Some?, if call.hook.Some? then call.hook.value + Pairs(call.Taps()) else [],
         call.media != null && call.media.closed)
  }

  function Sessions(calls: seq<BridgedCall>): set<MediaSession?>
    reads calls
  {
    set c | c in calls :: c.media
  }

  function Looks(calls: seq<BridgedCall>, now: int, timeout: int): (r: seq<Seen>)
    reads calls, Sessions(calls)
    ensures |r| == |calls| && forall i | 0 <= i < |calls| :: r[i] == Look(calls[i], now, timeout)
  {
    if calls == [] then [] else Looks(calls[..|calls| - 1], now, timeout) + [Look(calls[|calls| - 1], now, timeout)]
  }

  /** The pairs the expired ones' hooks free, in the order of the sweep. */
  function FreedBy(seen: seq<Seen>): seq<PortPair> {
    if seen == [] then []
    else
      var n := |seen| - 1;
      FreedBy(seen[..n]) + if seen[n].expired then seen[n].freed else []
  }

  /** The registry without the expired ones. */
  function Without(reg: Index<nat>, seen: seq<Seen>): Index<nat> {
    if seen == [] then reg
    else
      var n := |seen| - 1;
      var r := Without(reg, seen[..n]);
      if seen[n].expired then Remove(r, seen[n].id, seen[n].dialog) else r
  }

  /** A call as a sweep that found it so leaves it. */
  ghost predicate LeftAs(call: BridgedCall, s: Seen, now: int, timeout: int)
    reads call, call.media
  {
    if s.expired then
      && call.state == TearingDown && call.log == s.log + Effects(s.legs, s.hooked)
      && (s.hooked ==> call.media != null && call.media.closed)
    else Look(call, now, timeout) == s
  }

  /** The calls are different ones, each with its own session. */
  ghost predicate Apart(calls: seq<BridgedCall>)
    reads calls
  {
    && (forall i | 0 <= i < |calls| :: calls[i].Valid())
    && forall i, j | 0 <= i < j < |calls| ::
         calls[i] != calls[j] && (calls[i].media != null ==> calls[i].media != calls[j].media)
  }

  lemma NextSeen(seen: seq<Seen>, i: nat, a: Alloc, reg: Index<nat>)
    requires i < |seen|
    ensures GiveAll(a, FreedBy(seen[..i + 1]))
         == if seen[i].expired then GiveAll(GiveAll(a, FreedBy(seen[..i])), seen[i].freed)
           else GiveAll(a, FreedBy(seen[..i]))
    ensures Without(reg, seen[..i + 1])
         == if seen[i].expired then Remove(Without(reg, seen[..i]), seen[i].id, seen[i].dialog)
           else Without(reg, seen[..i])
  {
    assert seen[..i + 1][..i] == seen[..i];
    if seen[i].expired {
      GivesOn(a, FreedBy(seen[..i]), seen[i].freed);
    } else {
      assert FreedBy(seen[..i]) + [] == FreedBy(seen[..i]);
    }
  }

  /** A call found expired is taken down. */
  method Visit(call: BridgedCall, now: int, timeout: int, ports: PortAllocator, reg: Calls<nat>)
    requires call.Valid()
    modifies call`state, call`log, ports, reg, call.media
    ensures call.Valid()
    ensures LeftAs(call, old(Look(call, now, timeout)), now, timeout)
    ensures old(Expired(call, now, timeout)) ==>
              && ports.View() == GiveAll(old(ports.View()), old(Look(call, now, timeout)).freed)
              && reg.View() == Remove(old(reg.View()), call.id, call.dialog)
    ensures !old(Expired(call, now, timeout)) ==> ports.View() == old(ports.View()) && reg.View() == old(reg.View())
  {
    if Expired(call, now, timeout) {
      call.Teardown(ports, reg);
    }
  }

  /** The first k calls are as the sweep leaves them, the rest as it found them. */
  ghost predicate Swept(calls: seq<BridgedCall>, seen: seq<Seen>, k: int, now: int, timeout: int)
    reads calls, Sessions(calls)
  {
    && |seen| == |calls|
    && forall i | 0 <= i < |calls| ::
         if i < k then LeftAs(calls[i], seen[i], now, timeout) else Look(calls[i], now, timeout) == seen[i]
  }

  /** What the first k calls gave back is back, and the registry has forgotten the expired ones. */
  ghost predicate Settled(ports: PortAllocator, reg: Calls<nat>, seen: seq<Seen>, k: nat, a: Alloc, x: Index<nat>)
    requires k <= |seen|
    reads ports, reg
  {
    ports.View() == GiveAll(a, FreedBy(seen[..k])) && reg.View() == Without(x, seen[..k])
  }

  method VisitAt(calls: seq<BridgedCall>, k: nat, call: BridgedCall, now: int, timeout: int,
                 ports: PortAllocator, reg: Calls<nat>, ghost seen: seq<Seen>)
    requires k < |calls| && call == calls[k] && Apart(calls) && Swept(calls, seen, k, now, timeout)
    modifies call`state, call`log, ports, reg, call.media
    ensures Apart(calls) && Swept(calls, seen, k + 1, now, timeout)
    ensures seen[k].expired ==>
              && ports.View() == GiveAll(old(ports.View()), seen[k].freed)
              && reg.View() == Remove(old(reg.View()), seen[k].id, seen[k].dialog)
    ensures !seen[k].expired ==> ports.View() == old(ports.View()) && reg.View() == old(reg.View())
  {
    Visit(call, now, timeout, ports, reg);
    forall i | 0 <= i < |calls| && i != k
      ensures Look(calls[i], now, timeout) == old(Look(calls[i], now, timeout))
    {
      assert calls[i].media != null ==> calls[i].media != call.media;
    }
  }

  /** One turn of the sweep. */
  method SweepAt(calls: seq<BridgedCall>, k: nat, call: BridgedCall, now: int, timeout: int,
                 ports: PortAllocator, reg: Calls<nat>, ghost seen: seq<Seen>, ghost a: Alloc, ghost x: Index<nat>)
    requires k < |calls| && call == calls[k] && Apart(calls) && Swept(calls, seen, k, now, timeout)
    requires Settled(ports, reg, seen, k, a, x)
    modifies call`state, call`log, ports, reg, call.media
    ensures Apart(calls) && Swept(calls, seen, k + 1, now, timeout)
    ensures Settled(ports, reg, seen, k + 1, a, x)
  {
    NextSeen(seen, k, a, x);
    VisitAt(calls, k, call, now, timeout, ports, reg, seen);
  }

  /** One sweep takes down exactly the calls it finds expired: their hooks' and taps' pairs are
      back, in order, the registry has forgotten them and each leg got its BYE. The others are
      left as they were. */
  method Sweep(calls: seq<BridgedCall>, now: int, timeout: int, ports: PortAllocator, reg: Calls<nat>)
    requires Apart(calls)
    modifies (set c | c in calls)`state, (set c | c in calls)`log, ports, reg, Sessions(calls)
    ensures forall i | 0 <= i < |calls| :: LeftAs(calls[i], old(Looks(calls, now, timeout))[i], now, timeout)
    ensures ports.View() == GiveAll(old(ports.View()), FreedBy(old(Looks(calls, now, timeout))))
    ensures reg.View() == Without(old(reg.View()), old(Looks(calls, now, timeout)))
  {
    ghost var seen, a, x := Looks(calls, now, timeout), ports.View(), reg.View();
    assert FreedBy(seen[..0]) == [] && a.free + [] == a.free;
    for k := 0 to |calls|
      invariant Apart(calls) && Swept(calls, seen, k, now, timeout)
      invariant Settled(ports, reg, seen, k, a, x)
    {
      SweepAt(calls, k, calls[k], now, timeout, ports, reg, seen, a, x);
    }
    assert seen[..|calls|] == seen;
  }

  /** Half the timeout, and never more than half a minute. */
  lemma IntervalIs(timeout: int)
    requires timeout >= 2
    ensures Interval(timeout) == if timeout < 60_000_000_000 then timeout / 2 else 30_000_000_000
    ensures 0 < Interval(timeout) <= 30_000_000_000 && Interval(timeout) <= timeout / 2
  {
  }

  // ----- Over time -----------------------------------------------------------

  /** The k-th tick of a sweep timer started at a time. */
  function Tick(start: int, timeout: int, k: nat): int {
    start + k * Interval(timeout)
  }

  /** The latest activity not after now; 0 when there was none yet. */
  function LastAt(acts: seq<int>, now: int): (last: int)
    decreases |acts|
  {
    if acts == [] then 0
    else if acts[|acts| - 1] <= now then acts[|acts| - 1]
    else LastAt(acts[..|acts| - 1], now)
  }

  /** It is one of the activities, none that is not after now is later, and 0 means there was none. */
  lemma {:induction false} LastAtIs(acts: seq<int>, now: int)
    requires History(acts)
    ensures forall i | 0 <= i < |acts| && acts[i] <= now :: acts[i] <= LastAt(acts, now)
    ensures LastAt(acts, now) == 0 || (LastAt(acts, now) in acts && LastAt(acts, now) <= now)
    decreases |acts|
  {
    if acts != [] && acts[|acts| - 1] > now {
      LastAtIs(acts[..|acts| - 1], now);
    }
  }

  /** Times of activity, in order. */
  predicate History(acts: seq<int>) {
    && (forall i | 0 <= i < |acts| :: acts[i] > 0)
    && (forall i, j | 0 <= i < j < |acts| :: acts[i] < acts[j])
  }

  /** The state of a call with this history after the first k ticks. */
  function After(state: CallState, media: bool, acts: seq<int>, start: int, timeout: int, k: nat): CallState {
    if k == 0 then state
    else
      var s := After(state, media, acts, start, timeout, k - 1);
      var now := Tick(start, timeout, k);
      if IdleExpired(s, if media then Some(LastAt(acts, now)) else None, now, timeout) then TearingDown else s
  }

  /** Among the ticks there is one in every stretch of an interval's length after the start. */
  lemma TickIn(start: int, timeout: int, t: int) returns (k: nat)
    requires timeout >= 2 && start <= t
    ensures k > 0 && t < Tick(start, timeout, k) <= t + Interval(timeout)
  {
    var d := Interval(timeout);
    k := (t - start) / d + 1;
    Quotient(t - start, d);
    assert k * d == (t - start) / d * d + d;
  }

  lemma Quotient(n: int, d: int)
    requires n >= 0 && d > 0
    ensures n / d >= 0 && n / d * d <= n < n / d * d + d
  {
    assert n == n / d * d + n % d;
  }

  lemma {:induction false} StaysDown(state: CallState, media: bool, acts: seq<int>, start: int, timeout: int, k: nat,
                                     n: nat)
    requires k <= n && After(state, media, acts, start, timeout, k) == TearingDown
    ensures After(state, media, acts, start, timeout, n) == TearingDown
    decreases n
  {
    if k < n {
      StaysDown(state, media, acts, start, timeout, k, n - 1);
    }
  }

  lemma LastIsLast(acts: seq<int>, now: int)
    requires History(acts) && acts != [] && acts[|acts| - 1] <= now
    ensures LastAt(acts, now) == acts[|acts| - 1]
  {
  }

  lemma {:induction false} OnlyDown(media: bool, acts: seq<int>, start: int, timeout: int, k: nat)
    ensures After(Established, media, acts, start, timeout, k) != CallState.Setup
  {
    if k > 0 {
      OnlyDown(media, acts, start, timeout, k - 1);
    }
  }

  /** An established call that has been silent since t is torn down by the tick that comes no
      later than t + timeout + min(timeout/2, 30 s), however many there were before. */
  lemma ReapedInTime(acts: seq<int>, start: int, timeout: int)
    requires timeout >= 2 && History(acts) && acts != [] && start <= acts[|acts| - 1] + timeout
    ensures var t := acts[|acts| - 1];
      exists k: nat :: && Tick(start, timeout, k) <= t + timeout + timeout / 2
                       && Tick(start, timeout, k) <= t + timeout + 30_000_000_000
                       && After(Established, true, acts, start, timeout, k) == TearingDown
  {
    var t := acts[|acts| - 1];
    var k := TickIn(start, timeout, t + timeout);
    IntervalIs(timeout);
    LastIsLast(acts, Tick(start, timeout, k));
    OnlyDown(true, acts, start, timeout, k - 1);
    assert After(Established, true, acts, start, timeout, k) == TearingDown;
  }

  /** Consecutive activities are never further apart than the timeout. */
  predicate Lively(acts: seq<int>, timeout: int) {
    forall i | 0 < i < |acts| :: acts[i] - acts[i - 1] <= timeout
  }

  lemma {:induction false} LastIsNear(acts: seq<int>, timeout: int, now: int, until: int)
    requires History(acts) && Lively(acts, timeout) && acts != [] && now <= until
    requires until <= acts[|acts| - 1] + timeout
    ensures IdleFor(LastAt(acts, now), now) <= timeout || timeout < 0
    decreases |acts|
  {
    var n := |acts| - 1;
    if acts[n] > now && n > 0 {
      assert acts[n] - acts[n - 1] <= timeout;
      LastIsNear(acts[..n], timeout, now, now);
    } else if acts[n] > now {
      assert acts[..n] == [];
    }
  }

  /** A call whose activity never pauses for longer than the timeout is not torn down by any
      tick up to its last activity plus the timeout; a call that is not established, has no
      media session, or whose relay never started is never torn down. */
  lemma {:induction false} NeverReaped(state: CallState, media: bool, acts: seq<int>, start: int, timeout: int, k: nat)
    requires timeout >= 0 && History(acts)
    requires || state != Established || !media || acts == []
             || (Lively(acts, timeout) && Tick(start, timeout, k) <= acts[|acts| - 1] + timeout)
    ensures After(state, media, acts, start, timeout, k) == state
  {
    if k > 0 {
      TicksGrow(start, timeout, k);
      NeverReaped(state, media, acts, start, timeout, k - 1);
      if state == Established && media && acts != [] {
        LastIsNear(acts, timeout, Tick(start, timeout, k), Tick(start, timeout, k));
      }
    }
  }

  lemma TicksGrow(start: int, timeout: int, k: nat)
    requires k > 0 && timeout >= 0
    ensures Tick(start, timeout, k - 1) <= Tick(start, timeout, k)
  {
    var d := Interval(timeout);
    assert k * d == (k - 1) * d + d;
  }
}
