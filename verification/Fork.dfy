/** The media fork: each direction copies the packets it reads, through one reused buffer, to
    the far leg and then to its taps. */
module Fork {
  import opened Octets
  import opened Wrappers

  const BUFFER := 1500

  /** What a tap's write comes to; a tap with no remote, or none at all, is skipped. */
  datatype TapLuck = Skipped | Lost | Written

  /** One turn of a direction's loop: the read fails, or a datagram comes in, the far leg
      accepts it or not, and each tap has its luck. */
  datatype Turn = ReadFails | Read(datagram: seq<byte>, farOk: bool, taps: seq<TapLuck>)

  /** A direction: whether its loop still runs, what the far leg was handed and accepted, and
      what each tap was sent. */
  datatype Stream = Stream(running: bool, far: seq<seq<byte>>, taps: seq<seq<seq<byte>>>)

  /** A datagram longer than the buffer is cut off, as a UDP read does. */
  function Fit(d: seq<byte>): seq<byte> {
    if |d| <= BUFFER then d else d[..BUFFER]
  }

  predicate TurnOk(t: Turn, taps: nat) {
    t.Read? ==> |t.taps| == taps
  }

  function Fanned(taps: seq<seq<seq<byte>>>, luck: seq<TapLuck>, pkt: seq<byte>): (r: seq<seq<seq<byte>>>)
    requires |luck| == |taps|
    ensures |r| == |taps|
  {
    seq(|taps|, j requires 0 <= j < |taps| => if luck[j].Written? then taps[j] + [pkt] else taps[j])
  }

  function Turned(s: Stream, t: Turn): (r: Stream)
    requires TurnOk(t, |s.taps|)
    ensures |r.taps| == |s.taps|
  {
    if !s.running then s
    else match t
      case ReadFails => s.(running := false)
      case Read(d, farOk, luck) =>
        if !farOk then s.(running := false)
        else Stream(true, s.far + [Fit(d)], Fanned(s.taps, luck, Fit(d)))
  }

  predicate TurnsOk(ts: seq<Turn>, taps: nat) {
    forall i | 0 <= i < |ts| :: TurnOk(ts[i], taps)
  }

  function TurnedAll(s: Stream, ts: seq<Turn>): (r: Stream)
    requires TurnsOk(ts, |s.taps|)
    ensures |r.taps| == |s.taps|
    decreases |ts|
  {
    if ts == [] then s
    else
      assert TurnOk(ts[0], |s.taps|);
      TurnedAll(Turned(s, ts[0]), ts[1..])
  }

  /** How many packets a direction reads before it ends: each marks activity. */
  function Reads(ts: seq<Turn>): nat {
    if ts == [] || ts[0].ReadFails? then 0 else if !ts[0].farOk then 1 else 1 + Reads(ts[1..])
  }

  /** Whether a turn marks activity. */
  function Marks(running: bool, t: Turn): nat {
    if running && t.Read? then 1 else 0
  }

  // ----- The loop ------------------------------------------------------------

  /** A socket of a leg or of a tap's side, with what was sent out of it. */
  class Outlet {
    var sent: seq<seq<byte>>

    constructor ()
      ensures sent == []
    {
      sent := [];
    }

    method Write(pkt: seq<byte>)
      modifies this
      ensures sent == old(sent) + [pkt]
    {
      sent := sent + [pkt];
    }
  }

  /** A tap: a stream for each direction. */
  class Tap {
    const callerStream: Outlet
    const calleeStream: Outlet

    constructor ()
      ensures callerStream != calleeStream && fresh(callerStream) && fresh(calleeStream)
      ensures callerStream.sent == calleeStream.sent == []
    {
      callerStream := new Outlet();
      calleeStream := new Outlet();
    }
  }

  /** The session's activity mark, which all the loops share. */
  class Activity {
    var marks: nat

    method Mark()
      modifies this
      ensures marks == old(marks) + 1
    {
      marks := marks + 1;
    }
  }

  ghost predicate Distinct(os: seq<Outlet>) {
    forall i, j | 0 <= i < j < |os| :: os[i] != os[j]
  }

  /** What was sent out of each. */
  function Sent(os: seq<Outlet>): (r: seq<seq<seq<byte>>>)
    reads os
    ensures |r| == |os|
  {
    seq(|os|, j requires 0 <= j < |os| reads os => os[j].sent)
  }

  /** One loop: its buffer, the far leg it writes to and the taps it fans out to. */
  class Direction {
    const buf: array<byte>
    const far: Outlet
    const taps: seq<Outlet>
    var running: bool

    ghost predicate Valid() {
      buf.Length == BUFFER && Distinct(taps) && far !in taps
    }

    constructor (far: Outlet, taps: seq<Outlet>)
      requires Distinct(taps) && far !in taps
      ensures Valid() && this.far == far && this.taps == taps && running && fresh(buf)
    {
      buf := new byte[BUFFER](_ => 0);
      this.far, this.taps, running := far, taps, true;
    }

    function View(): Stream
      reads this, far, taps
    {
      Stream(running, far.sent, Sent(taps))
    }

    /** ReadRTP: the datagram goes to the front of the buffer, what was behind it stays. */
    method ReadInto(d: seq<byte>) returns (n: nat)
      requires Valid()
      modifies buf
      ensures n <= buf.Length && buf[..n] == Fit(d)
    {
      n := if |d| <= BUFFER then |d| else BUFFER;
      for i := 0 to n
        invariant forall k | 0 <= k < i :: buf[k] == d[k]
      {
        buf[i] := d[i];
      }
    }

    method FanOut(luck: seq<TapLuck>, pkt: seq<byte>)
      requires Valid() && |luck| == |taps|
      modifies taps
      ensures Sent(taps) == Fanned(old(Sent(taps)), luck, pkt)
    {
      ghost var before := Sent(taps);
      for j := 0 to |taps|
        invariant forall k | 0 <= k < |taps| ::
          taps[k].sent == if k < j && luck[k].Written? then before[k] + [pkt] else before[k]
      {
        if luck[j].Written? {
          taps[j].Write(pkt);
        }
      }
    }

    /** One turn of the loop. */
    method Turn(t: Turn, activity: Activity)
      requires Valid() && TurnOk(t, |taps|)
      modifies this, buf, far, taps, activity
      ensures View() == Turned(old(View()), t)
      ensures activity.marks == old(activity.marks) + Marks(old(running), t)
    {
      if !running {
        return;
      }
      match t
      case ReadFails => running := false;
      case Read(d, farOk, luck) =>
        var n := ReadInto(d);
        activity.Mark();
        var pkt := buf[..n];
        if !farOk {
          running := false;
          return;
        }
        far.Write(pkt);
        FanOut(luck, pkt);
    }

    /** copyLegRTP, alone. Though every packet passes through the same buffer, the far leg is sent
        a copy of each datagram up to the first failure, and so is each tap that always writes; and
        everything else is as the stream says. */
    method CopyLegRtp(ts: seq<Turn>, activity: Activity)
      requires Valid() && TurnsOk(ts, |taps|) && running
      modifies this, buf, far, taps, activity
      ensures View() == TurnedAll(old(View()), ts)
      ensures old(far.sent) <= far.sent && CopiesOf(ts, far.sent[|old(far.sent)|..])
      ensures forall j | 0 <= j < |taps| && WritesAll(ts, |far.sent| - |old(far.sent)|, j) ::
                taps[j].sent == old(taps[j].sent) + far.sent[|old(far.sent)|..]
      ensures activity.marks == old(activity.marks) + Reads(ts)
    {
      ghost var s0 := View();
      for i := 0 to |ts|
        invariant TurnsOk(ts[i..], |taps|) && running
        invariant old(activity.marks) + Reads(ts) == activity.marks + Reads(ts[i..])
        invariant TurnedAll(s0, ts) == TurnedAll(View(), ts[i..])
      {
        assert ts[i..][0] == ts[i] && ts[i..][1..] == ts[i + 1..] && TurnOk(ts[i], |taps|);
        Turn(ts[i], activity);
        if !running {
          Stopped(View(), ts[i + 1..]);
          Delivered(s0, ts);
          return;
        }
      }
      Delivered(s0, ts);
    }

    /** What the outlets have been sent since the stream stood at s0. */
    lemma Delivered(s0: Stream, ts: seq<Turn>)
      requires s0.running && |s0.taps| == |taps| && TurnsOk(ts, |taps|) && View() == TurnedAll(s0, ts)
      ensures s0.far <= far.sent && CopiesOf(ts, far.sent[|s0.far|..])
      ensures forall j | 0 <= j < |taps| && WritesAll(ts, |far.sent| - |s0.far|, j) ::
                taps[j].sent == s0.taps[j] + far.sent[|s0.far|..]
    {
      StreamCopies(s0, ts);
      assert forall j | 0 <= j < |taps| :: taps[j].sent == View().taps[j];
    }
  }

  lemma {:induction false} Stopped(s: Stream, ts: seq<Turn>)
    requires !s.running && TurnsOk(ts, |s.taps|)
    ensures TurnedAll(s, ts) == s
    decreases |ts|
  {
    if ts != [] {
      assert TurnOk(ts[0], |s.taps|);
      Stopped(s, ts[1..]);
    }
  }

  // ----- Fidelity ------------------------------------------------------------

  function Start(taps: nat): Stream {
    Stream(true, [], seq(taps, _ => []))
  }

  /** The turns before the first whose read or far write fails. */
  function Accepted(ts: seq<Turn>): seq<Turn> {
    if ts == [] || ts[0].ReadFails? || !ts[0].farOk then [] else [ts[0]] + Accepted(ts[1..])
  }

  function Datagrams(ts: seq<Turn>): (r: seq<seq<byte>>) {
    if ts == [] then []
    else (if ts[0].Read? then [Fit(ts[0].datagram)] else []) + Datagrams(ts[1..])
  }

  /** What tap j is sent of the accepted turns. */
  function Tapped(ts: seq<Turn>, j: nat): seq<seq<byte>> {
    if ts == [] then []
    else (if ts[0].Read? && j < |ts[0].taps| && ts[0].taps[j].Written? then [Fit(ts[0].datagram)] else [])
         + Tapped(ts[1..], j)
  }

  lemma FirstDatagram(t: Turn, rest: seq<Turn>)
    requires t.Read?
    ensures Datagrams([t] + rest) == [Fit(t.datagram)] + Datagrams(rest)
  {
    assert ([t] + rest)[1..] == rest;
  }

  lemma FirstTapped(t: Turn, rest: seq<Turn>, j: nat)
    requires t.Read? && j < |t.taps|
    ensures Tapped([t] + rest, j) == (if t.taps[j].Written? then [Fit(t.datagram)] else []) + Tapped(rest, j)
  {
    assert ([t] + rest)[1..] == rest;
  }

  lemma Joins(a: seq<seq<byte>>, b: seq<seq<byte>>, c: seq<seq<byte>>)
    ensures (a + b) + c == a + (b + c)
  {
  }

  lemma {:induction false} FarIs(s: Stream, ts: seq<Turn>)
    requires s.running && TurnsOk(ts, |s.taps|)
    ensures TurnedAll(s, ts).far == s.far + Datagrams(Accepted(ts))
    decreases |ts|
  {
    if ts != [] {
      assert TurnOk(ts[0], |s.taps|);
      var next := Turned(s, ts[0]);
      if next.running {
        var rest := Accepted(ts[1..]);
        FarIs(next, ts[1..]);
        FirstDatagram(ts[0], rest);
        Joins(s.far, [Fit(ts[0].datagram)], Datagrams(rest));
      } else {
        Stopped(next, ts[1..]);
      }
    }
  }

  lemma {:induction false} TapIs(s: Stream, ts: seq<Turn>, j: nat)
    requires s.running && TurnsOk(ts, |s.taps|) && j < |s.taps|
    ensures TurnedAll(s, ts).taps[j] == s.taps[j] + Tapped(Accepted(ts), j)
    decreases |ts|
  {
    if ts != [] {
      assert TurnOk(ts[0], |s.taps|);
      var next := Turned(s, ts[0]);
      if next.running {
        var rest := Accepted(ts[1..]);
        TapIs(next, ts[1..], j);
        FirstTapped(ts[0], rest, j);
        Joins(s.taps[j], if ts[0].taps[j].Written? then [Fit(ts[0].datagram)] else [], Tapped(rest, j));
      } else {
        Stopped(next, ts[1..]);
      }
    }
  }

  lemma {:induction false} TapGetsAll(ts: seq<Turn>, j: nat)
    requires forall i | 0 <= i < |ts| :: ts[i].Read? && j < |ts[i].taps| && ts[i].taps[j].Written?
    ensures Tapped(ts, j) == Datagrams(ts)
  {
    if ts != [] {
      TapGetsAll(ts[1..], j);
    }
  }

  lemma {:induction false} AcceptedIn(ts: seq<Turn>)
    ensures |Accepted(ts)| <= |ts| && Accepted(ts) == ts[..|Accepted(ts)|]
    ensures forall i | 0 <= i < |Accepted(ts)| :: ts[i].Read? && ts[i].farOk
  {
    if ts != [] && !ts[0].ReadFails? && ts[0].farOk {
      AcceptedIn(ts[1..]);
      var n := |Accepted(ts[1..])|;
      assert ts[..n + 1] == [ts[0]] + ts[1..][..n];
      forall i | 0 <= i < n + 1 ensures ts[i].Read? && ts[i].farOk {
        if i > 0 {
          assert ts[i] == ts[1..][i - 1];
        }
      }
    }
  }

  /** out are copies of the datagrams of the turns before the first one that fails to read or to
      write to the far leg: byte for byte when they have at most 1500 bytes, and otherwise their
      first 1500. */
  ghost predicate CopiesOf(ts: seq<Turn>, out: seq<seq<byte>>) {
    && |out| <= |ts|
    && (forall i | 0 <= i < |out| ::
          && ts[i].Read? && ts[i].farOk
          && out[i] == if |ts[i].datagram| <= 1500 then ts[i].datagram else ts[i].datagram[..1500])
    && (|out| < |ts| ==> ts[|out|].ReadFails? || !ts[|out|].farOk)
  }

  lemma {:induction false} AcceptedCopies(ts: seq<Turn>)
    ensures CopiesOf(ts, Datagrams(Accepted(ts)))
  {
    if ts != [] && ts[0].Read? && ts[0].farOk {
      var rest, out := Accepted(ts[1..]), Datagrams(Accepted(ts[1..]));
      AcceptedCopies(ts[1..]);
      FirstDatagram(ts[0], rest);
      assert [Fit(ts[0].datagram)] + out == Datagrams(Accepted(ts));
      forall i | 0 <= i < 1 + |out|
        ensures ts[i].Read? && ts[i].farOk
        ensures ([Fit(ts[0].datagram)] + out)[i]
             == if |ts[i].datagram| <= 1500 then ts[i].datagram else ts[i].datagram[..1500]
      {
        if i > 0 {
          assert ts[i] == ts[1..][i - 1];
        }
      }
    }
  }

  /** Tap j writes each of the first n turns' packets. */
  ghost predicate WritesAll(ts: seq<Turn>, n: nat, j: nat) {
    n <= |ts| && forall i | 0 <= i < n :: ts[i].Read? && j < |ts[i].taps| && ts[i].taps[j].Written?
  }

  /** What a running direction adds to the far leg and to a tap that always writes. */
  lemma StreamCopies(s: Stream, ts: seq<Turn>)
    requires s.running && TurnsOk(ts, |s.taps|)
    ensures var r := TurnedAll(s, ts);
      && s.far <= r.far && CopiesOf(ts, r.far[|s.far|..])
      && forall j | 0 <= j < |s.taps| && WritesAll(ts, |r.far| - |s.far|, j) ::
           r.taps[j] == s.taps[j] + r.far[|s.far|..]
  {
    var r, out := TurnedAll(s, ts), Datagrams(Accepted(ts));
    FarIs(s, ts);
    AcceptedCopies(ts);
    assert r.far[|s.far|..] == out;
    forall j | 0 <= j < |s.taps| && WritesAll(ts, |r.far| - |s.far|, j) ensures r.taps[j] == s.taps[j] + out {
      TapIs(s, ts, j);
      AcceptedIn(ts);
      AsManyDatagrams(Accepted(ts));
      TapGetsAll(Accepted(ts), j);
    }
  }

  lemma {:induction false} AsManyDatagrams(ts: seq<Turn>)
    requires forall i | 0 <= i < |ts| :: ts[i].Read?
    ensures |Datagrams(ts)| == |ts|
  {
    if ts != [] {
      AsManyDatagrams(ts[1..]);
    }
  }

  /** Whatever is read, the far leg gets exactly the packets read up to the first failure, in
      order; each is the datagram byte for byte, or its first 1500 bytes when it is longer; and a
      tap that always has a remote and never fails gets exactly those too. */
  lemma ForkFidelity(ts: seq<Turn>, taps: nat, j: nat)
    requires TurnsOk(ts, taps) && j < taps
    ensures CopiesOf(ts, TurnedAll(Start(taps), ts).far)
    ensures WritesAll(ts, |TurnedAll(Start(taps), ts).far|, j) ==>
              TurnedAll(Start(taps), ts).taps[j] == TurnedAll(Start(taps), ts).far
  {
    StreamCopies(Start(taps), ts);
    var far := TurnedAll(Start(taps), ts).far;
    assert far[0..] == far && [] + far == far;
  }

  /** In particular, when no datagram is longer than 1500 bytes. */
  lemma ForkExact(ts: seq<Turn>, taps: nat, i: nat)
    requires TurnsOk(ts, taps) && forall k | 0 <= k < |ts| && ts[k].Read? :: |ts[k].datagram| <= 1500
    requires i < |TurnedAll(Start(taps), ts).far|
    ensures i < |ts| && ts[i].Read? && TurnedAll(Start(taps), ts).far[i] == ts[i].datagram
  {
    StreamCopies(Start(taps), ts);
    var far := TurnedAll(Start(taps), ts).far;
    assert far[0..] == far;
  }

  // ----- What a tap misses ---------------------------------------------------

  lemma {:induction false} LastTurn(ts: seq<Turn>, t: Turn, j: nat)
    requires t.Read? && j < |t.taps|
    ensures Datagrams(ts + [t]) == Datagrams(ts) + [Fit(t.datagram)]
    ensures Tapped(ts + [t], j) == Tapped(ts, j) + if t.taps[j].Written? then [Fit(t.datagram)] else []
  {
    if ts == [] {
      assert [] + [t] == [t] && [t][1..] == [];
    } else {
      assert (ts + [t])[0] == ts[0] && (ts + [t])[1..] == ts[1..] + [t];
      LastTurn(ts[1..], t, j);
      Joins(if ts[0].Read? then [Fit(ts[0].datagram)] else [], Datagrams(ts[1..]), [Fit(t.datagram)]);
      Joins(if ts[0].Read? && j < |ts[0].taps| && ts[0].taps[j].Written? then [Fit(ts[0].datagram)] else [],
            Tapped(ts[1..], j), if t.taps[j].Written? then [Fit(t.datagram)] else []);
    }
  }

  /** ks are the first n turns in which tap j is written to, in order. */
  ghost predicate WrittenIn(ts: seq<Turn>, n: nat, j: nat, ks: seq<nat>) {
    && n <= |ts| && (forall a, b | 0 <= a < b < |ks| :: ks[a] < ks[b]) && (forall a | 0 <= a < |ks| :: ks[a] < n)
    && (forall a | 0 <= a < |ks| :: WritesTap(ts[ks[a]], j))
    && forall i | 0 <= i < n && WritesTap(ts[i], j) :: i in ks
  }

  predicate WritesTap(t: Turn, j: nat) {
    t.Read? && j < |t.taps| && t.taps[j].Written?
  }

  /** A tap's packets are the far leg's of those turns. */
  ghost predicate Picked(far: seq<seq<byte>>, tap: seq<seq<byte>>, ks: seq<nat>) {
    |tap| == |ks| && forall a | 0 <= a < |ks| :: ks[a] < |far| && tap[a] == far[ks[a]]
  }

  lemma {:induction false} TapPicks(ts: seq<Turn>, n: nat, j: nat) returns (ks: seq<nat>)
    requires n <= |ts| && forall i | 0 <= i < n :: ts[i].Read? && j < |ts[i].taps|
    ensures WrittenIn(ts, n, j, ks) && |Datagrams(ts[..n])| == n
    ensures Picked(Datagrams(ts[..n]), Tapped(ts[..n], j), ks)
    decreases n
  {
    if n == 0 {
      ks := [];
      return;
    }
    var prior := TapPicks(ts, n - 1, j);
    assert ts[..n] == ts[..n - 1] + [ts[n - 1]];
    PickTurn(ts[..n - 1], ts[n - 1], j, prior);
    if WritesTap(ts[n - 1], j) {
      WrittenYes(ts, n - 1, j, prior);
      ks := prior + [n - 1];
    } else {
      WrittenNo(ts, n - 1, j, prior);
      ks := prior;
    }
  }

  lemma PickTurn(ts: seq<Turn>, t: Turn, j: nat, ks: seq<nat>)
    requires t.Read? && j < |t.taps| && |Datagrams(ts)| == |ts| && Picked(Datagrams(ts), Tapped(ts, j), ks)
    ensures |Datagrams(ts + [t])| == |ts| + 1
    ensures Picked(Datagrams(ts + [t]), Tapped(ts + [t], j), if WritesTap(t, j) then ks + [|ts|] else ks)
  {
    LastTurn(ts, t, j);
    PickedNext(Datagrams(ts), Tapped(ts, j), ks, Fit(t.datagram));
  }

  lemma WrittenYes(ts: seq<Turn>, n: nat, j: nat, ks: seq<nat>)
    requires n < |ts| && WrittenIn(ts, n, j, ks) && WritesTap(ts[n], j)
    ensures WrittenIn(ts, n + 1, j, ks + [n])
  {
    var more := ks + [n];
    forall i | 0 <= i < n + 1 && WritesTap(ts[i], j) ensures i in more {
      assert i < n ==> i in ks;
      assert more[|ks|] == n;
    }
  }

  lemma WrittenNo(ts: seq<Turn>, n: nat, j: nat, ks: seq<nat>)
    requires n < |ts| && WrittenIn(ts, n, j, ks) && !WritesTap(ts[n], j)
    ensures WrittenIn(ts, n + 1, j, ks)
  {
  }

  lemma PickedNext(far: seq<seq<byte>>, tap: seq<seq<byte>>, ks: seq<nat>, pkt: seq<byte>)
    requires Picked(far, tap, ks)
    ensures Picked(far + [pkt], tap + [pkt], ks + [|far|]) && Picked(far + [pkt], tap + [], ks)
  {
  }

  /** A tap that sometimes has no remote, or whose writes sometimes fail, misses those packets and
      no others: it gets, in order, what the far leg gets in exactly the turns that write to it. */
  lemma TapMisses(ts: seq<Turn>, taps: nat, j: nat) returns (ks: seq<nat>)
    requires TurnsOk(ts, taps) && j < taps
    ensures var r := TurnedAll(Start(taps), ts); WrittenIn(ts, |r.far|, j, ks) && Picked(r.far, r.taps[j], ks)
  {
    var r, acc := TurnedAll(Start(taps), ts), Accepted(ts);
    FarIs(Start(taps), ts);
    TapIs(Start(taps), ts, j);
    AcceptedIn(ts);
    AsManyDatagrams(acc);
    assert [] + Datagrams(acc) == Datagrams(acc) && [] + Tapped(acc, j) == Tapped(acc, j);
    forall i | 0 <= i < |acc| ensures ts[i].Read? && j < |ts[i].taps| {
      assert TurnOk(ts[i], taps);
    }
    ks := TapPicks(ts, |acc|, j);
  }

  // ----- The relay: four loops over one tap list -----------------------------

  /** RTP from the caller's leg and from the callee's, and their RTCP, which no tap gets. */
  datatype Lane = CallerRtp | CalleeRtp | CallerRtcp | CalleeRtcp

  datatype Step = Step(lane: Lane, turn: Turn)

  datatype Line = Line(running: bool, far: seq<seq<byte>>)

  /** What one tap has been sent, on its stream for each direction. */
  datatype Heard = Heard(caller: seq<seq<byte>>, callee: seq<seq<byte>>)

  datatype Relayed = Relayed(callerRtp: Line, calleeRtp: Line, callerRtcp: Line, calleeRtcp: Line,
                             taps: seq<Heard>, marks: nat)

  function LineOf(r: Relayed, lane: Lane): Line {
    match lane
    case CallerRtp => r.callerRtp
    case CalleeRtp => r.calleeRtp
    case CallerRtcp => r.callerRtcp
    case CalleeRtcp => r.calleeRtcp
  }

  function WithLine(r: Relayed, lane: Lane, l: Line): Relayed {
    match lane
    case CallerRtp => r.(callerRtp := l)
    case CalleeRtp => r.(calleeRtp := l)
    case CallerRtcp => r.(callerRtcp := l)
    case CalleeRtcp => r.(calleeRtcp := l)
  }

  /** The tap streams this lane writes to, among all there are. */
  function TapsOf(r: Relayed, lane: Lane): seq<seq<seq<byte>>> {
    match lane
    case CallerRtp => seq(|r.taps|, j requires 0 <= j < |r.taps| => r.taps[j].caller)
    case CalleeRtp => seq(|r.taps|, j requires 0 <= j < |r.taps| => r.taps[j].callee)
    case _ => []
  }

  function WithTaps(r: Relayed, lane: Lane, ts: seq<seq<seq<byte>>>): Relayed
    requires |ts| == |TapsOf(r, lane)|
  {
    match lane
    case CallerRtp => r.(taps := seq(|r.taps|, j requires 0 <= j < |r.taps| => r.taps[j].(caller := ts[j])))
    case CalleeRtp => r.(taps := seq(|r.taps|, j requires 0 <= j < |r.taps| => r.taps[j].(callee := ts[j])))
    case _ => r
  }

  function LaneOf(r: Relayed, lane: Lane): Stream {
    Stream(LineOf(r, lane).running, LineOf(r, lane).far, TapsOf(r, lane))
  }

  function WithLane(r: Relayed, lane: Lane, s: Stream): Relayed
    requires |s.taps| == |TapsOf(r, lane)|
  {
    WithTaps(WithLine(r, lane, Line(s.running, s.far)), lane, s.taps)
  }

  predicate StepOk(e: Step, taps: nat) {
    TurnOk(e.turn, if e.lane.CallerRtp? || e.lane.CalleeRtp? then taps else 0)
  }

  predicate StepsOk(es: seq<Step>, taps: nat) {
    forall i | 0 <= i < |es| :: StepOk(es[i], taps)
  }

  function Stepped(r: Relayed, e: Step): (r': Relayed)
    requires StepOk(e, |r.taps|)
    ensures |r'.taps| == |r.taps|
  {
    WithLane(r, e.lane, Turned(LaneOf(r, e.lane), e.turn)).(marks := r.marks + Marks(LineOf(r, e.lane).running, e.turn))
  }

  function SteppedAll(r: Relayed, es: seq<Step>): (r': Relayed)
    requires StepsOk(es, |r.taps|)
    ensures |r'.taps| == |r.taps|
    decreases |es|
  {
    if es == [] then r
    else
      assert StepOk(es[0], |r.taps|);
      SteppedAll(Stepped(r, es[0]), es[1..])
  }

  // ----- The relay on the session's taps -------------------------------------

  /** What the relay's outlets have been sent. */
  function HeardBy(taps: seq<Tap>): (r: seq<Heard>)
    reads set t | t in taps :: t.callerStream, set t | t in taps :: t.calleeStream
    ensures |r| == |taps|
  {
    seq(|taps|, j requires 0 <= j < |taps| reads set t | t in taps :: t.callerStream,
        set t | t in taps :: t.calleeStream
        => Heard(taps[j].callerStream.sent, taps[j].calleeStream.sent))
  }

  function Callers(taps: seq<Tap>): (r: seq<Outlet>)
    ensures |r| == |taps| && forall j | 0 <= j < |taps| :: r[j] == taps[j].callerStream
  {
    seq(|taps|, j requires 0 <= j < |taps| => taps[j].callerStream)
  }

  function Callees(taps: seq<Tap>): (r: seq<Outlet>)
    ensures |r| == |taps| && forall j | 0 <= j < |taps| :: r[j] == taps[j].calleeStream
  {
    seq(|taps|, j requires 0 <= j < |taps| => taps[j].calleeStream)
  }

  /** A leg's RTP and RTCP sockets. */
  class Leg {
    const rtp: Outlet
    const rtcp: Outlet

    constructor ()
      ensures rtp != rtcp && fresh(rtp) && fresh(rtcp) && rtp.sent == rtcp.sent == []
    {
      rtp := new Outlet();
      rtcp := new Outlet();
    }
  }

  /** All the sockets of a session are different ones. */
  ghost predicate Apart(a: Leg, b: Leg, taps: seq<Tap>) {
    && a.rtp != b.rtp && a.rtp != a.rtcp && a.rtp != b.rtcp && b.rtp != a.rtcp && b.rtp != b.rtcp && a.rtcp != b.rtcp
    && Distinct(Callers(taps)) && Distinct(Callees(taps))
    && (forall o | o in Callers(taps) :: o !in Callees(taps) && OfNoLeg(o, a, b))
    && (forall o | o in Callees(taps) :: OfNoLeg(o, a, b))
  }

  predicate OfNoLeg(o: Outlet, a: Leg, b: Leg) {
    o != a.rtp && o != b.rtp && o != a.rtcp && o != b.rtcp
  }

  /** The session's relay: its four loops, wired to the legs and to the sides of the taps. */
  class Relay {
    const a: Leg
    const b: Leg
    const taps: seq<Tap>
    const activity: Activity
    const callerRtp: Direction
    const calleeRtp: Direction
    const callerRtcp: Direction
    const calleeRtcp: Direction

    ghost predicate Valid() {
      && Apart(a, b, taps)
      && callerRtp.Valid() && calleeRtp.Valid() && callerRtcp.Valid() && calleeRtcp.Valid()
      && callerRtp.far == b.rtp && calleeRtp.far == a.rtp && callerRtcp.far == b.rtcp && calleeRtcp.far == a.rtcp
      && callerRtp.taps == Callers(taps) && calleeRtp.taps == Callees(taps)
      && callerRtcp.taps == [] && calleeRtcp.taps == []
      && callerRtp != calleeRtp && callerRtp != callerRtcp && callerRtp != calleeRtcp
      && calleeRtp != callerRtcp && calleeRtp != calleeRtcp && callerRtcp != calleeRtcp
    }

    /** relay: the streams of each direction are gathered from the tap list, activity is marked
        once, and the loops start. */
    constructor (a: Leg, b: Leg, taps: seq<Tap>, activity: Activity)
      requires Apart(a, b, taps)
      modifies activity
      ensures Valid() && this.a == a && this.b == b && this.taps == taps && this.activity == activity
      ensures fresh(callerRtp) && fresh(calleeRtp) && fresh(callerRtcp) && fresh(calleeRtcp)
      ensures fresh(callerRtp.buf) && fresh(calleeRtp.buf) && fresh(callerRtcp.buf) && fresh(calleeRtcp.buf)
      ensures View() == Relayed(Line(true, b.rtp.sent), Line(true, a.rtp.sent), Line(true, b.rtcp.sent),
                                Line(true, a.rtcp.sent), HeardBy(taps), old(activity.marks) + 1)
    {
      var callerTaps, calleeTaps := [], [];
      for i := 0 to |taps|
        invariant callerTaps == Callers(taps)[..i] && calleeTaps == Callees(taps)[..i]
      {
        callerTaps := callerTaps + [taps[i].callerStream];
        calleeTaps := calleeTaps + [taps[i].calleeStream];
      }
      assert callerTaps == Callers(taps) && calleeTaps == Callees(taps);
      activity.Mark();
      this.a, this.b, this.taps, this.activity := a, b, taps, activity;
      callerRtp := new Direction(b.rtp, callerTaps);
      calleeRtp := new Direction(a.rtp, calleeTaps);
      callerRtcp := new Direction(b.rtcp, []);
      calleeRtcp := new Direction(a.rtcp, []);
    }

    /** What has been sent over the relay and which loops still run. */
    ghost function View(): Relayed
      reads callerRtp, calleeRtp, callerRtcp, calleeRtcp, activity, a.rtp, b.rtp, a.rtcp, b.rtcp
      reads set t | t in taps :: t.callerStream, set t | t in taps :: t.calleeStream
    {
      Relayed(Line(callerRtp.running, b.rtp.sent), Line(calleeRtp.running, a.rtp.sent),
              Line(callerRtcp.running, b.rtcp.sent), Line(calleeRtcp.running, a.rtcp.sent),
              HeardBy(taps), activity.marks)
    }

    lemma LegsApart()
      requires Valid()
      ensures a.rtp !in Callers(taps) && b.rtp !in Callers(taps) && a.rtcp !in Callers(taps) && b.rtcp !in Callers(taps)
      ensures a.rtp !in Callees(taps) && b.rtp !in Callees(taps) && a.rtcp !in Callees(taps) && b.rtcp !in Callees(taps)
    {
    }

    lemma StreamsApart(j: nat)
      requires Valid() && j < |taps|
      ensures taps[j].callerStream !in Callees(taps) && taps[j].calleeStream !in Callers(taps)
    {
      assert Callers(taps)[j] in Callers(taps) && Callees(taps)[j] in Callees(taps);
    }

    /** Each loop sees its own part of the relay. */
    lemma LaneViews()
      requires Valid()
      ensures callerRtp.View() == LaneOf(View(), CallerRtp) && calleeRtp.View() == LaneOf(View(), CalleeRtp)
      ensures callerRtcp.View() == LaneOf(View(), CallerRtcp) && calleeRtcp.View() == LaneOf(View(), CalleeRtcp)
    {
      assert callerRtp.View().taps == LaneOf(View(), CallerRtp).taps;
      assert calleeRtp.View().taps == LaneOf(View(), CalleeRtp).taps;
    }

    method TurnCallerRtp(t: Turn)
      requires Valid() && TurnOk(t, |taps|)
      modifies callerRtp, callerRtp.buf, b.rtp, Callers(taps), activity
      ensures View() == Stepped(old(View()), Step(CallerRtp, t))
    {
      ghost var r := View();
      LaneViews();
      LegsApart();
      callerRtp.Turn(t, activity);
      ghost var s := Turned(LaneOf(r, CallerRtp), t);
      forall j | 0 <= j < |taps| ensures HeardBy(taps)[j] == Heard(s.taps[j], r.taps[j].callee) {
        StreamsApart(j);
        assert taps[j].callerStream.sent == Sent(callerRtp.taps)[j];
      }
      assert View().taps == Stepped(r, Step(CallerRtp, t)).taps;
    }

    method TurnCalleeRtp(t: Turn)
      requires Valid() && TurnOk(t, |taps|)
      modifies calleeRtp, calleeRtp.buf, a.rtp, Callees(taps), activity
      ensures View() == Stepped(old(View()), Step(CalleeRtp, t))
    {
      ghost var r := View();
      LaneViews();
      LegsApart();
      calleeRtp.Turn(t, activity);
      ghost var s := Turned(LaneOf(r, CalleeRtp), t);
      forall j | 0 <= j < |taps| ensures HeardBy(taps)[j] == Heard(r.taps[j].caller, s.taps[j]) {
        StreamsApart(j);
        assert taps[j].calleeStream.sent == Sent(calleeRtp.taps)[j];
      }
      assert View().taps == Stepped(r, Step(CalleeRtp, t)).taps;
    }

    method TurnCallerRtcp(t: Turn)
      requires Valid() && TurnOk(t, 0)
      modifies callerRtcp, callerRtcp.buf, b.rtcp, activity
      ensures View() == Stepped(old(View()), Step(CallerRtcp, t))
    {
      ghost var r := View();
      LaneViews();
      LegsApart();
      callerRtcp.Turn(t, activity);
      forall j | 0 <= j < |taps| ensures HeardBy(taps)[j] == r.taps[j] {
        assert Callers(taps)[j] in Callers(taps) && Callees(taps)[j] in Callees(taps);
      }
      assert View().taps == r.taps;
    }

    method TurnCalleeRtcp(t: Turn)
      requires Valid() && TurnOk(t, 0)
      modifies calleeRtcp, calleeRtcp.buf, a.rtcp, activity
      ensures View() == Stepped(old(View()), Step(CalleeRtcp, t))
    {
      ghost var r := View();
      LaneViews();
      LegsApart();
      calleeRtcp.Turn(t, activity);
      forall j | 0 <= j < |taps| ensures HeardBy(taps)[j] == r.taps[j] {
        assert Callers(taps)[j] in Callers(taps) && Callees(taps)[j] in Callees(taps);
      }
      assert View().taps == r.taps;
    }

    method OneTurn(e: Step)
      requires Valid() && StepOk(e, |taps|)
      modifies callerRtp, calleeRtp, callerRtcp, calleeRtcp
      modifies callerRtp.buf, calleeRtp.buf, callerRtcp.buf, calleeRtcp.buf
      modifies a.rtp, b.rtp, a.rtcp, b.rtcp, Callers(taps), Callees(taps), activity
      ensures View() == Stepped(old(View()), e)
    {
      match e.lane
      case CallerRtp => TurnCallerRtp(e.turn);
      case CalleeRtp => TurnCalleeRtp(e.turn);
      case CallerRtcp => TurnCallerRtcp(e.turn);
      case CalleeRtcp => TurnCalleeRtcp(e.turn);
    }

    /** The loops' turns, in whatever order they come. */
    method Run(es: seq<Step>)
      requires Valid() && StepsOk(es, |taps|)
      modifies callerRtp, calleeRtp, callerRtcp, calleeRtcp
      modifies callerRtp.buf, calleeRtp.buf, callerRtcp.buf, calleeRtcp.buf
      modifies a.rtp, b.rtp, a.rtcp, b.rtcp, Callers(taps), Callees(taps), activity
      ensures View() == SteppedAll(old(View()), es)
      ensures old(callerRtp.running) ==> LaneCopies(TurnsOf(es, CallerRtp), old(b.rtp.sent), b.rtp.sent,
                                                    old(Sent(Callers(taps))), Sent(Callers(taps)))
      ensures old(calleeRtp.running) ==> LaneCopies(TurnsOf(es, CalleeRtp), old(a.rtp.sent), a.rtp.sent,
                                                    old(Sent(Callees(taps))), Sent(Callees(taps)))
      ensures old(callerRtcp.running) ==> LaneCopies(TurnsOf(es, CallerRtcp), old(b.rtcp.sent), b.rtcp.sent, [], [])
      ensures old(calleeRtcp.running) ==> LaneCopies(TurnsOf(es, CalleeRtcp), old(a.rtcp.sent), a.rtcp.sent, [], [])
    {
      ghost var r := View();
      LanesCopy(r, es);
      TapsOfHeap();
      assert es[0..] == es;
      for i := 0 to |es|
        invariant StepsOk(es[i..], |taps|) && SteppedAll(old(View()), es) == SteppedAll(View(), es[i..])
      {
        assert es[i..][0] == es[i] && es[i..][1..] == es[i + 1..];
        OneTurn(es[i]);
      }
      TapsOfHeap();
    }

    /** The tap streams of the two RTP lanes are the taps' outlets for them. */
    lemma TapsOfHeap()
      ensures TapsOf(View(), CallerRtp) == Sent(Callers(taps))
      ensures TapsOf(View(), CalleeRtp) == Sent(Callees(taps))
    {
    }
  }

  // ----- Separation ----------------------------------------------------------

  /** The turns of one loop. */
  function TurnsOf(es: seq<Step>, lane: Lane): seq<Turn> {
    if es == [] then []
    else (if es[0].lane == lane then [es[0].turn] else []) + TurnsOf(es[1..], lane)
  }

  lemma TurnsFirst(es: seq<Step>, lane: Lane)
    requires es != []
    ensures var rest := TurnsOf(es[1..], lane);
      if es[0].lane == lane then TurnsOf(es, lane) == [es[0].turn] + rest && ([es[0].turn] + rest)[1..] == rest
      else TurnsOf(es, lane) == rest
  {
  }

  /** What one loop writes, the other loops' streams do not show. */
  lemma LaneAlone(r: Relayed, lane: Lane, s: Stream, other: Lane)
    requires |s.taps| == |TapsOf(r, lane)|
    ensures |WithLane(r, lane, s).taps| == |r.taps|
    ensures LaneOf(WithLane(r, lane, s), other) == if other == lane then s else LaneOf(r, other)
  {
    var r' := WithLane(r, lane, s);
    assert LaneOf(r', other).taps == (if other == lane then s else LaneOf(r, other)).taps;
  }

  lemma StepOnLane(r: Relayed, e: Step, lane: Lane)
    requires StepOk(e, |r.taps|)
    ensures LaneOf(Stepped(r, e), lane) == if lane == e.lane then Turned(LaneOf(r, lane), e.turn) else LaneOf(r, lane)
  {
    var s := Turned(LaneOf(r, e.lane), e.turn);
    LaneAlone(r, e.lane, s, lane);
    assert LaneOf(Stepped(r, e), lane) == LaneOf(WithLane(r, e.lane, s), lane);
  }

  /** However the turns of the four loops interleave, each comes to what it would come to alone:
      its far leg and its stream of every tap get exactly what its own turns send. So no tap's
      caller stream carries a packet of the callee's direction or the other way round, no tap
      carries RTCP, and a failure ends its own loop only. */
  lemma {:induction false} LanesApart(r: Relayed, es: seq<Step>, lane: Lane)
    requires StepsOk(es, |r.taps|)
    ensures TurnsOk(TurnsOf(es, lane), |TapsOf(r, lane)|)
    ensures LaneOf(SteppedAll(r, es), lane) == TurnedAll(LaneOf(r, lane), TurnsOf(es, lane))
    decreases |es|
  {
    if es != [] {
      var e, next := es[0], Stepped(r, es[0]);
      assert StepOk(e, |r.taps|);
      StepOnLane(r, e, lane);
      LanesApart(next, es[1..], lane);
      TurnsFirst(es, lane);
      var rest := TurnsOf(es[1..], lane);
      if e.lane == lane {
        assert TurnsOk([e.turn] + rest, |TapsOf(r, lane)|) by {
          assert forall i | 0 < i < |rest| + 1 :: ([e.turn] + rest)[i] == rest[i - 1];
        }
      }
    }
  }

  /** A lane that ran these turns sent its far leg copies of the datagrams, and the same to each
      tap that always wrote. */
  ghost predicate LaneCopies(ts: seq<Turn>, far0: seq<seq<byte>>, far: seq<seq<byte>>,
                             taps0: seq<seq<seq<byte>>>, taps: seq<seq<seq<byte>>>)
  {
    && far0 <= far && CopiesOf(ts, far[|far0|..]) && |taps| == |taps0|
    && forall j | 0 <= j < |taps| && WritesAll(ts, |far| - |far0|, j) :: taps[j] == taps0[j] + far[|far0|..]
  }

  lemma LanesCopy(r: Relayed, es: seq<Step>)
    requires StepsOk(es, |r.taps|)
    ensures forall lane: Lane :: LineOf(r, lane).running ==>
              LaneCopies(TurnsOf(es, lane), LineOf(r, lane).far, LineOf(SteppedAll(r, es), lane).far,
                         TapsOf(r, lane), TapsOf(SteppedAll(r, es), lane))
  {
    forall lane: Lane | LineOf(r, lane).running
      ensures LaneCopies(TurnsOf(es, lane), LineOf(r, lane).far, LineOf(SteppedAll(r, es), lane).far,
                         TapsOf(r, lane), TapsOf(SteppedAll(r, es), lane))
    {
      LanesApart(r, es, lane);
      var s := LaneOf(r, lane);
      assert s.far == LineOf(r, lane).far && s.taps == TapsOf(r, lane);
      StreamCopies(s, TurnsOf(es, lane));
      assert LaneOf(SteppedAll(r, es), lane) == TurnedAll(s, TurnsOf(es, lane));
    }
  }

  /** How many packets a loop in this state reads. */
  function ReadsFrom(running: bool, ts: seq<Turn>): nat {
    if running then Reads(ts) else 0
  }

  function AllReads(r: Relayed, es: seq<Step>): nat {
    ReadsFrom(r.callerRtp.running, TurnsOf(es, CallerRtp)) + ReadsFrom(r.calleeRtp.running, TurnsOf(es, CalleeRtp))
    + ReadsFrom(r.callerRtcp.running, TurnsOf(es, CallerRtcp))
      + ReadsFrom(r.calleeRtcp.running, TurnsOf(es, CalleeRtcp))
  }

  lemma ReadsOn(s: Stream, t: Turn, rest: seq<Turn>)
    requires TurnOk(t, |s.taps|)
    ensures ReadsFrom(s.running, [t] + rest) == Marks(s.running, t) + ReadsFrom(Turned(s, t).running, rest)
  {
    assert ([t] + rest)[1..] == rest;
  }

  lemma LaneReads(r: Relayed, es: seq<Step>, lane: Lane)
    requires es != [] && StepOk(es[0], |r.taps|)
    ensures ReadsFrom(LineOf(r, lane).running, TurnsOf(es, lane))
         == (if es[0].lane == lane then Marks(LineOf(r, lane).running, es[0].turn) else 0)
            + ReadsFrom(LineOf(Stepped(r, es[0]), lane).running, TurnsOf(es[1..], lane))
  {
    TurnsFirst(es, lane);
    StepOnLane(r, es[0], lane);
    assert LaneOf(Stepped(r, es[0]), lane).running == LineOf(Stepped(r, es[0]), lane).running;
    if es[0].lane == lane {
      ReadsOn(LaneOf(r, lane), es[0].turn, TurnsOf(es[1..], lane));
    }
  }

  /** The one mark counts the packets of all four loops. */
  lemma {:induction false} MarksCountAll(r: Relayed, es: seq<Step>)
    requires StepsOk(es, |r.taps|)
    ensures SteppedAll(r, es).marks == r.marks + AllReads(r, es)
    decreases |es|
  {
    if es != [] {
      assert StepOk(es[0], |r.taps|);
      LaneReads(r, es, CallerRtp);
      LaneReads(r, es, CalleeRtp);
      LaneReads(r, es, CallerRtcp);
      LaneReads(r, es, CalleeRtcp);
      MarksCountAll(Stepped(r, es[0]), es[1..]);
    }
  }
}
