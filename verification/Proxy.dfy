/** The stateless side of the sequencer: forwarding a request with one hop less, relaying its
    responses, and routing a request back along a webphone's flow. */
module Proxy {
  import opened FlowToken
  import opened Text
  import opened Wrappers

  // ----- Messages ------------------------------------------------------------

  type uint32 = x: int | 0 <= x < 0x1_0000_0000

  datatype Uri = Uri(user: string, host: string, port: int)

  /** Section 20.22 of RFC 3261: Max-Forwards; held in 32 bits, unsigned. */
  datatype Header =
    | Via(sentBy: string)
    | MaxForwards(n: uint32)
    | Route(uri: Uri)
    | RecordRoute(uri: Uri)
    | Path(uri: Uri)
    | Field(name: string, value: string)

  datatype Kind = OfVia | OfMaxForwards | OfRoute | OfOther

  function KindOf(h: Header): Kind {
    match h
    case Via(_) => OfVia
    case MaxForwards(_) => OfMaxForwards
    case Route(_) => OfRoute
    case _ => OfOther
  }

  function Only(hs: seq<Header>, k: Kind): (r: seq<Header>)
    ensures forall i | 0 <= i < |r| :: KindOf(r[i]) == k
  {
    if hs == [] then []
    else (if KindOf(hs[0]) == k then [hs[0]] else []) + Only(hs[1..], k)
  }

  function Without(hs: seq<Header>, k: Kind): seq<Header> {
    if hs == [] then []
    else (if KindOf(hs[0]) == k then [] else [hs[0]]) + Without(hs[1..], k)
  }

  /** Without the first header of this kind. */
  function RemoveFirst(hs: seq<Header>, k: Kind): seq<Header> {
    if hs == [] then [] else if KindOf(hs[0]) == k then hs[1..] else [hs[0]] + RemoveFirst(hs[1..], k)
  }

  lemma {:induction false} OnlyConcat(a: seq<Header>, b: seq<Header>, k: Kind)
    ensures Only(a + b, k) == Only(a, k) + Only(b, k)
    ensures Without(a + b, k) == Without(a, k) + Without(b, k)
  {
    if a == [] {
      assert a + b == b;
    } else {
      assert (a + b)[0] == a[0] && (a + b)[1..] == a[1..] + b;
      OnlyConcat(a[1..], b, k);
      var here := KindOf(a[0]) == k;
      Associates(if here then [a[0]] else [], Only(a[1..], k), Only(b, k));
      Associates(if here then [] else [a[0]], Without(a[1..], k), Without(b, k));
    }
  }

  lemma Associates(a: seq<Header>, b: seq<Header>, c: seq<Header>)
    ensures a + (b + c) == (a + b) + c
  {
  }

  lemma {:induction false} FirstAt(hs: seq<Header>, k: Kind, i: nat)
    requires i < |hs| && KindOf(hs[i]) == k && forall m | 0 <= m < i :: KindOf(hs[m]) != k
    ensures RemoveFirst(hs, k) == hs[..i] + hs[i + 1..] && Only(hs, k) != []
  {
    if i > 0 {
      FirstAt(hs[1..], k, i - 1);
      assert hs[..i] == [hs[0]] + hs[1..][..i - 1] && hs[1..][i..] == hs[i + 1..];
    }
  }

  lemma {:induction false} NoneThere(hs: seq<Header>, k: Kind)
    requires forall m | 0 <= m < |hs| :: KindOf(hs[m]) != k
    ensures RemoveFirst(hs, k) == hs && Only(hs, k) == []
  {
    if hs != [] {
      NoneThere(hs[1..], k);
    }
  }

  lemma {:induction false} OnlyOwnRemoved(hs: seq<Header>, k: Kind)
    ensures Only(RemoveFirst(hs, k), k) == if Only(hs, k) != [] then Only(hs, k)[1..] else []
  {
    if hs != [] {
      if KindOf(hs[0]) != k {
        OnlyOwnRemoved(hs[1..], k);
        assert ([hs[0]] + RemoveFirst(hs[1..], k))[1..] == RemoveFirst(hs[1..], k);
      } else {
        assert Only(hs, k)[1..] == Only(hs[1..], k);
      }
    }
  }

  lemma {:induction false} OthersKept(hs: seq<Header>, k: Kind, j: Kind)
    requires j != k
    ensures Only(RemoveFirst(hs, k), j) == Only(hs, j)
  {
    if hs != [] && KindOf(hs[0]) != k {
      OthersKept(hs[1..], k, j);
      assert ([hs[0]] + RemoveFirst(hs[1..], k))[1..] == RemoveFirst(hs[1..], k);
    }
  }

  lemma {:induction false} OneShorter(hs: seq<Header>, k: Kind)
    ensures Only(hs, k) != [] ==> |RemoveFirst(hs, k)| == |hs| - 1
  {
    if hs != [] && KindOf(hs[0]) != k {
      OneShorter(hs[1..], k);
    }
  }

  lemma OnlyRemoved(hs: seq<Header>, k: Kind, j: Kind)
    ensures Only(RemoveFirst(hs, k), j) == (if j == k && Only(hs, k) != [] then Only(hs, k)[1..] else Only(hs, j))
  {
    if j == k {
      OnlyOwnRemoved(hs, k);
    } else {
      OthersKept(hs, k, j);
    }
  }

  lemma {:induction false} RestRemoved(hs: seq<Header>, k: Kind)
    ensures Without(RemoveFirst(hs, k), k) == Without(hs, k)
  {
    if hs != [] && KindOf(hs[0]) != k {
      RestRemoved(hs[1..], k);
      assert ([hs[0]] + RemoveFirst(hs[1..], k))[1..] == RemoveFirst(hs[1..], k);
    }
  }

  lemma {:induction false} NoneLeft(hs: seq<Header>, k: Kind)
    requires Only(hs, k) == []
    ensures Without(hs, k) == hs
  {
    if hs != [] {
      NoneLeft(hs[1..], k);
    }
  }

  lemma {:induction false} AllOneKind(hs: seq<Header>, k: Kind)
    requires forall i | 0 <= i < |hs| :: KindOf(hs[i]) == k
    ensures Only(hs, k) == hs && Without(hs, k) == []
    ensures forall j | j != k :: Only(hs, j) == []
  {
    if hs != [] {
      AllOneKind(hs[1..], k);
    }
  }

  /** A message being edited. */
  class Message {
    var headers: seq<Header>

    constructor (headers: seq<Header>)
      ensures this.headers == headers
    {
      this.headers := headers;
    }

    /** Removes the first header of the kind, and only that one. */
    method RemoveHeader(k: Kind) returns (found: bool)
      modifies this
      ensures headers == RemoveFirst(old(headers), k) && (found <==> Only(old(headers), k) != [])
    {
      for i := 0 to |headers|
        invariant headers == old(headers) && forall m | 0 <= m < i :: KindOf(headers[m]) != k
      {
        if KindOf(headers[i]) == k {
          FirstAt(headers, k, i);
          headers := headers[..i] + headers[i + 1..];
          return true;
        }
      }
      NoneThere(headers, k);
      return false;
    }

    method AppendHeader(h: Header)
      modifies this
      ensures headers == old(headers) + [h]
    {
      headers := headers + [h];
    }

    method PrependHeader(h: Header)
      modifies this
      ensures headers == [h] + old(headers)
    {
      headers := [h] + headers;
    }

    method GetHeaders(k: Kind) returns (hs: seq<Header>)
      ensures hs == Only(headers, k)
    {
      hs := [];
      for i := 0 to |headers|
        invariant hs == Only(headers[..i], k)
      {
        OnlyConcat(headers[..i], [headers[i]], k);
        assert headers[..i + 1] == headers[..i] + [headers[i]];
        assert [headers[i]][1..] == [];
        if KindOf(headers[i]) == k {
          hs := hs + [headers[i]];
        }
      }
      assert headers[..|headers|] == headers;
    }
  }

  // ----- Relaying a response -------------------------------------------------

  /** Takes off the top Via and puts the others, in order, after the rest. */
  method StripVia(res: Message)
    requires Only(res.headers, OfVia) != []
    modifies res
    ensures Only(res.headers, OfVia) == Only(old(res.headers), OfVia)[1..]
    ensures Without(res.headers, OfVia) == Without(old(res.headers), OfVia)
  {
    var vias := res.GetHeaders(OfVia);
    ghost var rest := Without(res.headers, OfVia);
    var found := true;
    while found
      invariant Without(res.headers, OfVia) == rest
      invariant !found ==> Only(res.headers, OfVia) == []
      decreases found, |res.headers|
    {
      ghost var hs := res.headers;
      OnlyRemoved(hs, OfVia, OfVia);
      OneShorter(hs, OfVia);
      RestRemoved(hs, OfVia);
      found := res.RemoveHeader(OfVia);
    }
    NoneLeft(res.headers, OfVia);
    for i := 1 to |vias|
      invariant res.headers == rest + vias[1..i]
    {
      res.AppendHeader(vias[i]);
    }
    assert vias[1..|vias|] == vias[1..];
    OnlyConcat(rest, vias[1..], OfVia);
    AllOneKind(vias[1..], OfVia);
  }

  // ----- Building the forwarded request --------------------------------------

  /** What is done to the clone: a Path is inserted, the self-Route popped, a Record-Route put
      in front. */
  datatype Hook = InsertPath(uri: Uri) | PopRoute | InsertRecordRoute(uri: Uri)

  /** Popping removes the first Route and appends all the others behind. (It is applied only to
      requests that have one.) */
  function Popped(hs: seq<Header>): seq<Header> {
    var routes := Only(hs, OfRoute);
    if routes == [] then hs else RemoveFirst(hs, OfRoute) + routes[1..]
  }

  function Hooked(hs: seq<Header>, h: Hook): seq<Header> {
    match h
    case InsertPath(uri) => hs + [Path(uri)]
    case PopRoute => Popped(hs)
    case InsertRecordRoute(uri) => [RecordRoute(uri)] + hs
  }

  function HookedAll(hs: seq<Header>, hooks: seq<Hook>): seq<Header>
    decreases |hooks|
  {
    if hooks == [] then hs else HookedAll(Hooked(hs, hooks[0]), hooks[1..])
  }

  /** The request's Max-Forwards, absent or present. */
  function HopsLeft(hs: seq<Header>): Option<uint32> {
    var ms := Only(hs, OfMaxForwards);
    if ms == [] then None else match ms[0] case MaxForwards(n) => Some(n) case _ => None
  }

  /** One less, in 32 bits; 70 when absent. */
  function NextHops(m: Option<uint32>): uint32 {
    if m.Some? then (m.value - 1) % 0x1_0000_0000 else 70
  }

  function Forward(hs: seq<Header>, hooks: seq<Hook>): seq<Header> {
    HookedAll(RemoveFirst(hs, OfMaxForwards) + [MaxForwards(NextHops(HopsLeft(hs)))], hooks)
  }

  method BuildForward(req: Message, hooks: seq<Hook>) returns (fwd: Message)
    ensures fresh(fwd) && fwd.headers == Forward(req.headers, hooks)
  {
    fwd := new Message(req.headers);
    var mf := req.GetHeaders(OfMaxForwards);
    var removed := fwd.RemoveHeader(OfMaxForwards);
    var n: uint32 := 70;
    if mf != [] {
      match mf[0] {
        case MaxForwards(m) => n := (m - 1) % 0x1_0000_0000;
        case _ =>
      }
    }
    fwd.AppendHeader(MaxForwards(n));
    ghost var start := fwd.headers;
    assert hooks[0..] == hooks;
    for i := 0 to |hooks|
      invariant fresh(fwd) && HookedAll(fwd.headers, hooks[i..]) == HookedAll(start, hooks)
    {
      assert hooks[i..][0] == hooks[i] && hooks[i..][1..] == hooks[i + 1..];
      RunHook(fwd, hooks[i]);
    }
  }

  method RunHook(fwd: Message, h: Hook)
    modifies fwd
    ensures fwd.headers == Hooked(old(fwd.headers), h)
  {
    match h
    case InsertPath(uri) => fwd.AppendHeader(Path(uri));
    case InsertRecordRoute(uri) => fwd.PrependHeader(RecordRoute(uri));
    case PopRoute =>
      var routes := fwd.GetHeaders(OfRoute);
      if routes == [] {
        return;
      }
      var removed := fwd.RemoveHeader(OfRoute);
      ghost var rest := fwd.headers;
      for i := 1 to |routes|
        invariant fwd.headers == rest + routes[1..i]
      {
        fwd.AppendHeader(routes[i]);
      }
      assert routes[1..|routes|] == routes[1..];
  }

  // ----- What the hooks leave alone ------------------------------------------

  lemma OnlyOne(h: Header, k: Kind)
    ensures Only([h], k) == if KindOf(h) == k then [h] else []
  {
    assert [h][1..] == [];
  }

  lemma PopKeeps(hs: seq<Header>, k: Kind)
    requires k != OfRoute
    ensures Only(Popped(hs), k) == Only(hs, k)
  {
    var routes := Only(hs, OfRoute);
    if routes != [] {
      OnlyRemoved(hs, OfRoute, k);
      OnlyConcat(RemoveFirst(hs, OfRoute), routes[1..], k);
      AllOneKind(routes[1..], OfRoute);
    }
  }

  lemma HookKeeps(hs: seq<Header>, h: Hook, k: Kind)
    requires k == OfVia || k == OfMaxForwards
    ensures Only(Hooked(hs, h), k) == Only(hs, k)
  {
    match h
    case InsertPath(uri) => OneAdded(hs, Path(uri), k);
    case InsertRecordRoute(uri) => OneAdded(hs, RecordRoute(uri), k);
    case PopRoute => PopKeeps(hs, k);
  }

  lemma OneAdded(hs: seq<Header>, h: Header, k: Kind)
    requires KindOf(h) != k
    ensures Only(hs + [h], k) == Only(hs, k) == Only([h] + hs, k)
  {
    OnlyConcat(hs, [h], k);
    OnlyConcat([h], hs, k);
    OnlyOne(h, k);
  }

  lemma {:induction false} HooksKeep(hs: seq<Header>, hooks: seq<Hook>, k: Kind)
    requires k == OfVia || k == OfMaxForwards
    ensures Only(HookedAll(hs, hooks), k) == Only(hs, k)
    decreases |hooks|
  {
    if hooks != [] {
      HookKeeps(hs, hooks[0], k);
      HooksKeep(Hooked(hs, hooks[0]), hooks[1..], k);
    }
  }

  /** A forwarded request has the same Vias; its first Max-Forwards is gone and the lower one
      stands behind the others. */
  lemma ForwardKeeps(hs: seq<Header>, hooks: seq<Hook>)
    ensures Only(Forward(hs, hooks), OfVia) == Only(hs, OfVia)
    ensures Only(Forward(hs, hooks), OfMaxForwards)
         == (if Only(hs, OfMaxForwards) == [] then [] else Only(hs, OfMaxForwards)[1..])
           + [MaxForwards(NextHops(HopsLeft(hs)))]
  {
    var mf := MaxForwards(NextHops(HopsLeft(hs)));
    var base := RemoveFirst(hs, OfMaxForwards);
    HooksKeep(base + [mf], hooks, OfVia);
    HooksKeep(base + [mf], hooks, OfMaxForwards);
    OnlyRemoved(hs, OfMaxForwards, OfVia);
    OnlyRemoved(hs, OfMaxForwards, OfMaxForwards);
    OnlyConcat(base, [mf], OfVia);
    OnlyConcat(base, [mf], OfMaxForwards);
    OnlyOne(mf, OfVia);
    OnlyOne(mf, OfMaxForwards);
  }

  lemma ForwardBase(hs: seq<Header>)
    ensures Forward(hs, []) == RemoveFirst(hs, OfMaxForwards) + [MaxForwards(NextHops(HopsLeft(hs)))]
  {
  }

  lemma HopsRead(hs: seq<Header>)
    ensures Only(hs, OfMaxForwards) == [] ==> NextHops(HopsLeft(hs)) == 70
    ensures Only(hs, OfMaxForwards) != [] && Only(hs, OfMaxForwards)[0].MaxForwards? ==>
              var n := Only(hs, OfMaxForwards)[0].n;
              NextHops(HopsLeft(hs)) == if n == 0 then 0xffff_ffff else n - 1
  {
  }

  /** Header by header, without a hook: every header but the first Max-Forwards stays where it is,
      and the lowered one is the last of all. */
  lemma ForwardAt(hs: seq<Header>, i: nat)
    requires i < |hs| && hs[i].MaxForwards? && forall m | 0 <= m < i :: KindOf(hs[m]) != OfMaxForwards
    ensures Forward(hs, []) == hs[..i] + hs[i + 1..] + [MaxForwards(if hs[i].n == 0 then 0xffff_ffff else hs[i].n - 1)]
  {
    ForwardBase(hs);
    HopsRead(hs);
    FirstAt(hs, OfMaxForwards, i);
    FirstOnly(hs, OfMaxForwards, i);
  }

  /** Without a Max-Forwards every header stays, and one of 70 is added. */
  lemma ForwardWithout(hs: seq<Header>)
    requires forall m | 0 <= m < |hs| :: KindOf(hs[m]) != OfMaxForwards
    ensures Forward(hs, []) == hs + [MaxForwards(70)]
  {
    ForwardBase(hs);
    HopsRead(hs);
    NoneThere(hs, OfMaxForwards);
  }

  lemma {:induction false} NoneOf(hs: seq<Header>, k: Kind)
    requires Only(hs, k) == []
    ensures forall m | 0 <= m < |hs| :: KindOf(hs[m]) != k
  {
    if hs != [] {
      NoneOf(hs[1..], k);
      assert forall m | 1 <= m < |hs| :: hs[m] == hs[1..][m - 1];
    }
  }

  lemma {:induction false} FirstOnly(hs: seq<Header>, k: Kind, i: nat)
    requires i < |hs| && KindOf(hs[i]) == k && forall m | 0 <= m < i :: KindOf(hs[m]) != k
    ensures Only(hs, k) != [] && Only(hs, k)[0] == hs[i]
  {
    if i > 0 {
      FirstOnly(hs[1..], k, i - 1);
    }
  }

  /** A single Route is taken out of its place by the pop, and nothing else is touched. */
  lemma PoppedAt(hs: seq<Header>, j: nat)
    requires j < |hs| && |Only(hs, OfRoute)| == 1 && hs[j].Route?
    ensures Popped(hs) == hs[..j] + hs[j + 1..]
  {
    SinglePlace(hs, OfRoute, j);
  }

  lemma {:induction false} SinglePlace(hs: seq<Header>, k: Kind, j: nat)
    requires j < |hs| && |Only(hs, k)| == 1 && KindOf(hs[j]) == k
    ensures RemoveFirst(hs, k) == hs[..j] + hs[j + 1..]
  {
    if KindOf(hs[0]) == k {
      NoneOf(hs[1..], k);
      assert forall m | 1 <= m < |hs| :: hs[m] == hs[1..][m - 1];
    } else {
      SinglePlace(hs[1..], k, j - 1);
      assert hs[..j] == [hs[0]] + hs[1..][..j - 1] && hs[1..][j..] == hs[j + 1..];
    }
  }

  // ----- Along a chain of proxies --------------------------------------------

  /** One of these proxies: the Via it adds and what it does to the request. */
  datatype Hop = Hop(self: string, hooks: seq<Hook>)

  /** The request as the hop sends it on, its own Via on top; None when it answers 483. */
  function Pass(hs: seq<Header>, hop: Hop): Option<seq<Header>> {
    if HopsLeft(hs) == Some(0) then None else Some([Via(hop.self)] + Forward(hs, hop.hooks))
  }

  /** The request as it leaves each hop in turn, as far as it gets. */
  function Travel(hs: seq<Header>, hops: seq<Hop>): seq<seq<Header>>
    decreases |hops|
  {
    if hops == [] then []
    else match Pass(hs, hops[0])
      case None => []
      case Some(next) => [next] + Travel(next, hops[1..])
  }

  function HopsOf(h: Header): nat {
    match h case MaxForwards(n) => n case _ => 0
  }

  /** Each hop reads the first of the Max-Forwards headers and puts the lower one behind the
      others. So header k of m is read as the (k+1)th, (k+m+1)th, ... of the chain, and this many
      hops are passed before one finds it at 0. */
  function TimesLeft(ms: seq<Header>, k: nat): nat
    requires k < |ms|
  {
    |ms| * HopsOf(ms[k]) + k
  }

  /** The least of those numbers among the headers from i on. */
  function LeastFrom(ms: seq<Header>, i: nat): (n: nat)
    requires i < |ms|
    ensures forall k | i <= k < |ms| :: n <= TimesLeft(ms, k)
    ensures exists k | i <= k < |ms| :: n == TimesLeft(ms, k)
    decreases |ms| - i
  {
    var here := TimesLeft(ms, i);
    if i == |ms| - 1 then here
    else
      var rest := LeastFrom(ms, i + 1);
      if here <= rest then here else rest
  }

  /** How often a request can still be forwarded. */
  function Budget(hs: seq<Header>): nat {
    var ms := Only(hs, OfMaxForwards);
    if ms == [] then 71 else LeastFrom(ms, 0)
  }

  lemma BudgetOfOne(hs: seq<Header>)
    requires |Only(hs, OfMaxForwards)| == 1
    ensures HopsLeft(hs).Some? && Budget(hs) == HopsLeft(hs).value
  {
  }

  lemma OneTurn(m: nat, v: nat)
    requires v > 0
    ensures m * (v - 1) + (m - 1) == m * v - 1
  {
  }

  /** A hop brings each header one place forward, and the first one, lowered, to the end. */
  lemma TurnedAt(ms: seq<Header>, last: Header, ns: seq<Header>, k: nat)
    requires ms != [] && HopsOf(ms[0]) > 0 && HopsOf(last) == HopsOf(ms[0]) - 1
    requires ns == ms[1..] + [last] && k < |ms|
    ensures TimesLeft(ns, k) == TimesLeft(ms, if k == |ms| - 1 then 0 else k + 1) - 1
  {
    if k == |ms| - 1 {
      OneTurn(|ms|, HopsOf(ms[0]));
    } else {
      assert ns[k] == ms[k + 1];
    }
  }

  lemma Turned(ms: seq<Header>, last: Header)
    requires ms != [] && HopsOf(ms[0]) > 0 && HopsOf(last) == HopsOf(ms[0]) - 1
    ensures LeastFrom(ms[1..] + [last], 0) == LeastFrom(ms, 0) - 1
  {
    var ns, m := ms[1..] + [last], |ms|;
    var i: nat :| i < m && LeastFrom(ms, 0) == TimesLeft(ms, i);
    TurnedAt(ms, last, ns, if i == 0 then m - 1 else i - 1);
    var j: nat :| j < m && LeastFrom(ns, 0) == TimesLeft(ns, j);
    TurnedAt(ms, last, ns, j);
    assert LeastFrom(ns, 0) <= TimesLeft(ns, if i == 0 then m - 1 else i - 1);
    assert LeastFrom(ms, 0) <= TimesLeft(ms, if j == m - 1 then 0 else j + 1);
  }

  lemma NoTurn(ms: seq<Header>)
    requires ms != []
    ensures LeastFrom(ms, 0) == 0 <==> HopsOf(ms[0]) == 0
  {
  }

  /** What a hop sends on: its Via on top, the lowered Max-Forwards behind the others. */
  lemma PassHeaders(hs: seq<Header>, hop: Hop)
    requires Pass(hs, hop).Some?
    ensures Only(Pass(hs, hop).value, OfVia) == [Via(hop.self)] + Only(hs, OfVia)
    ensures Only(Pass(hs, hop).value, OfMaxForwards) == Only(Forward(hs, hop.hooks), OfMaxForwards)
  {
    ForwardKeeps(hs, hop.hooks);
    OnlyConcat([Via(hop.self)], Forward(hs, hop.hooks), OfMaxForwards);
    OnlyConcat([Via(hop.self)], Forward(hs, hop.hooks), OfVia);
    OnlyOne(Via(hop.self), OfMaxForwards);
    OnlyOne(Via(hop.self), OfVia);
  }

  lemma HopsLeftIs(hs: seq<Header>)
    ensures HopsLeft(hs).None? <==> Only(hs, OfMaxForwards) == []
    ensures HopsLeft(hs).Some? ==> HopsOf(Only(hs, OfMaxForwards)[0]) == HopsLeft(hs).value
  {
  }

  lemma PassBudget(hs: seq<Header>, next: seq<Header>)
    requires HopsLeft(hs) != Some(0)
    requires Only(next, OfMaxForwards)
          == (if Only(hs, OfMaxForwards) == [] then [] else Only(hs, OfMaxForwards)[1..])
            + [MaxForwards(NextHops(HopsLeft(hs)))]
    ensures Budget(next) == Budget(hs) - 1
  {
    var ms, mf := Only(hs, OfMaxForwards), MaxForwards(NextHops(HopsLeft(hs)));
    HopsLeftIs(hs);
    if ms != [] {
      Turned(ms, mf);
    } else {
      assert Only(next, OfMaxForwards) == [mf];
      BudgetOfOne(next);
    }
  }

  lemma PassSpends(hs: seq<Header>, hop: Hop)
    ensures Pass(hs, hop).Some? <==> Budget(hs) > 0
    ensures Pass(hs, hop).Some? ==>
              && Budget(Pass(hs, hop).value) == Budget(hs) - 1
              && Only(Pass(hs, hop).value, OfVia) == [Via(hop.self)] + Only(hs, OfVia)
  {
    HopsLeftIs(hs);
    if Only(hs, OfMaxForwards) != [] {
      NoTurn(Only(hs, OfMaxForwards));
    }
    if Pass(hs, hop).Some? {
      PassHeaders(hs, hop);
      ForwardKeeps(hs, hop.hooks);
      PassBudget(hs, Pass(hs, hop).value);
    }
  }

  /** A request is forwarded exactly as often as its Max-Forwards headers allow, if the chain is
      that long, and then answered 483: n times with the one header n, 71 times without one. */
  lemma {:induction false} TravelSpends(hs: seq<Header>, hops: seq<Hop>)
    ensures |Travel(hs, hops)| == if |hops| <= Budget(hs) then |hops| else Budget(hs)
    ensures |Only(hs, OfMaxForwards)| == 1 ==> HopsLeft(hs).Some? && Budget(hs) == HopsLeft(hs).value
    ensures Only(hs, OfMaxForwards) == [] ==> |Travel(hs, hops)| == if |hops| <= 71 then |hops| else 71
    decreases |hops|
  {
    if |Only(hs, OfMaxForwards)| == 1 {
      BudgetOfOne(hs);
    }
    if hops != [] {
      PassSpends(hs, hops[0]);
      if Pass(hs, hops[0]).Some? {
        TravelSpends(Pass(hs, hops[0]).value, hops[1..]);
      }
    }
  }

  /** The Vias hop j put the request out with: its own on top of those it came with. */
  lemma {:induction false} TravelStacks(hs: seq<Header>, hops: seq<Hop>, j: nat)
    requires j < |Travel(hs, hops)|
    ensures j < |hops|
    ensures Only(Travel(hs, hops)[j], OfVia)
         == [Via(hops[j].self)] + Only(if j == 0 then hs else Travel(hs, hops)[j - 1], OfVia)
    decreases |hops|
  {
    PassSpends(hs, hops[0]);
    if j > 0 {
      TravelStacks(Pass(hs, hops[0]).value, hops[1..], j - 1);
    }
  }

  /** An ACK is forwarded without the check for 0. Its Max-Forwards goes down by one exactly
      when it was not 0; at 0 it becomes the largest 32-bit number. */
  lemma AckHops(hs: seq<Header>, hooks: seq<Hook>)
    requires |Only(hs, OfMaxForwards)| == 1
    ensures HopsLeft(hs).Some? && HopsLeft(Forward(hs, hooks)).Some?
    ensures HopsLeft(Forward(hs, hooks)).value == HopsLeft(hs).value - 1 <==> HopsLeft(hs).value != 0
    ensures HopsLeft(hs).value == 0 ==> HopsLeft(Forward(hs, hooks)).value == 0xffff_ffff
  {
    ForwardKeeps(hs, hooks);
  }

  // ----- Popping the Route ---------------------------------------------------

  /** After the pop the remaining Routes appear twice over; they are the rest of the list just
      when there was only one. */
  lemma PopRoutes(hs: seq<Header>)
    requires Only(hs, OfRoute) != []
    ensures Only(Popped(hs), OfRoute) == Only(hs, OfRoute)[1..] + Only(hs, OfRoute)[1..]
    ensures Only(Popped(hs), OfRoute) == Only(hs, OfRoute)[1..] <==> |Only(hs, OfRoute)| == 1
  {
    var routes := Only(hs, OfRoute);
    OnlyRemoved(hs, OfRoute, OfRoute);
    OnlyConcat(RemoveFirst(hs, OfRoute), routes[1..], OfRoute);
    AllOneKind(routes[1..], OfRoute);
  }

  // ----- Forwarding and relaying ---------------------------------------------

  datatype Reply = Reply(status: int, headers: seq<Header>)

  /** How the client transaction goes on after its replies: it ends without a final one, the
      server is stopped, or its response channel is closed. */
  datatype Ending = NoFinal | Stopped | Closed

  datatype ForwardNet = SendFails | Sends(replies: seq<Reply>, ending: Ending)

  predicate Final(r: Reply) {
    r.status >= 200
  }

  predicate HasVia(r: Reply) {
    Only(r.headers, OfVia) != []
  }

  /** The number of replies up to and with the first final one; all of them without. */
  function UpToFinal(rs: seq<Reply>): (n: nat)
    ensures n <= |rs|
    ensures forall i | 0 <= i < n - 1 :: !Final(rs[i])
    ensures n < |rs| ==> n > 0 && Final(rs[n - 1])
  {
    if rs == [] then 0 else if Final(rs[0]) then 1 else 1 + UpToFinal(rs[1..])
  }

  lemma {:induction false} FirstFinal(rs: seq<Reply>, n: nat)
    requires n <= |rs| && forall i | 0 <= i < n :: !Final(rs[i])
    ensures n < |rs| && Final(rs[n]) ==> UpToFinal(rs) == n + 1
    ensures n < |rs| ==> n < UpToFinal(rs)
    ensures n == |rs| ==> UpToFinal(rs) == n
  {
    if n > 0 {
      FirstFinal(rs[1..], n - 1);
    }
  }

  /** Each reply that comes up for relaying has a Via. */
  predicate AllHaveVias(rs: seq<Reply>) {
    forall i | 0 <= i < UpToFinal(rs) :: HasVia(rs[i])
  }

  /** r is q as relayed: its top Via gone, the others and everything else as they were. */
  predicate Relayed(q: Reply, r: Reply) {
    && r.status == q.status && HasVia(q)
    && Only(r.headers, OfVia) == Only(q.headers, OfVia)[1..]
    && Without(r.headers, OfVia) == Without(q.headers, OfVia)
  }

  /** The reply as it comes to each of the hops in turn, on its way back. */
  ghost predicate ComesBack(rs: seq<Reply>) {
    rs != [] && forall i | 0 <= i < |rs| - 1 :: Relayed(rs[i], rs[i + 1])
  }

  lemma BackOnce(rs: seq<Reply>)
    requires ComesBack(rs) && |rs| >= 2
    ensures ComesBack(rs[1..])
  {
    var back := rs[1..];
    forall i | 0 <= i < |back| - 1 ensures Relayed(back[i], back[i + 1]) {
      assert Relayed(rs[i + 1], rs[i + 2]);
    }
  }

  /** A reply that carries the Vias hop j sent its request with comes back through hops j, j-1,
      ..., 0. Each takes its own Via off the top, and the originator gets the reply with its own
      Vias: the status and all that is not a Via are as they were. */
  lemma {:induction false} ResponseRetraces(hs: seq<Header>, hops: seq<Hop>, j: nat, rs: seq<Reply>)
    requires j < |Travel(hs, hops)|
    requires ComesBack(rs) && |rs| == j + 2 && Only(rs[0].headers, OfVia) == Only(Travel(hs, hops)[j], OfVia)
    ensures j < |hops| && Only(rs[0].headers, OfVia) != [] && Only(rs[0].headers, OfVia)[0] == Via(hops[j].self)
    ensures Only(rs[j + 1].headers, OfVia) == Only(hs, OfVia)
    ensures rs[j + 1].status == rs[0].status && Without(rs[j + 1].headers, OfVia) == Without(rs[0].headers, OfVia)
    decreases j
  {
    TravelStacks(hs, hops, j);
    assert Relayed(rs[0], rs[1]);
    if j > 0 {
      assert Only(rs[1].headers, OfVia) == Only(Travel(hs, hops)[j - 1], OfVia);
      BackOnce(rs);
      ResponseRetraces(hs, hops, j - 1, rs[1..]);
    }
  }

  /** What the originator, reached by these Vias, is given of a transaction's replies and its
      ending. */
  ghost predicate Answered(net: ForwardNet, answers: seq<Reply>, onNoFinal: int, vias: seq<Header>)
    requires net.Sends?
  {
    var n := UpToFinal(net.replies);
    var complete := n > 0 && Final(net.replies[n - 1]);
    && |answers| == (if complete || net.ending.Closed? then n else n + 1)
    && (forall i | 0 <= i < n :: Relayed(net.replies[i], answers[i]))
    && (|answers| > n ==> answers[n] == Reply(if net.ending.NoFinal? then onNoFinal else 408, vias))
  }

  /** Case by case: when some reply is final, the first final one is relayed last, with its status;
      when none is, the transaction's end is answered behind all of them, with the given status, or
      408 when the server is stopped, or not at all when the response channel was closed. */
  lemma AnsweredMeans(net: ForwardNet, answers: seq<Reply>, onNoFinal: int, vias: seq<Header>, k: nat)
    requires net.Sends? && Answered(net, answers, onNoFinal, vias) && k <= |net.replies|
    requires forall i | 0 <= i < k :: net.replies[i].status < 200
    ensures k < |net.replies| && net.replies[k].status >= 200 ==>
              |answers| == k + 1 && forall i | 0 <= i <= k :: answers[i].status == net.replies[i].status
    ensures k == |net.replies| && net.ending.NoFinal? ==> |answers| == k + 1 && answers[k] == Reply(onNoFinal, vias)
    ensures k == |net.replies| && net.ending.Stopped? ==> |answers| == k + 1 && answers[k] == Reply(408, vias)
    ensures k == |net.replies| && net.ending.Closed? ==> |answers| == k
  {
    FirstFinal(net.replies, k);
    forall i | 0 <= i <= k && i < UpToFinal(net.replies) ensures answers[i].status == net.replies[i].status {
      assert Relayed(net.replies[i], answers[i]);
    }
  }

  /** The handler went down on a reply without a Via, of which it cannot take the first off:
      the replies before that one were relayed, and none of them was final. */
  ghost predicate WentDown(net: ForwardNet, answers: seq<Reply>)
    requires net.Sends?
  {
    var n := |answers|;
    && n < UpToFinal(net.replies) && !HasVia(net.replies[n])
    && forall i | 0 <= i < n :: Relayed(net.replies[i], answers[i]) && !Final(answers[i])
  }

  /** Exactly one of the answers is final, and it is the last. */
  predicate OneFinal(answers: seq<Reply>) {
    answers != [] && Final(answers[|answers| - 1]) && forall i | 0 <= i < |answers| - 1 :: !Final(answers[i])
  }

  method RelayOne(q: Reply) returns (r: Option<Reply>)
    ensures r.Some? <==> HasVia(q)
    ensures r.Some? ==> Relayed(q, r.value)
  {
    var res := new Message(q.headers);
    var vias := res.GetHeaders(OfVia);
    if vias == [] {
      return None;
    }
    StripVia(res);
    return Some(Reply(q.status, res.headers));
  }

  /** The relaying loop; down when the handler panicked. */
  method Relay(net: ForwardNet, vias: seq<Header>, onNoFinal: int) returns (answers: seq<Reply>, down: bool)
    requires net.Sends?
    ensures down <==> !AllHaveVias(net.replies)
    ensures if down then WentDown(net, answers) else Answered(net, answers, onNoFinal, vias)
  {
    answers, down := [], false;
    for i := 0 to |net.replies|
      invariant |answers| == i && forall k | 0 <= k < i :: !Final(net.replies[k])
      invariant forall k | 0 <= k < i :: Relayed(net.replies[k], answers[k])
    {
      FirstFinal(net.replies, i);
      var r := RelayOne(net.replies[i]);
      if r.None? {
        return answers, true;
      }
      answers := answers + [r.value];
      if Final(net.replies[i]) {
        return;
      }
    }
    FirstFinal(net.replies, |net.replies|);
    match net.ending
    case NoFinal => answers := answers + [Reply(onNoFinal, vias)];
    case Stopped => answers := answers + [Reply(408, vias)];
    case Closed =>
  }

  lemma AnsweredOnce(net: ForwardNet, answers: seq<Reply>, onNoFinal: int, vias: seq<Header>)
    requires net.Sends? && Answered(net, answers, onNoFinal, vias) && onNoFinal >= 200
    requires !net.ending.Closed?
    ensures OneFinal(answers)
  {
    var n := UpToFinal(net.replies);
    forall i | 0 <= i < |answers| - 1 ensures !Final(answers[i]) {
      assert Relayed(net.replies[i], answers[i]);
    }
    if |answers| == n {
      assert Relayed(net.replies[n - 1], answers[n - 1]);
    }
  }

  /** forwardAndRelay. With no hops left the request is not sent and 483 is answered; if it
      cannot be sent, the given fault is. Otherwise each reply up to the first final one is
      relayed in order with its top Via off, and, when no final reply came, the transaction's
      end is answered: so the originator gets exactly one final response, and it is the last,
      unless the response channel was closed. The handler goes down exactly when one of those
      replies has no Via. */
  method ForwardAndRelay(req: Message, self: string, hooks: seq<Hook>, net: ForwardNet, onSendErr: int, onNoFinal: int)
    returns (sent: Option<seq<Header>>, answers: seq<Reply>, down: bool)
    requires onSendErr >= 200 && onNoFinal >= 200
    ensures sent == (if net.SendFails? then None else Pass(req.headers, Hop(self, hooks)))
    ensures sent.None? ==>
              answers == [Reply(if HopsLeft(req.headers) == Some(0) then 483 else onSendErr, Only(req.headers, OfVia))]
    ensures down <==> sent.Some? && !AllHaveVias(net.replies)
    ensures sent.Some?
      ==> if down then WentDown(net, answers) else Answered(net, answers, onNoFinal, Only(req.headers, OfVia))
    ensures !down && (sent.None? || !net.ending.Closed?) ==> OneFinal(answers)
  {
    var vias := req.GetHeaders(OfVia);
    var mf := req.GetHeaders(OfMaxForwards);
    if mf != [] && mf[0] == MaxForwards(0) {
      return None, [Reply(483, vias)], false;
    }
    NoHops(req.headers);
    var fwd := BuildForward(req, hooks);
    if net.SendFails? {
      return None, [Reply(onSendErr, vias)], false;
    }
    fwd.PrependHeader(Via(self));
    sent := Some(fwd.headers);
    answers, down := Relay(net, vias, onNoFinal);
    if !down && !net.ending.Closed? {
      AnsweredOnce(net, answers, onNoFinal, vias);
    }
  }

  lemma NoHops(hs: seq<Header>)
    ensures HopsLeft(hs) == Some(0) <==> Only(hs, OfMaxForwards) != [] && Only(hs, OfMaxForwards)[0] == MaxForwards(0)
  {
  }

  // ----- A webphone's flow ---------------------------------------------------

  /** What the sequencer reads of a request: its method, where it came from and is bound for. */
  datatype Request = Request(verb: string, source: string, target: string, headers: seq<Header>)

  /** Where a request is sent: the transport is empty when it is left as it is. */
  datatype Dispatch = Dispatch(destination: string, transport: string, hooks: seq<Hook>, stateless: bool)

  /** handleRegister's Path, addressing the sequencer with the flow's token. */
  function PathOf(ip: IpText, source: string, transport: string, host: string, port: int): Result<Uri, TokenError> {
    match Mint(ip, Flow(source, transport))
    case Err(e) => Err(e)
    case Ok(token) => Ok(Uri(token, host, port))
  }

  /** Where a request with a decoded flow goes. */
  function Directed(req: Request, uri: Uri, flow: Flow): Dispatch {
    if req.source == flow.addr then Dispatch(req.target, "", [PopRoute], req.verb == "ACK")
    else Dispatch(flow.addr, Lower(flow.transport),
                  [PopRoute] + (if req.verb == "INVITE" then [InsertRecordRoute(uri)] else []), req.verb == "ACK")
  }

  /** routeToFlow: None when the request is not one of ours. */
  function RouteToFlow(ip: IpText, req: Request, host: string, port: int): Option<Dispatch> {
    var routes := Only(req.headers, OfRoute);
    if routes == [] then None
    else match routes[0]
      case Route(uri) =>
        if uri.host != host || uri.port != port then None
        else
          (match Parse(ip, uri.user)
           case Err(_) => None
           case Ok(flow) => Some(Directed(req, uri, flow)))
      case _ => None
  }

  /** forwardStateless: an ACK is written on as it is, whatever hops it has left; no reply comes
      and a failure is only logged. */
  method ForwardStateless(req: Message, self: string, hooks: seq<Hook>, writes: bool)
    returns (sent: Option<seq<Header>>)
    ensures sent == if writes then Some([Via(self)] + Forward(req.headers, hooks)) else None
  {
    var fwd := BuildForward(req, hooks);
    if !writes {
      return None;
    }
    fwd.PrependHeader(Via(self));
    return Some(fwd.headers);
  }

  /** A request as it left: where to, over which transport, with which headers. */
  datatype Departure = Departure(destination: string, transport: string, headers: seq<Header>)

  /** routeToFlow to its end. A request that is not one of ours is left to others: nothing is
      sent and nothing answered. An ACK of ours is sent to its flow if it can be written, and
      nobody is answered. Any other request of ours is sent to its flow if and only if it has hops
      left and the transport takes it; then its replies are relayed, with 480 when no final one
      came. Otherwise its originator gets the one answer 483 or 480. */
  method RouteAlongFlow(ip: IpText, msg: Message, verb: string, source: string, target: string,
                        self: string, host: string, port: int, net: ForwardNet)
    returns (ours: bool, sent: Option<Departure>, answers: seq<Reply>, down: bool)
    ensures var d := RouteToFlow(ip, Request(verb, source, target, msg.headers), host, port);
      && ours == d.Some?
      && (!ours ==> sent == None && answers == [] && !down)
      && (ours ==>
            && (sent.Some? <==> net.Sends? && (verb == "ACK" || HopsLeft(msg.headers) != Some(0)))
            && (sent.Some? ==>
                  sent.value == Departure(d.value.destination, d.value.transport,
                                          [Via(self)] + Forward(msg.headers, d.value.hooks)))
            && (if verb == "ACK" then answers == [] && !down
                else if sent.None? then
                  && answers == [Reply(if HopsLeft(msg.headers) == Some(0) then 483 else 480, Only(msg.headers, OfVia))]
                  && !down
                else FlowAnswered(net, answers, down, Only(msg.headers, OfVia))))
  {
    var d := RouteToFlow(ip, Request(verb, source, target, msg.headers), host, port);
    if d.None? {
      return false, None, [], false;
    }
    var headers;
    if d.value.stateless {
      headers := ForwardStateless(msg, self, d.value.hooks, net.Sends?);
      answers, down := [], false;
    } else {
      headers, answers, down := ForwardAndRelay(msg, self, d.value.hooks, net, 480, 480);
    }
    ours := true;
    sent := if headers.None? then None else Some(Departure(d.value.destination, d.value.transport, headers.value));
  }

  /** What comes back of a request that was sent along a flow: exactly one final response, last,
      unless the response channel was closed or a reply has no Via. */
  ghost predicate FlowAnswered(net: ForwardNet, answers: seq<Reply>, down: bool, vias: seq<Header>)
    requires net.Sends?
  {
    && (down <==> !AllHaveVias(net.replies))
    && (if down then WentDown(net, answers) else Answered(net, answers, 480, vias))
    && (!down && !net.ending.Closed? ==> OneFinal(answers))
  }

  /** handleRegister: the request goes to the registrar with the flow's Path at its end and its
      replies are relayed; without hops left it is answered 483, and 502 when it cannot be sent.
      When the flow cannot be encoded, or the registrar's URI does not parse, it is not sent and
      500 is answered. */
  method HandleRegister(ip: IpText, req: Message, source: string, transport: string, self: string, host: string,
                        port: int,
                        nextHopOk: bool, net: ForwardNet)
    returns (sent: Option<seq<Header>>, answers: seq<Reply>, down: bool)
    ensures var token := Mint(ip, Flow(source, transport));
      && (sent.Some? <==> token.Ok? && nextHopOk && net.Sends? && HopsLeft(req.headers) != Some(0))
      && (sent.None? ==>
            var status := if token.Err? || !nextHopOk then 500
                          else if HopsLeft(req.headers) == Some(0) then 483 else 502;
            !down && answers == [Reply(status, Only(req.headers, OfVia))])
      && (sent.Some? ==>
            && sent.value == [Via(self)] + Forward(req.headers, []) + [Path(Uri(token.value, host, port))]
            && (down <==> !AllHaveVias(net.replies))
            && (if down then WentDown(net, answers) else Answered(net, answers, 503, Only(req.headers, OfVia))))
  {
    var path := PathOf(ip, source, transport, host, port);
    if path.Err? || !nextHopOk {
      var vias := req.GetHeaders(OfVia);
      return None, [Reply(500, vias)], false;
    }
    sent, answers, down := ForwardAndRelay(req, self, [InsertPath(path.value)], net, 502, 503);
    PathAtEnd(req.headers, path.value);
    var front := [Via(self)];
    assert front + (Forward(req.headers, []) + [Path(path.value)])
      == front + Forward(req.headers, []) + [Path(path.value)];
  }

  lemma PathAtEnd(hs: seq<Header>, uri: Uri)
    ensures Forward(hs, [InsertPath(uri)]) == Forward(hs, []) + [Path(uri)]
  {
    var base := RemoveFirst(hs, OfMaxForwards) + [MaxForwards(NextHops(HopsLeft(hs)))];
    assert [InsertPath(uri)][1..] == [];
    assert HookedAll(base, [InsertPath(uri)]) == HookedAll(base + [Path(uri)], []);
  }

  /** The only addresses a request is dispatched to are the one its own token decodes to, and,
      when it came from there, its own target; a request without a Route of ours, or with a
      token that does not decode, is dispatched nowhere. */
  lemma OnlyDecoded(ip: IpText, req: Request, host: string, port: int)
    ensures var d := RouteToFlow(ip, req, host, port);
      && (d.Some? <==> exists uri ::
            && Only(req.headers, OfRoute) != [] && Only(req.headers, OfRoute)[0] == Route(uri)
            && uri.host == host && uri.port == port && Parse(ip, uri.user).Ok?)
      && (d.Some? ==> exists uri ::
            && Only(req.headers, OfRoute)[0] == Route(uri) && Parse(ip, uri.user).Ok?
            && d.value.destination == (if req.source == Parse(ip, uri.user).value.addr then req.target
                                       else Parse(ip, uri.user).value.addr))
  {
    var routes := Only(req.headers, OfRoute);
    if routes != [] {
      match routes[0]
      case Route(uri) => assert routes[0] == Route(uri);
      case _ =>
    }
  }

  lemma LowerTwice(s: string)
    ensures Lower(Lower(s)) == Lower(s)
  {
  }

  lemma HookedOnce(hs: seq<Header>, path: Uri)
    ensures HookedAll(hs, [PopRoute]) == Popped(hs)
    ensures HookedAll(hs, [PopRoute] + []) == Popped(hs)
    ensures HookedAll(hs, [PopRoute] + [InsertRecordRoute(path)]) == [RecordRoute(path)] + Popped(hs)
  {
    assert [PopRoute][1..] == [] && [PopRoute] + [] == [PopRoute];
    assert ([PopRoute] + [InsertRecordRoute(path)])[1..] == [InsertRecordRoute(path)];
    assert [InsertRecordRoute(path)][1..] == [];
    assert HookedAll(Popped(hs), [InsertRecordRoute(path)]) == [RecordRoute(path)] + Popped(hs);
  }

  /** A popped single Route is gone, and a Record-Route goes in front. */
  lemma PoppedForward(hs: seq<Header>, path: Uri)
    requires Only(hs, OfRoute) == [Route(path)]
    ensures Only(Forward(hs, [PopRoute]), OfRoute) == []
    ensures Only(Forward(hs, [PopRoute] + []), OfRoute) == []
    ensures Only(Forward(hs, [PopRoute] + [InsertRecordRoute(path)]), OfRoute) == []
    ensures Forward(hs, [PopRoute] + []) == Forward(hs, [PopRoute])
    ensures Forward(hs, [PopRoute] + [InsertRecordRoute(path)]) == [RecordRoute(path)] + Forward(hs, [PopRoute])
  {
    var mf := MaxForwards(NextHops(HopsLeft(hs)));
    var base := RemoveFirst(hs, OfMaxForwards) + [mf];
    OnlyRemoved(hs, OfMaxForwards, OfRoute);
    OnlyConcat(RemoveFirst(hs, OfMaxForwards), [mf], OfRoute);
    OnlyOne(mf, OfRoute);
    PopRoutes(base);
    OnlyConcat([RecordRoute(path)], Popped(base), OfRoute);
    OnlyOne(RecordRoute(path), OfRoute);
    HookedOnce(base, path);
  }

  lemma RouteFound(ip: IpText, req: Request, uri: Uri, flow: Flow)
    requires Only(req.headers, OfRoute) == [Route(uri)] && Parse(ip, uri.user) == Ok(flow)
    ensures RouteToFlow(ip, req, uri.host, uri.port) == Some(Directed(req, uri, flow))
  {
  }

  /** The dispatch sends the request to the flow, or outward when it came from there; and what is
      done to it is the pop alone unless it is an INVITE to the phone, which gets a Record-Route. */
  ghost predicate SentToFlow(req: Request, path: Uri, addr: string, transport: string, d: Dispatch) {
    && Only(Forward(req.headers, d.hooks), OfRoute) == []
    && d.stateless == (req.verb == "ACK")
    && (req.source == addr || req.verb != "INVITE" ==>
          Forward(req.headers, d.hooks) == Forward(req.headers, [PopRoute]))
    && (if req.source == addr then d.destination == req.target && d.transport == ""
        else
          && d.destination == addr && d.transport == transport
          && (req.verb == "INVITE" ==>
                Forward(req.headers, d.hooks) == [RecordRoute(path)] + Forward(req.headers, [PopRoute])))
  }

  lemma DirectedToFlow(req: Request, path: Uri, flow: Flow)
    requires Only(req.headers, OfRoute) == [Route(path)]
    ensures SentToFlow(req, path, flow.addr, Lower(flow.transport), Directed(req, path, flow))
  {
    PoppedForward(req.headers, path);
  }

  /** The round trip through the registrar: a request whose only Route is the Path minted when
      the webphone registered is sent over that flow, to the address the phone registered from
      (in canonical text) and with its transport; only a request from that very address is sent
      on to its own target instead. The Route is gone from what is forwarded, and an INVITE to
      the phone carries it as a Record-Route in front. */
  lemma PathRouteTrip(ip: IpText, phone: Flow, req: Request, path: Uri)
    requires Lawful(ip) && PathOf(ip, phone.addr, phone.transport, path.host, path.port) == Ok(path)
    requires Only(req.headers, OfRoute) == [Route(path)]
    ensures Mint(ip, phone).Ok? && RouteToFlow(ip, req, path.host, path.port).Some?
    ensures SentToFlow(req, path, Canonical(ip, phone).addr, Lower(phone.transport),
                       RouteToFlow(ip, req, path.host, path.port).value)
  {
    TripParses(ip, phone, path);
    RouteFound(ip, req, path, Canonical(ip, phone));
    DirectedToFlow(req, path, Canonical(ip, phone));
  }

  lemma TripParses(ip: IpText, phone: Flow, path: Uri)
    requires Lawful(ip) && PathOf(ip, phone.addr, phone.transport, path.host, path.port) == Ok(path)
    ensures Mint(ip, phone).Ok? && Parse(ip, path.user) == Ok(Canonical(ip, phone))
    ensures Lower(Canonical(ip, phone).transport) == Lower(phone.transport)
  {
    ParseMint(ip, phone);
    LowerTwice(phone.transport);
  }
}
