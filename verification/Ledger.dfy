/** Sums of multisets of port pairs: what a list of owners holds together. */
module Ledger {
  import opened Ports

  ghost function Total(ms: seq<multiset<PortPair>>): multiset<PortPair> {
    if ms == [] then multiset{} else ms[0] + Total(ms[1..])
  }

  lemma AddFront(x: multiset<PortPair>, m: multiset<PortPair>, n: multiset<PortPair>,
                 c: multiset<PortPair>, d: multiset<PortPair>)
    requires n + c == m + d
    ensures (x + n) + c == (x + m) + d
  {
    forall p ensures ((x + n) + c)[p] == ((x + m) + d)[p] {
      assert (n + c)[p] == (m + d)[p];
    }
  }

  lemma {:induction false} TotalUpdate(ms: seq<multiset<PortPair>>, i: nat, d: multiset<PortPair>)
    requires i < |ms|
    ensures Total(ms[i := d]) + ms[i] == Total(ms) + d
    ensures ms[i] <= Total(ms)
  {
    if i == 0 {
      assert ms[0 := d][1..] == ms[1..];
    } else {
      assert ms[i := d][1..] == ms[1..][i - 1 := d];
      TotalUpdate(ms[1..], i - 1, d);
      AddFront(ms[0], Total(ms[1..]), Total(ms[1..][i - 1 := d]), ms[i], d);
    }
  }

  lemma {:induction false} TotalAppend(ms: seq<multiset<PortPair>>, d: multiset<PortPair>)
    ensures Total(ms + [d]) == Total(ms) + d
  {
    if ms == [] {
      assert ms + [d] == [d] && [d][1..] == [];
    } else {
      assert (ms + [d])[1..] == ms[1..] + [d];
      TotalAppend(ms[1..], d);
    }
  }

  lemma {:induction false} TwoOf(ms: seq<multiset<PortPair>>, i: nat, j: nat)
    requires i < j < |ms|
    ensures ms[i] + ms[j] <= Total(ms)
  {
    var rest := ms[1..];
    assert rest[j - 1] == ms[j];
    if i == 0 {
      TotalUpdate(rest, j - 1, ms[j]);
    } else {
      assert rest[i - 1] == ms[i];
      TwoOf(rest, i - 1, j - 1);
    }
  }

  /** If one owner's step keeps what the others own, the total stays what is out. */
  lemma TotalKeeps(all: multiset<PortPair>, all': multiset<PortPair>, c: multiset<PortPair>, d: multiset<PortPair>,
                   o: multiset<PortPair>, o': multiset<PortPair>)
    requires all == o && c <= o && d <= o' && o' - d == o - c && all' + c == all + d
    ensures all' == o'
  {
    forall p ensures all'[p] == o'[p] {
      assert (o' - d)[p] == (o - c)[p];
      assert (all' + c)[p] == (all + d)[p];
    }
  }

  lemma Disjoint(a: multiset<PortPair>, b: multiset<PortPair>, o: multiset<PortPair>, m: multiset<PortPair>)
    requires a + b <= o <= m && forall p | p in m :: m[p] == 1
    ensures a !! b
  {
    forall p | p in a ensures p !in b {
      assert (a + b)[p] <= o[p] <= m[p];
      assert p in m;
    }
  }
}
