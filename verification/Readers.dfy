/** What the readers read, by position: a tap answer's streams, the recorder's streams, the codec
    a body selects, when two codecs agree, and what makes an offer a webphone's. None of these
    statements follows the loop or the fold it is about. */
module Readers {
  import opened AnchorLaws
  import R = Recorder
  import opened Sdp
  import opened SdpLaws
  import opened SdpOffers
  import opened TapNegotiation
  import opened Text
  import opened Wrappers

  // ----- Positions -----------------------------------------------------------

  /** xs are the places of the audio lines, in order. */
  ghost predicate AudioLines(ls: seq<string>, xs: seq<nat>) {
    && (forall k | 0 <= k < |xs| :: xs[k] < |ls| && HasPrefix(ls[xs[k]], AUDIO))
    && (forall j, k | 0 <= j < k < |xs| :: xs[j] < xs[k])
    && (forall i | 0 <= i < |ls| && HasPrefix(ls[i], AUDIO) :: i in xs)
  }

  /** h is the address on the last connection line from lo on and before hi, or d if there is
      none. */
  ghost predicate AddressIn(ls: seq<string>, lo: nat, hi: nat, d: string, h: string)
    requires lo <= hi <= |ls|
  {
    || (h == d && forall i | lo <= i < hi :: !HasPrefix(ls[i], CONN))
    || exists i | lo <= i < hi ::
         HasPrefix(ls[i], CONN) && h == ls[i][|CONN|..] && forall j | i < j < hi :: !HasPrefix(ls[j], CONN)
  }

  lemma AddressStays(ls: seq<string>, lo: nat, hi: nat, d: string, h: string)
    requires lo <= hi < |ls| && AddressIn(ls, lo, hi, d, h) && !HasPrefix(ls[hi], CONN)
    ensures AddressIn(ls, lo, hi + 1, d, h)
  {
  }

  lemma AddressNow(ls: seq<string>, lo: nat, hi: nat, d: string)
    requires lo <= hi < |ls| && HasPrefix(ls[hi], CONN)
    ensures AddressIn(ls, lo, hi + 1, d, ls[hi][|CONN|..])
  {
  }

  /** m of the audio lines come before n. */
  ghost predicate Before(xs: seq<nat>, n: nat, m: nat) {
    m <= |xs| && (forall k | 0 <= k < m :: xs[k] < n) && (forall k | m <= k < |xs| :: n <= xs[k])
  }

  /** Where the lines that belong to audio line k end, before n, when m audio lines were read. */
  function EndOf(xs: seq<nat>, k: nat, m: nat, n: nat): nat
    requires k < m <= |xs|
  {
    if k + 1 < m then xs[k + 1] else n
  }

  lemma Increasing(ls: seq<string>, xs: seq<nat>, j: nat, k: nat)
    requires AudioLines(ls, xs) && j <= k < |xs|
    ensures xs[j] <= xs[k] && (j < k ==> xs[j] < xs[k])
  {
  }

  lemma FirstBefore(xs: seq<nat>, n: nat, m: nat)
    requires Before(xs, n, m)
    ensures m > 0 ==> xs[0] < n
  {
  }

  lemma BeforeAudio(ls: seq<string>, xs: seq<nat>, n: nat, m: nat) returns (before: nat)
    requires AudioLines(ls, xs) && 0 < n <= |ls| && m <= |xs| && HasPrefix(ls[n - 1], AUDIO)
    requires (forall k | 0 <= k < m :: xs[k] < n) && (forall k | m <= k < |xs| :: n <= xs[k])
    ensures before + 1 == m && xs[before] == n - 1
    ensures (forall k | 0 <= k < before :: xs[k] < n - 1) && (forall k | before <= k < |xs| :: n - 1 <= xs[k])
  {
    var k :| 0 <= k < |xs| && xs[k] == n - 1;
    assert k < m;
    Increasing(ls, xs, k, m - 1);
    before := k;
  }

  lemma NotListed(ls: seq<string>, xs: seq<nat>, n: nat, m: nat)
    requires AudioLines(ls, xs) && 0 < n <= |ls| && m <= |xs| && !HasPrefix(ls[n - 1], AUDIO)
    requires forall k | 0 <= k < m :: xs[k] < n
    ensures forall k | 0 <= k < m :: xs[k] < n - 1
  {
    forall k | 0 <= k < m ensures xs[k] < n - 1 {
      assert HasPrefix(ls[xs[k]], AUDIO);
    }
  }

  lemma BeforeNext(ls: seq<string>, xs: seq<nat>, n: nat, m: nat) returns (before: nat)
    requires AudioLines(ls, xs) && 0 < n <= |ls| && Before(xs, n, m)
    ensures Before(xs, n - 1, before)
    ensures if HasPrefix(ls[n - 1], AUDIO) then before + 1 == m && xs[before] == n - 1 else before == m
  {
    if HasPrefix(ls[n - 1], AUDIO) {
      before := BeforeAudio(ls, xs, n, m);
    } else {
      NotListed(ls, xs, n, m);
      before := m;
    }
  }

  // ----- A tap answer --------------------------------------------------------

  /** Stream k of the answer: its port is the second field of its audio line; its host is the last
      address between that line and the next audio line, or the session's. */
  ghost predicate StreamIs(ls: seq<string>, xs: seq<nat>, k: nat, session: string, e: Endpoint)
    requires AudioLines(ls, xs) && k < |xs|
  {
    && |Fields(ls[xs[k]])| >= 2 && Atoi(Fields(ls[xs[k]])[1]) == Some(e.port)
    && AddressIn(ls, xs[k] + 1, if k + 1 < |xs| then xs[k + 1] else |ls|, session, e.host)
  }

  /** The scan after the lines before n, of which m are audio lines, and its stream k. */
  ghost predicate ScannedTo(ls: seq<string>, xs: seq<nat>, n: nat, m: nat, st: TapScan, k: nat)
    requires AudioLines(ls, xs) && n <= |ls|
  {
    && Before(xs, n, m) && |st.streams| == m
    && AddressIn(ls, 0, if m > 0 then xs[0] else n, "", st.sessionHost)
    && (k < m ==> StreamTo(ls, xs[k], EndOf(xs, k, m, n), st.sessionHost, st.streams[k]))
  }

  ghost predicate StreamTo(ls: seq<string>, a: nat, hi: nat, session: string, e: Endpoint) {
    && a < hi <= |ls|
    && |Fields(ls[a])| >= 2 && Atoi(Fields(ls[a])[1]) == Some(e.port)
    && AddressIn(ls, a + 1, hi, session, e.host)
  }

  lemma ScanAudio(ls: seq<string>, xs: seq<nat>, n: nat, m: nat, st: TapScan, p: int, k: nat)
    requires AudioLines(ls, xs) && n < |ls| && m < |xs| && ScannedTo(ls, xs, n, m, st, k) && xs[m] == n
    requires |Fields(ls[n])| >= 2 && Atoi(Fields(ls[n])[1]) == Some(p)
    ensures ScannedTo(ls, xs, n + 1, m + 1, st.(streams := st.streams + [Endpoint(st.sessionHost, p)]), k)
  {
  }

  lemma ScanConn(ls: seq<string>, xs: seq<nat>, n: nat, m: nat, st: TapScan, k: nat)
    requires AudioLines(ls, xs) && n < |ls| && ScannedTo(ls, xs, n, m, st, k) && Before(xs, n + 1, m)
    requires HasPrefix(ls[n], CONN) && !HasPrefix(ls[n], AUDIO)
    ensures TapStep(st, ls[n]).Ok? && ScannedTo(ls, xs, n + 1, m, TapStep(st, ls[n]).value, k)
  {
    if m == 0 {
      AddressNow(ls, 0, n, "");
    } else {
      AddressNow(ls, xs[m - 1] + 1, n, st.sessionHost);
    }
  }

  lemma ScanOther(ls: seq<string>, xs: seq<nat>, n: nat, m: nat, st: TapScan, k: nat)
    requires AudioLines(ls, xs) && n < |ls| && ScannedTo(ls, xs, n, m, st, k) && Before(xs, n + 1, m)
    requires !HasPrefix(ls[n], CONN) && !HasPrefix(ls[n], AUDIO)
    ensures ScannedTo(ls, xs, n + 1, m, st, k)
  {
    if m == 0 {
      AddressStays(ls, 0, n, "", st.sessionHost);
    } else if k + 1 == m {
      AddressStays(ls, xs[k] + 1, n, st.sessionHost, st.streams[k].host);
    }
  }

  lemma {:induction false} TapSnoc(st: TapScan, a: seq<string>, l: string)
    ensures TapFold(st, a + [l]) == match TapFold(st, a) case Err(e) => Err(e) case Ok(mid) => TapStep(mid, l)
    decreases |a|
  {
    if a == [] {
      assert a + [l] == [l];
    } else {
      assert (a + [l])[1..] == a[1..] + [l];
      var next := TapStep(st, a[0]);
      if next.Ok? {
        TapSnoc(next.value, a[1..], l);
      }
    }
  }

  /** The scan of the first n lines, of which m are audio lines. */
  lemma {:induction false} TapTo(ls: seq<string>, xs: seq<nat>, n: nat, m: nat, k: nat)
    requires AudioLines(ls, xs) && n <= |ls| && Before(xs, n, m)
    ensures var r := TapFold(TapScan([], ""), ls[..n]);
      && (r.Ok? <==> forall i | 0 <= i < n :: PortReads(ls[i]))
      && (r.Ok? ==> ScannedTo(ls, xs, n, m, r.value, k))
    decreases n
  {
    if n == 0 {
      FirstBefore(xs, n, m);
      return;
    }
    assert ls[..n] == ls[..n - 1] + [ls[n - 1]];
    TapSnoc(TapScan([], ""), ls[..n - 1], ls[n - 1]);
    var before := BeforeNext(ls, xs, n, m);
    TapTo(ls, xs, n - 1, before, k);
    var prior := TapFold(TapScan([], ""), ls[..n - 1]);
    if prior.Ok? {
      TapOneMore(ls, xs, n - 1, before, m, prior.value, k);
    }
  }

  lemma TapOneMore(ls: seq<string>, xs: seq<nat>, n: nat, before: nat, m: nat, st: TapScan, k: nat)
    requires AudioLines(ls, xs) && n < |ls| && ScannedTo(ls, xs, n, before, st, k) && Before(xs, n + 1, m)
    requires if HasPrefix(ls[n], AUDIO) then m == before + 1 && xs[before] == n else m == before
    ensures TapStep(st, ls[n]).Ok? <==> PortReads(ls[n])
    ensures TapStep(st, ls[n]).Ok? ==> ScannedTo(ls, xs, n + 1, m, TapStep(st, ls[n]).value, k)
  {
    if HasPrefix(ls[n], AUDIO) {
      if PortReads(ls[n]) {
        ScanAudio(ls, xs, n, before, st, Atoi(Fields(ls[n])[1]).value, k);
      }
    } else if HasPrefix(ls[n], CONN) {
      ScanConn(ls, xs, n, before, st, k);
    } else {
      ScanOther(ls, xs, n, before, st, k);
    }
  }

  /** What a tap answer says. It is accepted exactly when every audio line has a port that can be
      read and there are at least two; and then it gives the first two streams. Each one's host is
      the last address between its audio line and the next; without one it is the session's, the
      last address before the first audio line; and without that it is empty. */
  lemma TapAnswerReads(ls: seq<string>, xs: seq<nat>)
    requires AudioLines(ls, xs)
    ensures TapAnswer(ls).Ok? <==> |xs| >= 2 && forall i | 0 <= i < |ls| :: PortReads(ls[i])
    ensures TapAnswer(ls).Ok? ==>
              exists session ::
                && AddressIn(ls, 0, xs[0], "", session)
                && StreamIs(ls, xs, 0, session, TapAnswer(ls).value.0)
                && StreamIs(ls, xs, 1, session, TapAnswer(ls).value.1)
  {
    assert ls[..|ls|] == ls;
    TapTo(ls, xs, |ls|, |xs|, 0);
    TapTo(ls, xs, |ls|, |xs|, 1);
    if TapAnswer(ls).Ok? {
      var st := TapFold(TapScan([], ""), ls).value;
      assert AddressIn(ls, 0, xs[0], "", st.sessionHost);
    }
  }

  // ----- The recorder's streams ----------------------------------------------

  /** The lines from lo on and before hi, up to the next section. */
  function Part(ls: seq<string>, lo: nat, hi: nat): seq<string>
    requires lo <= hi <= |ls|
  {
    ls[lo..hi][..First(ls[lo..hi], MEDIA)]
  }

  lemma PartGrows(ls: seq<string>, lo: nat, hi: nat)
    requires lo <= hi < |ls|
    ensures Part(ls, lo, hi + 1)
         == if |Part(ls, lo, hi)| == hi - lo && !HasPrefix(ls[hi], MEDIA) then Part(ls, lo, hi) + [ls[hi]]
            else Part(ls, lo, hi)
    ensures |Part(ls, lo, hi + 1)| == hi + 1 - lo <==> |Part(ls, lo, hi)| == hi - lo && !HasPrefix(ls[hi], MEDIA)
  {
    SliceSnoc(ls, lo, hi);
    FirstAppend(ls[lo..hi], [ls[hi]], MEDIA);
  }

  lemma PartIsBlock(ls: seq<string>, a: nat, hi: nat)
    requires a < hi <= |ls| && (hi < |ls| ==> HasPrefix(ls[hi], MEDIA))
    ensures Part(ls, a + 1, hi) == Block(ls, a)
  {
    SliceParts(ls, a + 1, hi);
    FirstAppend(ls[a + 1..hi], ls[hi..], MEDIA);
    FirstFacts(ls[hi..], MEDIA);
    if hi < |ls| {
      FirstIs(ls[hi..], 0, MEDIA);
    }
    var n := First(ls[a + 1..hi], MEDIA);
    if n < hi - a - 1 {
      assert ls[a + 1..][..n] == ls[a + 1..hi][..n];
    } else {
      TakeAppend(ls[a + 1..hi], ls[hi..], 0);
    }
  }

  function StreamOfPart(line: string, part: seq<string>): R.AudioStream
    requires |Fields(line)| >= 4
  {
    R.AudioStream(Join(Fields(line)[3..], ' '), Select(part, RTPMAP), Select(part, FMTP))
  }

  /** The recorder's scan after the lines before n, of which m are audio lines, and its stream k. */
  ghost predicate HeardTo(ls: seq<string>, xs: seq<nat>, n: nat, m: nat, st: R.OfferScan, k: nat)
    requires AudioLines(ls, xs) && n <= |ls|
  {
    && Before(xs, n, m) && |st.streams| == m
    && (st.current <==> m > 0 && |Part(ls, xs[m - 1] + 1, n)| == n - xs[m - 1] - 1)
    && (k < m ==> PartTo(ls, xs[k], EndOf(xs, k, m, n), st.streams[k]))
  }

  ghost predicate PartTo(ls: seq<string>, a: nat, hi: nat, s: R.AudioStream) {
    a < hi <= |ls| && |Fields(ls[a])| >= 4 && s == StreamOfPart(ls[a], Part(ls, a + 1, hi))
  }

  lemma NewPart(ls: seq<string>, n: nat)
    requires n < |ls| && |Fields(ls[n])| >= 4
    ensures PartTo(ls, n, n + 1, R.AudioStream(Join(Fields(ls[n])[3..], ' '), [], []))
    ensures |Part(ls, n + 1, n + 1)| == 0
  {
    assert Part(ls, n + 1, n + 1) == [];
  }

  lemma HearAudio(ls: seq<string>, xs: seq<nat>, n: nat, m: nat, st: R.OfferScan, k: nat)
    requires AudioLines(ls, xs) && n < |ls| && m < |xs| && HeardTo(ls, xs, n, m, st, k) && xs[m] == n
    requires |Fields(ls[n])| >= 4
    ensures HeardTo(ls, xs, n + 1, m + 1,
                    R.OfferScan(st.streams + [R.AudioStream(Join(Fields(ls[n])[3..], ' '), [], [])], true), k)
  {
    NewPart(ls, n);
  }

  /** A stream with one more line of its section, if there is more of it. */
  function Longer(s: R.AudioStream, more: bool, l: string): R.AudioStream {
    if more && HasPrefix(l, RTPMAP) then s.(rtpmaps := s.rtpmaps + [l])
    else if more && HasPrefix(l, FMTP) then s.(fmtps := s.fmtps + [l])
    else s
  }

  lemma HearLine(ls: seq<string>, a: nat, n: nat, s: R.AudioStream)
    requires n < |ls| && PartTo(ls, a, n, s)
    ensures PartTo(ls, a, n + 1, Longer(s, |Part(ls, a + 1, n)| == n - a - 1 && !HasPrefix(ls[n], MEDIA), ls[n]))
  {
    PartGrows(ls, a + 1, n);
    var part, l := Part(ls, a + 1, n), ls[n];
    OnePrefix(l);
    SelectSnoc(part, l, RTPMAP);
    SelectSnoc(part, l, FMTP);
  }

  lemma StepOther(st: R.OfferScan, l: string)
    requires !HasPrefix(l, AUDIO) && st.streams != []
    ensures var (n, more) := (|st.streams|, st.current && !HasPrefix(l, MEDIA));
      R.OfferStep(st, l) == Ok(R.OfferScan(st.streams[n - 1 := Longer(st.streams[n - 1], more, l)], more))
  {
    assert st.streams[|st.streams| - 1 := st.streams[|st.streams| - 1]] == st.streams;
    OnePrefix(l);
  }

  lemma HearOther(ls: seq<string>, xs: seq<nat>, n: nat, m: nat, st: R.OfferScan, k: nat)
    requires AudioLines(ls, xs) && n < |ls| && HeardTo(ls, xs, n, m, st, k) && !HasPrefix(ls[n], AUDIO)
    requires Before(xs, n + 1, m)
    ensures st.current ==> st.streams != []
    ensures R.OfferStep(st, ls[n]).Ok? && HeardTo(ls, xs, n + 1, m, R.OfferStep(st, ls[n]).value, k)
  {
    if m > 0 {
      StepOther(st, ls[n]);
      PartGrows(ls, xs[m - 1] + 1, n);
      if k < m {
        HearAt(ls, xs, n, m, st, k);
      }
    }
  }

  lemma HearAt(ls: seq<string>, xs: seq<nat>, n: nat, m: nat, st: R.OfferScan, k: nat)
    requires AudioLines(ls, xs) && n < |ls| && k < m && HeardTo(ls, xs, n, m, st, k)
    requires Before(xs, n + 1, m)
    ensures var more := st.current && !HasPrefix(ls[n], MEDIA);
      PartTo(ls, xs[k], EndOf(xs, k, m, n + 1), st.streams[m - 1 := Longer(st.streams[m - 1], more, ls[n])][k])
  {
    if k + 1 == m {
      HearLine(ls, xs[k], n, st.streams[k]);
    }
  }

  lemma {:induction false} OfferSnoc(st: R.OfferScan, a: seq<string>, l: string)
    requires st.current ==> st.streams != []
    ensures R.OfferFold(st, a).Ok? && R.OfferFold(st, a).value.current ==> R.OfferFold(st, a).value.streams != []
    ensures R.OfferFold(st, a + [l])
         == match R.OfferFold(st, a) case Err(e) => Err(e) case Ok(mid) => R.OfferStep(mid, l)
    decreases |a|
  {
    if a == [] {
      assert a + [l] == [l];
    } else {
      assert (a + [l])[1..] == a[1..] + [l];
      var next := R.OfferStep(st, a[0]);
      if next.Ok? {
        OfferSnoc(next.value, a[1..], l);
      }
    }
  }

  /** An audio line names a format. */
  predicate NamesFormat(l: string) {
    HasPrefix(l, AUDIO) ==> |Fields(l)| >= 4
  }

  lemma {:induction false} OfferTo(ls: seq<string>, xs: seq<nat>, n: nat, m: nat, k: nat)
    requires AudioLines(ls, xs) && n <= |ls| && Before(xs, n, m)
    ensures var r := R.OfferFold(R.OfferScan([], false), ls[..n]);
      && (r.Ok? <==> forall i | 0 <= i < n :: NamesFormat(ls[i]))
      && (r.Ok? ==> HeardTo(ls, xs, n, m, r.value, k))
    decreases n
  {
    if n == 0 {
      FirstBefore(xs, n, m);
      return;
    }
    assert ls[..n] == ls[..n - 1] + [ls[n - 1]];
    OfferSnoc(R.OfferScan([], false), ls[..n - 1], ls[n - 1]);
    var before := BeforeNext(ls, xs, n, m);
    OfferTo(ls, xs, n - 1, before, k);
    var prior := R.OfferFold(R.OfferScan([], false), ls[..n - 1]);
    if prior.Ok? {
      OfferOneMore(ls, xs, n - 1, before, m, prior.value, k);
    }
  }

  lemma OfferOneMore(ls: seq<string>, xs: seq<nat>, n: nat, before: nat, m: nat, st: R.OfferScan, k: nat)
    requires AudioLines(ls, xs) && n < |ls| && HeardTo(ls, xs, n, before, st, k) && Before(xs, n + 1, m)
    requires if HasPrefix(ls[n], AUDIO) then m == before + 1 && xs[before] == n else m == before
    ensures st.current ==> st.streams != []
    ensures R.OfferStep(st, ls[n]).Ok? <==> NamesFormat(ls[n])
    ensures R.OfferStep(st, ls[n]).Ok? ==> HeardTo(ls, xs, n + 1, m, R.OfferStep(st, ls[n]).value, k)
  {
    OnePrefix(ls[n]);
    if HasPrefix(ls[n], AUDIO) {
      if NamesFormat(ls[n]) {
        HearAudio(ls, xs, n, before, st, k);
      }
    } else {
      HearOther(ls, xs, n, before, st, k);
    }
  }

  /** What the recorder reads of any offer. It is accepted exactly when every audio line names a
      format and there is at least one; and then it has a stream for each, in order, with the
      line's formats and the rtpmap and fmtp lines of its own section. */
  lemma RecorderReads(ls: seq<string>, xs: seq<nat>)
    requires AudioLines(ls, xs)
    ensures R.Streams(ls).Ok? <==> |xs| >= 1 && forall i | 0 <= i < |ls| :: NamesFormat(ls[i])
    ensures R.Streams(ls).Ok? ==>
              && |R.Streams(ls).value| == |xs|
              && forall k | 0 <= k < |xs| ::
                   && |Fields(ls[xs[k]])| >= 4
                   && R.Streams(ls).value[k] == R.AudioStream(Join(Fields(ls[xs[k]])[3..], ' '),
                                                              Select(Block(ls, xs[k]), RTPMAP),
                                                              Select(Block(ls, xs[k]), FMTP))
  {
    assert ls[..|ls|] == ls;
    OfferTo(ls, xs, |ls|, |xs|, 0);
    if R.Streams(ls).Ok? {
      forall k | 0 <= k < |xs|
        ensures |Fields(ls[xs[k]])| >= 4 && R.Streams(ls).value[k] == StreamOfPart(ls[xs[k]], Block(ls, xs[k]))
      {
        OfferTo(ls, xs, |ls|, |xs|, k);
        HeardAll(ls, xs, R.OfferFold(R.OfferScan([], false), ls).value, k);
      }
    }
  }

  lemma HeardAll(ls: seq<string>, xs: seq<nat>, st: R.OfferScan, k: nat)
    requires AudioLines(ls, xs) && k < |xs| && HeardTo(ls, xs, |ls|, |xs|, st, k)
    ensures |Fields(ls[xs[k]])| >= 4 && st.streams[k] == StreamOfPart(ls[xs[k]], Block(ls, xs[k]))
  {
    var hi := EndOf(xs, k, |xs|, |ls|);
    if hi < |ls| {
      OnePrefix(ls[hi]);
    }
    PartIsBlock(ls, xs[k], hi);
  }

  // ----- The codec a body selects --------------------------------------------

  /** Line a is the first audio line. */
  ghost predicate FirstAudio(ls: seq<string>, a: nat) {
    a < |ls| && HasPrefix(ls[a], AUDIO) && forall i | 0 <= i < a :: !HasPrefix(ls[i], AUDIO)
  }

  /** Line i stands in the section that line a opens. */
  ghost predicate InSection(ls: seq<string>, a: nat, i: nat) {
    a < i < |ls| && forall j | a < j <= i :: !HasPrefix(ls[j], MEDIA)
  }

  lemma FirstAudioIs(ls: seq<string>, a: nat)
    requires FirstAudio(ls, a)
    ensures First(ls, AUDIO) == a
  {
    FirstFacts(ls, AUDIO);
    FirstIs(ls, a, AUDIO);
  }

  lemma BlockAt(ls: seq<string>, a: nat, k: nat)
    requires a < |ls|
    ensures k < |Block(ls, a)| ==> InSection(ls, a, a + 1 + k) && Block(ls, a)[k] == ls[a + 1 + k]
    ensures InSection(ls, a, a + 1 + k) ==> k < |Block(ls, a)|
  {
    var tail := ls[a + 1..];
    FirstFacts(tail, MEDIA);
    var n := First(tail, MEDIA);
    assert forall j | 0 <= j < |tail| :: tail[j] == ls[a + 1 + j];
    if k < n {
      forall j | a < j <= a + 1 + k ensures !HasPrefix(ls[j], MEDIA) {
        assert ls[j] == tail[j - a - 1];
      }
    }
    assert n < |tail| ==> HasPrefix(ls[a + 1 + n], MEDIA);
  }

  lemma {:induction false} FoundMap(b: seq<string>, pt: int, k: nat)
    requires k <= |b| && (forall j | 0 <= j < k :: !MapsType(b[j], pt)) && (k < |b| ==> MapsType(b[k], pt))
    ensures FindMap(b, pt) == if k < |b| then ParseRtpMap(b[k]) else None
  {
    if k > 0 {
      assert forall j | 0 <= j < k - 1 :: b[1..][j] == b[j + 1];
      FoundMap(b[1..], pt, k - 1);
    }
  }

  /** The codec of the first payload type of the first audio line, when line i is the first of its
      section to map that type. */
  lemma MappedCodec(ls: seq<string>, a: nat, pt: int, i: nat)
    requires FirstAudio(ls, a) && |Fields(ls[a])| >= 4 && Atoi(Fields(ls[a])[3]) == Some(pt)
    requires InSection(ls, a, i) && MapsType(ls[i], pt)
    requires forall j | a < j < i :: !MapsType(ls[j], pt)
    ensures Selected(ls) == Ok(ParseRtpMap(ls[i]).value)
  {
    FirstAudioIs(ls, a);
    var b, k := Block(ls, a), i - a - 1;
    BlockAt(ls, a, k);
    forall j | 0 <= j < k ensures !MapsType(b[j], pt) {
      BlockAt(ls, a, j);
    }
    FoundMap(b, pt, k);
  }

  /** And when no line of the section maps it: the five static types of RFC 3551 that the code
      knows, and otherwise a codec without a name. */
  lemma UnmappedCodec(ls: seq<string>, a: nat, pt: int)
    requires FirstAudio(ls, a) && |Fields(ls[a])| >= 4 && Atoi(Fields(ls[a])[3]) == Some(pt)
    requires forall i: nat | InSection(ls, a, i) :: !MapsType(ls[i], pt)
    ensures pt == 0 ==> Selected(ls) == Ok(AudioCodec(0, "PCMU", 8000))
    ensures pt == 3 ==> Selected(ls) == Ok(AudioCodec(3, "GSM", 8000))
    ensures pt == 8 ==> Selected(ls) == Ok(AudioCodec(8, "PCMA", 8000))
    ensures pt == 9 ==> Selected(ls) == Ok(AudioCodec(9, "G722", 8000))
    ensures pt == 18 ==> Selected(ls) == Ok(AudioCodec(18, "G729", 8000))
    ensures pt >= 0 && pt !in {0, 3, 8, 9, 18} ==> Selected(ls) == Ok(AudioCodec(pt, "", 0))
    ensures pt < 0 ==> Selected(ls) == Err(NoAudio)
  {
    FirstAudioIs(ls, a);
    var b := Block(ls, a);
    forall j | 0 <= j < |b| ensures !MapsType(b[j], pt) {
      BlockAt(ls, a, j);
    }
    FoundMap(b, pt, |b|);
  }

  lemma BehindPrefix(p: string, rest: string)
    ensures HasPrefix(p + rest, p) && (p + rest)[|p|..] == rest
  {
    PrefixIs(p + rest, p);
  }

  lemma TwoFields(a: string, b: string)
    requires Token(a) && Token(b)
    ensures Fields(a + (" " + b)) == [a, b]
  {
    FieldsWord(a, " " + b);
    assert (" " + b)[1..] == b;
    FieldsWord(b, "");
    assert b + "" == b;
  }

  /** The parts of name/number and whatever follows a second slash. */
  lemma CodecParts(name: string, number: string, more: string)
    requires '/' !in name && '/' !in number && (more == "" || more[0] == '/')
    ensures var parts := Split(name + ("/" + (number + more)), '/');
      |parts| >= 2 && parts[0] == name && parts[1] == number
  {
    assert name + ("/" + (number + more)) == name + ['/'] + (number + more);
    SplitFirst(name, number + more, '/');
    if more == "" {
      assert number + more == number;
      SplitFirst(number, "", '/');
    } else {
      assert number + more == number + ['/'] + more[1..];
      SplitFirst(number, more[1..], '/');
    }
  }

  lemma CodecToken(name: string, number: string, more: string)
    requires Token(name) && Token(number) && (more == "" || Token(more))
    ensures Token(name + ("/" + (number + more)))
  {
  }

  /** A rtpmap line is read as its payload type, encoding name and clock rate; what follows a
      second slash is not read. */
  lemma RtpMapReads(pt: int, name: string, rate: int, more: string)
    requires -INT64_MAX - 1 <= pt <= INT64_MAX && -INT64_MAX - 1 <= rate <= INT64_MAX
    requires Token(name) && '/' !in name && (more == "" || (Token(more) && more[0] == '/'))
    ensures var l := "a=rtpmap:" + (Itoa(pt) + (" " + (name + ("/" + (Itoa(rate) + more)))));
      HasPrefix(l, RTPMAP) && ParseRtpMap(l) == Some(AudioCodec(pt, name, rate))
  {
    var codec := name + ("/" + (Itoa(rate) + more));
    NoSlash(rate);
    CodecToken(name, Itoa(rate), more);
    CodecParts(name, Itoa(rate), more);
    AtoiItoa(pt);
    AtoiItoa(rate);
    MapLine(Itoa(pt), codec, pt, name, rate);
  }

  lemma MapLine(n: string, codec: string, pt: int, name: string, rate: int)
    requires Token(n) && Token(codec) && Atoi(n) == Some(pt)
    requires var parts := Split(codec, '/'); |parts| >= 2 && parts[0] == name && Atoi(parts[1]) == Some(rate)
    ensures var l := "a=rtpmap:" + (n + (" " + codec));
      HasPrefix(l, RTPMAP) && ParseRtpMap(l) == Some(AudioCodec(pt, name, rate))
  {
    BehindPrefix("a=rtpmap:", n + (" " + codec));
    TwoFields(n, codec);
  }

  lemma NoSlash(n: int)
    ensures '/' !in Itoa(n)
  {
    var d := if n < 0 then Digits(-n) else Digits(n);
    forall i | 0 <= i < |Itoa(n)| ensures Itoa(n)[i] != '/' {
      assert n < 0 && i > 0 ==> IsDigit(d[i - 1]);
      assert n >= 0 ==> IsDigit(d[i]);
    }
  }

  /** When two legs' codecs differ: a mismatch is counted exactly if each body selects a codec and
      the two have different names (the case of letters apart) or different clock rates, or have
      no name either of them and different payload types. */
  lemma MismatchIs(x: string, y: string)
    ensures CountsMismatch(x, y) <==>
              && Selected(Lines(x)).Ok? && Selected(Lines(y)).Ok?
              && var (a, b) := (Selected(Lines(x)).value, Selected(Lines(y)).value);
                 if a.encodingName == "" && b.encodingName == "" then a.payloadType != b.payloadType
                 else Lower(a.encodingName) != Lower(b.encodingName) || a.clockRate != b.clockRate
  {
  }

  // ----- What makes an offer a webphone's ------------------------------------

  lemma {:induction false} ContainsMore(s: string, sub: string, more: string)
    requires Contains(s, sub + more)
    ensures Contains(s, sub)
  {
    var i :| 0 <= i <= |s| && sub + more <= s[i..];
    assert sub <= s[i..];
  }

  /** An offer is a webphone's exactly when an audio line names a secure profile or a line carries
      a fingerprint; SAVPF is a case of SAVP. */
  lemma WebRtcIs(ls: seq<string>)
    ensures WebRtc(ls) <==> exists i | 0 <= i < |ls| ::
              || (HasPrefix(ls[i], "m=audio ") && |Fields(ls[i])| >= 3 && Contains(Fields(ls[i])[2], "SAVP"))
              || HasPrefix(ls[i], "a=fingerprint:")
  {
    assert "SAVP" + "F" == "SAVPF";
    forall i | 0 <= i < |ls|
      ensures SecureLine(ls[i]) <==>
        || (HasPrefix(ls[i], "m=audio ") && |Fields(ls[i])| >= 3 && Contains(Fields(ls[i])[2], "SAVP"))
        || HasPrefix(ls[i], "a=fingerprint:")
    {
      if |Fields(ls[i])| >= 3 && Contains(Fields(ls[i])[2], "SAVPF") {
        ContainsMore(Fields(ls[i])[2], "SAVP", "F");
      }
    }
  }

  /** In particular the profile a webphone offers, and any line with a fingerprint. */
  lemma WebphonesOffer(ls: seq<string>, i: nat)
    requires i < |ls|
    ensures HasPrefix(ls[i], "m=audio ") && |Fields(ls[i])| >= 3 && Fields(ls[i])[2] == "UDP/TLS/RTP/SAVPF" ==>
              WebRtc(ls)
    ensures HasPrefix(ls[i], "a=fingerprint:") ==> WebRtc(ls)
  {
    WebRtcIs(ls);
    var p := "UDP/TLS/RTP/SAVPF";
    assert "SAVP" <= p[12..];
    assert Contains(p, "SAVP");
  }

  // ----- What parsing media reads --------------------------------------------

  /** The section that line a opens ends before line e. */
  ghost predicate EndsAt(ls: seq<string>, a: nat, e: nat) {
    a < e <= |ls| && (forall i | a < i < e :: !HasPrefix(ls[i], MEDIA)) && (e < |ls| ==> HasPrefix(ls[e], MEDIA))
  }

  /** h is the first address from e on that is not empty, and empty if there is none. */
  ghost predicate FirstIn(ls: seq<string>, e: nat, h: string)
    requires e <= |ls|
  {
    || (h == "" && forall i | e <= i < |ls| && HasPrefix(ls[i], CONN) :: ls[i] == CONN)
    || (h != "" && exists i | e <= i < |ls| ::
          HasPrefix(ls[i], CONN) && h == ls[i][|CONN|..]
          && forall j | e <= j < i && HasPrefix(ls[j], CONN) :: ls[j] == CONN)
  }

  /** h is the last address before the section's end, or, when that is empty, the first one behind
      it that is not. */
  ghost predicate HostAt(ls: seq<string>, e: nat, h: string)
    requires e <= |ls|
  {
    exists last :: AddressIn(ls, 0, e, "", last) && if last != "" then h == last else FirstIn(ls, e, h)
  }

  lemma {:induction false} LastIs(ls: seq<string>, hi: nat, d: string, h: string)
    requires hi <= |ls| && AddressIn(ls, 0, hi, d, h)
    ensures LastAddress(ls[..hi], d) == h
    decreases hi
  {
    if hi > 0 {
      assert ls[..hi] == ls[..hi - 1] + [ls[hi - 1]];
      LastAddressAppend(ls[..hi - 1], [ls[hi - 1]], d);
      if !HasPrefix(ls[hi - 1], CONN) {
        LastIs(ls, hi - 1, d, h);
      }
    }
  }

  lemma EmptyAddress(l: string)
    requires HasPrefix(l, CONN)
    ensures l == CONN <==> l[|CONN|..] == ""
  {
    PrefixIs(l, CONN);
    assert l == CONN + l[|CONN|..];
  }

  lemma {:induction false} FirstLater(ls: seq<string>, e: nat, h: string)
    requires e <= |ls| && FirstIn(ls, e, h)
    ensures FirstAddress(ls[e..], "") == h
    decreases |ls| - e
  {
    if e < |ls| {
      assert ls[e..][0] == ls[e] && ls[e..][1..] == ls[e + 1..];
      if HasPrefix(ls[e], CONN) && ls[e] != CONN {
        EmptyAddress(ls[e]);
        FirstAddressSettled(ls[e + 1..], ls[e][|CONN|..]);
      } else {
        if HasPrefix(ls[e], CONN) {
          EmptyAddress(ls[e]);
        }
        FirstLater(ls, e + 1, h);
      }
    }
  }

  lemma HostIs(ls: seq<string>, a: nat, e: nat, h: string)
    requires OneAudio(ls, a) && EndsAt(ls, a, e) && HostAt(ls, e, h)
    ensures MediaHost(ls, a) == h
  {
    SectionEndIs(ls, a, e);
    ReachHost(ls, a);
    var last :| AddressIn(ls, 0, e, "", last) && if last != "" then h == last else FirstIn(ls, e, h);
    LastIs(ls, e, "", last);
    if last != "" {
      FirstAddressSettled(ls[e..], last);
    } else {
      FirstLater(ls, e, h);
    }
  }

  lemma SectionEndIs(ls: seq<string>, a: nat, e: nat)
    requires EndsAt(ls, a, e)
    ensures SectionEnd(ls, a) == e
  {
    var tail := ls[a + 1..];
    FirstFacts(tail, MEDIA);
    var n := First(tail, MEDIA);
    assert forall j | 0 <= j < |tail| :: tail[j] == ls[a + 1 + j];
    assert n < |tail| ==> HasPrefix(ls[a + 1 + n], MEDIA);
    assert forall i | a < i < a + 1 + n :: ls[i] == tail[i - a - 1];
  }

  /** What parsing the media of a body with one audio line reads: the second field of that line as
      the port, and as the host the last address up to the end of its section, wherever it stands,
      or, when that is empty, the first one behind it; or why not. */
  lemma MediaReads(ls: seq<string>, isIP: string -> bool, a: nat, e: nat, h: string)
    requires OneAudio(ls, a) && EndsAt(ls, a, e) && HostAt(ls, e, h)
    ensures var f := Fields(ls[a]);
      Media(ls, isIP)
      == if |f| < 2 then Err(BadMediaLine) else if Atoi(f[1]).None? then Err(BadPort)
         else if Atoi(f[1]).value == 0 then Err(NoAudio) else if h == "" then Err(NoAddress)
         else if !isIP(h) then Err(NotIpLiteral) else Ok(Endpoint(h, Atoi(f[1]).value))
  {
    HostIs(ls, a, e, h);
    if PortReads(ls[a]) {
      MediaOfOneAudio(ls, a);
    } else {
      BadAudioLine(ls, a);
    }
  }

  lemma BadAudioLine(ls: seq<string>, a: nat)
    requires OneAudio(ls, a) && !PortReads(ls[a])
    ensures MediaFold(NO_MEDIA, ls) == Err(if |Fields(ls[a])| < 2 then BadMediaLine else BadPort)
  {
    var pre, rest := ls[..a], ls[a..];
    assert ls == pre + rest && rest[0] == ls[a];
    FoldOutside(NO_MEDIA, pre);
    FoldAppend(NO_MEDIA, pre, rest);
    OnePrefix(ls[a]);
  }

  /** And without an audio line there is nothing to read. */
  lemma NoMediaReads(ls: seq<string>, isIP: string -> bool)
    requires forall i | 0 <= i < |ls| :: !HasPrefix(ls[i], AUDIO)
    ensures Media(ls, isIP) == Err(NoAudio) && Extract(ls) == Err(NoAudio) && Selected(ls) == Err(NoAudio)
  {
    FirstFacts(ls, AUDIO);
    NoAudioRead(ls, isIP);
  }

  /** What is extracted of the first audio section: an audio line of at least four fields is accepted,
      its formats are the fields from the fourth on, and the rtpmap and fmtp lines are those that
      stand in its section. */
  lemma ExtractReads(ls: seq<string>, a: nat)
    requires FirstAudio(ls, a)
    ensures |Fields(ls[a])| < 4 ==> Extract(ls) == Err(BadMediaLine)
    ensures |Fields(ls[a])| >= 4 ==>
              && Extract(ls).Ok? && Extract(ls).value.formats == Join(Fields(ls[a])[3..], ' ')
              && (forall i: nat | InSection(ls, a, i) && HasPrefix(ls[i], RTPMAP) :: ls[i] in Extract(ls).value.rtpmaps)
              && (forall i: nat | InSection(ls, a, i) && HasPrefix(ls[i], FMTP) :: ls[i] in Extract(ls).value.fmtps)
              && (forall l | l in Extract(ls).value.rtpmaps ::
                    HasPrefix(l, RTPMAP) && exists i: nat :: InSection(ls, a, i) && ls[i] == l)
              && (forall l | l in Extract(ls).value.fmtps ::
                    HasPrefix(l, FMTP) && exists i: nat :: InSection(ls, a, i) && ls[i] == l)
  {
    FirstAudioIs(ls, a);
    if |Fields(ls[a])| >= 4 {
      SectionSelects(ls, a, RTPMAP);
      SectionSelects(ls, a, FMTP);
    }
  }

  lemma SectionSelects(ls: seq<string>, a: nat, p: string)
    requires a < |ls|
    ensures forall i: nat | InSection(ls, a, i) && HasPrefix(ls[i], p) :: ls[i] in Select(Block(ls, a), p)
    ensures forall l | l in Select(Block(ls, a), p) ::
              HasPrefix(l, p) && exists i: nat :: InSection(ls, a, i) && ls[i] == l
  {
    var b := Block(ls, a);
    forall l ensures l in Select(b, p) <==> l in b && HasPrefix(l, p) {
      SelectIn(b, p, l);
    }
    forall i: nat | InSection(ls, a, i) && HasPrefix(ls[i], p) ensures ls[i] in Select(b, p) {
      BlockAt(ls, a, i - a - 1);
    }
    forall l | l in Select(b, p) ensures exists i: nat :: InSection(ls, a, i) && ls[i] == l {
      var k: nat :| k < |b| && b[k] == l;
      BlockAt(ls, a, k);
    }
  }

  lemma {:induction false} SelectIn(b: seq<string>, p: string, l: string)
    ensures l in Select(b, p) <==> l in b && HasPrefix(l, p)
    decreases |b|
  {
    if b != [] {
      SelectIn(b[..|b| - 1], p, l);
      assert b == b[..|b| - 1] + [b[|b| - 1]];
    }
  }
}
