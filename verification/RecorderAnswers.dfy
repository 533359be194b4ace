/** The recorder's answer to any offer, however many streams it has: the recorder and the
    sequencer both read it back stream by stream. */
module RecorderAnswers {
  import opened AnchorLaws
  import opened Readers
  import R = Recorder
  import opened Sdp
  import opened SdpLaws
  import opened SdpOffers
  import opened TapNegotiation
  import opened Text
  import opened Wrappers

  function CodecsOf(s: R.AudioStream): Codecs {
    Codecs(s.formats, s.rtpmaps, s.fmtps)
  }

  ghost predicate AllExtracted(ss: seq<R.AudioStream>) {
    forall k | 0 <= k < |ss| :: Extracted(CodecsOf(ss[k]))
  }

  /** Whatever the recorder reads of a text can stand in a section of an answer. */
  lemma StreamsExtracted(sdp: string)
    requires R.Streams(Lines(sdp)).Ok?
    ensures AllExtracted(R.Streams(Lines(sdp)).value)
  {
    var ls := Lines(sdp);
    LinesClean(sdp);
    var xs := AudioPlaces(ls);
    RecorderReads(ls, xs);
    forall k | 0 <= k < |xs| ensures Extracted(CodecsOf(R.Streams(ls).value[k])) {
      StreamExtracted(ls, xs[k], R.Streams(ls).value[k]);
    }
  }

  lemma StreamExtracted(ls: seq<string>, a: nat, s: R.AudioStream)
    requires AllClean(ls) && a < |ls| && |Fields(ls[a])| >= 4
    requires s == R.AudioStream(Join(Fields(ls[a])[3..], ' '), Select(Block(ls, a), RTPMAP), Select(Block(ls, a), FMTP))
    ensures Extracted(CodecsOf(s))
  {
    var ts, b := Fields(ls[a])[3..], Block(ls, a);
    assert Tokens(ts) && |ts| >= 1;
    assert forall i | 0 <= i < |b| :: b[i] == ls[a + 1 + i];
    SelectClean(b, RTPMAP);
    SelectClean(b, FMTP);
  }

  lemma {:induction false} AudioPlaces(ls: seq<string>) returns (xs: seq<nat>)
    ensures AudioLines(ls, xs)
    decreases |ls|
  {
    xs := [];
    if ls != [] {
      var n := |ls| - 1;
      xs := AudioPlaces(ls[..n]);
      assert forall i | 0 <= i < n :: ls[..n][i] == ls[i];
      assert forall i | 0 <= i < n && HasPrefix(ls[..n][i], AUDIO) :: i in xs;
      if HasPrefix(ls[n], AUDIO) {
        xs := xs + [n];
      }
    }
  }

  /** The lines of the answer. */
  function Answered(ss: seq<R.AudioStream>, host: string, ports: seq<int>): seq<string>
    requires |ss| <= |ports|
  {
    R.AnswerHead(host) + R.AnswerBlocks(ss, host, ports)
  }

  lemma OneMoreBlock(ss: seq<R.AudioStream>, host: string, ports: seq<int>)
    requires 0 < |ss| <= |ports|
    ensures var n := |ss| - 1;
      Answered(ss, host, ports)
      == Answered(ss[..n], host, ports) + AudioBlock(ports[n], host, CodecsOf(ss[n]), "a=recvonly")
  {
    var n := |ss| - 1;
    AnswerIsBlock(CodecsOf(ss[n]), host, ports[n]);
    Behind(R.AnswerHead(host), R.AnswerBlocks(ss[..n], host, ports), R.AnswerBlock(ss[n], host, ports[n]));
  }

  lemma Behind(a: seq<string>, b: seq<string>, c: seq<string>)
    ensures a + (b + c) == a + b + c
  {
  }

  lemma NoBlocks(host: string, ports: seq<int>)
    ensures Answered([], host, ports) == Preamble(host)
  {
  }

  predicate In64(n: int) {
    -INT64_MAX - 1 <= n <= INT64_MAX
  }

  function Endpoints(host: string, ports: seq<int>): (es: seq<Endpoint>)
    ensures |es| == |ports|
  {
    seq(|ports|, i requires 0 <= i < |ports| => Endpoint(host, ports[i]))
  }

  /** The recorder reads these streams. */
  ghost predicate Hears(ls: seq<string>, ss: seq<R.AudioStream>) {
    R.OfferFold(R.OfferScan([], false), ls) == Ok(R.OfferScan(ss, ss != []))
  }

  /** The sequencer reads these streams. */
  ghost predicate Taps(ls: seq<string>, es: seq<Endpoint>) {
    TapFold(TapScan([], ""), ls) == Ok(TapScan(es, ""))
  }

  /** Each audio line but the first stands behind this line, and so does the end. */
  ghost predicate SectionsEnd(ls: seq<string>, d: string) {
    && (forall i | 4 < i < |ls| && HasPrefix(ls[i], AUDIO) :: ls[i - 1] == d)
    && (|ls| > 4 ==> ls[|ls| - 1] == d)
  }

  /** What both ends read of the first streams of an answer. */
  ghost predicate ReadAs(ls: seq<string>, ss: seq<R.AudioStream>, es: seq<Endpoint>, d: string) {
    AllClean(ls) && |ls| >= 4 + |ss| && Hears(ls, ss) && Taps(ls, es) && SectionsEnd(ls, d)
  }

  lemma {:induction false} ReadBack(ss: seq<R.AudioStream>, host: string, ports: seq<int>, d: string)
    requires |ss| <= |ports| && AllExtracted(ss) && Clean(host) && d == "a=recvonly"
    requires forall i | 0 <= i < |ss| :: In64(ports[i])
    ensures ReadAs(Answered(ss, host, ports), ss, Endpoints(host, ports[..|ss|]), d)
    decreases |ss|
  {
    if ss == [] {
      NoBlocks(host, ports);
      HeadRead(Answered(ss, host, ports), host, d);
      assert Endpoints(host, ports[..0]) == [];
    } else {
      var n := |ss| - 1;
      LastOnes(ss, host, ports);
      ReadBack(ss[..n], host, ports, d);
      OneMoreBlock(ss, host, ports);
      OneMoreRead(Answered(ss[..n], host, ports), ss[..n], Endpoints(host, ports[..n]), ss[n], host, ports[n], d);
    }
  }

  lemma LastOnes(ss: seq<R.AudioStream>, host: string, ports: seq<int>)
    requires 0 < |ss| <= |ports|
    ensures var n := |ss| - 1;
      ss == ss[..n] + [ss[n]]
      && Endpoints(host, ports[..|ss|]) == Endpoints(host, ports[..n]) + [Endpoint(host, ports[n])]
  {
  }

  lemma HeadRead(ls: seq<string>, host: string, d: string)
    requires ls == Preamble(host) && Clean(host)
    ensures ReadAs(ls, [], [], d)
  {
    PreambleKinds(host);
    OfferQuiet(R.OfferScan([], false), ls);
    TapQuiet(TapScan([], ""), ls);
  }

  lemma OneMoreRead(done: seq<string>, ss: seq<R.AudioStream>, es: seq<Endpoint>, s: R.AudioStream, host: string,
                    port: int, d: string)
    requires Extracted(CodecsOf(s)) && Clean(host) && In64(port) && Direction(d) && ReadAs(done, ss, es, d)
    ensures ReadAs(done + AudioBlock(port, host, CodecsOf(s), d), ss + [s], es + [Endpoint(host, port)], d)
  {
    var b := AudioBlock(port, host, CodecsOf(s), d);
    BlockClean(port, host, CodecsOf(s), d);
    AllCleanConcat(done, b);
    HearMore(done, ss, s, host, port, d);
    TapMore(done, es, CodecsOf(s), host, port, d);
    BlockSection(b, host, port, CodecsOf(s), d);
    EndStays(done, b, d);
  }

  lemma HearMore(done: seq<string>, ss: seq<R.AudioStream>, s: R.AudioStream, host: string, port: int, d: string)
    requires Extracted(CodecsOf(s)) && Clean(host) && Direction(d) && Hears(done, ss)
    ensures Hears(done + AudioBlock(port, host, CodecsOf(s), d), ss + [s])
  {
    OfferSection(R.OfferScan(ss, ss != []), port, host, CodecsOf(s), d);
    OfferAppend(R.OfferScan([], false), done, AudioBlock(port, host, CodecsOf(s), d));
  }

  lemma TapMore(done: seq<string>, es: seq<Endpoint>, c: Codecs, host: string, port: int, d: string)
    requires Extracted(c) && Clean(host) && Direction(d) && In64(port) && Taps(done, es)
    ensures Taps(done + AudioBlock(port, host, c, d), es + [Endpoint(host, port)])
  {
    TapSection(TapScan(es, ""), port, host, c, d);
    TapAppend(TapScan([], ""), done, AudioBlock(port, host, c, d));
  }

  lemma BlockSection(b: seq<string>, host: string, port: int, c: Codecs, d: string)
    requires Extracted(c) && Clean(host) && Direction(d) && b == AudioBlock(port, host, c, d)
    ensures |b| > 1 && b[|b| - 1] == d && NoneStarts(b[1..], AUDIO)
  {
    BlockShape(port, host, c, d);
    BodyKinds(host, c, d);
    assert b[1..] == Body(host, c, d);
  }

  lemma EndStays(done: seq<string>, b: seq<string>, d: string)
    requires |done| >= 4 && SectionsEnd(done, d) && |b| > 1 && b[|b| - 1] == d && NoneStarts(b[1..], AUDIO)
    ensures SectionsEnd(done + b, d)
  {
    var ls := done + b;
    assert forall i | |done| < i < |ls| :: ls[i] == b[1..][i - |done| - 1];
    assert forall i | 0 <= i < |done| :: ls[i] == done[i];
  }

  /** The recorder's answer to an offer it accepts, given a port for each stream: the recorder reads
      from it the streams of the offer, the sequencer reads from it one host and port for each in the
      same order, and every section is receive-only. Without enough ports there is no answer. */
  lemma AnswerKeepsStreams(offer: string, host: string, ports: seq<int>)
    requires R.Streams(Lines(offer)).Ok? && Clean(host) && forall i | 0 <= i < |ports| :: In64(ports[i])
    ensures var (n, r) := (|R.Streams(Lines(offer)).value|, R.Answer(offer, host, ports));
      && (r.Ok? <==> n <= |ports|)
      && (r.Ok? ==>
            && R.Streams(Lines(r.value)) == R.Streams(Lines(offer))
            && TapFold(TapScan([], ""), Lines(r.value)) == Ok(TapScan(Endpoints(host, ports[..n]), ""))
            && exists ls :: Lines(r.value) == ls + [""] && |ls| > 4 && SectionsEnd(ls, "a=recvonly"))
  {
    var ss, d := R.Streams(Lines(offer)).value, "a=recvonly";
    if |ss| <= |ports| {
      StreamsExtracted(offer);
      ReadBack(ss, host, ports, d);
      var ls := Answered(ss, host, ports);
      CrlfLines(ls);
      BlankLast(ls, ss, Endpoints(host, ports[..|ss|]), d);
      assert Lines(R.Answer(offer, host, ports).value) == ls + [""];
    }
  }

  lemma BlankLast(ls: seq<string>, ss: seq<R.AudioStream>, es: seq<Endpoint>, d: string)
    requires ReadAs(ls, ss, es, d) && ss != []
    ensures R.Streams(ls + [""]) == Ok(ss) && Taps(ls + [""], es)
  {
    OfferAppend(R.OfferScan([], false), ls, [""]);
    TapAppend(TapScan([], ""), ls, [""]);
    OfferQuiet(R.OfferScan(ss, true), [""]);
    TapQuiet(TapScan(es, ""), [""]);
  }
}
