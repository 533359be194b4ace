/** Both ends of a tap: the sequencer's offer, the recorder's answer to it, and what the
    sequencer reads back from that answer. */
module TapNegotiation {
  import R = Recorder
  import opened Sdp
  import opened SdpLaws
  import opened SdpOffers
  import opened Text
  import opened Wrappers

  // ----- The recorder reads the offer ----------------------------------------

  function StreamOf(c: Codecs): R.AudioStream {
    R.AudioStream(c.formats, c.rtpmaps, c.fmtps)
  }

  lemma {:induction false} OfferAppend(st: R.OfferScan, a: seq<string>, b: seq<string>)
    requires st.current ==> st.streams != []
    ensures R.OfferFold(st, a).Ok? ==> (R.OfferFold(st, a).value.current ==> R.OfferFold(st, a).value.streams != [])
    ensures R.OfferFold(st, a).Ok? ==> R.OfferFold(st, a + b) == R.OfferFold(R.OfferFold(st, a).value, b)
    decreases |a|
  {
    if a == [] {
      assert a + b == b;
    } else {
      assert (a + b)[1..] == a[1..] + b && (a + b)[0] == a[0];
      var next := R.OfferStep(st, a[0]);
      if next.Ok? {
        OfferAppend(next.value, a[1..], b);
      }
    }
  }

  lemma {:induction false} OfferQuiet(st: R.OfferScan, ls: seq<string>)
    requires st.current ==> st.streams != []
    requires NoneStarts(ls, MEDIA)
    requires st.current ==> NoneStarts(ls, RTPMAP) && NoneStarts(ls, FMTP)
    ensures R.OfferFold(st, ls) == Ok(st)
    decreases |ls|
  {
    if ls != [] {
      OfferQuiet(st, ls[1..]);
    }
  }

  /** The scan whose last stream is s. */
  function Reading(done: seq<R.AudioStream>, s: R.AudioStream): (st: R.OfferScan)
    ensures st.streams != []
  {
    R.OfferScan(done + [s], true)
  }

  lemma {:induction false} OfferMaps(done: seq<R.AudioStream>, s: R.AudioStream, ls: seq<string>)
    requires AttributeLines(ls, RTPMAP)
    ensures R.OfferFold(Reading(done, s), ls) == Ok(Reading(done, s.(rtpmaps := s.rtpmaps + ls)))
    decreases |ls|
  {
    if ls == [] {
      assert s.rtpmaps + ls == s.rtpmaps;
    } else {
      OnePrefix(ls[0]);
      var t := s.(rtpmaps := s.rtpmaps + [ls[0]]);
      assert (done + [s])[|done| := t] == done + [t];
      assert R.OfferStep(Reading(done, s), ls[0]) == Ok(Reading(done, t));
      OfferMaps(done, t, ls[1..]);
      assert s.rtpmaps + [ls[0]] + ls[1..] == s.rtpmaps + ls;
    }
  }

  lemma {:induction false} OfferFmtps(done: seq<R.AudioStream>, s: R.AudioStream, ls: seq<string>)
    requires AttributeLines(ls, FMTP)
    ensures R.OfferFold(Reading(done, s), ls) == Ok(Reading(done, s.(fmtps := s.fmtps + ls)))
    decreases |ls|
  {
    if ls == [] {
      assert s.fmtps + ls == s.fmtps;
    } else {
      OnePrefix(ls[0]);
      var t := s.(fmtps := s.fmtps + [ls[0]]);
      assert (done + [s])[|done| := t] == done + [t];
      assert R.OfferStep(Reading(done, s), ls[0]) == Ok(Reading(done, t));
      OfferFmtps(done, t, ls[1..]);
      assert s.fmtps + [ls[0]] + ls[1..] == s.fmtps + ls;
    }
  }

  lemma OfferBody(done: seq<R.AudioStream>, host: string, c: Codecs, d: string)
    requires Clean(host) && Extracted(c) && Direction(d)
    ensures R.OfferFold(Reading(done, R.AudioStream(c.formats, [], [])), Body(host, c, d))
         == Ok(Reading(done, StreamOf(c)))
  {
    ConnLine(host);
    DirectionKind(d);
    var s0 := R.AudioStream(c.formats, [], []);
    var s1 := s0.(rtpmaps := c.rtpmaps);
    assert s0.rtpmaps + c.rtpmaps == c.rtpmaps && s1.fmtps + c.fmtps == c.fmtps;
    OfferQuiet(Reading(done, s0), [CONN + host]);
    OfferMaps(done, s0, c.rtpmaps);
    OfferFmtps(done, s1, c.fmtps);
    OfferQuiet(Reading(done, StreamOf(c)), [d]);
    OfferAppend(Reading(done, s0), [CONN + host], c.rtpmaps);
    OfferAppend(Reading(done, s0), [CONN + host] + c.rtpmaps, c.fmtps);
    OfferAppend(Reading(done, s0), [CONN + host] + c.rtpmaps + c.fmtps, [d]);
  }

  lemma OfferSection(st: R.OfferScan, port: int, host: string, c: Codecs, d: string)
    requires st.current ==> st.streams != []
    requires Clean(host) && Extracted(c) && Direction(d)
    ensures R.OfferFold(st, AudioBlock(port, host, c, d)) == Ok(Reading(st.streams, StreamOf(c)))
  {
    BlockShape(port, host, c, d);
    AudioLineExtracted(port, c);
    var line := AudioLine(port, c.formats);
    AudioKind(line);
    var next := Reading(st.streams, R.AudioStream(c.formats, [], []));
    assert R.OfferStep(st, line) == Ok(next);
    OfferBody(st.streams, host, c, d);
    assert ([line] + Body(host, c, d))[1..] == Body(host, c, d);
  }

  lemma RecorderReadsOffer(c: Codecs, host: string, port1: int, port2: int)
    requires Clean(host) && Extracted(c)
    ensures R.Streams(Lines(Crlf(TapOffer(c, host, port1, port2)))) == Ok([StreamOf(c), StreamOf(c)])
  {
    TapOfferLines(c, host, port1, port2);
    PreambleKinds(host);
    var start := R.OfferScan([], false);
    var b1, b2 := AudioBlock(port1, host, c, "a=recvonly"), AudioBlock(port2, host, c, "a=recvonly");
    OfferQuiet(start, Preamble(host));
    OfferSection(start, port1, host, c, "a=recvonly");
    OfferAppend(start, Preamble(host), b1);
    var one := Reading([], StreamOf(c));
    OfferSection(one, port2, host, c, "a=recvonly");
    OfferAppend(start, Preamble(host) + b1, b2);
    var two := Reading([StreamOf(c)], StreamOf(c));
    assert [] + [StreamOf(c)] == [StreamOf(c)];
    assert [StreamOf(c)] + [StreamOf(c)] == [StreamOf(c), StreamOf(c)];
    OfferQuiet(two, [""]);
    OfferAppend(start, Preamble(host) + b1 + b2, [""]);
  }

  // ----- The recorder's answer -----------------------------------------------

  lemma AnswerIsBlock(c: Codecs, host: string, port: int)
    ensures R.AnswerBlock(StreamOf(c), host, port) == AudioBlock(port, host, c, "a=recvonly")
  {
  }

  lemma AnswerOfTwo(c: Codecs, host: string, ports: seq<int>)
    requires |ports| >= 2
    ensures R.AnswerHead(host) + R.AnswerBlocks([StreamOf(c), StreamOf(c)], host, ports)
         == TapOffer(c, host, ports[0], ports[1])
  {
    var s := StreamOf(c);
    AnswerIsBlock(c, host, ports[0]);
    AnswerIsBlock(c, host, ports[1]);
    assert [s, s][..1] == [s] && [s][..0] == [];
    var b1, b2 := R.AnswerBlock(s, host, ports[0]), R.AnswerBlock(s, host, ports[1]);
    assert R.AnswerBlocks([], host, ports) == [];
    assert R.AnswerBlocks([s], host, ports) == [] + b1 == b1;
    assert R.AnswerBlocks([s, s], host, ports) == b1 + b2;
    Grouped(Preamble(host), b1, b2, []);
    assert R.AnswerHead(host) == Preamble(host);
    assert Preamble(host) + (b1 + b2) == Preamble(host) + b1 + b2;
  }

  // ----- The sequencer reads the answer --------------------------------------

  lemma {:induction false} TapAppend(st: TapScan, a: seq<string>, b: seq<string>)
    ensures TapFold(st, a).Ok? ==> TapFold(st, a + b) == TapFold(TapFold(st, a).value, b)
    decreases |a|
  {
    if a == [] {
      assert a + b == b;
    } else {
      assert (a + b)[1..] == a[1..] + b && (a + b)[0] == a[0];
      var next := TapStep(st, a[0]);
      if next.Ok? {
        TapAppend(next.value, a[1..], b);
      }
    }
  }

  lemma {:induction false} TapQuiet(st: TapScan, ls: seq<string>)
    requires NoneStarts(ls, AUDIO) && NoneStarts(ls, CONN)
    ensures TapFold(st, ls) == Ok(st)
    decreases |ls|
  {
    if ls != [] {
      TapQuiet(st, ls[1..]);
    }
  }

  lemma ThreeParts(a: seq<string>, b: seq<string>, c: seq<string>, p: string)
    requires NoneStarts(a, p) && NoneStarts(b, p) && NoneStarts(c, p)
    ensures NoneStarts(a + b + c, p)
  {
  }

  lemma AttributesQuiet(c: Codecs, d: string)
    requires Extracted(c) && Direction(d)
    ensures NoneStarts(c.rtpmaps + c.fmtps + [d], AUDIO) && NoneStarts(c.rtpmaps + c.fmtps + [d], CONN)
  {
    AttributesKinds(c.rtpmaps, RTPMAP);
    AttributesKinds(c.fmtps, FMTP);
    DirectionKind(d);
    ThreeParts(c.rtpmaps, c.fmtps, [d], AUDIO);
    ThreeParts(c.rtpmaps, c.fmtps, [d], CONN);
  }

  /** An audio line, its connection line and any attributes add one stream. */
  lemma TapLines(st: TapScan, line: string, conn: string, rest: seq<string>, port: int)
    requires HasPrefix(line, AUDIO) && |Fields(line)| >= 2 && Atoi(Fields(line)[1]) == Some(port)
    requires HasPrefix(conn, CONN) && !HasPrefix(conn, AUDIO)
    requires NoneStarts(rest, AUDIO) && NoneStarts(rest, CONN)
    ensures TapFold(st, [line] + ([conn] + rest))
         == Ok(st.(streams := st.streams + [Endpoint(conn[|CONN|..], port)]))
  {
    var s1 := st.(streams := st.streams + [Endpoint(st.sessionHost, port)]);
    var s2 := st.(streams := st.streams + [Endpoint(conn[|CONN|..], port)]);
    assert s1.streams[|st.streams| := Endpoint(conn[|CONN|..], port)] == s2.streams;
    TapQuiet(s2, rest);
    assert ([conn] + rest)[1..] == rest && ([line] + ([conn] + rest))[1..] == [conn] + rest;
    assert TapFold(s1, [conn] + rest) == Ok(s2);
  }

  lemma TapSection(st: TapScan, port: int, host: string, c: Codecs, d: string)
    requires Clean(host) && Extracted(c) && Direction(d)
    requires -INT64_MAX - 1 <= port <= INT64_MAX
    ensures TapFold(st, AudioBlock(port, host, c, d)) == Ok(st.(streams := st.streams + [Endpoint(host, port)]))
  {
    AudioLineExtracted(port, c);
    AtoiItoa(port);
    ConnLine(host);
    AttributesQuiet(c, d);
    BlockInThree(port, host, c, d);
    TapLines(st, AudioLine(port, c.formats), CONN + host, c.rtpmaps + c.fmtps + [d], port);
    assert (CONN + host)[|CONN|..] == host;
  }

  lemma BlockInThree(port: int, host: string, c: Codecs, d: string)
    ensures AudioBlock(port, host, c, d)
         == [AudioLine(port, c.formats)] + ([CONN + host] + (c.rtpmaps + c.fmtps + [d]))
  {
  }

  lemma SequencerReadsAnswer(c: Codecs, host: string, port1: int, port2: int)
    requires Clean(host) && Extracted(c)
    requires -INT64_MAX - 1 <= port1 <= INT64_MAX && -INT64_MAX - 1 <= port2 <= INT64_MAX
    ensures TapAnswer(Lines(Crlf(TapOffer(c, host, port1, port2))))
      == Ok((Endpoint(host, port1), Endpoint(host, port2)))
  {
    TapOfferLines(c, host, port1, port2);
    PreambleKinds(host);
    var start := TapScan([], "");
    var b1, b2 := AudioBlock(port1, host, c, "a=recvonly"), AudioBlock(port2, host, c, "a=recvonly");
    TapQuiet(start, Preamble(host));
    TapSection(start, port1, host, c, "a=recvonly");
    TapAppend(start, Preamble(host), b1);
    var one := TapScan([] + [Endpoint(host, port1)], "");
    TapSection(one, port2, host, c, "a=recvonly");
    TapAppend(start, Preamble(host) + b1, b2);
    var two := TapScan([] + [Endpoint(host, port1)] + [Endpoint(host, port2)], "");
    TapQuiet(two, [""]);
    TapAppend(start, Preamble(host) + b1 + b2, [""]);
  }

  /** End to end: for every call offer with audio, the recorder sees in the tap offer two
      streams with exactly the call's formats and attributes, its answer carries exactly two such
      streams again, and the sequencer reads from that answer the recorder's two ports in
      caller, callee order. */
  lemma TapRoundTrip(callOffer: string, host: string, port1: int, port2: int, rhost: string, rports: seq<int>)
    requires Extract(Lines(callOffer)).Ok? && Clean(host) && Clean(rhost) && |rports| >= 2
    requires forall i | 0 <= i < 2 :: -INT64_MAX - 1 <= rports[i] <= INT64_MAX
    ensures var c := Extract(Lines(callOffer)).value;
            var offer := Crlf(TapOffer(c, host, port1, port2));
            && R.Streams(Lines(offer)) == Ok([StreamOf(c), StreamOf(c)])
            && R.Answer(offer, rhost, rports).Ok?
            && R.Streams(Lines(R.Answer(offer, rhost, rports).value)) == Ok([StreamOf(c), StreamOf(c)])
            && TapAnswer(Lines(R.Answer(offer, rhost, rports).value))
               == Ok((Endpoint(rhost, rports[0]), Endpoint(rhost, rports[1])))
  {
    ExtractYields(callOffer);
    var c := Extract(Lines(callOffer)).value;
    RecorderReadsOffer(c, host, port1, port2);
    AnswerOfTwo(c, rhost, rports);
    RecorderReadsOffer(c, rhost, rports[0], rports[1]);
    SequencerReadsAnswer(c, rhost, rports[0], rports[1]);
  }
}
