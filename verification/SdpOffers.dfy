/** The offer builders against the readers: what was extracted is offered, and the
    recorder's answer to a tap offer is read back as the two streams it names. */
module SdpOffers {
  import opened AnchorLaws
  import R = Recorder
  import opened Sdp
  import opened SdpLaws
  import opened Text
  import opened Wrappers

  // ----- What extraction yields ----------------------------------------------

  ghost predicate AttributeLines(ls: seq<string>, p: string) {
    forall i | 0 <= i < |ls| :: HasPrefix(ls[i], p) && Clean(ls[i])
  }

  ghost predicate FormatList(formats: string) {
    exists ts: seq<string> :: Tokens(ts) && |ts| >= 1 && formats == Join(ts, ' ')
  }

  ghost predicate Extracted(c: Codecs) {
    FormatList(c.formats) && AttributeLines(c.rtpmaps, RTPMAP) && AttributeLines(c.fmtps, FMTP)
  }

  lemma {:induction false} SelectClean(ls: seq<string>, p: string)
    requires forall i | 0 <= i < |ls| :: Clean(ls[i])
    ensures AttributeLines(Select(ls, p), p)
  {
    if ls != [] {
      SelectClean(ls[..|ls| - 1], p);
    }
  }

  lemma ExtractYields(sdp: string)
    ensures Extract(Lines(sdp)).Ok? ==> Extracted(Extract(Lines(sdp)).value)
  {
    var ls := Lines(sdp);
    LinesClean(sdp);
    var a := First(ls, AUDIO);
    if a < |ls| && |Fields(ls[a])| >= 4 {
      var ts := Fields(ls[a])[3..];
      assert Tokens(ts) && |ts| >= 1;
      var b := Block(ls, a);
      forall i | 0 <= i < |b| ensures Clean(b[i]) {
        assert b[i] == ls[a + 1 + i];
      }
      SelectClean(b, RTPMAP);
      SelectClean(b, FMTP);
    }
  }

  // ----- One built audio section ---------------------------------------------

  const PROFILE := "RTP/AVP"

  /** An attribute line that only gives a direction. */
  predicate Direction(d: string) {
    d == "a=recvonly" || d == "a=inactive" || d == "a=sendrecv"
  }

  function AudioLine(port: int, formats: string): string {
    AUDIO + Itoa(port) + " RTP/AVP " + formats
  }

  lemma JoinCons(a: string, ts: seq<string>)
    requires |ts| >= 1
    ensures Join([a] + ts, ' ') == a + " " + Join(ts, ' ')
  {
    assert ([a] + ts)[1..] == ts;
  }

  lemma JoinThree(a: string, b: string, c: string, ts: seq<string>)
    requires |ts| >= 1
    ensures Join([a] + ([b] + ([c] + ts)), ' ') == a + " " + (b + " " + (c + " " + Join(ts, ' ')))
  {
    JoinCons(c, ts);
    JoinCons(b, [c] + ts);
    JoinCons(a, [b] + ([c] + ts));
  }

  lemma Literals()
    ensures AUDIO == MAUDIO + " " && " RTP/AVP " == " " + (PROFILE + " ")
  {
  }

  lemma Regroup(a: string, s: string, n: string, c: string, j: string)
    ensures (a + s) + n + (s + (c + s)) + j == a + s + (n + s + (c + s + j))
  {
  }

  lemma AudioLineIsJoin(port: int, ts: seq<string>)
    requires |ts| >= 1
    ensures AudioLine(port, Join(ts, ' ')) == Join([MAUDIO] + ([Itoa(port)] + ([PROFILE] + ts)), ' ')
  {
    JoinThree(MAUDIO, Itoa(port), PROFILE, ts);
    Literals();
    Regroup(MAUDIO, " ", Itoa(port), PROFILE, Join(ts, ' '));
  }

  /** A line joined from these tokens is an audio line with these fields. */
  lemma JoinedLine(l: string, n: string, ts: seq<string>)
    requires Token(n) && Tokens(ts)
    requires l == Join([MAUDIO] + ([n] + ([PROFILE] + ts)), ' ')
    ensures Fields(l) == [MAUDIO] + ([n] + ([PROFILE] + ts))
    ensures HasPrefix(l, AUDIO) && Clean(l)
  {
    var all := [MAUDIO] + ([n] + ([PROFILE] + ts));
    TokensThree(MAUDIO, n, PROFILE, ts);
    FieldsJoin(all);
    JoinNoBreaks(all);
    AudioJoined(all);
  }

  lemma TokensThree(a: string, b: string, c: string, ts: seq<string>)
    requires Token(a) && Token(b) && Token(c) && Tokens(ts)
    ensures Tokens([a] + ([b] + ([c] + ts)))
  {
  }

  lemma ThreeAndRest(a: string, b: string, c: string, ts: seq<string>)
    ensures var all := [a] + ([b] + ([c] + ts));
            |all| == 3 + |ts| && all[1] == b && all[2] == c && all[3..] == ts
  {
  }

  lemma AudioLineFields(port: int, formats: string, ts: seq<string>)
    requires Tokens(ts) && |ts| >= 1 && formats == Join(ts, ' ')
    ensures Fields(AudioLine(port, formats)) == [MAUDIO] + ([Itoa(port)] + ([PROFILE] + ts))
  {
    AudioLineIsJoin(port, ts);
    JoinedLine(AudioLine(port, formats), Itoa(port), ts);
  }

  lemma AudioLineOfTokens(port: int, formats: string, ts: seq<string>)
    requires Tokens(ts) && |ts| >= 1 && formats == Join(ts, ' ')
    ensures var f := Fields(AudioLine(port, formats));
            |f| >= 4 && f[1] == Itoa(port) && f[2] == PROFILE && f[3..] == ts
    ensures HasPrefix(AudioLine(port, formats), AUDIO) && Clean(AudioLine(port, formats))
  {
    AudioLineIsJoin(port, ts);
    JoinedLine(AudioLine(port, formats), Itoa(port), ts);
    ThreeAndRest(MAUDIO, Itoa(port), PROFILE, ts);
  }

  lemma AudioLineExtracted(port: int, c: Codecs)
    requires Extracted(c)
    ensures var f := Fields(AudioLine(port, c.formats));
            |f| >= 4 && f[1] == Itoa(port) && f[2] == PROFILE && Join(f[3..], ' ') == c.formats
    ensures HasPrefix(AudioLine(port, c.formats), AUDIO) && Clean(AudioLine(port, c.formats))
  {
    var ts: seq<string> :| Tokens(ts) && |ts| >= 1 && c.formats == Join(ts, ' ');
    AudioLineOfTokens(port, c.formats, ts);
  }

  lemma DirectionKind(d: string)
    requires Direction(d)
    ensures Clean(d) && !HasPrefix(d, MEDIA) && !HasPrefix(d, CONN) && !HasPrefix(d, AUDIO)
    ensures !HasPrefix(d, RTPMAP) && !HasPrefix(d, FMTP) && !HasPrefix(d, FINGERPRINT)
  {
    assert d[0] == 'a' && d[1] == '=' && (d[2] == 'r' || d[2] == 'i' || d[2] == 's') && d[3] != 't';
    NotAttribute(d);
  }

  lemma NotAttribute(d: string)
    requires |d| >= 4 && d[0] == 'a' && d[2] != 'f' && (d[2] != 'r' || d[3] != 't')
    ensures !HasPrefix(d, MEDIA) && !HasPrefix(d, CONN) && !HasPrefix(d, AUDIO)
    ensures !HasPrefix(d, RTPMAP) && !HasPrefix(d, FMTP) && !HasPrefix(d, FINGERPRINT)
  {
    CharDiffers(d, MEDIA, 0);
    CharDiffers(d, CONN, 0);
    CharDiffers(d, AUDIO, 0);
    CharDiffers(d, FMTP, 2);
    CharDiffers(d, FINGERPRINT, 2);
    CharDiffers(d, RTPMAP, if d[2] != 'r' then 2 else 3);
  }

  lemma ConnLine(host: string)
    requires Clean(host)
    ensures HasPrefix(CONN + host, CONN) && Clean(CONN + host)
    ensures !HasPrefix(CONN + host, MEDIA) && !HasPrefix(CONN + host, AUDIO)
    ensures !HasPrefix(CONN + host, RTPMAP) && !HasPrefix(CONN + host, FMTP)
  {
    var x := CONN + host;
    assert x[..|CONN|] == CONN;
    PrefixIs(x, CONN);
    ConnKind(x);
    assert host == "" ==> x[|x| - 1] == ' ';
    assert host != "" ==> x[|x| - 1] == host[|host| - 1];
  }

  ghost predicate AllClean(ls: seq<string>) {
    forall i | 0 <= i < |ls| :: Clean(ls[i])
  }

  ghost predicate NoneStarts(ls: seq<string>, p: string) {
    forall i | 0 <= i < |ls| :: !HasPrefix(ls[i], p)
  }

  /** The lines of an audio section after its media line. */
  function Body(host: string, c: Codecs, d: string): seq<string> {
    [CONN + host] + c.rtpmaps + c.fmtps + [d]
  }

  lemma BodyKinds(host: string, c: Codecs, d: string)
    requires Clean(host) && Extracted(c) && Direction(d)
    ensures AllClean(Body(host, c, d)) && NoneStarts(Body(host, c, d), MEDIA) && NoneStarts(Body(host, c, d), AUDIO)
    ensures NoneStarts(Body(host, c, d), FINGERPRINT)
  {
    ConnLine(host);
    DirectionKind(d);
    AttributesKinds(c.rtpmaps, RTPMAP);
    AttributesKinds(c.fmtps, FMTP);
    FourParts([CONN + host], c.rtpmaps, c.fmtps, [d], MEDIA);
    FourParts([CONN + host], c.rtpmaps, c.fmtps, [d], AUDIO);
    NoFingerprint(CONN + host);
    FourParts([CONN + host], c.rtpmaps, c.fmtps, [d], FINGERPRINT);
  }

  lemma AttributesKinds(ls: seq<string>, p: string)
    requires AttributeLines(ls, p) && (p == RTPMAP || p == FMTP)
    ensures AllClean(ls) && NoneStarts(ls, MEDIA) && NoneStarts(ls, AUDIO) && NoneStarts(ls, CONN)
    ensures NoneStarts(ls, FINGERPRINT)
  {
    forall i | 0 <= i < |ls|
      ensures !HasPrefix(ls[i], MEDIA) && !HasPrefix(ls[i], AUDIO) && !HasPrefix(ls[i], CONN)
      ensures !HasPrefix(ls[i], FINGERPRINT)
    {
      OnePrefix(ls[i]);
      NoFingerprint(ls[i]);
    }
  }

  lemma FourParts(a: seq<string>, b: seq<string>, c: seq<string>, d: seq<string>, p: string)
    requires AllClean(a) && AllClean(b) && AllClean(c) && AllClean(d)
    requires NoneStarts(a, p) && NoneStarts(b, p) && NoneStarts(c, p) && NoneStarts(d, p)
    ensures AllClean(a + b + c + d) && NoneStarts(a + b + c + d, p)
  {
  }

  lemma BodySelect(host: string, c: Codecs, d: string)
    requires Clean(host) && Extracted(c) && Direction(d)
    ensures Select(Body(host, c, d), RTPMAP) == c.rtpmaps
    ensures Select(Body(host, c, d), FMTP) == c.fmtps
  {
    ConnLine(host);
    DirectionKind(d);
    SelectBody(host, c, d, RTPMAP, c.rtpmaps, []);
    SelectBody(host, c, d, FMTP, [], c.fmtps);
    assert c.rtpmaps + [] == c.rtpmaps && [] + c.fmtps == c.fmtps;
  }

  lemma SelectBody(host: string, c: Codecs, d: string, p: string, maps: seq<string>, fmtps: seq<string>)
    requires Extracted(c) && !HasPrefix(CONN + host, p) && !HasPrefix(d, p)
    requires (p == RTPMAP && maps == c.rtpmaps && fmtps == []) || (p == FMTP && maps == [] && fmtps == c.fmtps)
    ensures Select(Body(host, c, d), p) == maps + fmtps
  {
    forall i | 0 <= i < |c.rtpmaps| ensures !HasPrefix(c.rtpmaps[i], FMTP) {
      OnePrefix(c.rtpmaps[i]);
    }
    forall i | 0 <= i < |c.fmtps| ensures !HasPrefix(c.fmtps[i], RTPMAP) {
      OnePrefix(c.fmtps[i]);
    }
    if p == RTPMAP {
      SelectAll(c.rtpmaps, p);
      SelectNone(c.fmtps, p);
    } else {
      SelectNone(c.rtpmaps, p);
      SelectAll(c.fmtps, p);
    }
    SelectNone([CONN + host], p);
    SelectAppend([CONN + host], c.rtpmaps, p);
    SelectAppend([CONN + host] + c.rtpmaps, c.fmtps, p);
    SelectSnoc([CONN + host] + c.rtpmaps + c.fmtps, d, p);
    assert [] + maps == maps;
  }

  lemma ShapeOfFive(a: string, b: string, c: seq<string>, d: seq<string>, e: string)
    ensures [a, b] + c + d + [e] == [a] + ([b] + c + d + [e])
  {
  }

  lemma BlockShape(port: int, host: string, c: Codecs, d: string)
    ensures AudioBlock(port, host, c, d) == [AudioLine(port, c.formats)] + Body(host, c, d)
  {
    ShapeOfFive(AudioLine(port, c.formats), CONN + host, c.rtpmaps, c.fmtps, d);
  }

  lemma BlockClean(port: int, host: string, c: Codecs, d: string)
    requires Clean(host) && Extracted(c) && Direction(d)
    ensures AllClean(AudioBlock(port, host, c, d))
  {
    BlockShape(port, host, c, d);
    AudioLineExtracted(port, c);
    BodyKinds(host, c, d);
  }

  lemma PreambleKinds(host: string)
    requires Clean(host)
    ensures AllClean(Preamble(host)) && NoneStarts(Preamble(host), MEDIA) && NoneStarts(Preamble(host), AUDIO)
    ensures NoneStarts(Preamble(host), CONN) && NoneStarts(Preamble(host), FINGERPRINT)
  {
    OriginLine(host);
    var p := Preamble(host);
    assert p[0][0] == 'v' && p[1][0] == 'o' && p[2][0] == 's' && p[3][0] == 't';
    forall i | 0 <= i < 4
      ensures !HasPrefix(p[i], MEDIA) && !HasPrefix(p[i], AUDIO)
      ensures !HasPrefix(p[i], CONN) && !HasPrefix(p[i], FINGERPRINT)
    {
      OtherStart(p[i]);
    }
  }

  lemma OtherStart(l: string)
    requires l != "" && l[0] != 'm' && l[0] != 'c' && l[0] != 'a'
    ensures !HasPrefix(l, MEDIA) && !HasPrefix(l, AUDIO) && !HasPrefix(l, CONN) && !HasPrefix(l, FINGERPRINT)
  {
    CharDiffers(l, MEDIA, 0);
    CharDiffers(l, AUDIO, 0);
    CharDiffers(l, CONN, 0);
    CharDiffers(l, FINGERPRINT, 0);
  }

  lemma OriginLine(host: string)
    requires Clean(host)
    ensures Clean("o=- 0 0 IN IP4 " + host)
  {
    var o := "o=- 0 0 IN IP4 " + host;
    assert host == "" ==> o[|o| - 1] == ' ';
    assert host != "" ==> o[|o| - 1] == host[|host| - 1];
  }

  // ----- Extraction after building -------------------------------------------

  /** What may stand after an audio section: the empty last line, or another section. */
  predicate SectionTail(tail: seq<string>) {
    tail == [""] || (tail != [] && HasPrefix(tail[0], MEDIA))
  }

  lemma TailNotSelected(tail: seq<string>, p: string)
    requires SectionTail(tail) && p != ""
    ensures Select(tail[..First(tail, MEDIA)], p) == []
  {
    SelectNone([""], p);
    SelectNone([""], MEDIA);
    assert tail != [""] ==> First(tail, MEDIA) == 0;
    assert tail[..0] == [];
    assert tail == [""] ==> tail[..1] == tail;
  }

  /** What extraction yields from a body whose audio section is line followed by b. */
  lemma ExtractParts(p: seq<string>, line: string, b: seq<string>, tail: seq<string>)
    requires NoneStarts(p, AUDIO) && HasPrefix(line, AUDIO) && |Fields(line)| >= 4
    requires NoneStarts(b, MEDIA) && SectionTail(tail)
    ensures Extract(p + ([line] + (b + tail)))
         == Ok(Codecs(Join(Fields(line)[3..], ' '), Select(b, RTPMAP), Select(b, FMTP)))
  {
    FirstAudioAt(p, line, b + tail);
    var ls := p + ([line] + (b + tail));
    PartsAt(p, line, b + tail);
    BlockOfParts(b, tail);
    var t := tail[..First(tail, MEDIA)];
    TailNotSelected(tail, RTPMAP);
    TailNotSelected(tail, FMTP);
    SelectAppend(b, t, RTPMAP);
    SelectAppend(b, t, FMTP);
    NothingAdded(Select(b, RTPMAP));
    NothingAdded(Select(b, FMTP));
    ExtractAt(ls, |p|, b + t);
  }

  lemma NothingAdded(a: seq<string>)
    ensures a + [] == a
  {
  }

  lemma PartsAt(p: seq<string>, line: string, rest: seq<string>)
    ensures var ls := p + ([line] + rest); ls[|p|] == line && ls[|p| + 1..] == rest
  {
  }

  lemma ExtractAt(ls: seq<string>, n: nat, block: seq<string>)
    requires n < |ls| && First(ls, AUDIO) == n && |Fields(ls[n])| >= 4 && Block(ls, n) == block
    ensures Extract(ls) == Ok(Codecs(Join(Fields(ls[n])[3..], ' '), Select(block, RTPMAP), Select(block, FMTP)))
  {
  }

  lemma FirstAudioAt(p: seq<string>, line: string, rest: seq<string>)
    requires NoneStarts(p, AUDIO) && HasPrefix(line, AUDIO)
    ensures First(p + ([line] + rest), AUDIO) == |p|
  {
    SelectNone(p, AUDIO);
    var tail := [line] + rest;
    FirstAppend(p, tail, AUDIO);
    assert tail[0] == line;
    FirstIs(tail, 0, AUDIO);
  }

  lemma BlockOfParts(b: seq<string>, tail: seq<string>)
    requires NoneStarts(b, MEDIA)
    ensures (b + tail)[..First(b + tail, MEDIA)] == b + tail[..First(tail, MEDIA)]
  {
    SelectNone(b, MEDIA);
    FirstAppend(b, tail, MEDIA);
    var n := First(tail, MEDIA);
    assert (b + tail)[..|b| + n] == b + tail[..n];
  }

  lemma Grouped(p: seq<string>, line: seq<string>, b: seq<string>, tail: seq<string>)
    ensures p + (line + b) + tail == p + (line + (b + tail))
  {
  }

  lemma ExtractBuilt(host: string, port: int, c: Codecs, d: string, tail: seq<string>)
    requires Clean(host) && Extracted(c) && Direction(d) && SectionTail(tail)
    ensures Extract(Preamble(host) + AudioBlock(port, host, c, d) + tail) == Ok(c)
  {
    PreambleKinds(host);
    BlockShape(port, host, c, d);
    AudioLineExtracted(port, c);
    BodyKinds(host, c, d);
    BodySelect(host, c, d);
    Grouped(Preamble(host), [AudioLine(port, c.formats)], Body(host, c, d), tail);
    ExtractParts(Preamble(host), AudioLine(port, c.formats), Body(host, c, d), tail);
  }

  lemma AllCleanConcat(a: seq<string>, b: seq<string>)
    requires AllClean(a) && AllClean(b)
    ensures AllClean(a + b)
  {
  }

  lemma SingleOfferLines(c: Codecs, host: string, port: int, d: string)
    requires Clean(host) && Extracted(c) && Direction(d)
    ensures Lines(Crlf(SingleOffer(c, host, port, d))) == SingleOffer(c, host, port, d) + [""]
  {
    PreambleKinds(host);
    BlockClean(port, host, c, d);
    AllCleanConcat(Preamble(host), AudioBlock(port, host, c, d));
    CrlfLines(SingleOffer(c, host, port, d));
  }

  lemma TapOfferLines(c: Codecs, host: string, port1: int, port2: int)
    requires Clean(host) && Extracted(c)
    ensures Lines(Crlf(TapOffer(c, host, port1, port2))) == TapOffer(c, host, port1, port2) + [""]
  {
    PreambleKinds(host);
    BlockClean(port1, host, c, "a=recvonly");
    BlockClean(port2, host, c, "a=recvonly");
    var first := AudioBlock(port1, host, c, "a=recvonly");
    AllCleanConcat(Preamble(host), first);
    AllCleanConcat(Preamble(host) + first, AudioBlock(port2, host, c, "a=recvonly"));
    CrlfLines(TapOffer(c, host, port1, port2));
  }

  /** The tap, inactive and plain offers each carry exactly the codecs extracted from the
      call's offer: extraction after building is extraction before it. */
  lemma BuildersUndoExtraction(offer: string, host: string, port1: int, port2: int, d: string)
    requires Extract(Lines(offer)).Ok? && Clean(host) && Direction(d)
    ensures var c := Extract(Lines(offer)).value;
            && Extract(Lines(Crlf(TapOffer(c, host, port1, port2)))) == Extract(Lines(offer))
            && Extract(Lines(Crlf(SingleOffer(c, host, port1, d)))) == Extract(Lines(offer))
  {
    ExtractYields(offer);
    var c := Extract(Lines(offer)).value;
    TapOfferLines(c, host, port1, port2);
    TapOfferExtracted(c, host, port1, port2);
    SingleOfferLines(c, host, port1, d);
    ExtractBuilt(host, port1, c, d, [""]);
  }

  lemma TapOfferExtracted(c: Codecs, host: string, port1: int, port2: int)
    requires Clean(host) && Extracted(c)
    ensures Extract(TapOffer(c, host, port1, port2) + [""]) == Ok(c)
  {
    var d := "a=recvonly";
    var first, second := AudioBlock(port1, host, c, d), AudioBlock(port2, host, c, d);
    BlockShape(port2, host, c, d);
    AudioLineExtracted(port2, c);
    AudioKind(AudioLine(port2, c.formats));
    assert (second + [""])[0] == AudioLine(port2, c.formats);
    ExtractBuilt(host, port1, c, d, second + [""]);
    TailMoved(Preamble(host) + first, second);
  }

  lemma TailMoved(a: seq<string>, b: seq<string>)
    ensures a + (b + [""]) == a + b + [""]
  {
  }

  // ----- The plain offer -----------------------------------------------------

  lemma NotSecureParts(p: seq<string>, line: string, b: seq<string>)
    requires NoneStarts(p, AUDIO) && NoneStarts(p, FINGERPRINT) && NoneStarts(b, AUDIO) && NoneStarts(b, FINGERPRINT)
    requires |Fields(line)| >= 3 && Fields(line)[2] == PROFILE && !HasPrefix(line, FINGERPRINT)
    ensures !WebRtc(p + ([line] + (b + [""])))
  {
    ProfileIsPlain();
    var ls := p + ([line] + (b + [""]));
    forall i | 0 <= i < |ls| ensures !SecureLine(ls[i]) {
      if i < |p| {
        assert ls[i] == p[i];
      } else if |p| < i < |p| + 1 + |b| {
        assert ls[i] == b[i - |p| - 1];
      }
    }
  }

  lemma NotSecure(port: int, host: string, c: Codecs, d: string)
    requires Clean(host) && Extracted(c) && Direction(d)
    ensures !WebRtc(SingleOffer(c, host, port, d) + [""])
  {
    PreambleKinds(host);
    BlockShape(port, host, c, d);
    AudioLineExtracted(port, c);
    BodyKinds(host, c, d);
    NoFingerprint(AudioLine(port, c.formats));
    Grouped(Preamble(host), [AudioLine(port, c.formats)], Body(host, c, d), [""]);
    NotSecureParts(Preamble(host), AudioLine(port, c.formats), Body(host, c, d));
  }

  lemma NoFingerprint(l: string)
    ensures HasPrefix(l, AUDIO) || HasPrefix(l, CONN) || HasPrefix(l, RTPMAP) || HasPrefix(l, FMTP)
            ==> !HasPrefix(l, FINGERPRINT)
  {
    if HasPrefix(l, AUDIO) {
      CharAgrees(l, AUDIO, 0);
      CharDiffers(l, FINGERPRINT, 0);
    } else if HasPrefix(l, CONN) {
      CharAgrees(l, CONN, 0);
      CharDiffers(l, FINGERPRINT, 0);
    } else if HasPrefix(l, RTPMAP) {
      CharAgrees(l, RTPMAP, 2);
      CharDiffers(l, FINGERPRINT, 2);
    } else if HasPrefix(l, FMTP) {
      CharAgrees(l, FMTP, 3);
      CharDiffers(l, FINGERPRINT, 3);
    }
  }

  lemma ProfileIsPlain()
    ensures !Contains(PROFILE, "SAVPF") && !Contains(PROFILE, "SAVP")
  {
    assert forall i | 0 <= i < |PROFILE| :: PROFILE[i] != 'S';
    forall i | 0 <= i <= |PROFILE| ensures !("SAVPF" <= PROFILE[i..]) && !("SAVP" <= PROFILE[i..]) {
      if i < |PROFILE| {
        assert PROFILE[i..][0] == PROFILE[i];
      }
    }
  }

  /** The plain offer derived from a WebRTC one is never taken for WebRTC again, and a
      peer reads from it exactly the host and port it was built with. */
  lemma PlainOfferIsPlain(offer: string, isIP: string -> bool, host: string, port: int)
    requires Extract(Lines(offer)).Ok? && Clean(host) && host != "" && isIP(host)
    requires -INT64_MAX - 1 <= port <= INT64_MAX && port != 0
    ensures var ls := Lines(Crlf(SingleOffer(Extract(Lines(offer)).value, host, port, "a=sendrecv")));
            !WebRtc(ls) && Media(ls, isIP) == Ok(Endpoint(host, port))
  {
    ExtractYields(offer);
    var c, d := Extract(Lines(offer)).value, "a=sendrecv";
    SingleOfferLines(c, host, port, d);
    NotSecure(port, host, c, d);
    SingleOfferHost(c, host, port, d);
    AtoiItoa(port);
    AudioLineExtracted(port, c);
    BlockShape(port, host, c, d);
    var ls := SingleOffer(c, host, port, d) + [""];
    assert ls[4] == AudioLine(port, c.formats);
    MediaReadsHost(ls, isIP, 4, port);
  }

  lemma HostOfParts(p: seq<string>, line: string, b: seq<string>, host: string)
    requires NoneStarts(p, AUDIO) && HasPrefix(line, AUDIO) && NoneStarts(b, AUDIO) && NoneStarts(b, MEDIA)
    requires LastAddress(b, LastAddress(p, "")) == host
    ensures OneAudio(p + ([line] + (b + [""])), |p|)
    ensures MediaHost(p + ([line] + (b + [""])), |p|) == host
  {
    OneAudioAt(p, line, b);
    PartsAt(p, line, b + [""]);
    TrailingLine(b, LastAddress(p, ""));
    HostAt(p + ([line] + (b + [""])), |p|, host);
  }

  lemma TrailingLine(b: seq<string>, d: string)
    requires NoneStarts(b, MEDIA)
    ensures First(b + [""], MEDIA) == |b| + 1
    ensures LastAddress(b + [""], d) == LastAddress(b, d)
  {
    SelectNone(b + [""], MEDIA);
    LastAddressAppend(b, [""], d);
    LastAddressNone([""], LastAddress(b, d));
  }

  lemma HostAt(ls: seq<string>, n: nat, host: string)
    requires n < |ls| && First(ls[n + 1..], MEDIA) == |ls| - n - 1
    requires LastAddress(ls[n + 1..], LastAddress(ls[..n], "")) == host
    ensures MediaHost(ls, n) == host
  {
    assert ls[n + 1..|ls|] == ls[n + 1..] && ls[|ls|..] == [];
  }

  lemma OneAudioAt(p: seq<string>, line: string, b: seq<string>)
    requires NoneStarts(p, AUDIO) && HasPrefix(line, AUDIO) && NoneStarts(b, AUDIO)
    ensures OneAudio(p + ([line] + (b + [""])), |p|)
    ensures (p + ([line] + (b + [""])))[..|p|] == p
  {
    var n, ls := |p|, p + ([line] + (b + [""]));
    forall i | 0 <= i < |ls| && i != n ensures !HasPrefix(ls[i], AUDIO) {
      assert i < n ==> ls[i] == p[i];
      assert n < i < n + 1 + |b| ==> ls[i] == b[i - n - 1];
    }
  }

  lemma SingleOfferHost(c: Codecs, host: string, port: int, d: string)
    requires Clean(host) && Extracted(c) && Direction(d)
    ensures OneAudio(SingleOffer(c, host, port, d) + [""], 4)
    ensures MediaHost(SingleOffer(c, host, port, d) + [""], 4) == host
  {
    PreambleKinds(host);
    BlockShape(port, host, c, d);
    AudioLineExtracted(port, c);
    BodyKinds(host, c, d);
    BodyLastAddress(host, c, d, LastAddress(Preamble(host), ""));
    Grouped(Preamble(host), [AudioLine(port, c.formats)], Body(host, c, d), [""]);
    HostOfParts(Preamble(host), AudioLine(port, c.formats), Body(host, c, d), host);
  }

  lemma BodyLastAddress(host: string, c: Codecs, d: string, h: string)
    requires Clean(host) && Extracted(c) && Direction(d)
    ensures LastAddress(Body(host, c, d), h) == host
  {
    ConnLine(host);
    DirectionKind(d);
    AttributesKinds(c.rtpmaps, RTPMAP);
    AttributesKinds(c.fmtps, FMTP);
    LastAddressOfFour(CONN + host, c.rtpmaps, c.fmtps, [d], h);
    assert (CONN + host)[|CONN|..] == host;
  }

  lemma LastAddressOfFour(l: string, b: seq<string>, c: seq<string>, d: seq<string>, h: string)
    requires HasPrefix(l, CONN) && NoneStarts(b, CONN) && NoneStarts(c, CONN) && NoneStarts(d, CONN)
    ensures LastAddress([l] + b + c + d, h) == l[|CONN|..]
  {
    var all := [l] + b + c + d;
    assert all[0] == l && all[1..] == b + c + d;
    LastAddressNone(b + c + d, l[|CONN|..]);
  }
}
