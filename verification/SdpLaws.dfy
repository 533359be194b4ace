/** What anchoring does to a body: the laws of rewriteToAnchor against the readers. */
module SdpLaws {
  import opened Sdp
  import opened Text
  import opened Wrappers

  // ----- Lists of lines ------------------------------------------------------

  lemma {:induction false} FirstSame(a: seq<string>, b: seq<string>, p: string)
    requires |a| == |b|
    requires forall i | 0 <= i < |a| :: HasPrefix(a[i], p) == HasPrefix(b[i], p)
    ensures First(a, p) == First(b, p)
  {
    if a != [] {
      FirstSame(a[1..], b[1..], p);
    }
  }

  lemma {:induction false} SelectSame(a: seq<string>, b: seq<string>, p: string)
    requires |a| == |b|
    requires forall i | 0 <= i < |a| :: HasPrefix(a[i], p) == HasPrefix(b[i], p)
    requires forall i | 0 <= i < |a| && HasPrefix(a[i], p) :: a[i] == b[i]
    ensures Select(a, p) == Select(b, p)
  {
    if a != [] {
      SelectSame(a[..|a| - 1], b[..|b| - 1], p);
    }
  }

  lemma {:induction false} FindMapSame(a: seq<string>, b: seq<string>, pt: int)
    requires |a| == |b|
    requires forall i | 0 <= i < |a| :: HasPrefix(a[i], RTPMAP) == HasPrefix(b[i], RTPMAP)
    requires forall i | 0 <= i < |a| && HasPrefix(a[i], RTPMAP) :: a[i] == b[i]
    ensures FindMap(a, pt) == FindMap(b, pt)
  {
    if a != [] {
      FindMapSame(a[1..], b[1..], pt);
    }
  }

  lemma {:induction false} SelectAppend(a: seq<string>, b: seq<string>, p: string)
    ensures Select(a + b, p) == Select(a, p) + Select(b, p)
  {
    if b == [] {
      assert a + b == a;
    } else {
      var n := |b| - 1;
      assert a + b == (a + b[..n]) + [b[n]] && b == b[..n] + [b[n]];
      SelectSnoc(a + b[..n], b[n], p);
      SelectSnoc(b[..n], b[n], p);
      SelectAppend(a, b[..n], p);
    }
  }

  lemma {:induction false} SelectNone(ls: seq<string>, p: string)
    requires forall i | 0 <= i < |ls| :: !HasPrefix(ls[i], p)
    ensures Select(ls, p) == []
    ensures First(ls, p) == |ls|
  {
    FirstFacts(ls, p);
    if ls != [] {
      SelectNone(ls[..|ls| - 1], p);
    }
  }

  lemma {:induction false} SelectAll(ls: seq<string>, p: string)
    requires forall i | 0 <= i < |ls| :: HasPrefix(ls[i], p)
    ensures Select(ls, p) == ls
  {
    if ls != [] {
      var init, l := ls[..|ls| - 1], ls[|ls| - 1];
      assert ls == init + [l];
      SelectAll(init, p);
      assert Select(ls, p) == Select(init, p) + [l];
    }
  }

  // ----- The audio line ------------------------------------------------------

  const MAUDIO := "m=audio"

  lemma AudioFields(l: string)
    requires HasPrefix(l, AUDIO)
    ensures |Fields(l)| >= 1 && Fields(l)[0] == MAUDIO
  {
    PrefixIs(l, AUDIO);
    assert l[..7] == AUDIO[..7] == MAUDIO && l[7] == AUDIO[7] == ' ';
    FieldsWord(MAUDIO, l[7..]);
    assert l == MAUDIO + l[7..];
  }

  lemma AudioJoined(ts: seq<string>)
    requires |ts| >= 2 && ts[0] == MAUDIO
    ensures HasPrefix(Join(ts, ' '), AUDIO)
  {
    var l := Join(ts, ' ');
    assert l == MAUDIO + [' '] + Join(ts[1..], ' ');
    assert l[..8] == AUDIO;
    PrefixIs(l, AUDIO);
  }

  // ----- Lines of an anchored body -------------------------------------------

  predicate Accepted(ls: seq<string>, host: string, port: int) {
    host != "" && port > 0 && AudioLineOk(ls)
  }

  /** A line and what anchoring makes of it start with the same prefixes. */
  ghost predicate SameKind(l: string, x: string) {
    && HasPrefix(x, CONN) == HasPrefix(l, CONN)
    && HasPrefix(x, AUDIO) == HasPrefix(l, AUDIO)
    && HasPrefix(x, MEDIA) == HasPrefix(l, MEDIA)
    && HasPrefix(x, RTPMAP) == HasPrefix(l, RTPMAP)
    && HasPrefix(x, FMTP) == HasPrefix(l, FMTP)
    && (HasPrefix(l, RTPMAP) || HasPrefix(l, FMTP) ==> x == l)
  }

  ghost predicate SameKinds(ls: seq<string>, out: seq<string>) {
    |out| == |ls| && forall i | 0 <= i < |ls| :: SameKind(ls[i], out[i])
  }

  lemma AnchoredKind(ls: seq<string>, i: nat, host: string, port: int)
    requires Accepted(ls, host, port) && Clean(host) && i < |ls| && Clean(ls[i])
    ensures Clean(AnchoredLine(ls, i, host, port))
    ensures SameKind(ls[i], AnchoredLine(ls, i, host, port))
  {
    var l := ls[i];
    FirstIs(ls, i, CONN);
    FirstIs(ls, i, AUDIO);
    if i == First(ls, CONN) {
      PrefixIs(CONN + host, CONN);
      CleanConn(host);
      ConnKind(l);
      ConnKind(CONN + host);
    } else if i == First(ls, AUDIO) {
      AudioFields(l);
      var ts := Fields(l)[1 := Itoa(port)];
      AudioJoined(ts);
      JoinNoBreaks(ts);
      AudioKind(l);
      AudioKind(Join(ts, ' '));
    }
  }

  lemma ConnKind(l: string)
    requires HasPrefix(l, CONN)
    ensures !HasPrefix(l, AUDIO) && !HasPrefix(l, MEDIA) && !HasPrefix(l, RTPMAP) && !HasPrefix(l, FMTP)
  {
    OnePrefix(l);
  }

  lemma AudioKind(l: string)
    requires HasPrefix(l, AUDIO)
    ensures HasPrefix(l, MEDIA) && !HasPrefix(l, CONN) && !HasPrefix(l, RTPMAP) && !HasPrefix(l, FMTP)
  {
    OnePrefix(l);
  }

  lemma CleanConn(host: string)
    requires Clean(host) && host != ""
    ensures Clean(CONN + host)
  {
    var x := CONN + host;
    assert x[|x| - 1] == host[|host| - 1];
  }

  lemma {:induction false} PieceAt(ls: seq<string>, raw: seq<string>, n: nat, host: string, port: int, i: nat)
    requires AudioLineOk(ls) && i < n <= |ls| == |raw|
    ensures AnchoredPieces(ls, raw, n, host, port)[i] == AnchoredLine(ls, i, host, port) + Ending(raw[i])
  {
    if i < n - 1 {
      PieceAt(ls, raw, n - 1, host, port, i);
    }
  }

  lemma TrimPiece(l: string, raw: string)
    requires Clean(l)
    ensures '\n' !in l + Ending(raw)
    ensures TrimCR(l + Ending(raw)) == l
    ensures EndsCR(l + Ending(raw)) == EndsCR(raw)
  {
    var x := l + Ending(raw);
    if EndsCR(raw) {
      assert x[|x| - 1] == '\r' && x[..|x| - 1] == l;
    } else {
      assert x == l;
    }
  }

  /** out is ls line by line with the anchor in it. */
  ghost predicate IsAnchored(ls: seq<string>, out: seq<string>, host: string, port: int)
    requires AudioLineOk(ls)
  {
    |out| == |ls| && forall i | 0 <= i < |ls| :: out[i] == AnchoredLine(ls, i, host, port)
  }

  ghost predicate SameEndings(raw: seq<string>, out: seq<string>) {
    |out| == |raw| && forall i | 0 <= i < |raw| :: EndsCR(out[i]) == EndsCR(raw[i])
  }

  /** The raw lines of the anchored body: as many as before, each anchored and with the ending
      it had. */
  lemma RewrittenRaw(sdp: string, host: string, port: int)
    requires Accepted(Lines(sdp), host, port) && Clean(host)
    ensures Rewrite(sdp, host, port).Ok?
    ensures |Split(Rewrite(sdp, host, port).value, '\n')| == |Split(sdp, '\n')|
    ensures forall i | 0 <= i < |Lines(sdp)| :: Split(Rewrite(sdp, host, port).value, '\n')[i]
                                             == AnchoredLine(Lines(sdp), i, host, port) + Ending(Split(sdp, '\n')[i])
  {
    var ls, raw := Lines(sdp), Split(sdp, '\n');
    LinesClean(sdp);
    var pieces := AnchoredPieces(ls, raw, |ls|, host, port);
    forall i | 0 <= i < |ls|
      ensures '\n' !in pieces[i] && pieces[i] == AnchoredLine(ls, i, host, port) + Ending(raw[i])
    {
      PieceAt(ls, raw, |ls|, host, port, i);
      AnchoredKind(ls, i, host, port);
      TrimPiece(AnchoredLine(ls, i, host, port), raw[i]);
    }
    SplitJoin(pieces, '\n');
  }

  /** Read as lines, the anchored body has the same number of them, each with the ending it
      had, and they are the anchored lines. */
  lemma RewriteLines(sdp: string, host: string, port: int)
    requires Accepted(Lines(sdp), host, port) && Clean(host)
    ensures Rewrite(sdp, host, port).Ok?
    ensures IsAnchored(Lines(sdp), Lines(Rewrite(sdp, host, port).value), host, port)
    ensures SameEndings(Split(sdp, '\n'), Split(Rewrite(sdp, host, port).value, '\n'))
  {
    var ls, raw := Lines(sdp), Split(sdp, '\n');
    LinesClean(sdp);
    RewrittenRaw(sdp, host, port);
    var out := Split(Rewrite(sdp, host, port).value, '\n');
    forall i | 0 <= i < |ls|
      ensures TrimCR(out[i]) == AnchoredLine(ls, i, host, port) && EndsCR(out[i]) == EndsCR(raw[i])
    {
      AnchoredKind(ls, i, host, port);
      TrimPiece(AnchoredLine(ls, i, host, port), raw[i]);
    }
  }

  /** A line ending in two carriage returns or more. */
  predicate EndsTwoCR(l: string) {
    EndsCR(l) && EndsCR(l[..|l| - 1])
  }

  lemma {:induction false} TrimShrinks(l: string)
    ensures |TrimCR(l)| <= |l|
  {
    if EndsCR(l) {
      TrimShrinks(l[..|l| - 1]);
    }
  }

  lemma TrimmedBack(l: string)
    ensures TrimCR(l) + Ending(l) == l <==> !EndsTwoCR(l)
  {
    if EndsCR(l) {
      var m := l[..|l| - 1];
      assert l == m + "\r" && TrimCR(l) == TrimCR(m);
      if EndsCR(m) {
        TrimShrinks(m[..|m| - 1]);
      }
    }
  }

  /** Which of the other lines pass through verbatim: exactly those that do not end in two
      carriage returns. */
  lemma VerbatimLines(sdp: string, host: string, port: int, i: nat)
    requires Accepted(Lines(sdp), host, port) && Clean(host) && i < |Lines(sdp)|
    requires i != First(Lines(sdp), CONN) && i != First(Lines(sdp), AUDIO)
    ensures Rewrite(sdp, host, port).Ok?
    ensures |Split(Rewrite(sdp, host, port).value, '\n')| == |Split(sdp, '\n')|
    ensures Split(Rewrite(sdp, host, port).value, '\n')[i] == Split(sdp, '\n')[i] <==> !EndsTwoCR(Split(sdp, '\n')[i])
  {
    RewrittenRaw(sdp, host, port);
    TrimmedBack(Split(sdp, '\n')[i]);
  }

  /** So the promise to leave other lines as they are fails: this one loses a carriage return. */
  lemma VerbatimFails(host: string, port: int)
    requires host != "" && Clean(host) && port > 0
    ensures var sdp := "a=x\r\r";
      && First(Lines(sdp), CONN) == First(Lines(sdp), AUDIO) == |Lines(sdp)| == 1
      && Rewrite(sdp, host, port).Ok? && Split(Rewrite(sdp, host, port).value, '\n') == ["a=x\r"]
  {
    var sdp := "a=x\r\r";
    SplitFirst(sdp, "", '\n');
    assert Split(sdp, '\n') == [sdp];
    var once := "a=x\r";
    assert sdp[..|sdp| - 1] == once && once[..|once| - 1] == "a=x";
    assert TrimCR(sdp) == TrimCR(once) == "a=x";
    var ls := Lines(sdp);
    assert ls == ["a=x"];
    CharDiffers(ls[0], CONN, 0);
    CharDiffers(ls[0], AUDIO, 0);
    RewrittenRaw(sdp, host, port);
    var out := Split(Rewrite(sdp, host, port).value, '\n');
    assert AnchoredLine(ls, 0, host, port) == "a=x";
    assert Split(sdp, '\n')[0] == sdp && EndsCR(sdp) && |out| == 1;
    assert out[0] == AnchoredLine(ls, 0, host, port) + Ending(sdp);
    assert out[0] == "a=x" + "\r" == once;
    assert out == [out[0]];
  }

  lemma AnchoredKinds(ls: seq<string>, out: seq<string>, host: string, port: int)
    requires Accepted(ls, host, port) && Clean(host) && IsAnchored(ls, out, host, port)
    requires forall i | 0 <= i < |ls| :: Clean(ls[i])
    ensures SameKinds(ls, out)
    ensures First(out, CONN) == First(ls, CONN)
    ensures First(out, AUDIO) == First(ls, AUDIO)
  {
    forall i | 0 <= i < |ls| ensures SameKind(ls[i], out[i]) {
      AnchoredKind(ls, i, host, port);
    }
    FirstSame(out, ls, CONN);
    FirstSame(out, ls, AUDIO);
  }

  lemma AudioRewritten(l: string, port: int)
    requires |Fields(l)| >= 2
    ensures Fields(Join(Fields(l)[1 := Itoa(port)], ' ')) == Fields(l)[1 := Itoa(port)]
  {
    FieldsJoin(Fields(l)[1 := Itoa(port)]);
  }

  lemma AnchoredAudio(ls: seq<string>, out: seq<string>, host: string, port: int)
    requires Accepted(ls, host, port) && Clean(host) && IsAnchored(ls, out, host, port)
    requires forall i | 0 <= i < |ls| :: Clean(ls[i])
    ensures AudioLineOk(out)
    ensures var a := First(ls, AUDIO); a < |ls| ==> Fields(out[a]) == Fields(ls[a])[1 := Itoa(port)]
  {
    AnchoredKinds(ls, out, host, port);
    var a := First(ls, AUDIO);
    if a < |ls| {
      AnchoredAudioLine(ls, host, port);
      var l := AnchoredLine(ls, a, host, port);
      assert out[a] == l;
      assert |Fields(l)| >= 2;
    }
    assert First(out, AUDIO) == a;
  }

  lemma AnchoredAudioLine(ls: seq<string>, host: string, port: int)
    requires AudioLineOk(ls) && First(ls, AUDIO) < |ls|
    ensures Fields(AnchoredLine(ls, First(ls, AUDIO), host, port)) == Fields(ls[First(ls, AUDIO)])[1 := Itoa(port)]
  {
    var a := First(ls, AUDIO);
    ConnNotAudio(ls[a]);
    FirstFacts(ls, AUDIO);
    FirstIs(ls, a, CONN);
    AudioRewritten(ls[a], port);
  }

  /** Only the last of several rewrites shows. */
  lemma RewriteAbsorbs(sdp: string, host1: string, port1: int, host2: string, port2: int)
    requires Accepted(Lines(sdp), host1, port1) && Clean(host1)
    ensures Rewrite(sdp, host1, port1).Ok?
    ensures Rewrite(Rewrite(sdp, host1, port1).value, host2, port2) == Rewrite(sdp, host2, port2)
  {
    RewriteLines(sdp, host1, port1);
    LinesClean(sdp);
    var mid := Rewrite(sdp, host1, port1).value;
    var ls, ms := Lines(sdp), Lines(mid);
    AnchoredAudio(ls, ms, host1, port1);
    AnchorsAgree(ls, ms, host1, port1, host2, port2);
    var raw, mraw := Split(sdp, '\n'), Split(mid, '\n');
    PiecesSame(ls, raw, ms, mraw, |ls|, host2, port2);
    if host2 != "" && port2 > 0 {
      assert Rewrite(mid, host2, port2) == Ok(Join(AnchoredPieces(ms, mraw, |ms|, host2, port2), '\n'));
      assert Rewrite(sdp, host2, port2) == Ok(Join(AnchoredPieces(ls, raw, |ls|, host2, port2), '\n'));
    }
  }

  lemma AnchorsAgree(ls: seq<string>, ms: seq<string>, host1: string, port1: int, host2: string, port2: int)
    requires Accepted(ls, host1, port1) && Clean(host1) && IsAnchored(ls, ms, host1, port1) && AudioLineOk(ms)
    requires forall i | 0 <= i < |ls| :: Clean(ls[i])
    ensures forall i | 0 <= i < |ls| :: AnchoredLine(ms, i, host2, port2) == AnchoredLine(ls, i, host2, port2)
  {
    AnchoredKinds(ls, ms, host1, port1);
    AnchoredAudio(ls, ms, host1, port1);
    forall i | 0 <= i < |ls| ensures AnchoredLine(ms, i, host2, port2) == AnchoredLine(ls, i, host2, port2) {
      assert ms[i] == AnchoredLine(ls, i, host1, port1);
      if i == First(ls, AUDIO) && i != First(ls, CONN) {
        assert Fields(ms[i])[1 := Itoa(port2)] == Fields(ls[i])[1 := Itoa(port2)];
      }
    }
  }

  lemma {:induction false} PiecesSame(ls: seq<string>, raw: seq<string>, ms: seq<string>, mraw: seq<string>,
                                      n: nat, host: string, port: int)
    requires AudioLineOk(ls) && AudioLineOk(ms) && n <= |ls| == |raw| == |ms| == |mraw|
    requires forall i | 0 <= i < n :: AnchoredLine(ms, i, host, port) == AnchoredLine(ls, i, host, port)
    requires SameEndings(raw, mraw)
    ensures AnchoredPieces(ms, mraw, n, host, port) == AnchoredPieces(ls, raw, n, host, port)
  {
    if n > 0 {
      PiecesSame(ls, raw, ms, mraw, n - 1, host, port);
      assert AnchoredLine(ms, n - 1, host, port) == AnchoredLine(ls, n - 1, host, port);
    }
  }

  // ----- Codecs --------------------------------------------------------------

  /** Anchoring changes neither the offered formats nor the codec agreed on. */
  lemma RewriteKeepsCodecs(sdp: string, host: string, port: int)
    requires Accepted(Lines(sdp), host, port) && Clean(host)
    ensures Rewrite(sdp, host, port).Ok?
    ensures Extract(Lines(Rewrite(sdp, host, port).value)) == Extract(Lines(sdp))
    ensures Selected(Lines(Rewrite(sdp, host, port).value)) == Selected(Lines(sdp))
  {
    RewriteLines(sdp, host, port);
    LinesClean(sdp);
    var ls, out := Lines(sdp), Lines(Rewrite(sdp, host, port).value);
    AnchoredKinds(ls, out, host, port);
    AnchoredAudio(ls, out, host, port);
    CodecsKept(ls, out, port);
  }

  lemma CodecsKept(ls: seq<string>, out: seq<string>, port: int)
    requires SameKinds(ls, out) && First(out, AUDIO) == First(ls, AUDIO) && AudioLineOk(ls)
    requires var a := First(ls, AUDIO); a < |ls| ==> Fields(out[a]) == Fields(ls[a])[1 := Itoa(port)]
    ensures Extract(out) == Extract(ls)
    ensures Selected(out) == Selected(ls)
  {
    var a := First(ls, AUDIO);
    if a < |ls| {
      BlockKept(ls, out, a);
      var f, g := Fields(ls[a]), Fields(out[a]);
      if |f| >= 4 {
        assert g[3..] == f[3..] && g[3] == f[3];
        if Atoi(f[3]).Some? {
          BlockKeptMap(ls, out, a, Atoi(f[3]).value);
        }
      }
    }
  }

  lemma TailKinds(ls: seq<string>, out: seq<string>, a: nat)
    requires a < |ls| && SameKinds(ls, out)
    ensures SameKinds(ls[a + 1..], out[a + 1..])
    ensures First(out[a + 1..], MEDIA) == First(ls[a + 1..], MEDIA)
  {
    var l, o := ls[a + 1..], out[a + 1..];
    forall k | 0 <= k < |l| ensures SameKind(l[k], o[k]) {
      assert l[k] == ls[a + 1 + k] && o[k] == out[a + 1 + k];
    }
    FirstSame(o, l, MEDIA);
  }

  lemma BlockKept(ls: seq<string>, out: seq<string>, a: nat)
    requires a < |ls| && SameKinds(ls, out)
    ensures Select(Block(out, a), RTPMAP) == Select(Block(ls, a), RTPMAP)
    ensures Select(Block(out, a), FMTP) == Select(Block(ls, a), FMTP)
  {
    TailKinds(ls, out, a);
    var bl, bo := Block(ls, a), Block(out, a);
    forall k | 0 <= k < |bl| ensures SameKind(bl[k], bo[k]) {
      assert bl[k] == ls[a + 1..][k] && bo[k] == out[a + 1..][k];
    }
    SelectSame(bl, bo, RTPMAP);
    SelectSame(bl, bo, FMTP);
  }

  lemma BlockKeptMap(ls: seq<string>, out: seq<string>, a: nat, pt: int)
    requires a < |ls| && SameKinds(ls, out)
    ensures FindMap(Block(out, a), pt) == FindMap(Block(ls, a), pt)
  {
    TailKinds(ls, out, a);
    var bl, bo := Block(ls, a), Block(out, a);
    forall k | 0 <= k < |bl| ensures SameKind(bl[k], bo[k]) {
      assert bl[k] == ls[a + 1..][k] && bo[k] == out[a + 1..][k];
    }
    FindMapSame(bl, bo, pt);
  }

  /** codecsMatch is an equivalence relation on codecs. */
  lemma CodecsMatchEquivalence(a: AudioCodec, b: AudioCodec, c: AudioCodec)
    ensures CodecsMatch(a, a)
    ensures CodecsMatch(a, b) ==> CodecsMatch(b, a)
    ensures CodecsMatch(a, b) && CodecsMatch(b, c) ==> CodecsMatch(a, c)
  {
    assert |Lower(a.encodingName)| == |a.encodingName|;
    assert |Lower(b.encodingName)| == |b.encodingName|;
    assert |Lower(c.encodingName)| == |c.encodingName|;
  }

  /** reportCodecAgreement: true when the mismatch is counted. */
  predicate CountsMismatch(endpointSdp: string, pbxSdp: string) {
    var ep, pbx := Selected(Lines(endpointSdp)), Selected(Lines(pbxSdp));
    ep.Ok? && pbx.Ok? && !CodecsMatch(ep.value, pbx.value)
  }

  /** On the plain path the endpoint's answer is the PBX answer anchored, so whatever the
      PBX answers no mismatch is counted. */
  lemma PlainPathNeverMismatches(pbxAnswer: string, host: string, port: int)
    requires Clean(host)
    ensures Rewrite(pbxAnswer, host, port).Ok? ==>
              !CountsMismatch(Rewrite(pbxAnswer, host, port).value, pbxAnswer)
  {
    if Rewrite(pbxAnswer, host, port).Ok? {
      RewriteKeepsCodecs(pbxAnswer, host, port);
    }
  }

  // ----- parseMedia and anchoring --------------------------------------------

  /** A body whose media is accepted can always be anchored: every audio line had a port. */
  lemma ParsedCanBeAnchored(sdp: string, isIP: string -> bool, host: string, port: int)
    requires Media(Lines(sdp), isIP).Ok?
    ensures Rewrite(sdp, host, port).Ok? <==> host != "" && port > 0
  {
    FoldChecksAudio(NO_MEDIA, Lines(sdp));
    FirstFacts(Lines(sdp), AUDIO);
  }

  lemma {:induction false} FoldChecksAudio(st: MediaScan, ls: seq<string>)
    requires MediaFold(st, ls).Ok?
    ensures forall i | 0 <= i < |ls| && HasPrefix(ls[i], AUDIO) :: |Fields(ls[i])| >= 2
    decreases |ls|
  {
    if ls != [] {
      OnePrefix(ls[0]);
      FoldChecksAudio(MediaStep(st, ls[0]).value, ls[1..]);
      forall i | 0 <= i < |ls| && HasPrefix(ls[i], AUDIO) ensures |Fields(ls[i])| >= 2 {
        assert i > 0 ==> ls[i] == ls[1..][i - 1];
      }
    }
  }

  lemma {:induction false} FoldAppend(st: MediaScan, a: seq<string>, b: seq<string>)
    ensures MediaFold(st, a + b)
         == if MediaFold(st, a).Ok? then MediaFold(MediaFold(st, a).value, b) else MediaFold(st, a)
    decreases |a|
  {
    if a == [] {
      assert a + b == b;
    } else {
      assert (a + b)[1..] == a[1..] + b;
      var next := MediaStep(st, a[0]);
      if next.Ok? {
        FoldAppend(next.value, a[1..], b);
      }
    }
  }
}
