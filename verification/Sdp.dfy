/** The SDP readers, the anchor rewriter and the offer builders of the sequencer.
    Each loop over the lines of a body is a method proved against a function on
    those lines; SdpLaws states what the functions promise together. */
module Sdp {
  import opened Text
  import opened Wrappers

  const MEDIA := "m="
  const AUDIO := "m=audio "
  const CONN := "c=IN IP4 "
  const RTPMAP := "a=rtpmap:"
  const FMTP := "a=fmtp:"
  const FINGERPRINT := "a=fingerprint:"

  datatype SdpError =
    | NoAudio | BadMediaLine | BadPort | BadPayloadType | NoAddress | NotIpLiteral
    | EmptyHost | TooFewStreams | TooFewPorts

  datatype Codecs = Codecs(formats: string, rtpmaps: seq<string>, fmtps: seq<string>)

  datatype AudioCodec = AudioCodec(payloadType: int, encodingName: string, clockRate: int)

  datatype Endpoint = Endpoint(host: string, port: int)

  // ----- Lines by prefix -----------------------------------------------------

  /** Index of the first line that starts with p, or |ls|. */
  function First(ls: seq<string>, p: string): (n: nat)
    ensures n <= |ls|
  {
    if ls == [] || HasPrefix(ls[0], p) then 0 else 1 + First(ls[1..], p)
  }

  lemma {:induction false} FirstFacts(ls: seq<string>, p: string)
    ensures forall i | 0 <= i < First(ls, p) :: !HasPrefix(ls[i], p)
    ensures First(ls, p) < |ls| ==> HasPrefix(ls[First(ls, p)], p)
  {
    if ls != [] && !HasPrefix(ls[0], p) {
      FirstFacts(ls[1..], p);
      assert forall i | 1 <= i < |ls| :: ls[i] == ls[1..][i - 1];
    }
  }

  /** The lines that start with p, in order. */
  function Select(ls: seq<string>, p: string): (r: seq<string>)
    ensures forall i | 0 <= i < |r| :: HasPrefix(r[i], p)
  {
    if ls == [] then []
    else
      var l := ls[|ls| - 1];
      Select(ls[..|ls| - 1], p) + (if HasPrefix(l, p) then [l] else [])
  }

  /** The attribute lines of the media section that line a opens. */
  function Block(ls: seq<string>, a: nat): seq<string>
    requires a < |ls|
  {
    ls[a + 1..][..First(ls[a + 1..], MEDIA)]
  }

  // ----- extractAudioCodecs --------------------------------------------------

  function Extract(ls: seq<string>): Result<Codecs, SdpError> {
    var a := First(ls, AUDIO);
    if a == |ls| then Err(NoAudio)
    else
      var f := Fields(ls[a]);
      if |f| < 4 then Err(BadMediaLine)
      else Ok(Codecs(Join(f[3..], ' '), Select(Block(ls, a), RTPMAP), Select(Block(ls, a), FMTP)))
  }

  method ExtractAudioCodecs(sdp: string) returns (r: Result<Codecs, SdpError>)
    ensures r == Extract(Lines(sdp))
  {
    var ls := Lines(sdp);
    ghost var a := First(ls, AUDIO);
    var inAudio, formats, rtpmaps, fmtps := false, "", [], [];
    ghost var block: seq<string> := [];
    var i := 0;
    while i < |ls|
      invariant 0 <= i <= |ls|
      invariant !inAudio ==> i <= a && block == [] && formats == "" && rtpmaps == fmtps == []
      invariant inAudio ==> InBlock(ls, a, i, block)
      invariant inAudio ==> |Fields(ls[a])| >= 4 && formats == Join(Fields(ls[a])[3..], ' ')
      invariant inAudio ==> rtpmaps == Select(block, RTPMAP) && fmtps == Select(block, FMTP)
    {
      var line := ls[i];
      OnePrefix(line);
      FirstIs(ls, i, AUDIO);
      ghost var before := block;
      if HasPrefix(line, MEDIA) {
        if inAudio {
          break;
        }
        if HasPrefix(line, AUDIO) {
          inAudio := true;
          var fields := Fields(line);
          if |fields| < 4 {
            return Err(BadMediaLine);
          }
          formats := Join(fields[3..], ' ');
          OpenBlock(ls, a);
        }
      } else if inAudio {
        block := block + [line];
        ExtendBlock(ls, a, i, before);
        if HasPrefix(line, RTPMAP) {
          rtpmaps := rtpmaps + [line];
        } else if HasPrefix(line, FMTP) {
          fmtps := fmtps + [line];
        }
      }
      i := i + 1;
    }
    if inAudio {
      BlockIs(ls, a, i, block);
      JoinNoBreaks(Fields(ls[a])[3..]);
    }
    if formats == "" {
      return Err(NoAudio);
    }
    return Ok(Codecs(formats, rtpmaps, fmtps));
  }

  /** block holds the lines read so far of the section that line a opens. */
  ghost predicate InBlock(ls: seq<string>, a: nat, i: nat, block: seq<string>) {
    a < i <= |ls| && block == ls[a + 1..i] && First(block, MEDIA) == |block|
  }

  lemma SliceSnoc(ls: seq<string>, a: nat, i: nat)
    requires a <= i < |ls|
    ensures ls[a..i + 1] == ls[a..i] + [ls[i]]
  {
  }

  lemma OpenBlock(ls: seq<string>, a: nat)
    requires a < |ls|
    ensures InBlock(ls, a, a + 1, [])
  {
  }

  lemma ExtendBlock(ls: seq<string>, a: nat, i: nat, block: seq<string>)
    requires InBlock(ls, a, i, block) && i < |ls| && !HasPrefix(ls[i], MEDIA)
    ensures InBlock(ls, a, i + 1, block + [ls[i]])
    ensures Select(block + [ls[i]], RTPMAP)
      == Select(block, RTPMAP) + (if HasPrefix(ls[i], RTPMAP) then [ls[i]] else [])
    ensures Select(block + [ls[i]], FMTP) == Select(block, FMTP) + (if HasPrefix(ls[i], FMTP) then [ls[i]] else [])
    ensures !(HasPrefix(ls[i], RTPMAP) && HasPrefix(ls[i], FMTP))
  {
    var l := ls[i];
    SliceSnoc(ls, a + 1, i);
    assert First([l], MEDIA) == 1;
    FirstAppend(block, [l], MEDIA);
    SelectSnoc(block, l, RTPMAP);
    SelectSnoc(block, l, FMTP);
    OnePrefix(l);
  }

  lemma SelectSnoc(block: seq<string>, l: string, p: string)
    ensures Select(block + [l], p) == Select(block, p) + (if HasPrefix(l, p) then [l] else [])
  {
    assert (block + [l])[..|block|] == block;
  }

  /** The prefixes the readers look for exclude one another. */
  lemma OnePrefix(l: string)
    ensures HasPrefix(l, RTPMAP) ==> !HasPrefix(l, FMTP) && !HasPrefix(l, MEDIA) && !HasPrefix(l, CONN)
    ensures HasPrefix(l, FMTP) ==> !HasPrefix(l, MEDIA) && !HasPrefix(l, CONN)
    ensures HasPrefix(l, CONN) ==> !HasPrefix(l, MEDIA)
    ensures HasPrefix(l, AUDIO) ==> HasPrefix(l, MEDIA)
  {
    if HasPrefix(l, RTPMAP) {
      CharAgrees(l, RTPMAP, 0);
      CharAgrees(l, RTPMAP, 2);
      CharDiffers(l, FMTP, 2);
      CharDiffers(l, MEDIA, 0);
      CharDiffers(l, CONN, 0);
    } else if HasPrefix(l, FMTP) {
      CharAgrees(l, FMTP, 0);
      CharDiffers(l, MEDIA, 0);
      CharDiffers(l, CONN, 0);
    } else if HasPrefix(l, CONN) {
      CharAgrees(l, CONN, 0);
      CharDiffers(l, MEDIA, 0);
    }
    PrefixIs(l, MEDIA);
    PrefixIs(l, AUDIO);
    assert AUDIO <= l ==> l[..2] == AUDIO[..2] == MEDIA;
  }

  lemma {:induction false} FirstAppend(a: seq<string>, b: seq<string>, p: string)
    ensures First(a + b, p) == if First(a, p) < |a| then First(a, p) else |a| + First(b, p)
  {
    if a == [] {
      assert a + b == b;
    } else {
      assert (a + b)[1..] == a[1..] + b;
      FirstAppend(a[1..], b, p);
    }
  }

  lemma BlockIs(ls: seq<string>, a: nat, i: nat, block: seq<string>)
    requires InBlock(ls, a, i, block)
    requires i < |ls| ==> HasPrefix(ls[i], MEDIA)
    ensures Block(ls, a) == block
  {
    SliceParts(ls, a + 1, i);
    FirstAppend(block, ls[i..], MEDIA);
    FirstFacts(ls[i..], MEDIA);
    if i < |ls| {
      FirstIs(ls[i..], 0, MEDIA);
    }
    TakeAppend(block, ls[i..], 0);
  }

  // ----- selectedAudioCodec --------------------------------------------------

  function StaticCodec(pt: int): Option<AudioCodec> {
    if pt == 0 then Some(AudioCodec(0, "PCMU", 8000))
    else if pt == 3 then Some(AudioCodec(3, "GSM", 8000))
    else if pt == 8 then Some(AudioCodec(8, "PCMA", 8000))
    else if pt == 9 then Some(AudioCodec(9, "G722", 8000))
    else if pt == 18 then Some(AudioCodec(18, "G729", 8000))
    else None
  }

  function ParseRtpMap(line: string): Option<AudioCodec>
    requires HasPrefix(line, RTPMAP)
  {
    var fields := Fields(line[|RTPMAP|..]);
    if |fields| < 2 || Atoi(fields[0]).None? then None
    else
      var parts := Split(fields[1], '/');
      if |parts| < 2 || Atoi(parts[1]).None? then None
      else Some(AudioCodec(Atoi(fields[0]).value, parts[0], Atoi(parts[1]).value))
  }

  predicate MapsType(line: string, pt: int) {
    HasPrefix(line, RTPMAP) && ParseRtpMap(line).Some? && ParseRtpMap(line).value.payloadType == pt
  }

  /** The codec of the first rtpmap line for pt. */
  function FindMap(ls: seq<string>, pt: int): Option<AudioCodec> {
    if ls == [] then None
    else if MapsType(ls[0], pt) then ParseRtpMap(ls[0])
    else FindMap(ls[1..], pt)
  }

  function Selected(ls: seq<string>): Result<AudioCodec, SdpError> {
    var a := First(ls, AUDIO);
    if a == |ls| then Err(NoAudio)
    else
      var f := Fields(ls[a]);
      if |f| < 4 then Err(BadMediaLine)
      else match Atoi(f[3])
        case None => Err(BadPayloadType)
        case Some(pt) =>
          match FindMap(Block(ls, a), pt)
          case Some(c) => Ok(c)
          case None => Unmapped(pt)
  }

  /** A payload type without a rtpmap line: the static table, or the bare number. */
  function Unmapped(pt: int): Result<AudioCodec, SdpError> {
    if pt < 0 then Err(NoAudio)
    else match StaticCodec(pt)
      case Some(c) => Ok(c)
      case None => Ok(AudioCodec(pt, "", 0))
  }

  lemma {:induction false} FindMapAppend(a: seq<string>, b: seq<string>, pt: int)
    ensures FindMap(a + b, pt) == if FindMap(a, pt).Some? then FindMap(a, pt) else FindMap(b, pt)
  {
    if a == [] {
      assert a + b == b;
    } else {
      assert (a + b)[1..] == a[1..] + b;
      FindMapAppend(a[1..], b, pt);
    }
  }

  lemma FindMapSnoc(a: seq<string>, l: string, pt: int)
    ensures FindMap(a + [l], pt)
         == if FindMap(a, pt).Some? then FindMap(a, pt) else if MapsType(l, pt) then ParseRtpMap(l) else None
  {
    FindMapAppend(a, [l], pt);
  }

  method SelectedAudioCodec(sdp: string) returns (r: Result<AudioCodec, SdpError>)
    ensures r == Selected(Lines(sdp))
  {
    var ls := Lines(sdp);
    ghost var a := First(ls, AUDIO);
    ghost var block: seq<string> := [];
    var pt, inAudio := -1, false;
    var i := 0;
    while i < |ls|
      invariant 0 <= i <= |ls|
      invariant !inAudio ==> i <= a && block == [] && pt == -1
      invariant inAudio ==> InBlock(ls, a, i, block)
      invariant inAudio ==> |Fields(ls[a])| >= 4 && Atoi(Fields(ls[a])[3]) == Some(pt)
      invariant inAudio ==> FindMap(block, pt) == None
    {
      var line := ls[i];
      OnePrefix(line);
      FirstIs(ls, i, AUDIO);
      ghost var before := block;
      if HasPrefix(line, MEDIA) {
        if inAudio {
          break;
        }
        if HasPrefix(line, AUDIO) {
          var fields := Fields(line);
          if |fields| < 4 {
            return Err(BadMediaLine);
          }
          var n := Atoi(fields[3]);
          if n.None? {
            return Err(BadPayloadType);
          }
          pt := n.value;
          OpenBlock(ls, a);
          inAudio := true;
        }
      } else if inAudio {
        block := block + [line];
        ExtendBlock(ls, a, i, before);
        FindMapSnoc(before, line, pt);
        if HasPrefix(line, RTPMAP) {
          var c := ParseRtpMap(line);
          if c.Some? && c.value.payloadType == pt {
            ghost var more := BlockHolds(ls, a, i + 1, block);
            FindMapAppend(block, more, pt);
            return Ok(c.value);
          }
        }
      }
      i := i + 1;
    }
    if inAudio {
      BlockIs(ls, a, i, block);
    }
    return Unmapped(pt);
  }

  lemma BlockHolds(ls: seq<string>, a: nat, i: nat, block: seq<string>) returns (more: seq<string>)
    requires InBlock(ls, a, i, block)
    ensures Block(ls, a) == block + more
  {
    var tail := ls[i..];
    SliceParts(ls, a + 1, i);
    FirstAppend(block, tail, MEDIA);
    more := tail[..First(tail, MEDIA)];
    TakeAppend(block, tail, First(tail, MEDIA));
  }

  lemma SliceParts(ls: seq<string>, a: nat, i: nat)
    requires a <= i <= |ls|
    ensures ls[a..] == ls[a..i] + ls[i..]
  {
  }

  lemma TakeAppend(block: seq<string>, tail: seq<string>, n: nat)
    requires n <= |tail|
    ensures (block + tail)[..|block| + n] == block + tail[..n]
  {
  }

  predicate CodecsMatch(a: AudioCodec, b: AudioCodec) {
    if a.encodingName == "" && b.encodingName == "" then a.payloadType == b.payloadType
    else Lower(a.encodingName) == Lower(b.encodingName) && a.clockRate == b.clockRate
  }

  // ----- offerIsWebRTC -------------------------------------------------------

  predicate Contains(s: string, sub: string) {
    exists i | 0 <= i <= |s| :: sub <= s[i..]
  }

  predicate SecureLine(l: string) {
    || (HasPrefix(l, AUDIO) && |Fields(l)| >= 3 && (Contains(Fields(l)[2], "SAVPF") || Contains(Fields(l)[2], "SAVP")))
    || HasPrefix(l, FINGERPRINT)
  }

  predicate WebRtc(ls: seq<string>) {
    exists i | 0 <= i < |ls| :: SecureLine(ls[i])
  }

  method OfferIsWebRTC(sdp: string) returns (r: bool)
    ensures r == WebRtc(Lines(sdp))
  {
    var ls := Lines(sdp);
    for i := 0 to |ls|
      invariant forall k | 0 <= k < i :: !SecureLine(ls[k])
    {
      var line := ls[i];
      if HasPrefix(line, AUDIO) {
        var fields := Fields(line);
        if |fields| >= 3 && (Contains(fields[2], "SAVPF") || Contains(fields[2], "SAVP")) {
          return true;
        }
      }
      if HasPrefix(line, FINGERPRINT) {
        return true;
      }
    }
    return false;
  }

  // ----- parseMedia ----------------------------------------------------------

  datatype MediaScan = MediaScan(host: string, sessionHost: string, port: int, inAudio: bool)

  function MediaStep(st: MediaScan, l: string): Result<MediaScan, SdpError> {
    if HasPrefix(l, MEDIA) then
      if HasPrefix(l, AUDIO) then
        var f := Fields(l);
        if |f| < 2 then Err(BadMediaLine)
        else match Atoi(f[1])
          case None => Err(BadPort)
          case Some(p) => Ok(MediaScan(st.sessionHost, st.sessionHost, p, true))
      else Ok(st.(inAudio := false))
    else if HasPrefix(l, CONN) then
      var addr := l[|CONN|..];
      if st.inAudio then Ok(st.(host := addr))
      else Ok(st.(sessionHost := addr, host := if st.host == "" then addr else st.host))
    else Ok(st)
  }

  function MediaFold(st: MediaScan, ls: seq<string>): Result<MediaScan, SdpError>
    decreases |ls|
  {
    if ls == [] then Ok(st)
    else match MediaStep(st, ls[0])
      case Err(e) => Err(e)
      case Ok(next) => MediaFold(next, ls[1..])
  }

  const NO_MEDIA := MediaScan("", "", 0, false)

  function Accept(st: MediaScan, isIP: string -> bool): Result<Endpoint, SdpError> {
    if st.port == 0 then Err(NoAudio)
    else if st.host == "" then Err(NoAddress)
    else if !isIP(st.host) then Err(NotIpLiteral)
    else Ok(Endpoint(st.host, st.port))
  }

  function Media(ls: seq<string>, isIP: string -> bool): Result<Endpoint, SdpError> {
    match MediaFold(NO_MEDIA, ls)
    case Err(e) => Err(e)
    case Ok(st) => Accept(st, isIP)
  }

  method ParseMedia(sdp: string, isIP: string -> bool) returns (r: Result<Endpoint, SdpError>)
    ensures r == Media(Lines(sdp), isIP)
  {
    var ls := Lines(sdp);
    var host, sessionHost, port, inAudio := "", "", 0, false;
    assert ls[0..] == ls;
    for i := 0 to |ls|
      invariant MediaFold(NO_MEDIA, ls) == MediaFold(MediaScan(host, sessionHost, port, inAudio), ls[i..])
    {
      var line := ls[i];
      assert ls[i..][0] == line && ls[i..][1..] == ls[i + 1..];
      if HasPrefix(line, MEDIA) {
        inAudio := HasPrefix(line, AUDIO);
        if inAudio {
          var fields := Fields(line);
          if |fields| < 2 {
            return Err(BadMediaLine);
          }
          var p := Atoi(fields[1]);
          if p.None? {
            return Err(BadPort);
          }
          port := p.value;
          host := sessionHost;
        }
      } else if HasPrefix(line, CONN) {
        var addr := line[|CONN|..];
        if inAudio {
          host := addr;
        } else {
          sessionHost := addr;
          if host == "" {
            host := addr;
          }
        }
      }
    }
    if port == 0 {
      return Err(NoAudio);
    }
    if host == "" {
      return Err(NoAddress);
    }
    if !isIP(host) {
      return Err(NotIpLiteral);
    }
    return Ok(Endpoint(host, port));
  }

  // ----- rewriteToAnchor -----------------------------------------------------

  predicate AudioLineOk(ls: seq<string>) {
    var a := First(ls, AUDIO);
    a < |ls| ==> |Fields(ls[a])| >= 2
  }

  /** Line i with the anchor in it: only the first IPv4 connection line and the first
      audio line differ from what they were. */
  function AnchoredLine(ls: seq<string>, i: nat, host: string, port: int): string
    requires i < |ls| && AudioLineOk(ls)
  {
    if i == First(ls, CONN) then CONN + host
    else if i == First(ls, AUDIO) then Join(Fields(ls[i])[1 := Itoa(port)], ' ')
    else ls[i]
  }

  function Ending(raw: string): string {
    if EndsCR(raw) then "\r" else ""
  }

  /** The first n lines of the body, anchored, each with the ending it had. */
  function AnchoredPieces(ls: seq<string>, raw: seq<string>, n: nat, host: string, port: int): (r: seq<string>)
    requires AudioLineOk(ls) && n <= |ls| == |raw|
    ensures |r| == n
  {
    if n == 0 then []
    else AnchoredPieces(ls, raw, n - 1, host, port) + [AnchoredLine(ls, n - 1, host, port) + Ending(raw[n - 1])]
  }

  function Rewrite(sdp: string, host: string, port: int): Result<string, SdpError> {
    var ls, raw := Lines(sdp), Split(sdp, '\n');
    if host == "" then Err(EmptyHost)
    else if port <= 0 then Err(BadPort)
    else if !AudioLineOk(ls) then Err(BadMediaLine)
    else Ok(Join(AnchoredPieces(ls, raw, |ls|, host, port), '\n'))
  }

  method RewriteToAnchor(sdp: string, host: string, port: int) returns (r: Result<string, SdpError>)
    ensures r == Rewrite(sdp, host, port)
  {
    if host == "" {
      return Err(EmptyHost);
    }
    if port <= 0 {
      return Err(BadPort);
    }
    var out, audioRewritten, cRewritten := "", false, false;
    var raw := Split(sdp, '\n');
    ghost var ls := Lines(sdp);
    ghost var done: seq<string> := [];
    for i := 0 to |raw|
      invariant audioRewritten == (First(ls, AUDIO) < i)
      invariant cRewritten == (First(ls, CONN) < i)
      invariant audioRewritten ==> AudioLineOk(ls)
      invariant |done| == i
      invariant AudioLineOk(ls) ==> done == AnchoredPieces(ls, raw, i, host, port)
      invariant out == if i < |raw| then Flat(done) else Join(done, '\n')
    {
      var line := TrimCR(raw[i]);
      assert line == ls[i];
      FirstIs(ls, i, CONN);
      FirstIs(ls, i, AUDIO);
      ConnNotAudio(line);
      var newLine;
      if HasPrefix(line, CONN) && !cRewritten {
        newLine := CONN + host;
        cRewritten := true;
      } else if HasPrefix(line, AUDIO) && !audioRewritten {
        var fields := Fields(line);
        if |fields| < 2 {
          return Err(BadMediaLine);
        }
        newLine := Join(fields[1 := Itoa(port)], ' ');
        audioRewritten := true;
      } else {
        newLine := line;
      }
      out := WritePiece(out, done, newLine + Ending(raw[i]), i < |raw| - 1);
      done := done + [newLine + Ending(raw[i])];
    }
    return Ok(out);
  }

  /** One more line on the output, and the line feed after it unless it is the last. */
  method WritePiece(out: string, ghost done: seq<string>, piece: string, more: bool) returns (r: string)
    requires out == Flat(done)
    ensures r == if more then Flat(done + [piece]) else Join(done + [piece], '\n')
  {
    FlatSnoc(done, piece);
    r := out + piece;
    if more {
      r := r + "\n";
    }
  }

  lemma FirstIs(ls: seq<string>, i: nat, p: string)
    requires i < |ls|
    ensures i < First(ls, p) ==> !HasPrefix(ls[i], p)
    ensures First(ls, p) == i ==> HasPrefix(ls[i], p)
    ensures i <= First(ls, p) && HasPrefix(ls[i], p) ==> First(ls, p) == i
  {
    FirstFacts(ls, p);
  }

  lemma ConnNotAudio(l: string)
    ensures !(HasPrefix(l, CONN) && HasPrefix(l, AUDIO))
  {
    OnePrefix(l);
  }

  /** Every piece followed by a line feed. */
  ghost function Flat(ls: seq<string>): string {
    if ls == [] then "" else ls[0] + "\n" + Flat(ls[1..])
  }

  lemma {:induction false} FlatSnoc(ls: seq<string>, l: string)
    ensures Flat(ls + [l]) == Flat(ls) + l + "\n"
    ensures Join(ls + [l], '\n') == Flat(ls) + l
  {
    if ls == [] {
      assert ls + [l] == [l];
      assert [l][1..] == [];
      assert Flat([]) + l == l;
    } else {
      assert (ls + [l])[1..] == ls[1..] + [l];
      FlatSnoc(ls[1..], l);
    }
  }

  // ----- Offer builders ------------------------------------------------------

  function Preamble(host: string): seq<string> {
    ["v=0", "o=- 0 0 IN IP4 " + host, "s=-", "t=0 0"]
  }

  function AudioBlock(port: int, host: string, c: Codecs, direction: string): seq<string> {
    [AUDIO + Itoa(port) + " RTP/AVP " + c.formats, CONN + host] + c.rtpmaps + c.fmtps + [direction]
  }

  lemma ConcatLines(a: seq<string>, b: seq<string>, c: seq<string>)
    ensures Crlf(a + b) == "" + Crlf(a) + Crlf(b)
    ensures Crlf(a + b + c) == "" + Crlf(a) + Crlf(b) + Crlf(c)
  {
    CrlfConcat(a, b);
    CrlfConcat(a + b, c);
  }

  function TapOffer(c: Codecs, host: string, port1: int, port2: int): seq<string> {
    Preamble(host) + AudioBlock(port1, host, c, "a=recvonly") + AudioBlock(port2, host, c, "a=recvonly")
  }

  method BuildTapOffer(callOffer: string, host: string, port1: int, port2: int)
    returns (r: Result<string, SdpError>)
    ensures r == match Extract(Lines(callOffer))
                 case Err(e) => Err(e)
                 case Ok(c) => Ok(Crlf(TapOffer(c, host, port1, port2)))
  {
    var x := ExtractAudioCodecs(callOffer);
    if x.Err? {
      return Err(x.error);
    }
    var b := WriteLines("", Preamble(host));
    b := WriteLines(b, AudioBlock(port1, host, x.value, "a=recvonly"));
    b := WriteLines(b, AudioBlock(port2, host, x.value, "a=recvonly"));
    ConcatLines(Preamble(host), AudioBlock(port1, host, x.value, "a=recvonly"),
                AudioBlock(port2, host, x.value, "a=recvonly"));
    return Ok(b);
  }

  function SingleOffer(c: Codecs, host: string, port: int, direction: string): seq<string> {
    Preamble(host) + AudioBlock(port, host, c, direction)
  }

  method BuildInactiveOffer(callOffer: string, host: string) returns (r: Result<string, SdpError>)
    ensures r == match Extract(Lines(callOffer))
                 case Err(e) => Err(e)
                 case Ok(c) => Ok(Crlf(SingleOffer(c, host, 0, "a=inactive")))
  {
    var x := ExtractAudioCodecs(callOffer);
    if x.Err? {
      return Err(x.error);
    }
    var b := WriteLines("", Preamble(host));
    b := WriteLines(b, AudioBlock(0, host, x.value, "a=inactive"));
    ConcatLines(Preamble(host), AudioBlock(0, host, x.value, "a=inactive"), []);
    return Ok(b);
  }

  /** The plain offer with the codecs of a WebRTC one. */
  function PlainFrom(offer: string, host: string, port: int): Result<string, SdpError> {
    match Extract(Lines(offer))
    case Err(e) => Err(e)
    case Ok(c) => Ok(Crlf(SingleOffer(c, host, port, "a=sendrecv")))
  }

  method BuildPlainOfferFromWebRTC(offer: string, host: string, port: int) returns (r: Result<string, SdpError>)
    ensures r == PlainFrom(offer, host, port)
  {
    var x := ExtractAudioCodecs(offer);
    if x.Err? {
      return Err(x.error);
    }
    var b := WriteLines("", Preamble(host));
    b := WriteLines(b, AudioBlock(port, host, x.value, "a=sendrecv"));
    ConcatLines(Preamble(host), AudioBlock(port, host, x.value, "a=sendrecv"), []);
    return Ok(b);
  }

  // ----- parseTapAnswer ------------------------------------------------------

  datatype TapScan = TapScan(streams: seq<Endpoint>, sessionHost: string)

  function TapStep(st: TapScan, l: string): Result<TapScan, SdpError> {
    if HasPrefix(l, AUDIO) then
      var f := Fields(l);
      if |f| < 2 then Err(BadMediaLine)
      else match Atoi(f[1])
        case None => Err(BadPort)
        case Some(p) => Ok(st.(streams := st.streams + [Endpoint(st.sessionHost, p)]))
    else if HasPrefix(l, CONN) then
      var addr, n := l[|CONN|..], |st.streams|;
      if n > 0 then Ok(st.(streams := st.streams[n - 1 := st.streams[n - 1].(host := addr)]))
      else Ok(st.(sessionHost := addr))
    else Ok(st)
  }

  function TapFold(st: TapScan, ls: seq<string>): Result<TapScan, SdpError>
    decreases |ls|
  {
    if ls == [] then Ok(st)
    else match TapStep(st, ls[0])
      case Err(e) => Err(e)
      case Ok(next) => TapFold(next, ls[1..])
  }

  function TapAnswer(ls: seq<string>): Result<(Endpoint, Endpoint), SdpError> {
    match TapFold(TapScan([], ""), ls)
    case Err(e) => Err(e)
    case Ok(st) => if |st.streams| < 2 then Err(TooFewStreams) else Ok((st.streams[0], st.streams[1]))
  }

  method ParseTapAnswer(answer: string) returns (r: Result<(Endpoint, Endpoint), SdpError>)
    ensures r == TapAnswer(Lines(answer))
  {
    var ls := Lines(answer);
    var streams: seq<Endpoint>, sessionHost := [], "";
    assert ls[0..] == ls;
    for i := 0 to |ls|
      invariant TapFold(TapScan([], ""), ls) == TapFold(TapScan(streams, sessionHost), ls[i..])
    {
      var line := ls[i];
      assert ls[i..][0] == line && ls[i..][1..] == ls[i + 1..];
      if HasPrefix(line, AUDIO) {
        var fields := Fields(line);
        if |fields| < 2 {
          return Err(BadMediaLine);
        }
        var port := Atoi(fields[1]);
        if port.None? {
          return Err(BadPort);
        }
        streams := streams + [Endpoint(sessionHost, port.value)];
      } else if HasPrefix(line, CONN) {
        var addr := line[|CONN|..];
        if |streams| > 0 {
          streams := streams[|streams| - 1 := streams[|streams| - 1].(host := addr)];
        } else {
          sessionHost := addr;
        }
      }
    }
    if |streams| < 2 {
      return Err(TooFewStreams);
    }
    return Ok((streams[0], streams[1]));
  }

  // ----- parsePortRange ------------------------------------------------------

  /** SplitN(s, "-", 2): the text before the first dash and the text after it. */
  function CutDash(s: string): Option<(string, string)> {
    if s == "" then None
    else if s[0] == '-' then Some(("", s[1..]))
    else match CutDash(s[1..])
      case None => None
      case Some((a, b)) => Some(([s[0]] + a, b))
  }

  function ParsePortRange(s: string): (r: Option<(int, int)>)
    ensures r.Some? ==> 0 < r.value.0 < r.value.1 && r.value.0 % 2 == 0
  {
    match CutDash(s)
    case None => None
    case Some((a, b)) =>
      if Atoi(a).None? || Atoi(b).None? then None
      else
        var min, max := Atoi(a).value, Atoi(b).value;
        if min <= 0 || min % 2 != 0 || min >= max then None else Some((min, max))
  }

  lemma {:induction false} CutAtDash(a: string, b: string)
    requires '-' !in a
    ensures CutDash(a + "-" + b) == Some((a, b))
  {
    var s := a + "-" + b;
    if a == "" {
      assert s[1..] == b;
    } else {
      assert a[0] in a;
      assert s[0] == a[0] && s[1..] == a[1..] + "-" + b;
      CutAtDash(a[1..], b);
      assert a == [a[0]] + a[1..];
    }
  }

  /** What stands before the first dash and behind it. */
  lemma {:induction false} CutIs(s: string)
    ensures CutDash(s).None? <==> '-' !in s
    ensures CutDash(s).Some? ==> '-' !in CutDash(s).value.0 && s == CutDash(s).value.0 + "-" + CutDash(s).value.1
  {
    if s != "" {
      assert s == [s[0]] + s[1..];
      if s[0] != '-' {
        CutIs(s[1..]);
      } else {
        assert s == "" + "-" + s[1..];
      }
    }
  }

  /** s is two numbers joined by its first dash. */
  predicate RangeText(s: string, a: string, b: string, min: int, max: int) {
    s == a + "-" + b && '-' !in a && Atoi(a) == Some(min) && Atoi(b) == Some(max)
  }

  /** Every text: it is accepted as a range exactly when it is two numbers joined by its first
      dash, the first of them positive, even and below the second; and it is read as those. */
  lemma PortRangeRead(s: string, min: int, max: int)
    ensures ParsePortRange(s) == Some((min, max)) <==>
              0 < min < max && min % 2 == 0 && exists a, b :: RangeText(s, a, b, min, max)
  {
    CutIs(s);
    if ParsePortRange(s) == Some((min, max)) {
      var (a, b) := CutDash(s).value;
      assert RangeText(s, a, b, min, max);
    }
    if a, b :| RangeText(s, a, b, min, max) {
      CutAtDash(a, b);
    }
  }
}
