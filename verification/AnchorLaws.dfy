/** When a peer that parses an anchored body arrives at the anchor. */
module AnchorLaws {
  import opened Sdp
  import opened SdpLaws
  import opened Text
  import opened Wrappers

  /** The last address among the connection lines of ls, or d. */
  function LastAddress(ls: seq<string>, d: string): string {
    if ls == [] then d
    else LastAddress(ls[1..], if HasPrefix(ls[0], CONN) then ls[0][|CONN|..] else d)
  }

  /** h if it is not empty, and else the first address of ls that is not empty. */
  function FirstAddress(ls: seq<string>, h: string): string {
    if ls == [] then h
    else FirstAddress(ls[1..], if HasPrefix(ls[0], CONN) && h == "" then ls[0][|CONN|..] else h)
  }

  lemma {:induction false} FoldOutside(st: MediaScan, ls: seq<string>)
    requires !st.inAudio || (ls != [] && HasPrefix(ls[0], MEDIA))
    requires forall i | 0 <= i < |ls| :: !HasPrefix(ls[i], AUDIO)
    ensures MediaFold(st, ls)
         == Ok(MediaScan(FirstAddress(ls, st.host), LastAddress(ls, st.sessionHost), st.port, false))
    decreases |ls|
  {
    if ls != [] {
      OnePrefix(ls[0]);
      FoldOutside(MediaStep(st, ls[0]).value, ls[1..]);
    }
  }

  lemma {:induction false} FoldInside(st: MediaScan, ls: seq<string>)
    requires st.inAudio
    requires forall i | 0 <= i < |ls| :: !HasPrefix(ls[i], MEDIA)
    ensures MediaFold(st, ls) == Ok(st.(host := LastAddress(ls, st.host)))
    decreases |ls|
  {
    if ls != [] {
      FoldInside(MediaStep(st, ls[0]).value, ls[1..]);
    }
  }

  /** Exactly one audio line, at index a. */
  predicate OneAudio(ls: seq<string>, a: nat) {
    a < |ls| && HasPrefix(ls[a], AUDIO) && forall i | 0 <= i < |ls| && i != a :: !HasPrefix(ls[i], AUDIO)
  }

  /** Index of the line that ends the audio section. */
  function SectionEnd(ls: seq<string>, a: nat): (e: nat)
    requires a < |ls|
    ensures a < e <= |ls|
  {
    a + 1 + First(ls[a + 1..], MEDIA)
  }

  /** The host parseMedia arrives at: the last connection address up to the end of the
      audio section and, only if that is empty, the first non-empty one after it. */
  function MediaHost(ls: seq<string>, a: nat): string
    requires a < |ls|
  {
    var e := SectionEnd(ls, a);
    FirstAddress(ls[e..], LastAddress(ls[a + 1..e], LastAddress(ls[..a], "")))
  }

  lemma MediaOfOneAudio(ls: seq<string>, a: nat)
    requires OneAudio(ls, a) && |Fields(ls[a])| >= 2 && Atoi(Fields(ls[a])[1]).Some?
    ensures MediaFold(NO_MEDIA, ls).Ok?
    ensures MediaFold(NO_MEDIA, ls).value.host == MediaHost(ls, a)
    ensures MediaFold(NO_MEDIA, ls).value.port == Atoi(Fields(ls[a])[1]).value
  {
    var e := SectionEnd(ls, a);
    var pre, block, post := ls[..a], ls[a + 1..e], ls[e..];
    assert ls == pre + ([ls[a]] + (block + post));
    FoldOutside(NO_MEDIA, pre);
    FoldAppend(NO_MEDIA, pre, [ls[a]] + (block + post));
    var s := MediaFold(NO_MEDIA, pre).value;
    FoldAudio(s, ls[a], block + post);
    var t := MediaStep(s, ls[a]).value;
    SectionParts(ls, a);
    FoldAppend(t, block, post);
    FoldInside(t, block);
    FoldAfter(MediaFold(t, block).value, post);
  }

  lemma FoldAudio(st: MediaScan, line: string, rest: seq<string>)
    requires HasPrefix(line, AUDIO) && |Fields(line)| >= 2 && Atoi(Fields(line)[1]).Some?
    ensures MediaStep(st, line) == Ok(MediaScan(st.sessionHost, st.sessionHost, Atoi(Fields(line)[1]).value, true))
    ensures MediaFold(st, [line] + rest) == MediaFold(MediaStep(st, line).value, rest)
  {
    OnePrefix(line);
    assert ([line] + rest)[1..] == rest && ([line] + rest)[0] == line;
  }

  /** The lines after a section: parsing leaves the audio section at the first of them. */
  lemma FoldAfter(st: MediaScan, post: seq<string>)
    requires forall i | 0 <= i < |post| :: !HasPrefix(post[i], AUDIO)
    requires post != [] ==> HasPrefix(post[0], MEDIA)
    ensures MediaFold(st, post).Ok?
    ensures MediaFold(st, post).value.host == FirstAddress(post, st.host)
    ensures MediaFold(st, post).value.port == st.port
  {
    if post != [] {
      FoldOutside(st, post);
    }
  }

  ghost predicate NoMedia(ls: seq<string>) {
    forall i | 0 <= i < |ls| :: !HasPrefix(ls[i], MEDIA)
  }

  ghost predicate NoAudioLine(ls: seq<string>) {
    forall i | 0 <= i < |ls| :: !HasPrefix(ls[i], AUDIO)
  }

  lemma SectionParts(ls: seq<string>, a: nat)
    requires OneAudio(ls, a)
    ensures var e := SectionEnd(ls, a);
            NoMedia(ls[a + 1..e]) && NoAudioLine(ls[e..]) && (ls[e..] != [] ==> HasPrefix(ls[e..][0], MEDIA))
  {
    var e, rest := SectionEnd(ls, a), ls[a + 1..];
    FirstFacts(rest, MEDIA);
    var block, post := ls[a + 1..e], ls[e..];
    assert forall i | 0 <= i < |block| :: block[i] == rest[i];
    assert forall i | 0 <= i < |post| :: post[i] == ls[e + i];
    assert post != [] ==> post[0] == rest[e - a - 1];
  }

  // ----- When the anchor is what the peer reads ------------------------------

  /** Number of connection lines up to the end of the audio section. */
  function ConnsInReach(ls: seq<string>, a: nat): nat
    requires a < |ls|
  {
    |Select(ls[..SectionEnd(ls, a)], CONN)|
  }

  lemma {:induction false} LastAddressKeeps(a: seq<string>, b: seq<string>, d1: string, d2: string)
    requires |a| == |b|
    requires forall i | 0 <= i < |a| :: HasPrefix(a[i], CONN) == HasPrefix(b[i], CONN)
    requires forall i | 0 <= i < |a| && HasPrefix(a[i], CONN) :: a[i] == b[i]
    requires d1 == d2 || exists i | 0 <= i < |a| :: HasPrefix(a[i], CONN)
    ensures LastAddress(a, d1) == LastAddress(b, d2)
  {
    if a != [] {
      LastAddressKeeps(a[1..], b[1..],
        if HasPrefix(a[0], CONN) then a[0][|CONN|..] else d1,
        if HasPrefix(b[0], CONN) then b[0][|CONN|..] else d2);
    }
  }

  lemma {:induction false} LastAddressAppend(a: seq<string>, b: seq<string>, d: string)
    ensures LastAddress(a + b, d) == LastAddress(b, LastAddress(a, d))
  {
    if a == [] {
      assert a + b == b;
    } else {
      assert (a + b)[1..] == a[1..] + b;
      LastAddressAppend(a[1..], b, if HasPrefix(a[0], CONN) then a[0][|CONN|..] else d);
    }
  }

  lemma {:induction false} LastAddressNone(ls: seq<string>, d: string)
    requires forall i | 0 <= i < |ls| :: !HasPrefix(ls[i], CONN)
    ensures LastAddress(ls, d) == d
  {
    if ls != [] {
      LastAddressNone(ls[1..], d);
    }
  }

  lemma {:induction false} FirstAddressSame(a: seq<string>, b: seq<string>, h: string)
    requires |a| == |b|
    requires forall i | 0 <= i < |a| :: HasPrefix(a[i], CONN) == HasPrefix(b[i], CONN)
    requires forall i | 0 <= i < |a| && HasPrefix(a[i], CONN) :: a[i] == b[i]
    ensures FirstAddress(a, h) == FirstAddress(b, h)
  {
    if a != [] {
      FirstAddressSame(a[1..], b[1..], if HasPrefix(a[0], CONN) && h == "" then a[0][|CONN|..] else h);
    }
  }

  lemma {:induction false} FirstAddressSettled(ls: seq<string>, h: string)
    requires h != ""
    ensures FirstAddress(ls, h) == h
  {
    if ls != [] {
      FirstAddressSettled(ls[1..], h);
    }
  }

  lemma {:induction false} FirstAddressAt(ls: seq<string>, k: nat)
    requires k < |ls| && First(ls, CONN) == k && |ls[k]| > |CONN|
    ensures FirstAddress(ls, "") == ls[k][|CONN|..]
  {
    if k == 0 {
      FirstAddressSettled(ls[1..], ls[0][|CONN|..]);
    } else {
      FirstAddressAt(ls[1..], k - 1);
    }
  }

  lemma SelectCount(ls: seq<string>)
    ensures |Select(ls, CONN)| == 0 <==> First(ls, CONN) == |ls|
    ensures First(ls, CONN) < |ls| ==>
              |Select(ls, CONN)| == 1 + |Select(ls[First(ls, CONN) + 1..], CONN)|
  {
    var c := First(ls, CONN);
    FirstFacts(ls, CONN);
    if c == |ls| {
      SelectNone(ls, CONN);
    } else {
      var head, tail := ls[..c], ls[c + 1..];
      assert ls == head + ([ls[c]] + tail);
      SelectNone(head, CONN);
      SelectAppend(head, [ls[c]] + tail, CONN);
      SelectAppend([ls[c]], tail, CONN);
      SelectSnoc([], ls[c], CONN);
      assert [] + [ls[c]] == [ls[c]];
    }
  }

  /** The host of the reach: the last address up to the end of the audio section. */
  lemma ReachHost(ls: seq<string>, a: nat)
    requires OneAudio(ls, a)
    ensures MediaHost(ls, a)
         == FirstAddress(ls[SectionEnd(ls, a)..], LastAddress(ls[..SectionEnd(ls, a)], ""))
  {
    var e := SectionEnd(ls, a);
    ConnNotAudio(ls[a]);
    assert ls[..e] == ls[..a] + ([ls[a]] + ls[a + 1..e]);
    LastAddressAppend(ls[..a], [ls[a]] + ls[a + 1..e], "");
    LastAddressAppend([ls[a]], ls[a + 1..e], LastAddress(ls[..a], ""));
    LastAddressNone([ls[a]], LastAddress(ls[..a], ""));
  }

  /** The lines out differ from ls in the first connection line alone, which holds host;
      lines that are not connection lines may differ. */
  ghost predicate FirstConnReplaced(ls: seq<string>, out: seq<string>, host: string) {
    && |out| == |ls|
    && (forall i | 0 <= i < |ls| :: HasPrefix(out[i], CONN) == HasPrefix(ls[i], CONN))
    && (forall i | 0 <= i < |ls| && i != First(ls, CONN) && HasPrefix(ls[i], CONN) :: out[i] == ls[i])
    && (First(ls, CONN) < |ls| ==> out[First(ls, CONN)] == CONN + host)
  }

  /** The host read inside the reach, when the first connection line is in it. */
  lemma ReplacedWithinReach(ls: seq<string>, out: seq<string>, host: string)
    requires FirstConnReplaced(ls, out, host) && host != ""
    requires First(ls, CONN) < |ls|
    ensures |Select(ls, CONN)| == 1 ==> LastAddress(out, "") == host
    ensures |Select(ls, CONN)| >= 2 ==> LastAddress(out, "") == LastAddress(ls, "")
  {
    var c := First(ls, CONN);
    FirstFacts(ls, CONN);
    SelectCount(ls);
    LastAddressSplit(ls, c);
    LastAddressSplit(out, c);
    assert out[c][|CONN|..] == host;
    ReplacedAfter(ls, out, host, ls[c][|CONN|..]);
  }

  lemma ReplacedAfter(ls: seq<string>, out: seq<string>, host: string, d: string)
    requires FirstConnReplaced(ls, out, host) && First(ls, CONN) < |ls|
    ensures LastAddress(out[First(ls, CONN) + 1..], host)
         == if |Select(ls[First(ls, CONN) + 1..], CONN)| == 0 then host else LastAddress(ls[First(ls, CONN) + 1..], d)
  {
    var c := First(ls, CONN);
    var lt, ot := ls[c + 1..], out[c + 1..];
    forall i | 0 <= i < |lt|
      ensures HasPrefix(ot[i], CONN) == HasPrefix(lt[i], CONN)
      ensures HasPrefix(ot[i], CONN) ==> ot[i] == lt[i]
    {
      assert ot[i] == out[c + 1 + i] && lt[i] == ls[c + 1 + i];
    }
    SelectCount(lt);
    FirstFacts(lt, CONN);
    if |Select(lt, CONN)| == 0 {
      LastAddressNone(ot, host);
    } else {
      assert HasPrefix(lt[First(lt, CONN)], CONN);
      LastAddressKeeps(ot, lt, host, d);
    }
  }

  lemma LastAddressSplit(ls: seq<string>, c: nat)
    requires c < |ls| && HasPrefix(ls[c], CONN)
    ensures LastAddress(ls, "") == LastAddress(ls[c + 1..], ls[c][|CONN|..])
  {
    var head, tail := ls[..c], [ls[c]] + ls[c + 1..];
    assert ls == head + tail;
    LastAddressAppend(head, tail, "");
    var d := LastAddress(head, "");
    assert tail[0] == ls[c] && tail[1..] == ls[c + 1..];
    assert LastAddress(tail, d) == LastAddress(tail[1..], tail[0][|CONN|..]);
  }

  lemma ReplacedPrefix(ls: seq<string>, out: seq<string>, host: string, e: nat)
    requires FirstConnReplaced(ls, out, host) && First(ls, CONN) < e <= |ls|
    ensures First(ls[..e], CONN) == First(ls, CONN)
    ensures FirstConnReplaced(ls[..e], out[..e], host)
  {
    FirstInPrefix(ls, e);
    var c, l, o := First(ls, CONN), ls[..e], out[..e];
    assert o[c] == out[c];
    forall i | 0 <= i < e
      ensures HasPrefix(o[i], CONN) == HasPrefix(l[i], CONN)
      ensures i != c && HasPrefix(l[i], CONN) ==> o[i] == l[i]
    {
      assert o[i] == out[i] && l[i] == ls[i];
    }
  }

  lemma FirstInPrefix(ls: seq<string>, e: nat)
    requires e <= |ls|
    ensures First(ls[..e], CONN) == if First(ls, CONN) < e then First(ls, CONN) else e
    ensures e <= First(ls, CONN) ==> First(ls[e..], CONN) == First(ls, CONN) - e
  {
    var l, t := ls[..e], ls[e..];
    assert ls == l + t;
    FirstAppend(l, t, CONN);
  }

  lemma ReplacedSuffix(ls: seq<string>, out: seq<string>, host: string, e: nat)
    requires FirstConnReplaced(ls, out, host) && e <= First(ls, CONN) < |ls|
    ensures |Select(ls[..e], CONN)| == 0 && LastAddress(out[..e], "") == ""
    ensures host != "" ==> FirstAddress(out[e..], "") == host
  {
    var c := First(ls, CONN);
    FirstFacts(ls, CONN);
    SelectNone(ls[..e], CONN);
    LastAddressNone(out[..e], "");
    FirstInPrefix(ls, e);
    SuffixSame(ls, out, host, e);
    AddressAt(out[e..], c - e, CONN + host);
    assert (CONN + host)[|CONN|..] == host;
  }

  lemma AddressAt(ls: seq<string>, k: nat, l: string)
    requires k < |ls| && First(ls, CONN) == k && ls[k] == l
    ensures |l| > |CONN| ==> FirstAddress(ls, "") == l[|CONN|..]
  {
    if |l| > |CONN| {
      FirstAddressAt(ls, k);
    }
  }

  lemma SuffixSame(ls: seq<string>, out: seq<string>, host: string, e: nat)
    requires FirstConnReplaced(ls, out, host) && e <= |ls|
    ensures First(out[e..], CONN) == First(ls[e..], CONN)
    ensures First(ls, CONN) < e ==>
              FirstAddress(out[e..], LastAddress(ls[..e], "")) == FirstAddress(ls[e..], LastAddress(ls[..e], ""))
  {
    var lt, ot := ls[e..], out[e..];
    forall i | 0 <= i < |lt|
      ensures HasPrefix(ot[i], CONN) == HasPrefix(lt[i], CONN)
      ensures First(ls, CONN) < e && HasPrefix(ot[i], CONN) ==> ot[i] == lt[i]
    {
      assert ot[i] == out[e + i] && lt[i] == ls[e + i];
    }
    FirstSame(ot, lt, CONN);
    if First(ls, CONN) < e {
      FirstAddressSame(ot, lt, LastAddress(ls[..e], ""));
    }
  }

  lemma ReplacedHost(ls: seq<string>, out: seq<string>, host: string, a: nat)
    requires FirstConnReplaced(ls, out, host) && host != ""
    requires OneAudio(ls, a) && OneAudio(out, a) && SectionEnd(out, a) == SectionEnd(ls, a)
    requires First(ls, CONN) < |ls|
    ensures MediaHost(out, a) == if ConnsInReach(ls, a) <= 1 then host else MediaHost(ls, a)
  {
    var e := SectionEnd(ls, a);
    ReachHost(ls, a);
    ReachHost(out, a);
    if First(ls, CONN) < e {
      ReplacedPrefix(ls, out, host, e);
      SelectCount(ls[..e]);
      ReplacedWithinReach(ls[..e], out[..e], host);
      if ConnsInReach(ls, a) == 1 {
        FirstAddressSettled(out[e..], host);
      } else {
        SuffixSame(ls, out, host, e);
      }
    } else {
      ReplacedSuffix(ls, out, host, e);
    }
  }

  lemma MediaReadsHost(ls: seq<string>, isIP: string -> bool, a: nat, port: int)
    requires OneAudio(ls, a) && |Fields(ls[a])| >= 2 && Atoi(Fields(ls[a])[1]) == Some(port) && port != 0
    ensures var h := MediaHost(ls, a);
            Media(ls, isIP) == if h == "" then Err(NoAddress) else if !isIP(h) then Err(NotIpLiteral)
                               else Ok(Endpoint(h, port))
  {
    MediaOfOneAudio(ls, a);
  }

  // ----- Several audio sections ----------------------------------------------

  /** Which lines stand in an audio section that another audio section follows: parsing forgets
      what they said. */
  function Forgotten(ls: seq<string>, inside: bool): (r: seq<bool>)
    ensures |r| == |ls|
  {
    if ls == [] then []
    else
      var rest := ls[1..];
      var next := if HasPrefix(ls[0], MEDIA) then HasPrefix(ls[0], AUDIO) && First(rest, AUDIO) < |rest| else inside;
      [next] + Forgotten(rest, next)
  }

  /** The lines that count, in their places. */
  function Counting(ls: seq<string>, forgotten: seq<bool>): (r: seq<string>)
    requires |forgotten| == |ls|
    ensures |r| == |ls|
    ensures forall i | 0 <= i < |ls| :: r[i] == if forgotten[i] then "" else ls[i]
  {
    seq(|ls|, i requires 0 <= i < |ls| => if forgotten[i] then "" else ls[i])
  }

  function Counted(ls: seq<string>): (r: seq<string>)
    ensures |r| == |ls|
  {
    Counting(ls, Forgotten(ls, false))
  }

  /** The last audio line: the one whose section and port count. */
  function LastAudio(ls: seq<string>): (a: nat)
    ensures a <= |ls|
  {
    First(Counted(ls), AUDIO)
  }

  lemma CountingFirst(ls: seq<string>, inside: bool)
    requires ls != []
    ensures var f := Forgotten(ls, inside);
      && f[1..] == Forgotten(ls[1..], f[0])
      && Counting(ls, f) == [if f[0] then "" else ls[0]] + Counting(ls[1..], f[1..])
  {
    var f := Forgotten(ls, inside);
    assert f == [f[0]] + Forgotten(ls[1..], f[0]);
    CountingCons(ls, f);
  }

  lemma CountingCons(ls: seq<string>, f: seq<bool>)
    requires ls != [] && |f| == |ls|
    ensures Counting(ls, f) == [if f[0] then "" else ls[0]] + Counting(ls[1..], f[1..])
  {
  }

  lemma {:induction false} AllCount(ls: seq<string>)
    requires First(ls, AUDIO) == |ls|
    ensures Counting(ls, Forgotten(ls, false)) == ls
  {
    if ls != [] {
      AllCount(ls[1..]);
      CountingFirst(ls, false);
    }
  }

  lemma OneAudioFirst(l: string, ms: seq<string>)
    requires HasPrefix(l, AUDIO) && First(ms, AUDIO) == |ms|
    ensures OneAudio([l] + ms, 0) && First([l] + ms, AUDIO) == 0
  {
    FirstFacts(ms, AUDIO);
  }

  lemma OneAudioBehind(l: string, ms: seq<string>, a: nat)
    requires !HasPrefix(l, AUDIO) && OneAudio(ms, a) && First(ms, AUDIO) == a
    ensures OneAudio([l] + ms, a + 1) && First([l] + ms, AUDIO) == a + 1
  {
    assert ([l] + ms)[1..] == ms;
    forall i | 0 <= i < |ms| + 1 && i != a + 1 ensures !HasPrefix(([l] + ms)[i], AUDIO) {
      if i > 0 {
        assert ([l] + ms)[i] == ms[i - 1];
      }
    }
  }

  lemma {:induction false} OneCounts(ls: seq<string>, inside: bool)
    requires First(ls, AUDIO) < |ls|
    ensures var ms := Counting(ls, Forgotten(ls, inside)); OneAudio(ms, First(ms, AUDIO))
  {
    var f, rest := Forgotten(ls, inside), ls[1..];
    OnePrefix(ls[0]);
    CountingFirst(ls, inside);
    var l, ms := if f[0] then "" else ls[0], Counting(rest, f[1..]);
    if First(rest, AUDIO) < |rest| {
      OneCounts(rest, f[0]);
      OneAudioBehind(l, ms, First(ms, AUDIO));
    } else {
      AllCount(rest);
      OneAudioFirst(l, ms);
    }
  }

  /** A line's port can be read if it is an audio line. */
  predicate PortReads(l: string) {
    HasPrefix(l, AUDIO) ==> |Fields(l)| >= 2 && Atoi(Fields(l)[1]).Some?
  }

  predicate PortsRead(ls: seq<string>) {
    forall i | 0 <= i < |ls| :: PortReads(ls[i])
  }

  lemma PortsReadCons(ls: seq<string>)
    requires ls != []
    ensures PortsRead(ls) <==> PortReads(ls[0]) && PortsRead(ls[1..])
  {
    assert forall i | 0 <= i < |ls[1..]| :: ls[1..][i] == ls[i + 1];
    if PortReads(ls[0]) && PortsRead(ls[1..]) {
      forall i | 0 <= i < |ls| ensures PortReads(ls[i]) {
        assert i > 0 ==> ls[i] == ls[1..][i - 1];
      }
    }
  }

  /** Parsing goes through exactly when every audio line's port can be read, and then reads what
      it would read of the counting lines alone. */
  lemma {:induction false} FoldCounts(st: MediaScan, st': MediaScan, ls: seq<string>)
    requires First(ls, AUDIO) < |ls| && !st'.inAudio && st.sessionHost == st'.sessionHost
    ensures MediaFold(st, ls).Ok? <==> PortsRead(ls)
    ensures var r := MediaFold(st', Counting(ls, Forgotten(ls, st.inAudio)));
      MediaFold(st, ls).Ok? ==>
        r.Ok? && r.value.host == MediaFold(st, ls).value.host && r.value.port == MediaFold(st, ls).value.port
    decreases |ls|
  {
    var rest, f := ls[1..], Forgotten(ls, st.inAudio);
    OnePrefix(ls[0]);
    CountingFirst(ls, st.inAudio);
    PortsReadCons(ls);
    if PortReads(ls[0]) {
      var next := MediaStep(st, ls[0]).value;
      if First(rest, AUDIO) < |rest| {
        FoldCounts(next, if f[0] then st' else MediaStep(st', ls[0]).value, rest);
      } else {
        FirstIs(ls, 0, AUDIO);
        AllCount(rest);
        FoldReads(next, rest);
        assert MediaStep(st', ls[0]) == Ok(next);
      }
    }
  }

  lemma {:induction false} FoldReads(st: MediaScan, ls: seq<string>)
    requires First(ls, AUDIO) == |ls|
    ensures MediaFold(st, ls).Ok?
    ensures PortsRead(ls)
    decreases |ls|
  {
    FirstFacts(ls, AUDIO);
    if ls != [] {
      FoldReads(MediaStep(st, ls[0]).value, ls[1..]);
    }
  }

  lemma LastReads(ls: seq<string>)
    requires First(ls, AUDIO) < |ls| && PortsRead(ls)
    ensures var (ms, a) := (Counted(ls), LastAudio(ls));
      OneAudio(ms, a) && |Fields(ms[a])| >= 2 && Atoi(Fields(ms[a])[1]).Some?
  {
    OneCounts(ls, false);
    var a := LastAudio(ls);
    assert Counted(ls)[a] == ls[a] && PortReads(ls[a]);
  }

  lemma AcceptedAlike(st: MediaScan, host: string, port: int, isIP: string -> bool)
    requires st.host == host && st.port == port
    ensures Accept(st, isIP) == Accept(MediaScan(host, "", port, false), isIP)
  {
  }

  /** What parsing comes to, for any body with an audio line. */
  lemma MediaIs(ls: seq<string>, isIP: string -> bool)
    requires First(ls, AUDIO) < |ls|
    ensures OneAudio(Counted(ls), LastAudio(ls))
    ensures !PortsRead(ls) ==> Media(ls, isIP).Err?
    ensures PortsRead(ls) ==>
              var (ms, a) := (Counted(ls), LastAudio(ls));
              && |Fields(ms[a])| >= 2 && Atoi(Fields(ms[a])[1]).Some?
              && Media(ls, isIP) == Accept(MediaScan(MediaHost(ms, a), "", Atoi(Fields(ms[a])[1]).value, false), isIP)
  {
    OneCounts(ls, false);
    FoldCounts(NO_MEDIA, NO_MEDIA, ls);
    if PortsRead(ls) {
      LastReads(ls);
      var ms, a := Counted(ls), LastAudio(ls);
      MediaOfOneAudio(ms, a);
      AcceptedAlike(MediaFold(NO_MEDIA, ls).value, MediaHost(ms, a), Atoi(Fields(ms[a])[1]).value, isIP);
    }
  }

  // ----- The anchored body ---------------------------------------------------

  lemma {:induction false} SameForgotten(ls: seq<string>, out: seq<string>, inside: bool)
    requires SameKinds(ls, out)
    ensures Forgotten(out, inside) == Forgotten(ls, inside)
  {
    if ls != [] {
      assert SameKind(ls[0], out[0]);
      TailSame(ls, out);
      FirstSame(out[1..], ls[1..], AUDIO);
      SameForgotten(ls[1..], out[1..], Forgotten(ls, inside)[0]);
    }
  }

  lemma TailSame(ls: seq<string>, out: seq<string>)
    requires SameKinds(ls, out) && ls != []
    ensures SameKinds(ls[1..], out[1..])
  {
    forall i | 0 <= i < |ls| - 1 ensures SameKind(ls[1..][i], out[1..][i]) {
      assert SameKind(ls[i + 1], out[i + 1]);
    }
  }

  /** The counting lines of the anchored body are those of the body, anchored. */
  lemma CountedAnchored(ls: seq<string>, out: seq<string>)
    requires SameKinds(ls, out)
    ensures SameKinds(Counted(ls), Counted(out)) && LastAudio(out) == LastAudio(ls)
    ensures forall i | 0 <= i < |ls| :: Counted(out)[i] == if Forgotten(ls, false)[i] then "" else out[i]
  {
    SameForgotten(ls, out, false);
    var ms, mo := Counted(ls), Counted(out);
    forall i | 0 <= i < |ls| ensures SameKind(ms[i], mo[i]) {
      assert SameKind(ls[i], out[i]);
    }
    FirstSame(mo, ms, AUDIO);
  }

  /** The first connection line counts. */
  predicate FirstConnCounts(ls: seq<string>) {
    First(ls, CONN) < |ls| && First(Counted(ls), CONN) == First(ls, CONN)
  }

  lemma CountedConns(ls: seq<string>)
    ensures FirstConnCounts(ls) <==> First(ls, CONN) < |ls| && !Forgotten(ls, false)[First(ls, CONN)]
  {
    var c, ms := First(ls, CONN), Counted(ls);
    FirstFacts(ls, CONN);
    FirstFacts(ms, CONN);
    if c < |ls| {
      FirstIs(ms, c, CONN);
      assert forall i | 0 <= i < c :: !HasPrefix(ms[i], CONN);
    }
  }

  ghost predicate ConnsKept(ls: seq<string>, out: seq<string>) {
    |ls| == |out| && forall i | 0 <= i < |ls| && HasPrefix(ls[i], CONN) :: out[i] == ls[i]
  }

  lemma SameHost(ls: seq<string>, out: seq<string>, a: nat)
    requires OneAudio(ls, a) && OneAudio(out, a) && SameKinds(ls, out)
    requires ConnsKept(ls, out)
    ensures MediaHost(out, a) == MediaHost(ls, a)
  {
    SameSection(ls, out, a);
    ReachHost(ls, a);
    ReachHost(out, a);
    var e := SectionEnd(ls, a);
    forall i | 0 <= i < e
      ensures HasPrefix(out[..e][i], CONN) == HasPrefix(ls[..e][i], CONN)
      ensures HasPrefix(out[..e][i], CONN) ==> out[..e][i] == ls[..e][i]
    {
      assert SameKind(ls[i], out[i]);
    }
    LastAddressKeeps(out[..e], ls[..e], "", "");
    forall i | 0 <= i < |ls| - e
      ensures HasPrefix(out[e..][i], CONN) == HasPrefix(ls[e..][i], CONN)
      ensures HasPrefix(out[e..][i], CONN) ==> out[e..][i] == ls[e..][i]
    {
      assert SameKind(ls[e + i], out[e + i]);
    }
    FirstAddressSame(out[e..], ls[e..], LastAddress(ls[..e], ""));
  }

  lemma CountedConn(ls: seq<string>, out: seq<string>, host: string, port: int, i: nat)
    requires Accepted(ls, host, port) && IsAnchored(ls, out, host, port) && SameKinds(ls, out)
    requires i < |ls| && HasPrefix(Counted(ls)[i], CONN)
    ensures Counted(out)[i] == if i == First(ls, CONN) then CONN + host else Counted(ls)[i]
  {
    CountedAnchored(ls, out);
    assert Counted(ls)[i] == ls[i] && out[i] == AnchoredLine(ls, i, host, port);
    FirstIs(ls, i, AUDIO);
    ConnNotAudio(ls[i]);
  }

  lemma CountedReplaced(ls: seq<string>, out: seq<string>, host: string, port: int)
    requires Accepted(ls, host, port) && IsAnchored(ls, out, host, port) && SameKinds(ls, out)
    ensures FirstConnCounts(ls) ==> FirstConnReplaced(Counted(ls), Counted(out), host)
    ensures !FirstConnCounts(ls) ==> ConnsKept(Counted(ls), Counted(out))
  {
    var ms, mo := Counted(ls), Counted(out);
    CountedAnchored(ls, out);
    CountedConns(ls);
    FirstFacts(ms, CONN);
    forall i | 0 <= i < |ls| && HasPrefix(ms[i], CONN)
      ensures mo[i] == if i == First(ls, CONN) then CONN + host else ms[i]
    {
      CountedConn(ls, out, host, port, i);
    }
    forall i | 0 <= i < |ls| ensures HasPrefix(mo[i], CONN) == HasPrefix(ms[i], CONN) {
      assert SameKind(ms[i], mo[i]);
    }
  }

  /** The lines that count, before and after, have one audio line, the same. */
  lemma BothOneAudio(ls: seq<string>, out: seq<string>)
    requires SameKinds(ls, out) && First(ls, AUDIO) < |ls|
    ensures OneAudio(Counted(ls), LastAudio(ls)) && OneAudio(Counted(out), LastAudio(ls))
    ensures LastAudio(out) == LastAudio(ls) && SameKinds(Counted(ls), Counted(out))
  {
    OneCounts(ls, false);
    FirstSame(out, ls, AUDIO);
    OneCounts(out, false);
    CountedAnchored(ls, out);
  }

  lemma HostOfTwo(ms: seq<string>, mo: seq<string>, a: nat, host: string, counts: bool)
    requires OneAudio(ms, a) && OneAudio(mo, a) && SameKinds(ms, mo) && host != ""
    requires if counts then First(ms, CONN) < |ms| && FirstConnReplaced(ms, mo, host) else ConnsKept(ms, mo)
    ensures MediaHost(mo, a) == if counts && ConnsInReach(ms, a) <= 1 then host else MediaHost(ms, a)
  {
    if counts {
      SameSection(ms, mo, a);
      ReplacedHost(ms, mo, host, a);
    } else {
      SameHost(ms, mo, a);
    }
  }

  /** The host read of the anchored body: the anchor's when the first connection line counts and
      no other reaches the last audio section, and the original's otherwise. */
  lemma AnchoredHost(ls: seq<string>, out: seq<string>, host: string, port: int)
    requires Accepted(ls, host, port) && IsAnchored(ls, out, host, port) && SameKinds(ls, out)
    requires First(ls, AUDIO) < |ls|
    ensures OneAudio(Counted(ls), LastAudio(ls)) && LastAudio(out) == LastAudio(ls)
    ensures MediaHost(Counted(out), LastAudio(ls))
         == if FirstConnCounts(ls) && ConnsInReach(Counted(ls), LastAudio(ls)) <= 1 then host
            else MediaHost(Counted(ls), LastAudio(ls))
  {
    BothOneAudio(ls, out);
    CountedReplaced(ls, out, host, port);
    HostOfTwo(Counted(ls), Counted(out), LastAudio(ls), host, FirstConnCounts(ls));
  }

  lemma SameSection(ls: seq<string>, out: seq<string>, a: nat)
    requires a < |ls| && SameKinds(ls, out)
    ensures SectionEnd(out, a) == SectionEnd(ls, a)
  {
    TailKinds(ls, out, a);
  }

  /** The port of the last audio line is the anchor's, and those of the audio lines between can be
      read. */
  predicate PortDecided(ls: seq<string>, port: int)
    requires LastAudio(ls) < |ls|
  {
    && (forall i | 0 <= i < |ls| && i != First(ls, AUDIO) :: PortReads(ls[i]))
    && (LastAudio(ls) != First(ls, AUDIO) ==>
          |Fields(Counted(ls)[LastAudio(ls)])| >= 2 && Atoi(Fields(Counted(ls)[LastAudio(ls)])[1]) == Some(port))
  }

  /** The address that counts is on the first connection line, or is the anchor's already. */
  predicate HostDecided(ls: seq<string>, host: string)
    requires LastAudio(ls) < |ls|
  {
    || (FirstConnCounts(ls) && ConnsInReach(Counted(ls), LastAudio(ls)) <= 1)
    || MediaHost(Counted(ls), LastAudio(ls)) == host
  }

  predicate ReadsAnchor(ls: seq<string>, isIP: string -> bool, host: string, port: int) {
    && isIP(host) && port <= INT64_MAX
    && LastAudio(ls) < |ls| && PortDecided(ls, port) && HostDecided(ls, host)
  }

  lemma ValueAbove(n: nat)
    requires n > INT64_MAX
    ensures Atoi(Itoa(n)) == None
  {
    ValueDigits(n);
    assert IsDigit(Digits(n)[0]);
  }

  lemma AnchoredPorts(ls: seq<string>, out: seq<string>, host: string, port: int)
    requires Accepted(ls, host, port) && IsAnchored(ls, out, host, port) && SameKinds(ls, out)
    requires First(ls, AUDIO) < |ls| && Fields(out[First(ls, AUDIO)]) == Fields(ls[First(ls, AUDIO)])[1 := Itoa(port)]
    ensures PortsRead(out)
       <==> port <= INT64_MAX && forall i | 0 <= i < |ls| && i != First(ls, AUDIO) :: PortReads(ls[i])
  {
    var a := First(ls, AUDIO);
    FirstFacts(ls, AUDIO);
    if port <= INT64_MAX {
      AtoiItoa(port);
    } else {
      ValueAbove(port);
    }
    assert SameKind(ls[a], out[a]);
    assert PortReads(out[a]) <==> port <= INT64_MAX;
    forall i | 0 <= i < |ls| && i != a ensures PortReads(out[i]) <==> PortReads(ls[i]) {
      assert SameKind(ls[i], out[i]) && out[i] == AnchoredLine(ls, i, host, port);
      FirstIs(ls, i, CONN);
      ConnNotAudio(ls[i]);
    }
  }

  /** When a peer that parses the anchored body arrives at the anchor, for every body that can be
      anchored: exactly if the host is an address and the port fits, the last audio line is the
      first one or names that port already, and the connection line that counts for it is the
      first one or names that host already. */
  lemma AnchorIsRead(sdp: string, isIP: string -> bool, host: string, port: int)
    requires Accepted(Lines(sdp), host, port) && Clean(host)
    ensures Rewrite(sdp, host, port).Ok?
    ensures Media(Lines(Rewrite(sdp, host, port).value), isIP) == Ok(Endpoint(host, port))
       <==> ReadsAnchor(Lines(sdp), isIP, host, port)
  {
    RewriteLines(sdp, host, port);
    LinesClean(sdp);
    var ls, out := Lines(sdp), Lines(Rewrite(sdp, host, port).value);
    AnchoredKinds(ls, out, host, port);
    AnchoredAudio(ls, out, host, port);
    if First(ls, AUDIO) < |ls| {
      ReadOfAnchored(ls, out, isIP, host, port);
    } else {
      NoAudioRead(out, isIP);
      AllCount(ls);
    }
  }

  lemma NoAudioRead(ls: seq<string>, isIP: string -> bool)
    requires First(ls, AUDIO) == |ls|
    ensures Media(ls, isIP) == Err(NoAudio)
  {
    FirstFacts(ls, AUDIO);
    FoldOutside(NO_MEDIA, ls);
  }

  lemma ReadOfAnchored(ls: seq<string>, out: seq<string>, isIP: string -> bool, host: string, port: int)
    requires Accepted(ls, host, port) && IsAnchored(ls, out, host, port) && SameKinds(ls, out)
    requires First(out, AUDIO) == First(ls, AUDIO) < |ls|
    requires Fields(out[First(ls, AUDIO)]) == Fields(ls[First(ls, AUDIO)])[1 := Itoa(port)]
    ensures Media(out, isIP) == Ok(Endpoint(host, port)) <==> ReadsAnchor(ls, isIP, host, port)
  {
    var a := LastAudio(ls);
    BothOneAudio(ls, out);
    HostIsDecided(ls, out, host, port);
    PortIsDecided(ls, out, host, port);
    MediaIs(out, isIP);
    if PortsRead(out) {
      LastReads(out);
      EndpointIff(MediaHost(Counted(out), a), Atoi(Fields(Counted(out)[a])[1]).value, isIP, host, port);
    }
  }

  lemma EndpointIff(h: string, n: int, isIP: string -> bool, host: string, port: int)
    requires host != "" && port != 0
    ensures Accept(MediaScan(h, "", n, false), isIP) == Ok(Endpoint(host, port))
      <==> isIP(host) && h == host && n == port
  {
  }

  lemma HostIsDecided(ls: seq<string>, out: seq<string>, host: string, port: int)
    requires Accepted(ls, host, port) && IsAnchored(ls, out, host, port) && SameKinds(ls, out)
    requires First(ls, AUDIO) < |ls|
    ensures LastAudio(ls) < |ls| && OneAudio(Counted(out), LastAudio(ls))
    ensures MediaHost(Counted(out), LastAudio(ls)) == host <==> HostDecided(ls, host)
  {
    BothOneAudio(ls, out);
    AnchoredHost(ls, out, host, port);
  }

  /** Whether the last audio port that is read is the anchor's. */
  lemma PortIsDecided(ls: seq<string>, out: seq<string>, host: string, port: int)
    requires Accepted(ls, host, port) && IsAnchored(ls, out, host, port) && SameKinds(ls, out)
    requires First(ls, AUDIO) < |ls| && Fields(out[First(ls, AUDIO)]) == Fields(ls[First(ls, AUDIO)])[1 := Itoa(port)]
    ensures LastAudio(ls) < |ls|
    ensures var f := Fields(Counted(out)[LastAudio(ls)]);
      PortsRead(out) && |f| >= 2 && Atoi(f[1]) == Some(port) <==> port <= INT64_MAX && PortDecided(ls, port)
  {
    AnchoredPorts(ls, out, host, port);
    LastPort(ls, out, host, port);
  }

  /** The port on the last audio line of the anchored body. */
  lemma LastPort(ls: seq<string>, out: seq<string>, host: string, port: int)
    requires Accepted(ls, host, port) && IsAnchored(ls, out, host, port) && SameKinds(ls, out)
    requires First(ls, AUDIO) < |ls| && Fields(out[First(ls, AUDIO)]) == Fields(ls[First(ls, AUDIO)])[1 := Itoa(port)]
    ensures var a := LastAudio(ls);
      && a < |ls|
      && Fields(Counted(out)[a])
         == if a == First(ls, AUDIO) then Fields(ls[a])[1 := Itoa(port)] else Fields(Counted(ls)[a])
    ensures port <= INT64_MAX ==> Atoi(Itoa(port)) == Some(port)
  {
    var a := LastAudio(ls);
    OneCounts(ls, false);
    CountedAnchored(ls, out);
    assert !Forgotten(ls, false)[a] && HasPrefix(ls[a], AUDIO);
    if a != First(ls, AUDIO) {
      assert out[a] == AnchoredLine(ls, a, host, port);
      FirstIs(ls, a, CONN);
      ConnNotAudio(ls[a]);
    }
    if port <= INT64_MAX {
      AtoiItoa(port);
    }
  }

  // ----- One audio line ------------------------------------------------------

  lemma OneAudioTail(ls: seq<string>, a: nat)
    requires OneAudio(ls, a)
    ensures First(ls, AUDIO) == a
    ensures a == 0 ==> First(ls[1..], AUDIO) == |ls| - 1
    ensures a > 0 ==> OneAudio(ls[1..], a - 1)
  {
    FirstIs(ls, a, AUDIO);
    FirstFacts(ls, AUDIO);
    FirstFacts(ls[1..], AUDIO);
    assert forall i | 0 <= i < |ls| - 1 :: ls[1..][i] == ls[i + 1];
  }

  lemma HeadCounts(ls: seq<string>, a: nat)
    requires OneAudio(ls, a)
    ensures !Forgotten(ls, false)[0]
  {
    OneAudioTail(ls, a);
    if a > 0 {
      assert !HasPrefix(ls[0], AUDIO);
    }
  }

  lemma CountsFrom(ls: seq<string>)
    requires ls != [] && !Forgotten(ls, false)[0] && Counted(ls[1..]) == ls[1..]
    ensures Counted(ls) == ls
  {
    CountingFirst(ls, false);
    assert Counted(ls) == [ls[0]] + ls[1..];
  }

  lemma {:induction false} NothingForgotten(ls: seq<string>, a: nat)
    requires OneAudio(ls, a)
    ensures Counted(ls) == ls
  {
    OneAudioTail(ls, a);
    HeadCounts(ls, a);
    if a == 0 {
      AllCount(ls[1..]);
    } else {
      NothingForgotten(ls[1..], a - 1);
    }
    CountsFrom(ls);
  }

  /** With one audio line and some connection line the condition is that at most one connection
      line stands before the end of the audio section, or the host was the anchor's already. */
  lemma AnchorIsReadPlainly(sdp: string, isIP: string -> bool, host: string, port: int, a: nat)
    requires Accepted(Lines(sdp), host, port) && Clean(host) && isIP(host) && port <= INT64_MAX
    requires OneAudio(Lines(sdp), a) && First(Lines(sdp), CONN) < |Lines(sdp)|
    ensures Rewrite(sdp, host, port).Ok?
    ensures Media(Lines(Rewrite(sdp, host, port).value), isIP) == Ok(Endpoint(host, port))
       <==> ConnsInReach(Lines(sdp), a) <= 1 || MediaHost(Lines(sdp), a) == host
  {
    AnchorIsRead(sdp, isIP, host, port);
    NothingForgotten(Lines(sdp), a);
    OneAudioTail(Lines(sdp), a);
  }

  /** One audio line and one connection line, wherever it sits: the anchor is what is read. */
  lemma AnchorIsReadOnce(sdp: string, isIP: string -> bool, host: string, port: int)
    requires Accepted(Lines(sdp), host, port) && Clean(host) && isIP(host) && port <= INT64_MAX
    requires OneAudio(Lines(sdp), First(Lines(sdp), AUDIO))
    requires |Select(Lines(sdp), CONN)| == 1
    ensures Rewrite(sdp, host, port).Ok?
    ensures Media(Lines(Rewrite(sdp, host, port).value), isIP) == Ok(Endpoint(host, port))
  {
    SelectCount(Lines(sdp));
    AnchorIsReadPlainly(sdp, isIP, host, port, First(Lines(sdp), AUDIO));
    OneConnInReach(Lines(sdp), First(Lines(sdp), AUDIO));
  }

  lemma OneConnInReach(ls: seq<string>, a: nat)
    requires a < |ls| && |Select(ls, CONN)| == 1
    ensures ConnsInReach(ls, a) <= 1
  {
    var e := SectionEnd(ls, a);
    assert ls == ls[..e] + ls[e..];
    SelectAppend(ls[..e], ls[e..], CONN);
  }

  /** A session address and a media address: the body on which anchoring the session's does not
      help, for any two addresses other than the anchor's. */
  function TwoAddresses(session: string, media: string): string {
    Join([CONN + session, "m=audio 9 RTP/AVP 0", CONN + media], '\n')
  }

  lemma TwoAddressLines(session: string, media: string)
    requires Clean(session) && Clean(media) && session != "" && media != ""
    ensures Lines(TwoAddresses(session, media)) == [CONN + session, "m=audio 9 RTP/AVP 0", CONN + media]
  {
    var line := "m=audio 9 RTP/AVP 0";
    CleanConn(session);
    CleanConn(media);
    SplitJoin([CONN + session, line, CONN + media], '\n');
  }

  /** A connection line, an audio line and another connection line. */
  lemma ThreeLines(c: string, m: string, d: string)
    requires HasPrefix(c, CONN) && HasPrefix(m, AUDIO) && HasPrefix(d, CONN) && |d| > |CONN|
    ensures First([c, m, d], CONN) == 0 && OneAudio([c, m, d], 1) && First([c, m, d], AUDIO) == 1
    ensures ConnsInReach([c, m, d], 1) == 2 && MediaHost([c, m, d], 1) == d[|CONN|..]
  {
    var ls := [c, m, d];
    OnePrefix(c);
    OnePrefix(m);
    OnePrefix(d);
    FirstIs(ls, 1, AUDIO);
    FirstIs(ls, 0, CONN);
    assert OneAudio(ls, 1);
    assert ls[2..] == [d] && First([d], MEDIA) == 1 && SectionEnd(ls, 1) == 3;
    assert ls[..3] == ls == ([] + [c]) + [m] + [d];
    SelectSnoc([], c, CONN);
    SelectSnoc([] + [c], m, CONN);
    SelectSnoc(([] + [c]) + [m], d, CONN);
    assert ls[2..3] == [d] && ls[3..] == [];
    assert LastAddress([d], LastAddress(ls[..1], "")) == d[|CONN|..] by {
      assert [d][1..] == [];
    }
  }

  lemma AudioNineFields()
    ensures HasPrefix("m=audio 9 RTP/AVP 0", AUDIO) && |Fields("m=audio 9 RTP/AVP 0")| >= 2
  {
    var ts := ["m=audio", "9", "RTP/AVP", "0"];
    assert ts[1..][1..][1..] == ["0"];
    assert Join(ts, ' ') == "m=audio" + [' '] + ("9" + [' '] + ("RTP/AVP" + [' '] + "0"));
    assert Join(ts, ' ') == "m=audio 9 RTP/AVP 0";
    FieldsJoin(ts);
    AudioJoined(ts);
  }

  lemma AnchorNotRead(session: string, media: string, isIP: string -> bool, host: string, port: int)
    requires Clean(session) && Clean(media) && session != "" && media != ""
    requires Clean(host) && host != "" && media != host && port > 0
    ensures var sdp := TwoAddresses(session, media);
      Rewrite(sdp, host, port).Ok? && Media(Lines(Rewrite(sdp, host, port).value), isIP) != Ok(Endpoint(host, port))
  {
    var c, m, d := CONN + session, "m=audio 9 RTP/AVP 0", CONN + media;
    TwoAddressLines(session, media);
    AudioNineFields();
    PrefixIs(c, CONN);
    PrefixIs(d, CONN);
    ThreeLines(c, m, d);
    assert d[|CONN|..] == media;
    NothingForgotten([c, m, d], 1);
    AnchorIsRead(TwoAddresses(session, media), isIP, host, port);
  }
}
