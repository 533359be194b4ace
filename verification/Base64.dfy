/** base64url without padding, section 5 of RFC 4648, as the token code uses it: the decoder
    skips line breaks and ignores left-over bits. */
module Base64 {
  import opened Octets
  import opened Wrappers

  // ----- The alphabet --------------------------------------------------------

  function Letter(v: int): (c: char)
    requires 0 <= v < 64
  {
    if v < 26 then ('A' as int + v) as char
    else if v < 52 then ('a' as int + v - 26) as char
    else if v < 62 then ('0' as int + v - 52) as char
    else if v == 62 then '-' else '_'
  }

  function Index(c: char): (v: Option<int>)
    ensures v.Some? ==> 0 <= v.value < 64
  {
    if 'A' <= c <= 'Z' then Some(c as int - 'A' as int)
    else if 'a' <= c <= 'z' then Some(c as int - 'a' as int + 26)
    else if '0' <= c <= '9' then Some(c as int - '0' as int + 52)
    else if c == '-' then Some(62)
    else if c == '_' then Some(63)
    else None
  }

  lemma IndexLetter(v: int)
    requires 0 <= v < 64
    ensures Index(Letter(v)) == Some(v)
  {
  }

  /** The alphabet of section 5 of RFC 4648. */
  lemma LetterIs(v: int)
    requires 0 <= v < 64
    ensures 0 <= v <= 25 ==> Letter(v) as int == 65 + v
    ensures 26 <= v <= 51 ==> Letter(v) as int == 97 + (v - 26)
    ensures 52 <= v <= 61 ==> Letter(v) as int == 48 + (v - 52)
    ensures v == 62 ==> Letter(v) == '-'
    ensures v == 63 ==> Letter(v) == '_'
  {
  }

  predicate UrlSafe(s: string) {
    forall i | 0 <= i < |s| :: Index(s[i]).Some?
  }

  // ----- Encoding ------------------------------------------------------------

  /** Three bytes, or the last one or two, as 6-bit values. */
  function Group(bs: seq<byte>): (vs: seq<int>)
    requires 1 <= |bs| <= 3
    ensures |vs| == |bs| + 1 && forall i | 0 <= i < |vs| :: 0 <= vs[i] < 64
  {
    var a := bs[0];
    if |bs| == 1 then [a / 4, a % 4 * 16]
    else
      var b := bs[1];
      if |bs| == 2 then [a / 4, a % 4 * 16 + b / 16, b % 16 * 4]
      else var c := bs[2]; [a / 4, a % 4 * 16 + b / 16, b % 16 * 4 + c / 64, c % 64]
  }

  function Values(bs: seq<byte>): (vs: seq<int>)
    ensures |vs| == (|bs| * 4 + 2) / 3
    ensures forall i | 0 <= i < |vs| :: 0 <= vs[i] < 64
  {
    if bs == [] then [] else if |bs| <= 3 then Group(bs) else Group(bs[..3]) + Values(bs[3..])
  }

  function Encode(bs: seq<byte>): (s: string)
    ensures |s| == (|bs| * 4 + 2) / 3
  {
    var vs := Values(bs);
    seq(|vs|, i requires 0 <= i < |vs| => Letter(vs[i]))
  }

  /** Three bytes are one number of 24 bits, and each of the first four letters stands for six of
      them, the first for the highest; what follows is encoded in the same way. */
  lemma FirstLetters(bs: seq<byte>)
    requires |bs| >= 3
    ensures |Encode(bs)| >= 4 && Values(bs)[..4] == Group(bs[..3])
    ensures forall k | 0 <= k < 4 :: Encode(bs)[k] == Letter(Group(bs[..3])[k])
    ensures |bs| > 3 ==> Encode(bs)[4..] == Encode(bs[3..])
  {
    FirstGroup(bs);
    assert forall k | 0 <= k < 4 :: Values(bs)[..4][k] == Values(bs)[k];
    if |bs| > 3 {
      LaterLetters(bs);
    }
  }

  lemma LaterLetters(bs: seq<byte>)
    requires |bs| > 3
    ensures |Encode(bs)| > 4 && Encode(bs)[4..] == Encode(bs[3..])
  {
    FirstGroup(bs);
    forall k | 0 <= k < |Encode(bs[3..])| ensures Encode(bs)[4..][k] == Encode(bs[3..])[k] {
      assert Values(bs)[4..][k] == Values(bs)[4 + k];
    }
  }

  lemma FirstGroup(bs: seq<byte>)
    requires |bs| >= 3
    ensures |Values(bs)| >= 4 && Values(bs)[..4] == Group(bs[..3])
    ensures |bs| > 3 ==> Values(bs)[4..] == Values(bs[3..])
  {
    assert |bs| == 3 ==> bs[..3] == bs;
  }

  lemma GroupNumber(bs: seq<byte>)
    requires |bs| == 3
    ensures var v := Group(bs);
      65536 * (bs[0] as int) + 256 * (bs[1] as int) + bs[2] as int == 262144 * v[0] + 4096 * v[1] + 64 * v[2] + v[3]
  {
    SixBits(bs[0], bs[1], bs[2]);
  }

  lemma SixBits(a: byte, b: byte, c: byte)
    ensures 65536 * (a as int) + 256 * (b as int) + c as int
         == 262144 * (a / 4) + 4096 * (a % 4 * 16 + b / 16) + 64 * (b % 16 * 4 + c / 64) + c % 64
  {
    assert a == 4 * (a / 4) + a % 4 && b == 16 * (b / 16) + b % 16 && c == 64 * (c / 64) + c % 64;
  }

  lemma EncodeSafe(bs: seq<byte>)
    ensures UrlSafe(Encode(bs))
  {
    var vs, s := Values(bs), Encode(bs);
    forall i | 0 <= i < |s| ensures Index(s[i]).Some? {
      IndexLetter(vs[i]);
    }
  }

  // ----- Decoding ------------------------------------------------------------

  /** The letters that count: all but carriage returns and line feeds. */
  function Stripped(s: string): string {
    if s == "" then ""
    else if s[0] == '\r' || s[0] == '\n' then Stripped(s[1..]) else [s[0]] + Stripped(s[1..])
  }

  function Bytes(vs: seq<int>): Option<seq<byte>>
    requires forall i | 0 <= i < |vs| :: 0 <= vs[i] < 64
  {
    if vs == [] then Some([])
    else if |vs| == 1 then None
    else
      var a := vs[0] * 4 + vs[1] / 16;
      if |vs| == 2 then Some([a])
      else
        var b := vs[1] % 16 * 16 + vs[2] / 4;
        if |vs| == 3 then Some([a, b])
        else
          var rest := Bytes(vs[4..]);
          if rest.None? then None else Some([a, b, vs[2] % 4 * 64 + vs[3]] + rest.value)
  }

  function Decode(s: string): Option<seq<byte>> {
    var t := Stripped(s);
    if exists i | 0 <= i < |t| :: Index(t[i]).None? then None
    else Bytes(seq(|t|, i requires 0 <= i < |t| && Index(t[i]).Some? => Index(t[i]).value))
  }

  // ----- Round trip ----------------------------------------------------------

  lemma FirstByte(a: byte, low: int)
    requires 0 <= low < 16
    ensures a / 4 * 4 + (a % 4 * 16 + low) / 16 == a
    ensures (a % 4 * 16 + low) % 16 == low
  {
  }

  lemma SecondByte(b: byte, low: int)
    requires 0 <= low < 4
    ensures b / 16 * 16 + (b % 16 * 4 + low) / 4 == b
    ensures (b % 16 * 4 + low) % 4 == low
  {
  }

  /** The four values of three bytes, read back. */
  lemma GroupOfThree(a: byte, b: byte, c: byte)
    ensures var vs := Group([a, b, c]);
      vs[0] * 4 + vs[1] / 16 == a && vs[1] % 16 * 16 + vs[2] / 4 == b && vs[2] % 4 * 64 + vs[3] == c
  {
    var mid, low := a % 4 * 16 + b / 16, b % 16 * 4 + c / 64;
    assert Group([a, b, c]) == [a / 4, mid, low, c % 64];
    FirstByte(a, b / 16);
    SecondByte(b, c / 64);
  }

  lemma BytesOfThree(a: byte, b: byte, c: byte, vs: seq<int>)
    requires |vs| >= 4 && vs[..4] == Group([a, b, c]) && forall i | 0 <= i < |vs| :: 0 <= vs[i] < 64
    requires Bytes(vs[4..]).Some?
    ensures Bytes(vs) == Some([a, b, c] + Bytes(vs[4..]).value)
  {
    var g := Group([a, b, c]);
    GroupOfThree(a, b, c);
    FourBytes(vs, g, [a, b, c]);
  }

  lemma FourBytes(vs: seq<int>, g: seq<int>, bs: seq<byte>)
    requires |vs| >= 4 && vs[..4] == g && |bs| == 3 && forall i | 0 <= i < |vs| :: 0 <= vs[i] < 64
    requires g[0] * 4 + g[1] / 16 == bs[0] && g[1] % 16 * 16 + g[2] / 4 == bs[1] && g[2] % 4 * 64 + g[3] == bs[2]
    requires Bytes(vs[4..]).Some?
    ensures Bytes(vs) == Some(bs + Bytes(vs[4..]).value)
  {
    assert vs[0] == g[0] && vs[1] == g[1] && vs[2] == g[2] && vs[3] == g[3];
    assert bs == [bs[0], bs[1], bs[2]];
  }

  lemma BytesOfRest(bs: seq<byte>)
    requires 1 <= |bs| <= 2
    ensures Bytes(Group(bs)) == Some(bs)
  {
    if |bs| == 2 {
      FirstByte(bs[0], bs[1] / 16);
      SecondByte(bs[1], 0);
      var mid := bs[0] % 4 * 16 + bs[1] / 16;
      assert Group(bs) == [bs[0] / 4, mid, bs[1] % 16 * 4];
      assert bs[0] / 4 * 4 + mid / 16 == bs[0] && mid % 16 * 16 + bs[1] % 16 * 4 / 4 == bs[1];
      assert bs == [bs[0], bs[1]];
    } else {
      FirstByte(bs[0], 0);
      assert Group(bs) == [bs[0] / 4, bs[0] % 4 * 16];
      assert bs[0] / 4 * 4 + bs[0] % 4 * 16 / 16 == bs[0];
      assert bs == [bs[0]];
    }
  }

  lemma {:induction false} BytesValues(bs: seq<byte>)
    ensures Bytes(Values(bs)) == Some(bs)
  {
    if bs == [] {
    } else if |bs| <= 2 {
      BytesOfRest(bs);
    } else {
      var vs := Values(bs);
      BytesValues(bs[3..]);
      assert bs[..3] == [bs[0], bs[1], bs[2]];
      assert vs == Group(bs[..3]) + Values(bs[3..]);
      BytesOfThree(bs[0], bs[1], bs[2], vs);
      assert bs == [bs[0], bs[1], bs[2]] + bs[3..];
    }
  }

  lemma {:induction false} SafeStripped(s: string)
    requires UrlSafe(s)
    ensures Stripped(s) == s
  {
    if s != "" {
      assert Index(s[0]).Some?;
      SafeStripped(s[1..]);
      assert s == [s[0]] + s[1..];
    }
  }

  /** Decoding undoes encoding. */
  lemma DecodeEncode(bs: seq<byte>)
    ensures Decode(Encode(bs)) == Some(bs)
  {
    var vs, s := Values(bs), Encode(bs);
    EncodeSafe(bs);
    SafeStripped(s);
    var back := seq(|s|, i requires 0 <= i < |s| && Index(s[i]).Some? => Index(s[i]).value);
    forall i | 0 <= i < |s| ensures back[i] == vs[i] {
      IndexLetter(vs[i]);
    }
    assert back == vs;
    BytesValues(bs);
  }
}
