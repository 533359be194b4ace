/** The recorder's rtpdump files: the encoder, which fills byte buffers in place, and the
    decoder that reads them back. */
module RtpDump {
  import opened Octets
  import opened Text
  import opened Wrappers

  // ----- What is written -----------------------------------------------------

  function Ascii(s: string): (b: seq<byte>)
    ensures |b| == |s| && forall i | 0 <= i < |s| :: b[i] == s[i] as int % 0x100
  {
    seq(|s|, i requires 0 <= i < |s| => s[i] as int % 0x100)
  }

  const NEWLINE: byte := 10

  /** Where a stream came from: its text, and its address if it is an IPv4 one. */
  datatype Source = Source(text: string, ip4: Option<seq<byte>>, port: int)

  predicate SourceOk(src: Source) {
    0 <= src.port < 0x1_0000 && (src.ip4.Some? ==> |src.ip4.value| == 4)
  }

  function Prefix(src: Source): string {
    "#!rtpplay1.0 " + src.text + "/" + Itoa(src.port)
  }

  function FileHeader(src: Source, sec: int, usec: int): seq<byte>
    requires SourceOk(src) && 0 <= sec < 0x1_0000_0000 && 0 <= usec < 0x1_0000_0000
  {
    Ascii(Prefix(src)) + [NEWLINE] + Binary(src, sec, usec)
  }

  function Binary(src: Source, sec: int, usec: int): (b: seq<byte>)
    requires SourceOk(src) && 0 <= sec < 0x1_0000_0000 && 0 <= usec < 0x1_0000_0000
    ensures |b| == 16
  {
    Big32(sec) + Big32(usec) + (if src.ip4.Some? then src.ip4.value else [0, 0, 0, 0]) + Big16(src.port) + [0, 0]
  }

  /** The length fields hold 16 bits, so they wrap. */
  function Record(pkt: seq<byte>, offset: int): seq<byte>
    requires 0 <= offset < 0x1_0000_0000
  {
    Big16((|pkt| + 8) % 0x1_0000) + Big16(|pkt| % 0x1_0000) + Big32(offset) + pkt
  }

  // ----- The fields, read back -----------------------------------------------

  /** The number in two bytes, most significant first. */
  function At16(b: seq<byte>, at: nat): int
    requires at + 2 <= |b|
  {
    256 * (b[at] as int) + b[at + 1] as int
  }

  /** The number in four bytes, most significant first. */
  function At32(b: seq<byte>, at: nat): int
    requires at + 4 <= |b|
  {
    16777216 * (b[at] as int) + 65536 * (b[at + 1] as int) + 256 * (b[at + 2] as int) + b[at + 3] as int
  }

  lemma Bytes32(n: int)
    requires 0 <= n < 0x1_0000_0000
    ensures At32(Big32(n), 0) == n
  {
    var hi, lo := n / 0x1_0000, n % 0x1_0000;
    assert hi == 256 * (hi / 0x100) + hi % 0x100 && lo == 256 * (lo / 0x100) + lo % 0x100;
  }

  lemma Bytes16(n: int)
    requires 0 <= n < 0x1_0000
    ensures At16(Big16(n), 0) == n
  {
  }

  lemma ReadIn32(b: seq<byte>, at: nat, n: int)
    requires 0 <= n < 0x1_0000_0000 && at + 4 <= |b| && b[at..at + 4] == Big32(n)
    ensures At32(b, at) == n
  {
    Bytes32(n);
    var part := b[at..at + 4];
    assert part[0] == b[at] && part[1] == b[at + 1] && part[2] == b[at + 2] && part[3] == b[at + 3];
  }

  lemma ReadIn16(b: seq<byte>, at: nat, n: int)
    requires 0 <= n < 0x1_0000 && at + 2 <= |b| && b[at..at + 2] == Big16(n)
    ensures At16(b, at) == n
  {
    Bytes16(n);
    var part := b[at..at + 2];
    assert part[0] == b[at] && part[1] == b[at + 1];
  }

  /** A record: its length with the 8 bytes in front and the packet's own, each in 16 bits, the
      milliseconds in 32, and the packet. */
  lemma RecordReads(pkt: seq<byte>, offset: int)
    requires 0 <= offset < 0x1_0000_0000
    ensures var r := Record(pkt, offset);
      && |r| == 8 + |pkt| && At16(r, 0) == (|pkt| + 8) % 65536 && At16(r, 2) == |pkt| % 65536
      && At32(r, 4) == offset && r[8..] == pkt
  {
    var r := Record(pkt, offset);
    assert r[0..2] == Big16((|pkt| + 8) % 65536) && r[2..4] == Big16(|pkt| % 65536) && r[4..8] == Big32(offset);
    ReadIn16(r, 0, (|pkt| + 8) % 65536);
    ReadIn16(r, 2, |pkt| % 65536);
    ReadIn32(r, 4, offset);
  }

  /** The 16 bytes behind the header's line: seconds, microseconds, the address or zeros, the port,
      two zeros. */
  lemma BinaryReads(src: Source, sec: int, usec: int)
    requires SourceOk(src) && 0 <= sec < 0x1_0000_0000 && 0 <= usec < 0x1_0000_0000
    ensures var b := Binary(src, sec, usec);
      && At32(b, 0) == sec && At32(b, 4) == usec
      && b[8..12] == (if src.ip4.Some? then src.ip4.value else [0, 0, 0, 0])
      && At16(b, 12) == src.port && b[14..] == [0, 0]
  {
    var b := Binary(src, sec, usec);
    assert b[0..4] == Big32(sec) && b[4..8] == Big32(usec) && b[12..14] == Big16(src.port);
    ReadIn32(b, 0, sec);
    ReadIn32(b, 4, usec);
    ReadIn16(b, 12, src.port);
  }

  /** The header: a line that names the format, the source and its port, and the 16 bytes. */
  lemma HeaderReads(src: Source, sec: int, usec: int)
    requires SourceOk(src) && 0 <= sec < 0x1_0000_0000 && 0 <= usec < 0x1_0000_0000
    ensures var (h, line) := (FileHeader(src, sec, usec), "#!rtpplay1.0 " + src.text + "/" + Itoa(src.port));
      && |h| == |line| + 17 && h[|line|] == 10 && h[|line| + 1..] == Binary(src, sec, usec)
      && forall i | 0 <= i < |line| :: h[i] == line[i] as int % 256
  {
  }

  // ----- The encoder ---------------------------------------------------------

  method PutBig16(buf: array<byte>, at: nat, n: int)
    requires 0 <= n < 0x1_0000 && at + 2 <= buf.Length
    modifies buf
    ensures buf[..] == old(buf[..])[..at] + Big16(n) + old(buf[..])[at + 2..]
  {
    buf[at], buf[at + 1] := n / 0x100, n % 0x100;
  }

  method PutBig32(buf: array<byte>, at: nat, n: int)
    requires 0 <= n < 0x1_0000_0000 && at + 4 <= buf.Length
    modifies buf
    ensures buf[..] == old(buf[..])[..at] + Big32(n) + old(buf[..])[at + 4..]
  {
    PutBig16(buf, at, n / 0x1_0000);
    PutBig16(buf, at + 2, n % 0x1_0000);
  }

  method Copy(buf: array<byte>, at: nat, bytes: seq<byte>)
    requires at + |bytes| <= buf.Length
    modifies buf
    ensures buf[..] == old(buf[..])[..at] + bytes + old(buf[..])[at + |bytes|..]
  {
    for i := 0 to |bytes|
      invariant forall k | 0 <= k < buf.Length :: buf[k] == if at <= k < at + i then bytes[k - at] else old(buf[k])
    {
      buf[at + i] := bytes[i];
    }
  }

  /** The buffer filled from the front is what was put into it. */
  lemma Filled(old0: seq<byte>, a: seq<byte>, b: seq<byte>, c: seq<byte>, d: seq<byte>,
               s1: seq<byte>, s2: seq<byte>, s3: seq<byte>, s4: seq<byte>)
    requires |a| == 2 && |b| == 2 && |c| == 4 && |old0| == 8 + |d|
    requires s1 == old0[..0] + a + old0[2..] && s2 == s1[..2] + b + s1[4..]
    requires s3 == s2[..4] + c + s2[8..] && s4 == s3[..8] + d + s3[8 + |d|..]
    ensures s4 == a + b + c + d
  {
    assert s1[..2] == a;
    assert s2[..4] == a + b;
    assert s3[..8] == a + b + c;
  }

  method RtpdumpRecord(pkt: seq<byte>, offset: int) returns (rec: array<byte>)
    requires 0 <= offset < 0x1_0000_0000
    ensures fresh(rec) && rec[..] == Record(pkt, offset)
  {
    var plen := |pkt| % 0x1_0000;
    rec := new byte[8 + |pkt|](_ => 0);
    ghost var s0 := rec[..];
    PutBig16(rec, 0, (plen + 8) % 0x1_0000);
    ghost var s1 := rec[..];
    PutBig16(rec, 2, plen);
    ghost var s2 := rec[..];
    PutBig32(rec, 4, offset);
    ghost var s3 := rec[..];
    Copy(rec, 8, pkt);
    Wraps(|pkt|);
    Filled(s0, Big16((plen + 8) % 0x1_0000), Big16(plen), Big32(offset), pkt, s1, s2, s3, rec[..]);
  }

  lemma Wraps(n: nat)
    ensures (n % 0x1_0000 + 8) % 0x1_0000 == (n + 8) % 0x1_0000
  {
  }

  method RtpdumpFileHeader(src: Source, sec: int, usec: int) returns (header: seq<byte>)
    requires SourceOk(src) && 0 <= sec < 0x1_0000_0000 && 0 <= usec < 0x1_0000_0000
    ensures header == FileHeader(src, sec, usec)
  {
    var bin := BinaryHeader(src, sec, usec);
    header := Ascii(Prefix(src)) + [NEWLINE] + bin[..];
  }

  method BinaryHeader(src: Source, sec: int, usec: int) returns (bin: array<byte>)
    requires SourceOk(src) && 0 <= sec < 0x1_0000_0000 && 0 <= usec < 0x1_0000_0000
    ensures fresh(bin) && bin[..] == Binary(src, sec, usec)
  {
    bin := new byte[16](_ => 0);
    ghost var s0 := bin[..];
    PutBig32(bin, 0, sec);
    ghost var s1 := bin[..];
    PutBig32(bin, 4, usec);
    ghost var s2 := bin[..];
    if src.ip4.Some? {
      Copy(bin, 8, src.ip4.value);
    }
    ghost var s3 := bin[..];
    PutBig16(bin, 12, src.port);
    ghost var s4 := bin[..];
    PutBig16(bin, 14, 0);
    FilledHeader(s0, Big32(sec), Big32(usec), src.ip4, Big16(src.port), s1, s2, s3, s4, bin[..]);
  }

  /** The 16 bytes, filled from the front; without an address its four stay 0. */
  lemma FilledHeader(s0: seq<byte>, a: seq<byte>, b: seq<byte>, ip: Option<seq<byte>>, d: seq<byte>,
                     s1: seq<byte>, s2: seq<byte>, s3: seq<byte>, s4: seq<byte>, s5: seq<byte>)
    requires |s0| == 16 && (forall i | 0 <= i < 16 :: s0[i] == 0)
    requires |a| == |b| == 4 && |d| == 2 && (ip.Some? ==> |ip.value| == 4)
    requires s1 == s0[..0] + a + s0[4..] && s2 == s1[..4] + b + s1[8..]
    requires s3 == if ip.Some? then s2[..8] + ip.value + s2[12..] else s2
    requires s4 == s3[..12] + d + s3[14..] && s5 == s4[..14] + Big16(0) + s4[16..]
    ensures s5 == a + b + (if ip.Some? then ip.value else [0, 0, 0, 0]) + d + [0, 0]
  {
    assert s2[..8] == a + b;
    assert s1[8..] == s0[8..] && s2[8..] == s1[8..];
    assert s0[8..12] == [0, 0, 0, 0];
    assert s2[8..12] == s2[8..][..4] == s0[8..][..4] == s0[8..12];
    assert s3[..12] == a + b + (if ip.Some? then ip.value else [0, 0, 0, 0]);
    assert s4[..14] == s3[..12] + d;
    assert Big16(0) == [0, 0];
  }

  // ----- The decoder ---------------------------------------------------------

  datatype DecodeError = NoHeaderLine | ShortHeader | OutOfRange

  /** The records at the front of the data; reading past its end is out of range. */
  function Records(data: seq<byte>): Result<seq<seq<byte>>, DecodeError>
    decreases |data|
  {
    if |data| < 8 then Ok([])
    else
      var length, plen := Read16(data, 0), Read16(data, 2);
      if plen > |data| - 8 || length < 8 then Ok([])
      else if length > |data| then Err(OutOfRange)
      else match Records(data[length..])
        case Err(e) => Err(e)
        case Ok(rest) => Ok([data[8..8 + plen]] + rest)
  }

  function IndexByte(data: seq<byte>, b: byte): (i: int)
    ensures -1 <= i < |data|
  {
    if data == [] then -1
    else if data[0] == b then 0
    else
      var r := IndexByte(data[1..], b);
      if r < 0 then -1 else r + 1
  }

  function Decode(data: seq<byte>): Result<seq<seq<byte>>, DecodeError> {
    var nl := IndexByte(data, NEWLINE);
    if nl < 0 then Err(NoHeaderLine)
    else if |data| - (nl + 1) < 16 then Err(ShortHeader)
    else Records(data[nl + 17..])
  }

  /** decodeRtpdump. The loop takes at least eight bytes off the data at every turn. */
  method DecodeRtpdump(data: seq<byte>) returns (r: Result<seq<seq<byte>>, DecodeError>)
    ensures r == Decode(data)
  {
    var nl := IndexByte(data, NEWLINE);
    if nl < 0 {
      return Err(NoHeaderLine);
    }
    var rest := data[nl + 1..];
    if |rest| < 16 {
      return Err(ShortHeader);
    }
    rest := rest[16..];
    assert rest == data[nl + 17..];
    var out: seq<seq<byte>> := [];
    OntoNothing(Records(rest), out);
    while |rest| >= 8
      invariant Decode(data) == Onto(out, Records(rest))
      decreases |rest|
    {
      var length, plen := Read16(rest, 0), Read16(rest, 2);
      if plen > |rest| - 8 || length < 8 {
        break;
      }
      if length > |rest| {
        return Err(OutOfRange);
      }
      OntoSnoc(out, rest[8..8 + plen], Records(rest[length..]));
      out := out + [rest[8..8 + plen]];
      rest := rest[length..];
    }
    OntoNothing(Records(rest), out);
    return Ok(out);
  }

  function Onto(out: seq<seq<byte>>, r: Result<seq<seq<byte>>, DecodeError>): Result<seq<seq<byte>>, DecodeError> {
    if r.Ok? then Ok(out + r.value) else r
  }

  lemma OntoNothing(r: Result<seq<seq<byte>>, DecodeError>, out: seq<seq<byte>>)
    ensures Onto([], r) == r && Onto(out, Ok([])) == Ok(out)
  {
    assert out + [] == out;
    if r.Ok? {
      assert [] + r.value == r.value;
    }
  }

  lemma OntoSnoc(out: seq<seq<byte>>, pkt: seq<byte>, r: Result<seq<seq<byte>>, DecodeError>)
    ensures Onto(out + [pkt], r) == Onto(out, Onto([pkt], r))
  {
    if r.Ok? {
      assert (out + [pkt]) + r.value == out + ([pkt] + r.value);
    }
  }

  // ----- Round trip ----------------------------------------------------------

  datatype Packet = Packet(bytes: seq<byte>, offset: int)

  predicate Timed(p: Packet) {
    0 <= p.offset < 0x1_0000_0000
  }

  function Body(ps: seq<Packet>): seq<byte>
    requires forall i | 0 <= i < |ps| :: Timed(ps[i])
  {
    if ps == [] then []
    else
      assert Timed(ps[0]);
      Record(ps[0].bytes, ps[0].offset) + Body(ps[1..])
  }

  function Payloads(ps: seq<Packet>): (r: seq<seq<byte>>)
    ensures |r| == |ps| && forall i | 0 <= i < |ps| :: r[i] == ps[i].bytes
  {
    seq(|ps|, i requires 0 <= i < |ps| => ps[i].bytes)
  }

  const MAX_PACKET := 65527

  predicate Fits(ps: seq<Packet>) {
    forall i | 0 <= i < |ps| :: |ps[i].bytes| <= MAX_PACKET
  }

  lemma RecordFields(pkt: seq<byte>, offset: int, rest: seq<byte>)
    requires 0 <= offset < 0x1_0000_0000
    ensures var data := Record(pkt, offset) + rest;
      && |data| == |pkt| + 8 + |rest|
      && Read16(data, 0) == (|pkt| + 8) % 0x1_0000 && Read16(data, 2) == |pkt| % 0x1_0000
      && data[8..8 + |pkt|] == pkt && data[|pkt| + 8..] == rest
  {
    var data := Record(pkt, offset) + rest;
    assert data[0..2] == Big16((|pkt| + 8) % 0x1_0000) && data[2..4] == Big16(|pkt| % 0x1_0000);
    ReadBig16(data, 0, (|pkt| + 8) % 0x1_0000);
    ReadBig16(data, 2, |pkt| % 0x1_0000);
  }

  lemma FittingRecord(pkt: seq<byte>, offset: int, rest: seq<byte>)
    requires 0 <= offset < 0x1_0000_0000 && |pkt| <= MAX_PACKET
    ensures Records(Record(pkt, offset) + rest) == Onto([pkt], Records(rest))
  {
    RecordFields(pkt, offset, rest);
  }

  /** A packet too long for its length fields ends the records or comes back cut short. */
  lemma WrappedRecord(pkt: seq<byte>, offset: int, rest: seq<byte>)
    requires 0 <= offset < 0x1_0000_0000 && |pkt| > MAX_PACKET
    ensures var r := Records(Record(pkt, offset) + rest);
      r == Ok([]) || r.Err? || (r.value != [] && |r.value[0]| < |pkt|)
  {
    RecordFields(pkt, offset, rest);
  }

  lemma {:induction false} RecordsOfBody(ps: seq<Packet>)
    requires forall i | 0 <= i < |ps| :: Timed(ps[i])
    ensures Records(Body(ps)) == Ok(Payloads(ps)) <==> Fits(ps)
  {
    if ps != [] {
      var p, rest := ps[0], ps[1..];
      RecordsOfBody(rest);
      assert Payloads(ps) == [p.bytes] + Payloads(rest);
      assert Fits(ps) <==> |p.bytes| <= MAX_PACKET && Fits(rest) by {
        assert ps == [p] + rest;
      }
      if |p.bytes| <= MAX_PACKET {
        FittingRecord(p.bytes, p.offset, Body(rest));
        OntoInjective(p.bytes, Records(Body(rest)), Payloads(rest));
      } else {
        WrappedRecord(p.bytes, p.offset, Body(rest));
        assert Payloads(ps)[0] == p.bytes;
      }
    }
  }

  lemma OntoInjective(pkt: seq<byte>, r: Result<seq<seq<byte>>, DecodeError>, want: seq<seq<byte>>)
    ensures Onto([pkt], r) == Ok([pkt] + want) <==> r == Ok(want)
  {
    if r.Ok? {
      assert ([pkt] + r.value)[1..] == r.value && ([pkt] + want)[1..] == want;
    }
  }

  lemma {:induction false} LineEnds(line: seq<byte>, rest: seq<byte>)
    requires NEWLINE !in line
    ensures IndexByte(line + [NEWLINE] + rest, NEWLINE) == |line|
  {
    var data := line + [NEWLINE] + rest;
    if line != [] {
      assert data[0] == line[0] && line[0] in line;
      assert data[1..] == line[1..] + [NEWLINE] + rest;
      LineEnds(line[1..], rest);
    }
  }

  /** A source text is plain ASCII without a line feed. */
  predicate PlainText(s: string) {
    forall i | 0 <= i < |s| :: s[i] < 128 as char && s[i] != '\n'
  }

  lemma PrefixIsALine(src: Source)
    requires SourceOk(src) && PlainText(src.text)
    ensures NEWLINE !in Ascii(Prefix(src))
  {
    assert PlainText("#!rtpplay1.0 ") && PlainText("/") && PlainText(Itoa(src.port));
    assert PlainText(Prefix(src));
    PlainIsALine(Prefix(src));
  }

  lemma PlainIsALine(s: string)
    requires PlainText(s)
    ensures NEWLINE !in Ascii(s)
  {
    forall i | 0 <= i < |s| ensures Ascii(s)[i] != NEWLINE {
    }
  }

  /** Decoding what the encoder wrote returns exactly the packets written, if and only if each
      of them is at most 65527 bytes long. */
  lemma RtpdumpRoundTrip(src: Source, sec: int, usec: int, ps: seq<Packet>)
    requires SourceOk(src) && PlainText(src.text) && 0 <= sec < 0x1_0000_0000 && 0 <= usec < 0x1_0000_0000
    requires forall i | 0 <= i < |ps| :: Timed(ps[i])
    ensures Decode(FileHeader(src, sec, usec) + Body(ps)) == Ok(Payloads(ps)) <==> Fits(ps)
  {
    PrefixIsALine(src);
    HeaderThenBody(Ascii(Prefix(src)), Binary(src, sec, usec), Body(ps));
    RecordsOfBody(ps);
  }

  lemma HeaderThenBody(line: seq<byte>, bin: seq<byte>, body: seq<byte>)
    requires NEWLINE !in line && |bin| == 16
    ensures Decode((line + [NEWLINE] + bin) + body) == Records(body)
  {
    var data := (line + [NEWLINE] + bin) + body;
    assert data == line + [NEWLINE] + (bin + body);
    LineEnds(line, bin + body);
    assert data[|line| + 17..] == body;
  }
}
