/** The flow token: a webphone's source address and transport, packed into the user part of a
    Path and recovered from a Route. */
module FlowToken {
  import opened Base64
  import opened Octets
  import opened Text
  import opened Wrappers

  datatype Flow = Flow(addr: string, transport: string)

  /** How IP addresses are read and written. An address is 4 bytes, or 16 that are not an
      IPv4 address in disguise; writing the disguised one gives the IPv4 text. */
  datatype IpText = IpText(parse: string -> Option<seq<byte>>, text: seq<byte> -> string)

  predicate IpLength(b: seq<byte>) {
    |b| == 4 || |b| == 16
  }

  ghost predicate Lawful(ip: IpText) {
    && (forall s :: ip.parse(s).Some? ==> IpLength(ip.parse(s).value))
    && (forall b | IpLength(b) :: TextLawful(ip, b))
  }

  /** Text of an address can stand in a host position, and reading it back gives an address
      with the same text. */
  predicate TextLawful(ip: IpText, b: seq<byte>) {
    var t := ip.text(b);
    && '[' !in t && ']' !in t
    && ip.parse(t).Some? && ip.text(ip.parse(t).value) == t
  }

  /** There are such readers and writers: base64 text is one. */
  lemma LawfulExists()
    ensures exists ip :: Lawful(ip)
  {
    var ip := IpText(s => var b := Decode(s); if b.Some? && IpLength(b.value) then b else None, b => Encode(b));
    forall b | IpLength(b) ensures TextLawful(ip, b) {
      DecodeEncode(b);
      EncodeSafe(b);
    }
    assert Lawful(ip);
  }

  // ----- host:port -----------------------------------------------------------

  function JoinHostPort(host: string, port: string): string {
    if ':' in host then "[" + host + "]:" + port else host + ":" + port
  }

  /** The position of the last c, -1 without one. */
  function LastIndex(s: string, c: char): (i: int)
    ensures -1 <= i < |s|
    ensures i >= 0 ==> s[i] == c
    ensures forall k | i < k < |s| :: s[k] != c
  {
    if s == "" then -1
    else if s[|s| - 1] == c then |s| - 1
    else LastIndex(s[..|s| - 1], c)
  }

  function FirstIndex(s: string, c: char): (i: int)
    ensures -1 <= i < |s|
    ensures i >= 0 ==> s[i] == c && forall k | 0 <= k < i :: s[k] != c
    ensures i < 0 ==> c !in s
  {
    if s == "" then -1
    else if s[0] == c then 0
    else
      var r := FirstIndex(s[1..], c);
      if r < 0 then -1 else r + 1
  }

  function SplitHostPort(s: string): Option<(string, string)> {
    var i := LastIndex(s, ':');
    if i < 0 then None
    else if s[0] == '[' then
      var end := FirstIndex(s, ']');
      if end < 0 || end + 1 != i then None
      else if '[' in s[1..] || ']' in s[end + 1..] then None
      else Some((s[1..end], s[i + 1..]))
    else if ':' in s[..i] || '[' in s || ']' in s then None
    else Some((s[..i], s[i + 1..]))
  }

  lemma LastIs(s: string, c: char, i: nat)
    requires i < |s| && s[i] == c && forall k | i < k < |s| :: s[k] != c
    ensures LastIndex(s, c) == i
  {
  }

  lemma FirstIsAt(s: string, c: char, i: nat)
    requires i < |s| && s[i] == c && forall k | 0 <= k < i :: s[k] != c
    ensures FirstIndex(s, c) == i
  {
    assert s[i] in s;
  }

  /** A host without brackets and a port of digits come back as they went in. */
  lemma SplitJoined(host: string, port: string)
    requires '[' !in host && ']' !in host
    requires ':' !in port && '[' !in port && ']' !in port
    ensures SplitHostPort(JoinHostPort(host, port)) == Some((host, port))
  {
    var s := JoinHostPort(host, port);
    if ':' in host {
      SplitBracketed(host, port);
    } else {
      var n := |host|;
      assert s[n] == ':' && s[n + 1..] == port && s[..n] == host;
      LastIs(s, ':', n);
      assert '[' !in s && ']' !in s;
    }
  }

  lemma SplitBracketed(host: string, port: string)
    requires '[' !in host && ']' !in host && ':' !in port && '[' !in port && ']' !in port
    ensures SplitHostPort("[" + host + "]:" + port) == Some((host, port))
  {
    var s, n := "[" + host + "]:" + port, |host|;
    assert s[n + 1] == ']' && s[n + 2] == ':';
    assert s[n + 3..] == port && s[1..n + 1] == host && s[..n + 1] == "[" + host;
    LastIs(s, ':', n + 2);
    FirstIsAt(s, ']', n + 1);
    assert s[1..] == host + "]:" + port && s[n + 2..] == ":" + port;
  }

  predicate NoBrackets(s: string) {
    '[' !in s && ']' !in s
  }

  /** Exactly which texts split, and into what: a port without a colon or a bracket behind a host
      without brackets, which is in brackets or has no colon. */
  lemma SplitIs(s: string, host: string, port: string)
    ensures SplitHostPort(s) == Some((host, port)) <==>
              && NoBrackets(host) && NoBrackets(port) && ':' !in port
              && (s == "[" + host + "]:" + port || (':' !in host && s == host + ":" + port))
  {
    if SplitHostPort(s) == Some((host, port)) {
      SplitParts(s, host, port);
    }
    if NoBrackets(host) && NoBrackets(port) && ':' !in port {
      SplitBracketed(host, port);
      if ':' !in host {
        SplitJoined(host, port);
      }
    }
  }

  lemma NotInPart(s: string, lo: nat, hi: nat, c: char)
    requires lo <= hi <= |s| && forall k | lo <= k < hi :: s[k] != c
    ensures c !in s[lo..hi]
  {
  }

  lemma SplitParts(s: string, host: string, port: string)
    requires SplitHostPort(s) == Some((host, port))
    ensures NoBrackets(host) && NoBrackets(port) && ':' !in port
    ensures s == "[" + host + "]:" + port || (':' !in host && s == host + ":" + port)
  {
    if s[0] == '[' {
      BracketedParts(s, LastIndex(s, ':'), FirstIndex(s, ']'));
    } else {
      PlainParts(s, LastIndex(s, ':'));
    }
  }

  lemma PlainParts(s: string, i: nat)
    requires i < |s| && s[i] == ':' && (forall k | i < k < |s| :: s[k] != ':') && NoBrackets(s) && ':' !in s[..i]
    ensures NoBrackets(s[..i]) && NoBrackets(s[i + 1..]) && ':' !in s[i + 1..]
    ensures s == s[..i] + ":" + s[i + 1..]
  {
    NotInPart(s, i + 1, |s|, ':');
    assert s[i + 1..|s|] == s[i + 1..];
  }

  lemma BracketedParts(s: string, i: nat, end: nat)
    requires 0 < end < end + 1 == i < |s| && s[0] == '[' && s[i] == ':' && forall k | i < k < |s| :: s[k] != ':'
    requires s[end] == ']' && (forall k | 0 <= k < end :: s[k] != ']') && '[' !in s[1..] && ']' !in s[end + 1..]
    ensures NoBrackets(s[1..end]) && NoBrackets(s[i + 1..]) && ':' !in s[i + 1..]
    ensures s == "[" + s[1..end] + "]:" + s[i + 1..]
  {
    NotInPart(s, i + 1, |s|, ':');
    NotInPart(s, 1, end, ']');
    assert s[1..end] == s[1..][..end - 1] && s[i + 1..] == s[1..][i..] == s[end + 1..][1..];
    assert s[i + 1..|s|] == s[i + 1..];
    InBrackets(s, s[1..end], s[i + 1..]);
  }

  lemma InBrackets(s: string, h: string, p: string)
    requires |s| == |h| + |p| + 3 && s[0] == '[' && s[1..|h| + 1] == h && s[|h| + 3..] == p
    requires s[|h| + 1] == ']' && s[|h| + 2] == ':'
    ensures s == "[" + h + "]:" + p
  {
    assert s == s[..1] + s[1..|h| + 1] + s[|h| + 1..|h| + 3] + s[|h| + 3..];
  }

  // ----- Ports ---------------------------------------------------------------

  /** strconv.ParseUint(s, 10, 16) */
  function ParsePort(s: string): (p: Option<int>)
    ensures p.Some? ==> 0 <= p.value < 0x1_0000
  {
    if s == "" || exists i | 0 <= i < |s| :: !IsDigit(s[i]) then None
    else if Value(s) < 0x1_0000 then Some(Value(s)) else None
  }

  lemma PortText(p: int)
    requires 0 <= p < 0x1_0000
    ensures ParsePort(Itoa(p)) == Some(p)
    ensures ':' !in Itoa(p) && '[' !in Itoa(p) && ']' !in Itoa(p)
  {
    ValueDigits(p);
  }

  // ----- Tokens --------------------------------------------------------------

  function Code(transport: string): (c: Option<byte>)
    ensures c.Some? ==> c.value < 5
  {
    match transport
    case "udp" => Some(0)
    case "tcp" => Some(1)
    case "tls" => Some(2)
    case "ws" => Some(3)
    case "wss" => Some(4)
    case _ => None
  }

  function Name(code: byte): string
    requires code < 5
  {
    match code
    case 0 => "udp"
    case 1 => "tcp"
    case 2 => "tls"
    case 3 => "ws"
    case _ => "wss"
  }

  datatype TokenError = UnknownTransport | BadAddress | NotAnIP | BadPort | BadBase64 | BadLength | UnknownCode

  function Blob(code: byte, ip: seq<byte>, port: int): (b: seq<byte>)
    requires 0 <= port < 0x1_0000
  {
    [code] + ip + Big16(port)
  }

  function Mint(ip: IpText, f: Flow): Result<string, TokenError> {
    var code := Code(Lower(f.transport));
    if code.None? then Err(UnknownTransport)
    else
      var hp := SplitHostPort(f.addr);
      if hp.None? then Err(BadAddress)
      else
        var addr, port := ip.parse(hp.value.0), ParsePort(hp.value.1);
        if addr.None? then Err(NotAnIP)
        else if port.None? then Err(BadPort)
        else Ok(Encode(Blob(code.value, addr.value, port.value)))
  }

  function Parse(ip: IpText, token: string): Result<Flow, TokenError> {
    var blob := Decode(token);
    if blob.None? then Err(BadBase64)
    else
      var b := blob.value;
      if |b| != 7 && |b| != 19 then Err(BadLength)
      else if b[0] >= 5 then Err(UnknownCode)
      else
        var n := |b| - 2;
        Ok(Flow(JoinHostPort(ip.text(b[1..n]), Itoa(Read16(b, n))), Name(b[0])))
  }

  // ----- Round trips ---------------------------------------------------------

  /** The flow as the token gives it back: the address in canonical text, the transport in
      small letters. */
  function Canonical(ip: IpText, f: Flow): Flow
    requires Mint(ip, f).Ok?
  {
    var hp := SplitHostPort(f.addr).value;
    Flow(JoinHostPort(ip.text(ip.parse(hp.0).value), Itoa(ParsePort(hp.1).value)), Lower(f.transport))
  }

  lemma NameCode(t: string)
    requires Code(t).Some?
    ensures Name(Code(t).value) == t
  {
  }

  lemma CodeName(c: byte)
    requires c < 5
    ensures Lower(Name(c)) == Name(c) && Code(Name(c)) == Some(c)
  {
    assert Lower("udp") == "udp" && Lower("tcp") == "tcp" && Lower("tls") == "tls";
    assert Lower("ws") == "ws" && Lower("wss") == "wss";
  }

  lemma ParseBlob(ip: IpText, code: byte, addr: seq<byte>, port: int)
    requires code < 5 && IpLength(addr) && 0 <= port < 0x1_0000
    ensures Parse(ip, Encode(Blob(code, addr, port))) == Ok(Flow(JoinHostPort(ip.text(addr), Itoa(port)), Name(code)))
  {
    var b := Blob(code, addr, port);
    DecodeEncode(b);
    var n := |b| - 2;
    assert b[1..n] == addr && b[n..] == Big16(port);
    ReadBig16(b, n, port);
  }

  /** Parsing a minted token gives the flow back, with its transport in small letters and its
      address in canonical text; the token is 10 letters for IPv4 and 26 for IPv6, all of them
      safe in a URI. */
  lemma ParseMint(ip: IpText, f: Flow)
    requires Lawful(ip) && Mint(ip, f).Ok?
    ensures Parse(ip, Mint(ip, f).value) == Ok(Canonical(ip, f))
    ensures |Mint(ip, f).value| == (if |ip.parse(SplitHostPort(f.addr).value.0).value| == 4 then 10 else 26)
    ensures UrlSafe(Mint(ip, f).value)
  {
    var code, hp := Code(Lower(f.transport)).value, SplitHostPort(f.addr).value;
    var addr, port := ip.parse(hp.0).value, ParsePort(hp.1).value;
    assert IpLength(addr);
    ParseBlob(ip, code, addr, port);
    NameCode(Lower(f.transport));
    EncodeSafe(Blob(code, addr, port));
  }

  /** host:port, with the host in brackets when it has a colon. */
  function HostPort(host: string, p: int): string {
    if ':' in host then "[" + host + "]:" + Itoa(p) else host + ":" + Itoa(p)
  }

  /** The number a transport has in a token. */
  predicate Numbered(transport: string, code: int) {
    || (transport == "udp" && code == 0) || (transport == "tcp" && code == 1) || (transport == "tls" && code == 2)
    || (transport == "ws" && code == 3) || (transport == "wss" && code == 4)
  }

  lemma CodeIs(transport: string)
    ensures Code(transport).Some? <==> transport in {"udp", "tcp", "tls", "ws", "wss"}
    ensures Code(transport).Some? ==> Numbered(transport, Code(transport).value)
  {
  }

  /** What a token holds and gives back, for a source address in host:port form: the transport's
      number, the 4 or 16 bytes of the address, the port in two bytes, most significant first; and
      the address in canonical text with the same port and the transport in small letters. */
  lemma TokenOf(ip: IpText, host: string, p: int, transport: string)
    requires Lawful(ip) && 0 <= p < 0x1_0000 && '[' !in host && ']' !in host
    requires ip.parse(host).Some? && Lower(transport) in {"udp", "tcp", "tls", "ws", "wss"}
    ensures var (f, addr) := (Flow(HostPort(host, p), transport), ip.parse(host).value);
      && Mint(ip, f).Ok?
      && Parse(ip, Mint(ip, f).value) == Ok(Flow(HostPort(ip.text(addr), p), Lower(transport)))
      && Decode(Mint(ip, f).value).Some?
      && var b := Decode(Mint(ip, f).value).value;
         && |b| == |addr| + 3 && Numbered(Lower(transport), b[0]) && b[1..|addr| + 1] == addr
         && 256 * (b[|addr| + 1] as int) + b[|addr| + 2] as int == p
  {
    var f, addr := Flow(HostPort(host, p), transport), ip.parse(host).value;
    PortText(p);
    SplitJoined(host, Itoa(p));
    assert HostPort(host, p) == JoinHostPort(host, Itoa(p));
    CodeIs(Lower(transport));
    MintedFrom(ip, f, Code(Lower(transport)).value, addr, p);
    assert HostPort(ip.text(addr), p) == JoinHostPort(ip.text(addr), Itoa(p));
  }

  lemma MintedFrom(ip: IpText, f: Flow, code: byte, addr: seq<byte>, p: int)
    requires Lawful(ip) && Code(Lower(f.transport)) == Some(code)
    requires SplitHostPort(f.addr).Some? && 0 <= p < 0x1_0000
    requires ip.parse(SplitHostPort(f.addr).value.0) == Some(addr)
    requires ParsePort(SplitHostPort(f.addr).value.1) == Some(p)
    ensures Mint(ip, f) == Ok(Encode(Blob(code, addr, p)))
    ensures Decode(Encode(Blob(code, addr, p))) == Some(Blob(code, addr, p))
    ensures Parse(ip, Encode(Blob(code, addr, p))) == Ok(Flow(JoinHostPort(ip.text(addr), Itoa(p)), Lower(f.transport)))
    ensures var b := Blob(code, addr, p);
      && |b| == |addr| + 3 && b[0] == code && b[1..|addr| + 1] == addr
      && 256 * (b[|addr| + 1] as int) + b[|addr| + 2] as int == p
  {
    DecodeEncode(Blob(code, addr, p));
    assert IpLength(addr);
    ParseBlob(ip, code, addr, p);
    NameCode(Lower(f.transport));
    BlobBytes(code, addr, p);
  }

  lemma BlobBytes(code: byte, addr: seq<byte>, p: int)
    requires 0 <= p < 0x1_0000
    ensures var b := Blob(code, addr, p);
      && |b| == |addr| + 3 && b[0] == code && b[1..|addr| + 1] == addr
      && 256 * (b[|addr| + 1] as int) + b[|addr| + 2] as int == p
  {
  }

  /** And what cannot be put into a token: another transport, no host:port, a host that is not an
      address, a port that is not a number below 65536. */
  lemma MintRefuses(ip: IpText, f: Flow)
    ensures Mint(ip, f).Ok? <==>
              && Lower(f.transport) in {"udp", "tcp", "tls", "ws", "wss"} && SplitHostPort(f.addr).Some?
              && ip.parse(SplitHostPort(f.addr).value.0).Some? && ParsePort(SplitHostPort(f.addr).value.1).Some?
  {
    CodeIs(Lower(f.transport));
  }

  /** Which tokens are read, and as what: those that decode to 7 or 19 bytes with a known number in
      front. */
  lemma ParseReads(ip: IpText, token: string)
    ensures Parse(ip, token).Ok? <==>
              && Decode(token).Some? && |Decode(token).value| in {7, 19} && Decode(token).value[0] <= 4
    ensures Parse(ip, token).Ok? ==>
              && Decode(token).Some? && |Decode(token).value| in {7, 19}
              && var (b, f) := (Decode(token).value, Parse(ip, token).value);
                 var n := |b|;
                 && f.addr == HostPort(ip.text(b[1..n - 2]), 256 * (b[n - 2] as int) + b[n - 1] as int)
                 && Numbered(f.transport, b[0])
  {
    if Parse(ip, token).Ok? {
      CodeName(Decode(token).value[0]);
    }
  }

  /** Every flow a token parses to can be minted again, and the new token parses to the same
      flow. */
  lemma MintParse(ip: IpText, token: string)
    requires Lawful(ip) && Parse(ip, token).Ok?
    ensures Mint(ip, Parse(ip, token).value).Ok?
    ensures Parse(ip, Mint(ip, Parse(ip, token).value).value) == Parse(ip, token)
  {
    var b, f := Decode(token).value, Parse(ip, token).value;
    var n := |b| - 2;
    var host, port := ip.text(b[1..n]), Read16(b, n);
    assert TextLawful(ip, b[1..n]);
    PortText(port);
    SplitJoined(host, Itoa(port));
    CodeName(b[0]);
    ParseMint(ip, f);
  }
}
