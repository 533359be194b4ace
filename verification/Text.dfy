/** The string operations the SDP and token code is written with: splitting on a
    separator, trimming carriage returns, whitespace fields and decimal numbers.
    A byte of the wire text is a `char`; whitespace is ASCII whitespace. */
module Text {
  import opened Wrappers

  // ----- Splitting and joining ---------------------------------------------

  function Split(s: string, d: char): (ls: seq<string>)
    ensures |ls| >= 1
  {
    if s == "" then [""]
    else
      var rest := Split(s[1..], d);
      if s[0] == d then [""] + rest else [[s[0]] + rest[0]] + rest[1..]
  }

  lemma {:induction false} SplitPieces(s: string, d: char)
    ensures forall i | 0 <= i < |Split(s, d)| :: d !in Split(s, d)[i]
  {
    if s != "" {
      SplitPieces(s[1..], d);
    }
  }

  function Join(ls: seq<string>, d: char): string {
    if |ls| == 0 then "" else if |ls| == 1 then ls[0] else ls[0] + [d] + Join(ls[1..], d)
  }

  lemma {:induction false} SplitFirst(a: string, rest: string, d: char)
    requires d !in a
    ensures Split(a, d) == [a]
    ensures Split(a + [d] + rest, d) == [a] + Split(rest, d)
  {
    if a == "" {
      assert [d] + rest == a + [d] + rest;
      assert (a + [d] + rest)[1..] == rest;
    } else {
      SplitFirst(a[1..], rest, d);
      assert (a + [d] + rest)[1..] == a[1..] + [d] + rest;
      assert [a[0]] + a[1..] == a;
    }
  }

  lemma {:induction false} SplitJoin(ls: seq<string>, d: char)
    requires |ls| >= 1
    requires forall i | 0 <= i < |ls| :: d !in ls[i]
    ensures Split(Join(ls, d), d) == ls
  {
    if |ls| == 1 {
      SplitFirst(ls[0], "", d);
    } else {
      SplitFirst(ls[0], Join(ls[1..], d), d);
      SplitJoin(ls[1..], d);
    }
  }

  // ----- Lines --------------------------------------------------------------

  function TrimCR(s: string): (t: string)
    ensures !EndsCR(t)
    ensures '\n' !in s ==> '\n' !in t
  {
    if s != "" && s[|s| - 1] == '\r' then TrimCR(s[..|s| - 1]) else s
  }

  predicate EndsCR(s: string) {
    s != "" && s[|s| - 1] == '\r'
  }

  /** A line as the parsers see it: no line feed inside, no carriage return at its end. */
  predicate Clean(l: string) {
    '\n' !in l && !EndsCR(l)
  }

  function Lines(s: string): (ls: seq<string>)
    ensures |ls| == |Split(s, '\n')| >= 1
  {
    var raw := Split(s, '\n');
    seq(|raw|, i requires 0 <= i < |raw| => TrimCR(raw[i]))
  }

  lemma LinesClean(s: string)
    ensures forall i | 0 <= i < |Lines(s)| :: Clean(Lines(s)[i])
  {
    SplitPieces(s, '\n');
  }

  function Crlf(ls: seq<string>): string {
    if |ls| == 0 then "" else ls[0] + "\r\n" + Crlf(ls[1..])
  }

  lemma {:induction false} CrlfConcat(a: seq<string>, b: seq<string>)
    ensures Crlf(a + b) == Crlf(a) + Crlf(b)
  {
    if a == [] {
      assert a + b == b;
    } else {
      assert (a + b)[1..] == a[1..] + b;
      CrlfConcat(a[1..], b);
    }
  }

  lemma CrlfSnoc(a: seq<string>, l: string)
    ensures Crlf(a + [l]) == Crlf(a) + l + "\r\n"
  {
    CrlfConcat(a, [l]);
    assert [l][1..] == [];
    assert Crlf([l]) == l + "\r\n" + "";
  }

  /** Text written line by line with CRLF is read back as the same lines and a last empty one. */
  lemma {:induction false} CrlfLines(ls: seq<string>)
    requires forall i | 0 <= i < |ls| :: Clean(ls[i])
    ensures Lines(Crlf(ls)) == ls + [""]
  {
    if ls == [] {
      assert Split("", '\n') == [""];
    } else {
      CrlfLines(ls[1..]);
      FirstLine(ls[0], Crlf(ls[1..]));
      assert [ls[0]] + (ls[1..] + [""]) == ls + [""];
    }
  }

  lemma FirstLine(l: string, rest: string)
    requires Clean(l)
    ensures Lines(l + "\r\n" + rest) == [l] + Lines(rest)
  {
    assert l + "\r\n" + rest == (l + "\r") + ['\n'] + rest;
    SplitFirst(l + "\r", rest, '\n');
    assert (l + "\r")[..|l + "\r"| - 1] == l;
    assert TrimCR(l + "\r") == l;
  }

  /** Appends the lines to the text written so far. */
  method WriteLines(b: string, ls: seq<string>) returns (r: string)
    ensures r == b + Crlf(ls)
  {
    r := b;
    for i := 0 to |ls|
      invariant r == b + Crlf(ls[..i])
    {
      CrlfSnoc(ls[..i], ls[i]);
      assert ls[..i] + [ls[i]] == ls[..i + 1];
      r := r + ls[i] + "\r\n";
    }
    assert ls[..|ls|] == ls;
  }

  // ----- Prefixes -------------------------------------------------------------

  predicate HasPrefix(s: string, p: string): (b: bool)
    ensures b ==> |p| <= |s|
  {
    |p| <= |s| && Agree(s, p, 0)
  }

  predicate Agree(s: string, p: string, k: nat)
    requires k <= |p| <= |s|
    decreases |p| - k
  {
    k == |p| || (s[k] == p[k] && Agree(s, p, k + 1))
  }

  lemma {:induction false} AgreeIs(s: string, p: string, k: nat)
    requires k <= |p| <= |s|
    ensures Agree(s, p, k) <==> forall i | k <= i < |p| :: s[i] == p[i]
    decreases |p| - k
  {
    if k < |p| {
      AgreeIs(s, p, k + 1);
    }
  }

  lemma PrefixIs(s: string, p: string)
    ensures HasPrefix(s, p) <==> p <= s
  {
    if |p| <= |s| {
      AgreeIs(s, p, 0);
    }
  }

  /** A text that differs from p in one place of p does not start with it. */
  lemma CharDiffers(s: string, p: string, k: nat)
    requires k < |p|
    requires k < |s| ==> s[k] != p[k]
    ensures !HasPrefix(s, p)
  {
    if |p| <= |s| {
      AgreeIs(s, p, 0);
    }
  }

  lemma CharAgrees(s: string, p: string, k: nat)
    requires HasPrefix(s, p) && k < |p|
    ensures s[k] == p[k]
  {
    AgreeIs(s, p, 0);
  }

  // ----- Whitespace fields ---------------------------------------------------

  predicate IsSpace(c: char) {
    c == ' ' || '\t' <= c <= '\r'
  }

  predicate Token(t: string) {
    t != "" && forall i | 0 <= i < |t| :: !IsSpace(t[i])
  }

  predicate Tokens(ts: seq<string>) {
    forall i | 0 <= i < |ts| :: Token(ts[i])
  }

  function WordLength(s: string): (n: nat)
    ensures n <= |s|
    ensures forall i | 0 <= i < n :: !IsSpace(s[i])
    ensures n < |s| ==> IsSpace(s[n])
  {
    if s == "" || IsSpace(s[0]) then 0 else 1 + WordLength(s[1..])
  }

  function Fields(s: string): (ts: seq<string>)
    ensures Tokens(ts)
    decreases |s|
  {
    if s == "" then []
    else if IsSpace(s[0]) then Fields(s[1..])
    else var n := WordLength(s); [s[..n]] + Fields(s[n..])
  }

  lemma FieldsWord(t: string, rest: string)
    requires Token(t)
    requires rest == "" || IsSpace(rest[0])
    ensures Fields(t + rest) == [t] + Fields(rest)
  {
    var s := t + rest;
    var n := WordLength(s);
    assert forall i | 0 <= i < |t| :: s[i] == t[i];
    assert rest != "" ==> s[|t|] == rest[0];
    assert n == |t|;
    assert s[..n] == t && s[n..] == rest;
  }

  lemma {:induction false} FieldsJoin(ts: seq<string>)
    requires Tokens(ts)
    ensures Fields(Join(ts, ' ')) == ts
  {
    if |ts| == 1 {
      FieldsWord(ts[0], "");
      assert ts[0] + "" == ts[0];
    } else if |ts| > 1 {
      var rest := " " + Join(ts[1..], ' ');
      assert Join(ts, ' ') == ts[0] + rest;
      FieldsWord(ts[0], rest);
      FieldsJoin(ts[1..]);
      assert rest[1..] == Join(ts[1..], ' ');
    }
  }

  lemma {:induction false} JoinNoBreaks(ts: seq<string>)
    requires Tokens(ts)
    ensures Clean(Join(ts, ' '))
    ensures |ts| >= 1 ==> Join(ts, ' ') != ""
  {
    if |ts| == 1 {
      assert Clean(ts[0]);
    } else if |ts| > 1 {
      JoinNoBreaks(ts[1..]);
      assert Clean(ts[0]);
    }
  }

  // ----- Decimal numbers -----------------------------------------------------

  const INT64_MAX: int := 0x7fff_ffff_ffff_ffff

  predicate IsDigit(c: char) {
    '0' <= c <= '9'
  }

  function DigitChar(d: nat): (c: char)
    requires d < 10
    ensures IsDigit(c) && c as int - '0' as int == d
  {
    ('0' as int + d) as char
  }

  function Digits(n: nat): (s: string)
    ensures s != "" && forall i | 0 <= i < |s| :: IsDigit(s[i])
  {
    if n < 10 then [DigitChar(n)] else Digits(n / 10) + [DigitChar(n % 10)]
  }

  function Value(s: string): (v: nat)
    requires forall i | 0 <= i < |s| :: IsDigit(s[i])
  {
    if s == "" then 0
    else
      assert IsDigit(s[|s| - 1]);
      10 * Value(s[..|s| - 1]) + (s[|s| - 1] as int - '0' as int)
  }

  /** strconv.Itoa */
  function Itoa(n: int): (s: string)
    ensures Token(s)
  {
    if n < 0 then "-" + Digits(-n) else Digits(n)
  }

  /** strconv.Atoi on a 64-bit int: an optional sign, decimal digits, no overflow. */
  function Atoi(s: string): Option<int> {
    var signed := s != "" && (s[0] == '+' || s[0] == '-');
    var body := if signed then s[1..] else s;
    if body == "" || exists i | 0 <= i < |body| :: !IsDigit(body[i]) then None
    else
      var v: int := if signed && s[0] == '-' then -(Value(body) as int) else Value(body);
      if -INT64_MAX - 1 <= v <= INT64_MAX then Some(v) else None
  }

  lemma {:induction false} ValueDigits(n: nat)
    ensures Value(Digits(n)) == n
  {
    if n >= 10 {
      ValueDigits(n / 10);
      var s := Digits(n);
      assert s[..|s| - 1] == Digits(n / 10);
    } else {
      assert Digits(n)[..0] == "";
    }
  }

  lemma AtoiItoa(n: int)
    requires -INT64_MAX - 1 <= n <= INT64_MAX
    ensures Atoi(Itoa(n)) == Some(n)
  {
    ValueDigits(if n < 0 then -n else n);
    if n < 0 {
      assert Itoa(n)[1..] == Digits(-n);
    } else {
      assert IsDigit(Digits(n)[0]);
    }
  }

  // ----- ASCII letters -------------------------------------------------------

  function LowerChar(c: char): (l: char)
    ensures !('A' <= l <= 'Z')
  {
    if 'A' <= c <= 'Z' then (c as int + 32) as char else c
  }

  function Lower(s: string): (l: string)
    ensures |l| == |s|
    ensures forall i | 0 <= i < |s| :: l[i] == LowerChar(s[i])
  {
    seq(|s|, i requires 0 <= i < |s| => LowerChar(s[i]))
  }
}
