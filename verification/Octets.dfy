/** Bytes, and numbers in network byte order. */
module Octets {
  type byte = x: int | 0 <= x < 256

  function Big16(n: int): (b: seq<byte>)
    requires 0 <= n < 0x1_0000
    ensures |b| == 2
  {
    [n / 0x100, n % 0x100]
  }

  function Big32(n: int): (b: seq<byte>)
    requires 0 <= n < 0x1_0000_0000
    ensures |b| == 4
  {
    Big16(n / 0x1_0000) + Big16(n % 0x1_0000)
  }

  function Read16(b: seq<byte>, at: nat): (n: int)
    requires at + 1 < |b|
    ensures 0 <= n < 0x1_0000
  {
    b[at] as int * 0x100 + b[at + 1] as int
  }

  lemma ReadBig16(b: seq<byte>, at: nat, n: int)
    requires 0 <= n < 0x1_0000 && at + 1 < |b| && b[at..at + 2] == Big16(n)
    ensures Read16(b, at) == n
  {
    assert b[at] == b[at..at + 2][0] && b[at + 1] == b[at..at + 2][1];
  }
}
