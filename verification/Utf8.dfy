/**
 UTF-8, as section 3 of RFC 3629 defines it: what len() of a Go string counts.
 */
module Utf8 {
  import opened Basics

  function Encode(c: char): (bs: seq<byte>)
    ensures 1 <= |bs| <= 4
  {
    var n := c as int;
    if n < 0x80 then [n]
    else if n < 0x800 then [0xC0 + n / 0x40, 0x80 + n % 0x40]
    else if n < 0x1_0000 then [0xE0 + n / 0x1000, 0x80 + n / 0x40 % 0x40, 0x80 + n % 0x40]
    else [0xF0 + n / 0x4_0000, 0x80 + n / 0x1000 % 0x40, 0x80 + n / 0x40 % 0x40, 0x80 + n % 0x40]
  }

  function EncodeAll(s: string): seq<byte> {
    if s == "" then [] else Encode(s[0]) + EncodeAll(s[1..])
  }

  /** The number of bytes that a first byte announces. */
  function Announced(lead: byte): nat {
    if lead < 0x80 then 1 else if 0xC0 <= lead < 0xE0 then 2 else if 0xE0 <= lead < 0xF0 then 3 else if 0xF0 <= lead < 0xF8 then 4 else 0
  }

  /** The code point that the bytes stand for. */
  function CodePoint(bs: seq<byte>): int
    requires bs != [] && |bs| == Announced(bs[0])
  {
    var lead: int := bs[0];
    if |bs| == 1 then lead
    else if |bs| == 2 then 0x40 * (lead - 0xC0) + Low(bs[1])
    else if |bs| == 3 then 0x1000 * (lead - 0xE0) + 0x40 * Low(bs[1]) + Low(bs[2])
    else 0x4_0000 * (lead - 0xF0) + 0x1000 * Low(bs[1]) + 0x40 * Low(bs[2]) + Low(bs[3])
  }

  /** The six bits of a byte that is not the first. */
  function Low(b: byte): int {
    b - 0x80
  }

  lemma EncodeRoundTrip(c: char)
    ensures var bs := Encode(c); |bs| == Announced(bs[0]) && CodePoint(bs) == c as int
  {
    var n := c as int;
    SixBits(n);
    SixBits(n / 0x40);
    SixBits(n / 0x1000);
    assert n / 0x40 / 0x40 == n / 0x1000 && n / 0x1000 / 0x40 == n / 0x4_0000;
  }

  lemma SixBits(n: nat)
    ensures n == 0x40 * (n / 0x40) + n % 0x40
  {
  }
}
