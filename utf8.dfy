/** The `TextEncoder` of the exporter: UTF-8 encoding of a string of Unicode
    scalar values (RFC 3629, section 3), with a decoder as its inverse. The byte
    length of a string, which the exporter writes into `/Length`, the object
    offsets and `startxref`, is the length of its encoding. */
module Utf8 {
  import opened Text


  newtype byte = x: int | 0 <= x < 256

  predicate IsContinuation(b: byte) { 0x80 <= b < 0xC0 }

  /** The one to four bytes of one scalar value. */
  function EncodeChar(c: char): (bs: seq<byte>)
    ensures 1 <= |bs| <= 4
    ensures |bs| == 1 <==> c as int < 0x80
    ensures forall i :: 1 <= i < |bs| ==> IsContinuation(bs[i])
  {
    var n := c as int;
    if n < 0x80 then [n as byte]
    else if n < 0x800 then [(0xC0 + n / 64) as byte, (0x80 + n % 64) as byte]
    else if n < 0x1_0000 then
      [(0xE0 + n / 4096) as byte, (0x80 + (n / 64) % 64) as byte, (0x80 + n % 64) as byte]
    else
      [(0xF0 + n / 262144) as byte, (0x80 + (n / 4096) % 64) as byte,
       (0x80 + (n / 64) % 64) as byte, (0x80 + n % 64) as byte]
  }

  /** `new TextEncoder().encode(s)`. */
  function Encode(s: string): seq<byte>
  {
    if |s| == 0 then [] else EncodeChar(s[0]) + Encode(s[1..])
  }

  /** The number of bytes `EncodeChar` writes for `c`. */
  function CharWidth(c: char): nat
  {
    var n := c as int;
    if n < 0x80 then 1 else if n < 0x800 then 2 else if n < 0x1_0000 then 3 else 4
  }

  /** `new TextEncoder().encode(s).length`, counted character by character;
      `ByteLengthEncodes` shows it is the length of `Encode(s)`. */
  function ByteLength(s: string): nat
  {
    if |s| == 0 then 0 else CharWidth(s[0]) + ByteLength(s[1..])
  }

  lemma {:induction false} ByteLengthEncodes(s: string)
    ensures ByteLength(s) == |Encode(s)|
  {
    if |s| > 0 {
      ByteLengthEncodes(s[1..]);
    }
  }

  lemma {:induction false} EncodeAppend(a: string, b: string)
    ensures Encode(a + b) == Encode(a) + Encode(b)
  {
    if |a| == 0 {
      assert a + b == b;
    } else {
      assert (a + b)[1..] == a[1..] + b;
      EncodeAppend(a[1..], b);
    }
  }

  lemma ByteLengthAppend(a: string, b: string)
    ensures ByteLength(a + b) == ByteLength(a) + ByteLength(b)
  {
    EncodeAppend(a, b);
    ByteLengthEncodes(a + b);
    ByteLengthEncodes(a);
    ByteLengthEncodes(b);
  }

  /** The bytes of `t` inside `a + t + r` start at the byte length of `a`. */
  lemma EncodeSlice(a: string, t: string, r: string)
    ensures var e, ea, et := Encode(a + t + r), Encode(a), Encode(t);
      |ea| + |et| <= |e| && e[|ea|..|ea| + |et|] == et
  {
    EncodeAppend(a + t, r);
    EncodeAppend(a, t);
    MiddleSlice(Encode(a), Encode(t), Encode(r));
  }

  /** The bytes `t` occur in `e` starting at index `at`. */
  predicate BytesAt(e: seq<byte>, at: nat, t: seq<byte>)
  {
    at + |t| <= |e| && e[at..at + |t|] == t
  }

  /** When `f` is `a + t + r`, the bytes of `t` sit in the encoding of `f`
      at the byte length of `a`. */
  lemma EncodedAt(f: string, a: string, t: string, r: string, at: nat)
    requires f == a + t + r && at == ByteLength(a)
    ensures BytesAt(Encode(f), at, Encode(t))
  {
    ByteLengthEncodes(a);
    EncodeSlice(a, t, r);
  }

  /** Every character takes at least one byte. */
  lemma {:induction false} ByteLengthAtLeast(s: string)
    ensures ByteLength(s) >= |s|
  {
    if |s| > 0 {
      ByteLengthAtLeast(s[1..]);
    }
  }

  predicate IsAscii(s: string) { forall i :: 0 <= i < |s| ==> s[i] as int < 0x80 }

  /** On ASCII text the encoding is the character codes, one byte each. */
  lemma {:induction false} EncodeAscii(s: string)
    requires IsAscii(s)
    ensures |Encode(s)| == |s|
    ensures forall i :: 0 <= i < |s| ==> Encode(s)[i] as int == s[i] as int
  {
    if |s| > 0 {
      EncodeAscii(s[1..]);
    }
  }

  lemma ByteLengthAscii(s: string)
    requires IsAscii(s)
    ensures ByteLength(s) == |s|
  {
    EncodeAscii(s);
    ByteLengthEncodes(s);
  }

  /** Reads the scalar value that `EncodeChar` wrote in the first `k` bytes of `bs`. */
  function DecodeChar(bs: seq<byte>, k: nat): int
    requires 1 <= k <= 4 && k <= |bs|
  {
    if k == 1 then bs[0] as int
    else if k == 2 then (bs[0] as int - 0xC0) * 64 + (bs[1] as int - 0x80)
    else if k == 3 then
      (bs[0] as int - 0xE0) * 4096 + (bs[1] as int - 0x80) * 64 + (bs[2] as int - 0x80)
    else
      (bs[0] as int - 0xF0) * 262144 + (bs[1] as int - 0x80) * 4096
      + (bs[2] as int - 0x80) * 64 + (bs[3] as int - 0x80)
  }

  /** The sequence length announced by a leading byte. */
  function LeadLength(b: byte): nat
  {
    if b < 0x80 then 1 else if b < 0xE0 then 2 else if b < 0xF0 then 3 else 4
  }

  /** A decoder into code points; a sequence cut short at the end is read as one byte. */
  function Decode(bs: seq<byte>): seq<int>
    decreases |bs|
  {
    if |bs| == 0 then []
    else
      var k := LeadLength(bs[0]);
      if k <= |bs| then [DecodeChar(bs, k)] + Decode(bs[k..]) else [bs[0] as int]
  }

  lemma EncodeCharDecodes(c: char, rest: seq<byte>)
    ensures LeadLength(EncodeChar(c)[0]) == |EncodeChar(c)|
    ensures DecodeChar(EncodeChar(c) + rest, |EncodeChar(c)|) == c as int
  {
    var n := c as int;
    if n < 0x80 {
    } else if n < 0x800 {
      DivMod2(n);
    } else if n < 0x1_0000 {
      DivMod3(n);
    } else {
      DivMod4(n);
    }
  }

  // the digits in base 64 that the two-, three- and four-byte forms carry
  lemma DivMod2(n: int)
    requires 0 <= n
    ensures n == (n / 64) * 64 + n % 64
  {
  }

  lemma DivMod3(n: int)
    requires 0 <= n
    ensures n == (n / 4096) * 4096 + ((n / 64) % 64) * 64 + n % 64
  {
    assert n / 64 == (n / 4096) * 64 + (n / 64) % 64;
    assert n == (n / 64) * 64 + n % 64;
  }

  lemma DivMod4(n: int)
    requires 0 <= n
    ensures n == (n / 262144) * 262144 + ((n / 4096) % 64) * 4096 + ((n / 64) % 64) * 64 + n % 64
  {
    assert n / 4096 == (n / 262144) * 64 + (n / 4096) % 64;
    DivMod3(n);
  }

  /** Decoding an encoding gives back the code points of the string. */
  lemma {:induction false} DecodeEncode(s: string)
    ensures Decode(Encode(s)) == seq(|s|, i requires 0 <= i < |s| => s[i] as int)
  {
    if |s| > 0 {
      var e := EncodeChar(s[0]);
      var bs := Encode(s);
      assert bs == e + Encode(s[1..]);
      EncodeCharDecodes(s[0], Encode(s[1..]));
      assert bs[0] == e[0];
      assert bs[|e|..] == Encode(s[1..]);
      DecodeEncode(s[1..]);
      assert DecodeChar(bs, |e|) == s[0] as int;
    }
  }
}
