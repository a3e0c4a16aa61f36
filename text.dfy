/** String helpers shared by the PDF and CSV exporters: JavaScript's
    `Array.prototype.join`, single-character `replace`/`replaceAll`,
    `includes`, ASCII `toLowerCase`, decimal `String(n)` and `padStart`. */
module Text {

  /** `parts.join(sep)`: the parts with `sep` between neighbours, "" for no parts. */
  function Join(parts: seq<string>, sep: string): string
  {
    if |parts| == 0 then ""
    else if |parts| == 1 then parts[0]
    else parts[0] + sep + Join(parts[1..], sep)
  }

  lemma {:induction false} JoinAppend(a: seq<string>, b: seq<string>, sep: string)
    requires |a| >= 1 && |b| >= 1
    ensures Join(a + b, sep) == Join(a, sep) + sep + Join(b, sep)
  {
    if |a| == 1 {
      assert (a + b)[1..] == b;
    } else {
      assert (a + b)[1..] == a[1..] + b;
      JoinAppend(a[1..], b, sep);
    }
  }

  /** Joining lines that end with `last` ends with a separator and `last`. */
  lemma JoinLast(a: seq<string>, last: string, sep: string)
    requires |a| >= 1
    ensures Join(a + [last], sep) == Join(a, sep) + sep + last
  {
    JoinAppend(a, [last], sep);
  }

  lemma SeqAssoc<T>(a: seq<T>, b: seq<T>, c: seq<T>)
    ensures (a + b) + c == a + (b + c)
  {
  }

  /** In `p + q + r`, the part after `p` and as long as `q` is `q`. */
  lemma MiddleSlice<T>(p: seq<T>, q: seq<T>, r: seq<T>)
    ensures |p| + |q| <= |p + q + r| && (p + q + r)[|p|..|p| + |q|] == q
  {
    assert (p + q + r)[|p|..|p| + |q|] == (p + q)[|p|..];
  }

  /** A slice that lies inside `p` is the same slice of `p + q`. */
  lemma LeftSlice<T>(p: seq<T>, q: seq<T>, i: nat, j: nat)
    requires i <= j <= |p|
    ensures (p + q)[i..j] == p[i..j]
  {
  }

  /** The last `|q|` elements of `p + q` are `q`. */
  lemma SuffixSlice<T>(p: seq<T>, q: seq<T>)
    ensures (p + q)[|p + q| - |q|..] == q
  {
  }

  /** The concatenation of all parts (`join('')`). */
  function Concat(parts: seq<string>): string
  {
    if |parts| == 0 then "" else parts[0] + Concat(parts[1..])
  }

  lemma {:induction false} ConcatAppend(a: seq<string>, b: seq<string>)
    ensures Concat(a + b) == Concat(a) + Concat(b)
  {
    if |a| == 0 {
      assert a + b == b;
    } else {
      assert (a + b)[1..] == a[1..] + b;
      ConcatAppend(a[1..], b);
    }
  }

  /** `s.replaceAll(c, rep)` for a one-character pattern `c`. */
  function ReplaceAll(s: string, c: char, rep: string): string
  {
    if |s| == 0 then ""
    else (if s[0] == c then rep else [s[0]]) + ReplaceAll(s[1..], c, rep)
  }

  lemma {:induction false} ReplaceAllAppend(a: string, b: string, c: char, rep: string)
    ensures ReplaceAll(a + b, c, rep) == ReplaceAll(a, c, rep) + ReplaceAll(b, c, rep)
  {
    if |a| == 0 {
      assert a + b == b;
    } else {
      assert (a + b)[1..] == a[1..] + b;
      ReplaceAllAppend(a[1..], b, c, rep);
    }
  }

  /** `s.includes(sub)`. */
  predicate Includes(s: string, sub: string)
  {
    |sub| <= |s| && (s[..|sub|] == sub || Includes(s[1..], sub))
  }

  /** `toLowerCase` restricted to the ASCII letters. */
  function LowerChar(c: char): char
  {
    if 'A' <= c <= 'Z' then (c as int + 32) as char else c
  }

  function Lower(s: string): (r: string)
    ensures |r| == |s|
    ensures forall i :: 0 <= i < |s| ==> r[i] == LowerChar(s[i])
  {
    if |s| == 0 then "" else [LowerChar(s[0])] + Lower(s[1..])
  }

  // ---- decimal numbers: `String(n)`, `padStart(10, '0')` and reading them back ----

  predicate IsDigit(c: char) { '0' <= c <= '9' }

  predicate AllDigits(s: string) { forall i :: 0 <= i < |s| ==> IsDigit(s[i]) }

  function DigitChar(d: nat): (c: char)
    requires d < 10
    ensures IsDigit(c) && DigitValue(c) == d
  {
    (48 + d) as char
  }

  function DigitValue(c: char): nat
    requires IsDigit(c)
  {
    c as int - 48
  }

  /** The number a string of decimal digits denotes (leading zeros allowed). */
  function DecimalValue(s: string): nat
    requires AllDigits(s)
  {
    if |s| == 0 then 0 else DecimalValue(s[..|s| - 1]) * 10 + DigitValue(s[|s| - 1])
  }

  function Pow10(k: nat): (r: nat)
    ensures r >= 1
  {
    if k == 0 then 1 else 10 * Pow10(k - 1)
  }

  /** `String(n)` for a non-negative integer: its shortest decimal spelling. */
  function NatStr(n: nat): (s: string)
    ensures |s| >= 1
  {
    if n < 10 then [DigitChar(n)] else NatStr(n / 10) + [DigitChar(n % 10)]
  }

  /** `String(n)` reads back as `n`, without a leading zero. */
  lemma {:induction false} NatStrDigits(n: nat)
    ensures AllDigits(NatStr(n)) && DecimalValue(NatStr(n)) == n
    ensures NatStr(n)[0] == '0' ==> n == 0
    ensures n < 10 ==> |NatStr(n)| == 1
  {
    if n >= 10 {
      NatStrDigits(n / 10);
      var p, s := NatStr(n / 10), NatStr(n);
      assert s[..|s| - 1] == p;
      assert s[0] == p[0];
    }
  }

  lemma {:induction false} NatStrLength(n: nat, k: nat)
    requires n < Pow10(k) && k >= 1
    ensures |NatStr(n)| <= k
  {
    if n >= 10 {
      NatStrLength(n / 10, k - 1);
    }
  }

  function Zeros(k: nat): (s: string)
    ensures |s| == k && AllDigits(s)
    ensures forall i :: 0 <= i < k ==> s[i] == '0'
  {
    if k == 0 then "" else Zeros(k - 1) + "0"
  }

  /** `s.padStart(width, '0')`. */
  function PadZeros(s: string, width: nat): (r: string)
    ensures |s| >= width ==> r == s
    ensures |s| < width ==> |r| == width
  {
    if |s| >= width then s else Zeros(width - |s|) + s
  }

  lemma {:induction false} DecimalValueAppend(a: string, b: string)
    requires AllDigits(a) && AllDigits(b)
    ensures AllDigits(a + b)
    ensures DecimalValue(a + b) == DecimalValue(a) * Pow10(|b|) + DecimalValue(b)
  {
    if |b| == 0 {
      assert a + b == a;
    } else {
      var b' := b[..|b| - 1];
      assert (a + b)[..|a + b| - 1] == a + b';
      assert (a + b)[|a + b| - 1] == b[|b| - 1];
      DecimalValueAppend(a, b');
      ShiftDigit(DecimalValue(a), Pow10(|b'|), DecimalValue(b'), DigitValue(b[|b| - 1]));
    }
  }

  lemma ShiftDigit(va: int, p: int, vb: int, d: int)
    ensures (va * p + vb) * 10 + d == va * (10 * p) + (vb * 10 + d)
  {
  }

  lemma {:induction false} ZerosValue(k: nat)
    ensures DecimalValue(Zeros(k)) == 0
  {
    if k > 0 {
      var z := Zeros(k);
      assert z == Zeros(k - 1) + "0";
      assert z[..k - 1] == Zeros(k - 1);
      ZerosValue(k - 1);
      assert DecimalValue(z) == DecimalValue(Zeros(k - 1)) * 10 + DigitValue(z[k - 1]);
    }
  }

  /** Zero padding does not change the value read back. */
  lemma PadZerosValue(s: string, width: nat)
    requires AllDigits(s)
    ensures AllDigits(PadZeros(s, width))
    ensures DecimalValue(PadZeros(s, width)) == DecimalValue(s)
  {
    if |s| < width {
      var z := Zeros(width - |s|);
      DecimalValueAppend(z, s);
      ZerosValue(width - |s|);
      assert DecimalValue(z) * Pow10(|s|) == 0;
    }
  }
}
