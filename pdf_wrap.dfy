/** The cell wrapper of the PDF exporter (dashboard/src/utils/pdf.ts,
    `wrapCellText`): greedy cuts of at most `maxChars` characters, preferring
    to cut just after a break character found no further back than 55% of
    the budget. When a cut piece ends with a space, all whitespace at the end
    of the piece and at the start of the rest is dropped. */
module PdfWrap {
  import opened Text

  predicate IsBreakChar(c: char)
  {
    c == ' ' || c == '/' || c == '-' || c == '_' || c == '@' || c == '.'
  }

  /** What `trimStart`/`trimEnd` remove: ECMAScript WhiteSpace and LineTerminator. */
  predicate IsWhitespace(c: char)
  {
    var n := c as int;
    || 0x09 <= n <= 0x0D                  // tab, line feed, vertical tab, form feed, carriage return
    || n == 0x20 || n == 0xA0 || n == 0x1680
    || 0x2000 <= n <= 0x200A              // the Zs spaces from en quad to hair space
    || n == 0x2028 || n == 0x2029         // line and paragraph separators
    || n == 0x202F || n == 0x205F || n == 0x3000
    || n == 0xFEFF                        // byte order mark
  }

  function TrimEnd(s: string): (r: string)
    ensures |r| <= |s| && r == s[..|r|]
  {
    if |s| == 0 || !IsWhitespace(s[|s| - 1]) then s else TrimEnd(s[..|s| - 1])
  }

  function TrimStart(s: string): (r: string)
    ensures |r| <= |s| && r == s[|s| - |r|..]
  {
    if |s| == 0 || !IsWhitespace(s[0]) then s else TrimStart(s[1..])
  }

  /** `Math.max(1, Math.floor(maxChars * 0.55))`, the lowest cut position the
      search looks at. */
  function LowestCut(maxChars: nat): (lo: nat)
    ensures 1 <= lo
    ensures maxChars >= 1 ==> lo <= maxChars
  {
    var f := (11 * maxChars) / 20;
    if f > 1 then f else 1
  }

  /** The downward search of the inner `for` loop, from position `j`. */
  function CutFrom(rest: string, j: int, lo: nat, maxChars: nat): (cut: nat)
    requires 1 <= lo && j <= maxChars < |rest|
    ensures lo <= maxChars ==> lo <= cut <= maxChars
    decreases j
  {
    if j < lo then maxChars
    else if IsBreakChar(rest[j - 1]) then j
    else CutFrom(rest, j - 1, lo, maxChars)
  }

  /** The cut position: just after the last break character at a position in
      `[LowestCut(maxChars), maxChars]`, or `maxChars` when there is none. */
  function Cut(rest: string, maxChars: nat): (cut: nat)
    requires 1 <= maxChars < |rest|
    ensures 1 <= cut <= maxChars
  {
    CutFrom(rest, maxChars, LowestCut(maxChars), maxChars)
  }

  /** Position `k` (1-based) holds a break character. */
  predicate BreakAt(rest: string, k: int)
  {
    1 <= k <= |rest| && IsBreakChar(rest[k - 1])
  }

  lemma {:induction false} CutFromSpec(rest: string, j: int, lo: nat, maxChars: nat)
    requires 1 <= lo <= maxChars < |rest| && j <= maxChars
    ensures var cut := CutFrom(rest, j, lo, maxChars);
      && lo <= cut <= maxChars
      && ((exists k :: lo <= k <= j && BreakAt(rest, k)) ==>
            BreakAt(rest, cut) && cut <= j && forall k :: cut < k <= j ==> !BreakAt(rest, k))
      && ((forall k :: lo <= k <= j ==> !BreakAt(rest, k)) ==> cut == maxChars)
    decreases j
  {
    if j >= lo && !IsBreakChar(rest[j - 1]) {
      CutFromSpec(rest, j - 1, lo, maxChars);
    }
  }

  /** Where a cut lands: in `[LowestCut, maxChars]`; just after the LAST break
      character in that window if there is one, at `maxChars` otherwise. */
  lemma CutSpec(rest: string, maxChars: nat)
    requires 1 <= maxChars < |rest|
    ensures var cut := Cut(rest, maxChars);
      && 1 <= LowestCut(maxChars) <= cut <= maxChars
      && ((exists k :: LowestCut(maxChars) <= k <= maxChars && BreakAt(rest, k)) ==>
            BreakAt(rest, cut) && forall k :: cut < k <= maxChars ==> !BreakAt(rest, k))
      && ((forall k :: LowestCut(maxChars) <= k <= maxChars ==> !BreakAt(rest, k)) ==> cut == maxChars)
  {
    CutFromSpec(rest, maxChars, LowestCut(maxChars), maxChars);
  }

  /** One iteration of the `while` loop: the emitted line and what is left. */
  function Step(rest: string, maxChars: nat): (r: (string, string))
    requires 1 <= maxChars < |rest|
    ensures |r.0| <= maxChars && |r.1| < |rest|
  {
    var cut := Cut(rest, maxChars);
    CutSpec(rest, maxChars);
    var headRaw := rest[..cut];
    var tailRaw := rest[cut..];
    if headRaw[|headRaw| - 1] == ' ' then (TrimEnd(headRaw), TrimStart(tailRaw))
    else (headRaw, tailRaw)
  }

  /** The split that one round of the loop computes from the cut. */
  lemma StepAt(rest: string, maxChars: nat, cut: nat)
    requires 1 <= maxChars < |rest| && cut == Cut(rest, maxChars)
    ensures 1 <= cut <= maxChars
    ensures rest[cut - 1] == ' ' ==> Step(rest, maxChars) == (TrimEnd(rest[..cut]), TrimStart(rest[cut..]))
    ensures rest[cut - 1] != ' ' ==> Step(rest, maxChars) == (rest[..cut], rest[cut..])
  {
    CutSpec(rest, maxChars);
    assert rest[..cut][cut - 1] == rest[cut - 1];
  }

  /** The lines the loop emits from `rest` onwards, the non-empty remainder included. */
  function WrapRest(rest: string, maxChars: nat): seq<string>
    requires maxChars >= 1
    decreases |rest|
  {
    if |rest| <= maxChars then (if |rest| > 0 then [rest] else [])
    else
      var (head, tail) := Step(rest, maxChars);
      [head] + WrapRest(tail, maxChars)
  }

  /** `wrapCellText(text, maxChars)` as a function of its inputs. */
  function Wrap(text: string, maxChars: nat): seq<string>
    requires maxChars >= 1
  {
    if |text| <= maxChars then [text] else WrapRest(text, maxChars)
  }

  /** The inner `for` loop: scan down from `maxChars` to the lowest cut
      position for a break character. */
  method FindCut(rest: string, maxChars: nat) returns (cut: nat)
    requires 1 <= maxChars < |rest|
    ensures cut == Cut(rest, maxChars)
  {
    var lo := LowestCut(maxChars);
    cut := maxChars;
    var j: int := maxChars;
    while j >= lo
      invariant lo - 1 <= j <= maxChars
      invariant cut == maxChars
      invariant CutFrom(rest, j, lo, maxChars) == Cut(rest, maxChars)
      decreases j
    {
      if IsBreakChar(rest[j - 1]) {
        cut := j;
        break;
      }
      j := j - 1;
    }
  }

  /** The body of one round after the search: cut, and when the piece ends
      with a space, trim whitespace on both sides of the cut. */
  method SplitAtCut(rest: string, maxChars: nat, cut: nat) returns (head: string, tail: string)
    requires 1 <= maxChars < |rest| && cut == Cut(rest, maxChars)
    ensures (head, tail) == Step(rest, maxChars)
  {
    StepAt(rest, maxChars, cut);
    var headRaw := rest[..cut];
    var tailRaw := rest[cut..];
    if headRaw[|headRaw| - 1] == ' ' {
      head := TrimEnd(headRaw);
      tail := TrimStart(tailRaw);
    } else {
      head := headRaw;
      tail := tailRaw;
    }
  }

  /** `wrapCellText`: the loop of the source, proved to compute `Wrap`. A
      budget of at least 1 is what makes the loop terminate (every caller
      passes at least 8): each round consumes at least one character. */
  method WrapCellText(text: string, maxChars: nat) returns (out: seq<string>)
    requires maxChars >= 1
    ensures out == Wrap(text, maxChars)
    ensures |out| >= 1
    ensures forall i :: 0 <= i < |out| ==> |out[i]| <= maxChars
  {
    if |text| <= maxChars {
      return [text];
    }
    out := [];
    var rest := text;
    while |rest| > maxChars
      invariant out + WrapRest(rest, maxChars) == WrapRest(text, maxChars)
      decreases |rest|
    {
      var cut := FindCut(rest, maxChars);
      var head, tail := SplitAtCut(rest, maxChars, cut);
      assert WrapRest(rest, maxChars) == [head] + WrapRest(tail, maxChars);
      out := out + [head];
      rest := tail;
    }
    if |rest| > 0 {
      out := out + [rest];
    }
    assert out == WrapRest(text, maxChars) == Wrap(text, maxChars);
    WrapFits(text, maxChars);
  }

  lemma {:induction false} WrapRestLines(rest: string, maxChars: nat)
    requires maxChars >= 1
    ensures forall i :: 0 <= i < |WrapRest(rest, maxChars)| ==> |WrapRest(rest, maxChars)[i]| <= maxChars
    ensures |rest| > 0 ==> |WrapRest(rest, maxChars)| >= 1
    decreases |rest|
  {
    if |rest| > maxChars {
      var (head, tail) := Step(rest, maxChars);
      WrapRestLines(tail, maxChars);
    }
  }

  /** Every line fits the budget and there is at least one line; text within
      the budget comes back as its only line, unchanged. */
  lemma WrapFits(text: string, maxChars: nat)
    requires maxChars >= 1
    ensures |Wrap(text, maxChars)| >= 1
    ensures forall i :: 0 <= i < |Wrap(text, maxChars)| ==> |Wrap(text, maxChars)[i]| <= maxChars
    ensures |text| <= maxChars ==> Wrap(text, maxChars) == [text]
  {
    WrapRestLines(text, maxChars);
  }

  predicate NoSpace(s: string) { forall i :: 0 <= i < |s| ==> s[i] != ' ' }

  lemma {:induction false} WrapRestConcat(rest: string, maxChars: nat)
    requires maxChars >= 1 && NoSpace(rest)
    ensures Concat(WrapRest(rest, maxChars)) == rest
    decreases |rest|
  {
    if |rest| > maxChars {
      var cut := Cut(rest, maxChars);
      StepAt(rest, maxChars, cut);
      var head, tail := rest[..cut], rest[cut..];
      assert Step(rest, maxChars) == (head, tail);
      var lines := WrapRest(tail, maxChars);
      assert WrapRest(rest, maxChars) == [head] + lines;
      assert ([head] + lines)[1..] == lines;
      WrapRestConcat(tail, maxChars);
      assert rest == head + tail;
    }
  }

  /** Text without spaces is cut without losing or adding anything. */
  lemma WrapNoSpaceConcat(text: string, maxChars: nat)
    requires maxChars >= 1 && NoSpace(text)
    ensures Concat(Wrap(text, maxChars)) == text
  {
    if |text| > maxChars {
      WrapRestConcat(text, maxChars);
    }
  }

  /** The characters of `s` that are not whitespace, in order. */
  function Visible(s: string): string
  {
    if |s| == 0 then "" else (if IsWhitespace(s[0]) then "" else [s[0]]) + Visible(s[1..])
  }

  lemma {:induction false} VisibleAppend(a: string, b: string)
    ensures Visible(a + b) == Visible(a) + Visible(b)
  {
    if |a| == 0 {
      assert a + b == b;
    } else {
      assert (a + b)[0] == a[0];
      assert (a + b)[1..] == a[1..] + b;
      VisibleAppend(a[1..], b);
    }
  }

  lemma {:induction false} VisibleBlank(s: string)
    requires forall i :: 0 <= i < |s| ==> IsWhitespace(s[i])
    ensures Visible(s) == ""
  {
    if |s| > 0 {
      VisibleBlank(s[1..]);
    }
  }

  lemma {:induction false} TrimEndVisible(s: string)
    ensures Visible(TrimEnd(s)) == Visible(s)
    decreases |s|
  {
    if |s| > 0 && IsWhitespace(s[|s| - 1]) {
      var init := s[..|s| - 1];
      TrimEndVisible(init);
      assert s == init + [s[|s| - 1]];
      VisibleAppend(init, [s[|s| - 1]]);
      assert Visible([s[|s| - 1]]) == "";
    }
  }

  lemma {:induction false} TrimStartVisible(s: string)
    ensures Visible(TrimStart(s)) == Visible(s)
    decreases |s|
  {
    if |s| > 0 && IsWhitespace(s[0]) {
      TrimStartVisible(s[1..]);
    }
  }

  lemma StepVisible(rest: string, maxChars: nat)
    requires 1 <= maxChars < |rest|
    ensures Visible(Step(rest, maxChars).0) + Visible(Step(rest, maxChars).1) == Visible(rest)
  {
    var cut := Cut(rest, maxChars);
    CutSpec(rest, maxChars);
    var headRaw, tailRaw := rest[..cut], rest[cut..];
    assert rest == headRaw + tailRaw;
    VisibleAppend(headRaw, tailRaw);
    TrimEndVisible(headRaw);
    TrimStartVisible(tailRaw);
  }

  lemma {:induction false} WrapRestVisible(rest: string, maxChars: nat)
    requires maxChars >= 1
    ensures Visible(Concat(WrapRest(rest, maxChars))) == Visible(rest)
    decreases |rest|
  {
    if |rest| > maxChars {
      var (head, tail) := Step(rest, maxChars);
      StepVisible(rest, maxChars);
      WrapRestVisible(tail, maxChars);
      assert Concat(WrapRest(rest, maxChars)) == head + Concat(WrapRest(tail, maxChars));
      VisibleAppend(head, Concat(WrapRest(tail, maxChars)));
    } else if |rest| > 0 {
      assert [rest][1..] == [];
      assert Concat([rest]) == rest;
    }
  }

  /** Wrapping drops whitespace only: the lines, put back together, hold
      every other character of the text, in order. */
  lemma WrapKeepsVisible(text: string, maxChars: nat)
    requires maxChars >= 1
    ensures Visible(Concat(Wrap(text, maxChars))) == Visible(text)
  {
    if |text| > maxChars {
      WrapRestVisible(text, maxChars);
    } else {
      assert [text][1..] == [];
      assert Concat([text]) == text;
    }
  }

  lemma {:induction false} TrimEndBlank(s: string)
    requires forall i :: 0 <= i < |s| ==> IsWhitespace(s[i])
    ensures TrimEnd(s) == ""
    decreases |s|
  {
    if |s| > 0 {
      TrimEndBlank(s[..|s| - 1]);
    }
  }

  lemma {:induction false} TrimEndStops(s: string)
    ensures TrimEnd(s) == "" || !IsWhitespace(TrimEnd(s)[|TrimEnd(s)| - 1])
    decreases |s|
  {
    if |s| > 0 && IsWhitespace(s[|s| - 1]) {
      TrimEndStops(s[..|s| - 1]);
    }
  }

  lemma {:induction false} TrimStartStops(s: string)
    ensures TrimStart(s) == "" || !IsWhitespace(TrimStart(s)[0])
    decreases |s|
  {
    if |s| > 0 && IsWhitespace(s[0]) {
      TrimStartStops(s[1..]);
    }
  }

  /** When a piece is cut after a space, ALL whitespace on both sides of the
      cut is dropped (not a single space): the line does not end with
      whitespace and the rest does not start with it. */
  lemma TrimAtSpaceBreak(rest: string, maxChars: nat)
    requires 1 <= maxChars < |rest|
    requires rest[Cut(rest, maxChars) - 1] == ' '
    ensures var (head, tail) := Step(rest, maxChars);
      && (head == "" || !IsWhitespace(head[|head| - 1]))
      && (tail == "" || !IsWhitespace(tail[0]))
  {
    var cut := Cut(rest, maxChars);
    StepAt(rest, maxChars, cut);
    assert Step(rest, maxChars) == (TrimEnd(rest[..cut]), TrimStart(rest[cut..]));
    TrimEndStops(rest[..cut]);
    TrimStartStops(rest[cut..]);
  }

  /** A text whose first `maxChars` characters are spaces starts with an
      empty line. */
  lemma WrapCanEmitEmptyLine(text: string, maxChars: nat)
    requires 1 <= maxChars < |text|
    requires forall i :: 0 <= i < maxChars ==> text[i] == ' '
    ensures |Wrap(text, maxChars)| >= 1 && Wrap(text, maxChars)[0] == ""
  {
    assert CutFrom(text, maxChars, LowestCut(maxChars), maxChars) == maxChars;
    StepAt(text, maxChars, maxChars);
    var headRaw := text[..maxChars];
    assert forall i :: 0 <= i < |headRaw| ==> headRaw[i] == ' ';
    TrimEndBlank(headRaw);
    var tail := TrimStart(text[maxChars..]);
    assert Step(text, maxChars) == ("", tail);
    assert WrapRest(text, maxChars) == [""] + WrapRest(tail, maxChars);
  }
}
