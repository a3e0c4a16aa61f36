/** Text coercion and literal-string escaping of the PDF exporter
    (dashboard/src/utils/pdf.ts, `escapePdfText` and `toText`). A literal
    string in a content stream is delimited by parentheses, and section
    7.3.4.2 of ISO 32000-1 makes a backslash the escape character, so the
    three characters `\`, `(` and `)` are written with a backslash before them. */
module PdfText {
  import opened Text
  import opened Values

  predicate NeedsEscape(c: char) { c == '\\' || c == '(' || c == ')' }

  /** The reference definition: every character on its own, a backslash
      before each of the three special characters. */
  function EscapeChars(s: string): (r: string)
    ensures |r| == |s| + CountSpecial(s)
  {
    if |s| == 0 then ""
    else (if NeedsEscape(s[0]) then ['\\', s[0]] else [s[0]]) + EscapeChars(s[1..])
  }

  function CountSpecial(s: string): nat
  {
    if |s| == 0 then 0 else (if NeedsEscape(s[0]) then 1 else 0) + CountSpecial(s[1..])
  }

  /** `escapePdfText`, as the source writes it: three global replacements
      applied one after the other. */
  function EscapePdfText(value: string): string
  {
    ReplaceAll(ReplaceAll(ReplaceAll(value, '\\', "\\\\"), '(', "\\("), ')', "\\)")
  }

  /** The chain of three replacements escapes each character exactly once:
      the backslashes inserted by the later passes are never doubled. */
  lemma {:induction false} EscapePdfTextIsPerChar(s: string)
    ensures EscapePdfText(s) == EscapeChars(s)
  {
    if |s| > 0 {
      var a := ReplaceAll(s, '\\', "\\\\");
      var b := ReplaceAll(a, '(', "\\(");
      var head := if s[0] == '\\' then "\\\\" else [s[0]];
      assert a == head + ReplaceAll(s[1..], '\\', "\\\\");
      ReplaceAllAppend(head, ReplaceAll(s[1..], '\\', "\\\\"), '(', "\\(");
      var head2 := ReplaceAll(head, '(', "\\(");
      ReplaceAllAppend(head2, ReplaceAll(ReplaceAll(s[1..], '\\', "\\\\"), '(', "\\("), ')', "\\)");
      EscapePdfTextIsPerChar(s[1..]);
    }
  }

  /** The reader's side: a backslash makes the next character literal. */
  function Unescape(s: string): string
  {
    if |s| == 0 then ""
    else if s[0] == '\\' && |s| >= 2 then [s[1]] + Unescape(s[2..])
    else [s[0]] + Unescape(s[1..])
  }

  lemma {:induction false} UnescapeEscapeChars(s: string)
    ensures Unescape(EscapeChars(s)) == s
  {
    if |s| > 0 {
      var e := EscapeChars(s);
      if NeedsEscape(s[0]) {
        assert e[2..] == EscapeChars(s[1..]);
      } else {
        assert e[1..] == EscapeChars(s[1..]);
      }
      UnescapeEscapeChars(s[1..]);
    }
  }

  /** Removing the escapes gives back the text, and the escaped text is
      longer by exactly the number of special characters. */
  lemma EscapePdfTextRoundTrip(s: string)
    ensures Unescape(EscapePdfText(s)) == s
    ensures |EscapePdfText(s)| == |s| + CountSpecial(s)
  {
    EscapePdfTextIsPerChar(s);
    UnescapeEscapeChars(s);
  }

  /** Text without special characters is written as it is. */
  lemma {:induction false} EscapePdfTextPlain(s: string)
    requires forall i :: 0 <= i < |s| ==> !NeedsEscape(s[i])
    ensures EscapePdfText(s) == s
  {
    EscapePdfTextIsPerChar(s);
    PlainEscapeChars(s);
  }

  lemma {:induction false} PlainEscapeChars(s: string)
    requires forall i :: 0 <= i < |s| ==> !NeedsEscape(s[i])
    ensures EscapeChars(s) == s
  {
    if |s| > 0 {
      PlainEscapeChars(s[1..]);
    }
  }

  /** `toText`: null and undefined become "", anything else `String(value)`. */
  function ToText(v: Value): (r: string)
    ensures v.Null? || v.Undefined? ==> r == ""
    ensures v.Str? ==> r == v.s
    ensures !v.Null? && !v.Undefined? ==> r == StringOf(v)
  {
    if v.Null? || v.Undefined? then "" else StringOf(v)
  }
}
