/** The second half of `buildTablePdf` (dashboard/src/utils/pdf.ts, lines
    267-326): numbering the objects of the document, writing them after the
    `%PDF-1.3` header, and closing the file with the cross-reference table
    and the trailer (sections 7.5.2, 7.5.4 and 7.5.5 of ISO 32000-1).
    Offsets are byte offsets into the UTF-8 encoding of the output, as
    `TextEncoder` counts them. The fixed words of the file format are named
    constants. */
module PdfFile {
  import opened Text
  import opened Utf8
  import opened Values
  import opened PdfColumns
  import opened PdfPage

  // ---- the objects (lines 274-304) ----

  const CatalogObject: string := "<< /Type /Catalog /Pages 2 0 R >>"
  const FontObject: string := "<< /Type /Font /Subtype /Type1 /BaseFont /Helvetica >>"
  const RefSuffix: string := " 0 R"
  const PagesOpen: string := "<< /Type /Pages /Count "
  const KidsOpen: string := " /Kids [ "
  const KidsClose: string := " ] >>"
  const Space: string := " "
  /** A page of 595 x 842 points that draws with font `F1`, object 3. */
  const PageOpen: string := "<< /Type /Page /Parent 2 0 R /MediaBox [0 0 595 842] /Resources << /Font << /F1 3 0 R >> >> /Contents "
  const DictClose: string := " >>"
  const LengthKey: string := "<< /Length "
  const StreamKeyword: string := " >>\nstream\n"
  const EndStream: string := "\nendstream"

  /** `${id} 0 R`: an indirect reference to object `id`. */
  function Ref(id: nat): string
  {
    NatStr(id) + RefSuffix
  }

  /** The object number of page `i` (`firstPageObjId + i * 2`). */
  function PageId(i: nat): nat { 4 + 2 * i }

  /** The object number of the content stream of page `i`. */
  function ContentId(i: nat): nat { 5 + 2 * i }

  /** The `/Kids` entries of the page tree: one reference per page, in page order. */
  function Kids(n: nat): (r: seq<string>)
    ensures |r| == n
    ensures forall i :: 0 <= i < n ==> r[i] == Ref(PageId(i))
  {
    if n == 0 then [] else Kids(n - 1) + [Ref(PageId(n - 1))]
  }

  /** The page tree: `/Count` pages, listed in `/Kids`. */
  function PagesObject(n: nat): string
  {
    PagesOpen + NatStr(n) + KidsOpen + Join(Kids(n), Space) + KidsClose
  }

  /** Page object whose content stream is object `contentId`. */
  function PageObject(contentId: nat): string
  {
    PageOpen + Ref(contentId) + DictClose
  }

  /** A stream object whose `/Length` is the byte length of the stream. */
  function ContentObject(stream: string): string
  {
    LengthKey + NatStr(ByteLength(stream)) + StreamKeyword + stream + EndStream
  }

  /** An entry of `allObjects`, named by what it is; `Body` gives the text
      the source stores for it. */
  datatype PdfObject = Catalog | PageTree(count: nat) | Font | Page(contentId: nat) | Content(stream: string)

  function Body(o: PdfObject): string
  {
    match o
    case Catalog => CatalogObject
    case PageTree(n) => PagesObject(n)
    case Font => FontObject
    case Page(c) => PageObject(c)
    case Content(s) => ContentObject(s)
  }

  /** No object has an empty text, so the writer never skips a slot. */
  lemma BodyNotEmpty(o: PdfObject)
    ensures |Body(o)| > 0
  {
    match o
    case Catalog =>
    case PageTree(n) => assert |PagesOpen| > 0;
    case Font =>
    case Page(c) => assert |PageOpen| > 0;
    case Content(s) => assert |LengthKey| > 0;
  }

  /** A content object announces the UTF-8 length of its stream: `/Length`
      is followed by the decimal digits of that length, and the stream
      itself sits between `stream` and `endstream`. */
  lemma ContentLength(stream: string)
    ensures var c, d := ContentObject(stream), NatStr(ByteLength(stream));
      var start := |LengthKey| + |d| + |StreamKeyword|;
      && c[..|LengthKey|] == LengthKey
      && c[|LengthKey|..|LengthKey| + |d|] == d
      && AllDigits(d) && DecimalValue(d) == |Encode(stream)|
      && c[|LengthKey| + |d|..start] == StreamKeyword
      && start + |stream| + |EndStream| == |c|
      && c[start..start + |stream|] == stream
      && c[start + |stream|..] == EndStream
  {
    var d := NatStr(ByteLength(stream));
    NatStrDigits(ByteLength(stream));
    ByteLengthEncodes(stream);
    var c := ContentObject(stream);
    var p := LengthKey + d + StreamKeyword;
    assert c == p + stream + EndStream;
    MiddleSlice(p, stream, EndStream);
    SuffixSlice(p + stream, EndStream);
    LeftSlice(p, stream + EndStream, 0, |LengthKey|);
    LeftSlice(p, stream + EndStream, |LengthKey|, |LengthKey| + |d|);
    LeftSlice(p, stream + EndStream, |LengthKey| + |d|, |p|);
    SeqAssoc(p, stream, EndStream);
  }

  /** The texts of `allObjects`, slot by slot. */
  function Bodies(objs: seq<PdfObject>): (r: seq<string>)
    ensures |r| == |objs|
    ensures forall k :: 0 <= k < |objs| ==> r[k] == Body(objs[k])
  {
    if |objs| == 0 then [] else [Body(objs[0])] + Bodies(objs[1..])
  }

  /** The page and content objects of the pages, two per page, in page order. */
  function PageObjects(pages: seq<string>): (r: seq<PdfObject>)
    ensures |r| == 2 * |pages|
    ensures forall i :: 0 <= i < |pages| ==> r[2 * i] == Page(ContentId(i)) && r[2 * i + 1] == Content(pages[i])
  {
    if |pages| == 0 then []
    else PageObjects(pages[..|pages| - 1]) + [Page(ContentId(|pages| - 1)), Content(pages[|pages| - 1])]
  }

  /** The numbering of `allObjects`, as a list: catalog = 1, page tree = 2,
      font = 3, then page `i` = 4 + 2i and its content = 5 + 2i. */
  function Objects(pages: seq<string>): (r: seq<PdfObject>)
    ensures |r| == 3 + 2 * |pages|
    ensures r[0] == Catalog && r[1] == PageTree(|pages|) && r[2] == Font
    ensures forall i :: 0 <= i < |pages| ==> r[PageId(i) - 1] == Page(ContentId(i))
    ensures forall i :: 0 <= i < |pages| ==> r[ContentId(i) - 1] == Content(pages[i])
  {
    [Catalog, PageTree(|pages|), Font] + PageObjects(pages)
  }

  /** The numbering leaves no slot open: any list laid out as above is `Objects(pages)`. */
  lemma LayoutIsObjects(objs: seq<PdfObject>, pages: seq<string>)
    requires |objs| == 3 + 2 * |pages|
    requires objs[0] == Catalog && objs[1] == PageTree(|pages|) && objs[2] == Font
    requires forall i :: 0 <= i < |pages| ==> objs[PageId(i) - 1] == Page(ContentId(i))
    requires forall i :: 0 <= i < |pages| ==> objs[ContentId(i) - 1] == Content(pages[i])
    ensures objs == Objects(pages)
  {
    var r := Objects(pages);
    forall k | 3 <= k < |objs|
      ensures objs[k] == r[k]
    {
      var i := (k - 3) / 2;
      if k % 2 == 1 {
        assert k == PageId(i) - 1;
      } else {
        assert k == ContentId(i) - 1;
      }
    }
  }

  /** Lines 274-304: fills `allObjects` by index: the catalog, the page tree
      and the font in slots 0-2, then for page `i` its page object in slot
      `pageObjIds[i] - 1` and its content stream in slot `contentObjIds[i] - 1`. */
  method FillObjects(pages: seq<string>) returns (objs: array<PdfObject>)
    ensures objs.Length == 3 + 2 * |pages|
    ensures objs[0] == Catalog && objs[1] == PageTree(|pages|) && objs[2] == Font
    ensures forall i :: 0 <= i < |pages| ==> objs[PageId(i) - 1] == Page(ContentId(i))
    ensures forall i :: 0 <= i < |pages| ==> objs[ContentId(i) - 1] == Content(pages[i])
  {
    objs := new PdfObject[3 + 2 * |pages|](_ => Catalog);
    objs[0] := Catalog;
    objs[1] := PageTree(|pages|);
    objs[2] := Font;
    var i := 0;
    while i < |pages|
      invariant 0 <= i <= |pages|
      invariant objs[0] == Catalog && objs[1] == PageTree(|pages|) && objs[2] == Font
      invariant forall j :: 0 <= j < i ==> objs[PageId(j) - 1] == Page(ContentId(j))
      invariant forall j :: 0 <= j < i ==> objs[ContentId(j) - 1] == Content(pages[j])
    {
      objs[PageId(i) - 1] := Page(ContentId(i));
      objs[ContentId(i) - 1] := Content(pages[i]);
      i := i + 1;
    }
  }

  // ---- the file text (lines 306-324) ----

  const Header: string := "%PDF-1.3\n"
  const ObjKeyword: string := " 0 obj"
  const NewLine: string := "\n"
  const EndObj: string := "\nendobj\n"
  const XrefKeyword: string := "xref"
  const SubsectionStart: string := "\n0 "
  const FreeEntry: string := "0000000000 65535 f \n"
  const EntrySuffix: string := " 00000 n \n"
  const TrailerOpen: string := "trailer\n<< /Size "
  const TrailerClose: string := " /Root 1 0 R >>\n"
  const StartXref: string := "startxref\n"
  const EndOfFile: string := "\n%%EOF\n"

  /** `n 0 obj`, the words an xref offset must point at. */
  function ObjTag(n: nat): string
  {
    NatStr(n) + ObjKeyword
  }

  /** `${i + 1} 0 obj\n${objBody}\nendobj\n`. */
  function ObjText(n: nat, body: string): string
  {
    ObjTag(n) + (NewLine + body + EndObj)
  }

  /** What the loop writes for slot `k - 1`: nothing for an empty slot. */
  function Piece(objs: seq<string>, k: nat): string
    requires 1 <= k <= |objs|
  {
    if |objs[k - 1]| == 0 then "" else ObjText(k, objs[k - 1])
  }

  /** The output after the header and the first `k` objects. */
  function BodyUpTo(objs: seq<string>, k: nat): string
    requires k <= |objs|
  {
    if k == 0 then Header else BodyUpTo(objs, k - 1) + Piece(objs, k)
  }

  /** What is written for objects `j + 1` to `k`. */
  function Between(objs: seq<string>, j: nat, k: nat): string
    requires j <= k <= |objs|
    decreases k
  {
    if k == j then "" else Between(objs, j, k - 1) + Piece(objs, k)
  }

  /** The bytes that slot `k - 1` adds to the output: its `k 0 obj` line, the
      UTF-8 of its body and the framing around it (`PieceBytesCount`). */
  function PieceBytes(objs: seq<string>, k: nat): nat
    requires 1 <= k <= |objs|
  {
    if |objs[k - 1]| == 0 then 0
    else |NatStr(k)| + |ObjKeyword| + |NewLine| + |EndObj| + ByteLength(objs[k - 1])
  }

  /** The byte length of `BodyUpTo(objs, k)`, counted object by object
      (`BodyBytesCount`). */
  function BodyBytes(objs: seq<string>, k: nat): nat
    requires k <= |objs|
  {
    if k == 0 then |Header| else BodyBytes(objs, k - 1) + PieceBytes(objs, k)
  }

  /** `offsets[n]`: the byte offset at which object `n` is written, or
      nothing (a hole in the array) when its slot is empty. */
  function Slot(objs: seq<string>, n: nat): Option<nat>
    requires 1 <= n <= |objs|
  {
    if |objs[n - 1]| == 0 then None else Some(BodyBytes(objs, n - 1))
  }

  /** `offsets[n] ?? 0`: the offset the xref table records for object `n`. */
  function OffsetOf(objs: seq<string>, n: nat): nat
    requires 1 <= n <= |objs|
  {
    if |objs[n - 1]| == 0 then 0 else BodyBytes(objs, n - 1)
  }

  /** One in-use entry: the offset in ten zero-padded digits, generation 0, keyword `n`. */
  function XrefEntry(off: nat): string
  {
    PadZeros(NatStr(off), 10) + EntrySuffix
  }

  function XrefEntries(objs: seq<string>, k: nat): string
    requires k <= |objs|
  {
    if k == 0 then "" else XrefEntries(objs, k - 1) + XrefEntry(OffsetOf(objs, k))
  }

  /** `xref`, then the subsection line `0 maxObj+1`: objects 0 to `maxObj`. */
  function SubsectionHeader(maxObj: nat): string
  {
    XrefKeyword + (SubsectionStart + NatStr(maxObj + 1) + NewLine)
  }

  /** The subsection header and the free entry of object 0. */
  function XrefHead(maxObj: nat): string
  {
    SubsectionHeader(maxObj) + FreeEntry
  }

  /** The trailer dictionary: `/Size maxObj+1` and the catalog as `/Root`. */
  function TrailerDict(maxObj: nat): string
  {
    TrailerOpen + NatStr(maxObj + 1) + TrailerClose
  }

  /** The byte offset of the xref section, and the end-of-file marker. */
  function StartxrefLine(xrefStart: nat): string
  {
    StartXref + NatStr(xrefStart) + EndOfFile
  }

  function Trailer(maxObj: nat, xrefStart: nat): string
  {
    TrailerDict(maxObj) + StartxrefLine(xrefStart)
  }

  /** Everything after the objects: the xref section and the trailer. */
  function FileTail(objs: seq<string>, xrefStart: nat): string
  {
    XrefHead(|objs|) + XrefEntries(objs, |objs|) + Trailer(|objs|, xrefStart)
  }

  /** The whole file for the objects `objs` (object `n` in slot `n - 1`);
      the xref section starts at the byte length of the objects. */
  function FileText(objs: seq<string>): string
  {
    BodyUpTo(objs, |objs|) + FileTail(objs, BodyBytes(objs, |objs|))
  }

  /** Lines 306-313: writes the header and every non-empty object,
      recording in `offsets[n]` the byte length of the output before object
      `n`. Slot 0 of `offsets` is never set, as in the source. */
  method WriteObjects(objs: seq<string>) returns (out: string, offsets: seq<Option<nat>>)
    ensures out == BodyUpTo(objs, |objs|)
    ensures |offsets| == |objs| + 1 && offsets[0] == None
    ensures forall n :: 1 <= n <= |objs| ==> offsets[n] == Slot(objs, n)
  {
    out := Header;
    offsets := [None];
    var i := 0;
    while i < |objs|
      invariant 0 <= i <= |objs|
      invariant out == BodyUpTo(objs, i)
      invariant |offsets| == i + 1 && offsets[0] == None
      invariant forall n :: 1 <= n <= i ==> offsets[n] == Slot(objs, n)
    {
      var slot: Option<nat> := None;
      if |objs[i]| > 0 {
        BodyBytesCount(objs, i);
        slot := Some(ByteLength(out));
        out := out + ObjText(i + 1, objs[i]);
      }
      assert slot == Slot(objs, i + 1);
      ghost var prev := offsets;
      offsets := offsets + [slot];
      forall n | 1 <= n <= i + 1
        ensures offsets[n] == Slot(objs, n)
      {
        if n <= i {
          assert offsets[n] == prev[n];
        }
      }
      i := i + 1;
    }
  }

  /** Lines 315-319: appends one xref entry per object slot, taking
      `offsets[i] ?? 0` as its offset. */
  method AppendXrefEntries(start: string, objs: seq<string>, offsets: seq<Option<nat>>)
    returns (out: string)
    requires |offsets| == |objs| + 1
    requires forall n :: 1 <= n <= |objs| ==> offsets[n] == Slot(objs, n)
    ensures out == start + XrefEntries(objs, |objs|)
  {
    out := start;
    var i := 1;
    while i <= |objs|
      invariant 1 <= i <= |objs| + 1
      invariant out == start + XrefEntries(objs, i - 1)
    {
      var off := match offsets[i] case None => 0 case Some(o) => o;
      assert off == OffsetOf(objs, i);
      SeqAssoc(start, XrefEntries(objs, i - 1), XrefEntry(off));
      out := out + XrefEntry(off);
      i := i + 1;
    }
  }

  /** Lines 306-324: the objects, then the xref section with one entry per
      object slot, then the trailer naming the catalog and the byte offset
      of the xref section. */
  method WriteFile(objs: seq<string>) returns (out: string)
    ensures out == FileText(objs)
  {
    var offsets;
    out, offsets := WriteObjects(objs);
    ghost var body := out;
    var xrefStart := ByteLength(out);
    BodyBytesCount(objs, |objs|);
    var maxObj := |objs|;
    out := out + SubsectionHeader(maxObj);
    out := out + FreeEntry;
    SeqAssoc(body, SubsectionHeader(maxObj), FreeEntry);
    out := AppendXrefEntries(out, objs, offsets);
    ghost var head, entries, trailer := XrefHead(maxObj), XrefEntries(objs, maxObj), Trailer(maxObj, xrefStart);
    assert out == body + head + entries;
    out := out + Trailer(maxObj, xrefStart);
    SeqAssoc(body, head, entries);
    SeqAssoc(body, head + entries, trailer);
    assert out == body + FileTail(objs, xrefStart);
  }

  // ---- what the offsets, the xref table and the trailer promise ----

  /** The output only grows: what is written after `k` objects is what was
      written after `j` and then objects `j + 1` to `k`. */
  lemma {:induction false} BodyGrows(objs: seq<string>, j: nat, k: nat)
    requires j <= k <= |objs|
    ensures BodyUpTo(objs, k) == BodyUpTo(objs, j) + Between(objs, j, k)
    decreases k
  {
    if j < k {
      BodyGrows(objs, j, k - 1);
      SeqAssoc(BodyUpTo(objs, j), Between(objs, j, k - 1), Piece(objs, k));
    }
  }

  /** The file splits at object `n` into what precedes it, its `n 0 obj`, and the rest. */
  lemma FileSplitsAt(objs: seq<string>, n: nat) returns (r: string)
    requires 1 <= n <= |objs| && |objs[n - 1]| > 0
    ensures FileText(objs) == BodyUpTo(objs, n - 1) + ObjTag(n) + r
  {
    var a, tag, rest := BodyUpTo(objs, n - 1), ObjTag(n), NewLine + objs[n - 1] + EndObj;
    var body := BodyUpTo(objs, |objs|);
    var g, tl := Between(objs, n, |objs|), FileTail(objs, BodyBytes(objs, |objs|));
    assert BodyUpTo(objs, n) == a + (tag + rest);
    BodyGrows(objs, n, |objs|);
    SeqAssoc(a, tag, rest);
    SeqAssoc(a + tag, rest, g);
    SeqAssoc(a + tag, rest + g, tl);
    r := rest + g + tl;
  }

  /** The offset recorded for object `n` is the byte position of its
      `n 0 obj` in the encoded file. */
  lemma OffsetPointsAtObject(objs: seq<string>, n: nat)
    requires 1 <= n <= |objs| && |objs[n - 1]| > 0
    ensures BytesAt(Encode(FileText(objs)), OffsetOf(objs, n), Encode(ObjTag(n)))
  {
    var r := FileSplitsAt(objs, n);
    OffsetIsBytes(objs, n);
    EncodedAt(FileText(objs), BodyUpTo(objs, n - 1), ObjTag(n), r, OffsetOf(objs, n));
  }

  lemma OffsetIsBytes(objs: seq<string>, n: nat)
    requires 1 <= n <= |objs| && |objs[n - 1]| > 0
    ensures OffsetOf(objs, n) == ByteLength(BodyUpTo(objs, n - 1))
  {
    BodyBytesCount(objs, n - 1);
  }

  /** The counted size of an object's text is its UTF-8 byte length. */
  lemma PieceBytesCount(objs: seq<string>, k: nat)
    requires 1 <= k <= |objs|
    ensures ByteLength(Piece(objs, k)) == PieceBytes(objs, k)
  {
    if |objs[k - 1]| > 0 {
      var d, b := NatStr(k), objs[k - 1];
      NatStrDigits(k);
      assert IsAscii(d) by {
        forall i | 0 <= i < |d| ensures d[i] as int < 0x80 {
          assert IsDigit(d[i]);
        }
      }
      ByteLengthAscii(d);
      ByteLengthAscii(ObjKeyword);
      ByteLengthAscii(NewLine);
      ByteLengthAscii(EndObj);
      ByteLengthAppend(d, ObjKeyword);
      ByteLengthAppend(NewLine, b);
      ByteLengthAppend(NewLine + b, EndObj);
      ByteLengthAppend(d + ObjKeyword, NewLine + b + EndObj);
    }
  }

  lemma {:induction false} BodyBytesCount(objs: seq<string>, k: nat)
    requires k <= |objs|
    ensures BodyBytes(objs, k) == ByteLength(BodyUpTo(objs, k))
  {
    if k == 0 {
      ByteLengthAscii(Header);
    } else {
      BodyBytesCount(objs, k - 1);
      PieceBytesCount(objs, k);
      ByteLengthAppend(BodyUpTo(objs, k - 1), Piece(objs, k));
    }
  }

  /** Writing more objects never shortens the output. */
  lemma {:induction false} BodyBytesGrow(objs: seq<string>, j: nat, k: nat)
    requires j <= k <= |objs|
    ensures BodyBytes(objs, j) <= BodyBytes(objs, k)
    decreases k
  {
    if j < k {
      BodyBytesGrow(objs, j, k - 1);
    }
  }

  /** Objects are written in increasing order: a later object has a larger offset. */
  lemma OffsetsIncrease(objs: seq<string>, m: nat, n: nat)
    requires 1 <= m < n <= |objs| && |objs[m - 1]| > 0 && |objs[n - 1]| > 0
    ensures OffsetOf(objs, m) < OffsetOf(objs, n)
  {
    BodyBytesGrow(objs, m, n - 1);
  }

  /** No offset lies beyond the end of the objects. */
  lemma OffsetWithinBody(objs: seq<string>, n: nat)
    requires 1 <= n <= |objs|
    ensures OffsetOf(objs, n) <= BodyBytes(objs, |objs|)
  {
    BodyBytesGrow(objs, n - 1, |objs|);
  }

  /** `startxref` names the byte offset of the `xref` keyword, and the file
      ends with that number and `%%EOF`. */
  lemma StartxrefPointsAtXref(objs: seq<string>)
    ensures BytesAt(Encode(FileText(objs)), BodyBytes(objs, |objs|), Encode(XrefKeyword))
    ensures var f, tail := FileText(objs), StartxrefLine(BodyBytes(objs, |objs|));
      |tail| <= |f| && f[|f| - |tail|..] == tail
  {
    var body, x := BodyUpTo(objs, |objs|), BodyBytes(objs, |objs|);
    var f := FileText(objs);
    var sc := SubsectionStart + NatStr(|objs| + 1) + NewLine;
    var fe, es := FreeEntry, XrefEntries(objs, |objs|);
    var td, sl := TrailerDict(|objs|), StartxrefLine(x);
    // f == body + ((((XrefKeyword + sc) + fe) + es) + (td + sl))
    SeqAssoc(XrefKeyword, sc, fe);
    SeqAssoc(XrefKeyword, sc + fe, es);
    SeqAssoc(XrefKeyword, sc + fe + es, td + sl);
    var rest := sc + fe + es + (td + sl);
    SeqAssoc(body, XrefKeyword, rest);
    BodyBytesCount(objs, |objs|);
    EncodedAt(f, body, XrefKeyword, rest, x);
    var w := XrefHead(|objs|) + es;
    SeqAssoc(w, td, sl);
    SeqAssoc(body, w + td, sl);
    assert f == (body + (w + td)) + sl;
    SuffixSlice(body + (w + td), sl);
  }

  /** The digit count of an offset the ten-digit field can hold. */
  const XrefLimit: nat := 10000000000

  /** An entry for an offset below 10^10 is 20 bytes: the offset in ten
      digits, then ` 00000 n ` and the end of line. */
  lemma XrefEntryShape(off: nat)
    requires off < XrefLimit
    ensures var e := XrefEntry(off);
      && |e| == 20 && ByteLength(e) == 20
      && AllDigits(e[..10]) && DecimalValue(e[..10]) == off
      && e[10..] == EntrySuffix
  {
    var d := NatStr(off);
    NatStrDigits(off);
    assert Pow10(10) == XrefLimit;
    NatStrLength(off, 10);
    PadZerosValue(d, 10);
    var p := PadZeros(d, 10);
    var e := XrefEntry(off);
    assert |p| == 10;
    assert e[..10] == p && e[10..] == EntrySuffix;
    assert IsAscii(e) by {
      forall i | 0 <= i < |e|
        ensures e[i] as int < 0x80
      {
        if i < 10 {
          assert IsDigit(p[i]);
        }
      }
    }
    EncodeAscii(e);
    ByteLengthEncodes(e);
  }

  /** While the objects take fewer than 10^10 bytes, the table holds 20
      characters per object, and entry `n` (counting from 1), at characters
      `20(n-1)` to `20n`, is the entry for the offset of object `n`. */
  lemma {:induction false} XrefEntryOfObject(objs: seq<string>, k: nat, n: nat)
    requires k <= |objs| && 1 <= n <= k
    requires BodyBytes(objs, |objs|) < XrefLimit
    ensures |XrefEntries(objs, k)| == 20 * k
    ensures XrefEntries(objs, k)[20 * (n - 1)..20 * n] == XrefEntry(OffsetOf(objs, n))
  {
    var prev, last := XrefEntries(objs, k - 1), XrefEntry(OffsetOf(objs, k));
    XrefEntriesLength(objs, k - 1);
    EntryLength(objs, k);
    assert XrefEntries(objs, k) == prev + last;
    if n < k {
      XrefEntryOfObject(objs, k - 1, n);
      LeftSlice(prev, last, 20 * (n - 1), 20 * n);
    } else {
      MiddleSlice(prev, last, []);
      assert prev + last + [] == prev + last;
    }
  }

  lemma EntryLength(objs: seq<string>, n: nat)
    requires 1 <= n <= |objs|
    requires BodyBytes(objs, |objs|) < XrefLimit
    ensures |XrefEntry(OffsetOf(objs, n))| == 20
  {
    OffsetWithinBody(objs, n);
    XrefEntryShape(OffsetOf(objs, n));
  }

  lemma {:induction false} XrefEntriesLength(objs: seq<string>, k: nat)
    requires k <= |objs|
    requires BodyBytes(objs, |objs|) < XrefLimit
    ensures |XrefEntries(objs, k)| == 20 * k
  {
    if k > 0 {
      XrefEntriesLength(objs, k - 1);
      EntryLength(objs, k);
    }
  }

  // ---- the whole export ----

  /** Every object of the document is written, and the xref table records
      for each the byte offset of its `n 0 obj`. */
  lemma AllObjectsIndexed(objs: seq<PdfObject>)
    ensures forall n :: 1 <= n <= |objs| ==>
      BytesAt(Encode(FileText(Bodies(objs))), OffsetOf(Bodies(objs), n), Encode(ObjTag(n)))
  {
    var b := Bodies(objs);
    forall n | 1 <= n <= |objs|
      ensures BytesAt(Encode(FileText(b)), OffsetOf(b, n), Encode(ObjTag(n)))
    {
      BodyNotEmpty(objs[n - 1]);
      OffsetPointsAtObject(b, n);
    }
  }

  /** Lines 267-326: numbers the objects of the drawn pages and writes the
      file, returning its UTF-8 encoding. */
  method WritePdf(pages: seq<string>) returns (bytes: seq<byte>)
    ensures bytes == Encode(FileText(Bodies(Objects(pages))))
  {
    var all := FillObjects(pages);
    LayoutIsObjects(all[..], pages);
    var out := WriteFile(Bodies(all[..]));
    bytes := Encode(out);
  }

  /** `buildTablePdf`: lays out the columns, draws the pages and writes the
      file around them. The bytes are the UTF-8 encoding of the file built
      from the pages `RenderedPages` defines for the layout of `specs`, and
      those pages are as `Renders` states. */
  method BuildTablePdf(title: string, specs: seq<ColumnSpec>, rows: seq<Row>, fmt: Fmt)
    returns (bytes: seq<byte>, ghost pages: seq<string>, ghost pageLines: seq<seq<string>>)
    ensures bytes == Encode(FileText(Bodies(Objects(Streams(RenderedPages(MakeLayout(specs), fmt, title, rows))))))
    ensures Renders(MakeLayout(specs), fmt, title, rows, pages, pageLines)
  {
    var l := MakeLayout(specs);
    var drawn;
    drawn, pageLines := RenderPages(l, fmt, title, rows);
    pages := drawn;
    bytes := WritePdf(drawn);
  }
}
