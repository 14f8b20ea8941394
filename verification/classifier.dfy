/** Document-type classification (`determine_pdf_type`): every page's
    extracted text is stripped of whitespace, pages are counted as text or
    scanned, and the counts are mapped to one of four type names. Any
    failure while opening the file or extracting a page yields `unknown`. */
module Classifier {

  /** One page of an opened document: the text the extractor returned, or
      the extractor raised on it. */
  datatype PageRead = Extracted(text: string) | ExtractRaised

  /** A document as the PDF reader sees it: the pages it could enumerate,
      or the open / parse of the file raised. */
  datatype PdfFile = Opened(pages: seq<PageRead>) | OpenRaised

  /** The four answers, the strings `"normal"`, `"scanned"`, `"mix_pdf"`
      and `"unknown"`. They are pairwise distinct, so the driver's string
      comparisons are a match on this datatype. */
  datatype PdfType = Normal | Scanned | MixPdf | Unknown

  // ---------------------------------------------------------------------
  // Whitespace stripping, as Python's argument-less `str.strip`.
  // ---------------------------------------------------------------------

  /** The characters for which Python's `str.isspace` holds. */
  predicate IsSpace(c: char) {
    || c == ' ' || c == '\t' || c == '\n' || c == '\r'
    || c == '\U{000B}' || c == '\U{000C}'
    || ('\U{001C}' <= c <= '\U{001F}')
    || c == '\U{0085}' || c == '\U{00A0}' || c == '\U{1680}'
    || ('\U{2000}' <= c <= '\U{200A}')
    || c == '\U{2028}' || c == '\U{2029}' || c == '\U{202F}'
    || c == '\U{205F}' || c == '\U{3000}'
  }

  predicate Blank(s: string) {
    forall i :: 0 <= i < |s| ==> IsSpace(s[i])
  }

  /** Drops leading whitespace. */
  function StripLeft(s: string): string
  {
    if s != [] && IsSpace(s[0]) then StripLeft(s[1..]) else s
  }

  /** Drops trailing whitespace. */
  function StripRight(s: string): string
  {
    if s != [] && IsSpace(s[|s| - 1]) then StripRight(s[..|s| - 1]) else s
  }

  function Strip(s: string): string
  {
    StripRight(StripLeft(s))
  }

  /** The leading strip yields a suffix of `s` that does not start with
      whitespace, and everything it dropped was whitespace. */
  lemma {:induction false} StripLeftTrims(s: string)
    ensures |StripLeft(s)| <= |s| && StripLeft(s) == s[|s| - |StripLeft(s)|..]
    ensures StripLeft(s) != [] ==> !IsSpace(StripLeft(s)[0])
    ensures Blank(s[..|s| - |StripLeft(s)|])
  {
    if s != [] && IsSpace(s[0]) {
      StripLeftTrims(s[1..]);
      var k := |s| - |StripLeft(s)|;
      assert s[1..][|s| - 1 - |StripLeft(s)|..] == s[k..];
      forall i | 0 <= i < k ensures IsSpace(s[..k][i]) {
        if i > 0 { assert s[..k][i] == s[1..][..k - 1][i - 1]; }
      }
    } else {
      assert s[0..] == s;
    }
  }

  /** The trailing strip yields a prefix of `s` that does not end with
      whitespace, and everything it dropped was whitespace. */
  lemma {:induction false} StripRightTrims(s: string)
    ensures |StripRight(s)| <= |s| && StripRight(s) == s[..|StripRight(s)|]
    ensures StripRight(s) != [] ==> !IsSpace(StripRight(s)[|StripRight(s)| - 1])
    ensures Blank(s[|StripRight(s)|..])
  {
    if s != [] && IsSpace(s[|s| - 1]) {
      var p := s[..|s| - 1];
      StripRightTrims(p);
      var k := |StripRight(s)|;
      assert p[..k] == s[..k];
      forall i | 0 <= i < |s| - k ensures IsSpace(s[k..][i]) {
        if k + i < |s| - 1 { assert s[k..][i] == p[k..][i]; }
      }
    }
  }

  /** A stripped string is a slice of the original that neither starts nor
      ends with whitespace, and only whitespace was cut off either side. */
  lemma StripIsTrimmedSlice(s: string)
    ensures exists i, j :: 0 <= i <= j <= |s| && Strip(s) == s[i..j]
                           && Blank(s[..i]) && Blank(s[j..])
    ensures Strip(s) != [] ==> !IsSpace(Strip(s)[0]) && !IsSpace(Strip(s)[|Strip(s)| - 1])
  {
    var l := StripLeft(s);
    StripLeftTrims(s);
    StripRightTrims(l);
    var i := |s| - |l|;
    var j := i + |StripRight(l)|;
    assert Strip(s) == s[i..j];
    assert s[j..] == l[|StripRight(l)|..];
  }

  /** The stripped text is empty exactly when the text is all whitespace
      (the empty string included). */
  lemma StripEmptyIffBlank(s: string)
    ensures Strip(s) == [] <==> Blank(s)
  {
    var l := StripLeft(s);
    StripLeftTrims(s);
    StripRightTrims(l);
    if Strip(s) == [] {
      assert Blank(l) by { assert l[0..] == l; }
      assert l == [];
      assert s[..|s|] == s;
    } else {
      var r := Strip(s);
      assert r[0] == s[|s| - |l|];
    }
  }

  /** The per-page test of the source: the stripped text is truthy. */
  predicate HasText(text: string) {
    Strip(text) != []
  }

  // ---------------------------------------------------------------------
  // Page counting.
  // ---------------------------------------------------------------------

  /** Whether the page counted as a text page; only meaningful for an
      extracted page. */
  predicate PageHasText(p: PageRead) {
    p.Extracted? && HasText(p.text)
  }

  predicate AllExtracted(pages: seq<PageRead>) {
    forall i :: 0 <= i < |pages| ==> pages[i].Extracted?
  }

  function TextFlags(pages: seq<PageRead>): (f: seq<bool>)
    ensures |f| == |pages|
    ensures forall i :: 0 <= i < |pages| ==> f[i] == PageHasText(pages[i])
  {
    seq(|pages|, i requires 0 <= i < |pages| => PageHasText(pages[i]))
  }

  /** Pages counted as text pages, counted from the back so that a loop
      over a growing prefix can keep it as an invariant. */
  function CountText(f: seq<bool>): (n: nat)
    ensures n <= |f|
  {
    if f == [] then 0
    else CountText(f[..|f| - 1]) + (if f[|f| - 1] then 1 else 0)
  }

  /** Pages counted as scanned pages. */
  function CountScanned(f: seq<bool>): (n: nat)
    ensures n <= |f|
  {
    if f == [] then 0
    else CountScanned(f[..|f| - 1]) + (if f[|f| - 1] then 0 else 1)
  }

  /** Every page is counted exactly once, as text or as scanned. */
  lemma {:induction false} CountsPartitionPages(f: seq<bool>)
    ensures CountText(f) + CountScanned(f) == |f|
  {
    if f != [] {
      CountsPartitionPages(f[..|f| - 1]);
    }
  }

  lemma {:induction false} AllTextIffCount(f: seq<bool>)
    ensures CountText(f) == |f| <==> forall i :: 0 <= i < |f| ==> f[i]
  {
    if f != [] {
      var p := f[..|f| - 1];
      AllTextIffCount(p);
      assert forall i :: 0 <= i < |p| ==> p[i] == f[i];
    }
  }

  lemma {:induction false} AllScannedIffCount(f: seq<bool>)
    ensures CountScanned(f) == |f| <==> forall i :: 0 <= i < |f| ==> !f[i]
  {
    if f != [] {
      var p := f[..|f| - 1];
      AllScannedIffCount(p);
      assert forall i :: 0 <= i < |p| ==> p[i] == f[i];
    }
  }

  /** Extending a counted prefix by one page adds that page to exactly one
      of the two counts. */
  lemma CountPrefixStep(f: seq<bool>, i: nat)
    requires i < |f|
    ensures CountText(f[..i + 1]) == CountText(f[..i]) + (if f[i] then 1 else 0)
    ensures CountScanned(f[..i + 1]) == CountScanned(f[..i]) + (if f[i] then 0 else 1)
  {
    assert f[..i + 1][..i] == f[..i];
  }

  /** The same step stated on pages: an extracted page is counted as text
      exactly when its stripped text is non-empty. */
  lemma PageCountStep(pages: seq<PageRead>, i: nat)
    requires i < |pages| && pages[i].Extracted?
    ensures CountText(TextFlags(pages)[..i + 1])
            == CountText(TextFlags(pages)[..i]) + (if HasText(pages[i].text) then 1 else 0)
    ensures CountScanned(TextFlags(pages)[..i + 1])
            == CountScanned(TextFlags(pages)[..i]) + (if HasText(pages[i].text) then 0 else 1)
  {
    CountPrefixStep(TextFlags(pages), i);
  }

  // ---------------------------------------------------------------------
  // Classification.
  // ---------------------------------------------------------------------

  /** The decision table applied once all pages are counted: the `normal`
      test runs first, so a document with no pages is `normal`; a document
      that is neither keeps the default `mix_pdf`. */
  function TypeFromCounts(textPages: nat, scannedPages: nat, totalPages: nat): PdfType
  {
    if textPages == totalPages then Normal
    else if scannedPages == totalPages then Scanned
    else MixPdf
  }

  /** The classifier as a function of what the reader yields. Only a
      document the reader fully read gets a type other than `unknown`; an
      empty document is never `scanned`, and a `mix_pdf` document has at
      least two pages, one of each kind. */
  function Classify(file: PdfFile): (t: PdfType)
    ensures t != Unknown ==> file.Opened? && AllExtracted(file.pages)
    ensures t == Scanned ==> |file.pages| >= 1
    ensures t == MixPdf ==> |file.pages| >= 2
  {
    if file.OpenRaised? || !AllExtracted(file.pages) then Unknown
    else
      var f := TextFlags(file.pages);
      CountsPartitionPages(f);
      TypeFromCounts(CountText(f), CountScanned(f), |file.pages|)
  }

  /** The classifier's meaning, page by page: `unknown` exactly on a read
      failure; `normal` exactly when every page has text; `scanned` exactly
      when there is at least one page and none has text; `mix_pdf` exactly
      when both kinds occur. */
  lemma ClassifyByPages(file: PdfFile)
    ensures Classify(file) == Unknown <==>
              file.OpenRaised? || exists i :: 0 <= i < |file.pages| && file.pages[i].ExtractRaised?
    ensures Classify(file) == Normal <==>
              file.Opened? && forall i :: 0 <= i < |file.pages| ==>
                file.pages[i].Extracted? && HasText(file.pages[i].text)
    ensures Classify(file) == Scanned <==>
              file.Opened? && |file.pages| > 0 && forall i :: 0 <= i < |file.pages| ==>
                file.pages[i].Extracted? && !HasText(file.pages[i].text)
    ensures Classify(file) == MixPdf <==>
              file.Opened? && AllExtracted(file.pages)
              && (exists i :: 0 <= i < |file.pages| && PageHasText(file.pages[i]))
              && (exists j :: 0 <= j < |file.pages| && !PageHasText(file.pages[j]))
  {
    if file.Opened? && AllExtracted(file.pages) {
      var f := TextFlags(file.pages);
      AllTextIffCount(f);
      AllScannedIffCount(f);
      if |f| > 0 && (forall i :: 0 <= i < |f| ==> !f[i]) {
        assert !f[0];
      }
    }
  }

  /** A document with no pages is `normal`, because the text test runs
      before the scanned test. */
  lemma EmptyDocumentIsNormal()
    ensures Classify(Opened([])) == Normal
  {
  }

  /** The source's page loop: counts text and scanned pages in page order
      and stops at the first page whose extraction raises. */
  method CountPages(pages: seq<PageRead>) returns (allRead: bool, textPages: nat, scannedPages: nat)
    ensures allRead <==> AllExtracted(pages)
    ensures allRead ==> textPages == CountText(TextFlags(pages))
    ensures allRead ==> scannedPages == CountScanned(TextFlags(pages))
  {
    textPages, scannedPages := 0, 0;
    var i := 0;
    while i < |pages|
      invariant 0 <= i <= |pages|
      invariant forall k :: 0 <= k < i ==> pages[k].Extracted?
      invariant textPages == CountText(TextFlags(pages)[..i])
      invariant scannedPages == CountScanned(TextFlags(pages)[..i])
    {
      if pages[i].ExtractRaised? {
        return false, textPages, scannedPages;
      }
      PageCountStep(pages, i);
      if HasText(pages[i].text) {
        textPages := textPages + 1;
      } else {
        scannedPages := scannedPages + 1;
      }
      i := i + 1;
    }
    assert TextFlags(pages)[..i] == TextFlags(pages);
    allRead := true;
  }

  /** `determine_pdf_type`: `unknown` when opening the file or reading a
      page raises, otherwise the decision table on the page counts. */
  method DeterminePdfType(file: PdfFile) returns (pdfType: PdfType, textPages: nat, scannedPages: nat)
    ensures pdfType == Classify(file)
    ensures pdfType != Unknown ==> textPages + scannedPages == |file.pages|
    ensures pdfType != Unknown ==> textPages == CountText(TextFlags(file.pages))
  {
    if file.OpenRaised? {
      return Unknown, 0, 0;
    }
    var allRead;
    allRead, textPages, scannedPages := CountPages(file.pages);
    if !allRead {
      return Unknown, textPages, scannedPages;
    }
    CountsPartitionPages(TextFlags(file.pages));
    pdfType := TypeFromCounts(textPages, scannedPages, |file.pages|);
  }
}
