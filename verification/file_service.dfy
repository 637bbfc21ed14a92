/** services/fileService.ts: choosing a reader from the file's MIME type and name, and
    assembling the text of a PDF from its pages. The readers themselves (pdfjs, DOMParser,
    FileReader) are left out; their outcomes are parameters. */
module FileService {
  import opened Base
  import opened Text

  /** The reader `processFile` picks. */
  datatype FileKind = Pdf | Html | Plain | Unsupported

  /** The message every failure of `processFile` surfaces as. */
  const ParseFailure := "Failed to parse file content. Please check the file format."

  /** The reader for a file of MIME type `mime` named `name`. The name is lower-cased first, the
      tests run in order and the first that passes decides. */
  function Classify(mime: string, name: string): (k: FileKind)
    ensures var lower := Lower(name);
      && (k == Pdf <==> mime == "application/pdf" || EndsWith(lower, ".pdf"))
      && (k == Html <==> k != Pdf && (mime == "text/html" || EndsWith(lower, ".html") || EndsWith(lower, ".htm")))
      && (k == Plain <==> (k != Pdf && k != Html
            && (mime == "text/markdown" || EndsWith(lower, ".md") || EndsWith(lower, ".markdown")
                || StartsWith(mime, "text/"))))
  {
    var lower := Lower(name);
    if mime == "application/pdf" || EndsWith(lower, ".pdf") then Pdf
    else if mime == "text/html" || EndsWith(lower, ".html") || EndsWith(lower, ".htm") then Html
    else if mime == "text/markdown" || EndsWith(lower, ".md") || EndsWith(lower, ".markdown")
         || StartsWith(mime, "text/") then Plain
    else Unsupported
  }

  /** ASCII upper-casing, to state that the extension tests ignore case. */
  function UpperAscii(s: string): (r: string)
    ensures |r| == |s|
  {
    seq(|s|, i requires 0 <= i < |s| => if 'a' <= s[i] <= 'z' then (s[i] as int - 32) as char else s[i])
  }

  /** Upper-casing a file name never changes its kind. */
  lemma ClassifyIgnoresCase(mime: string, name: string)
    ensures Classify(mime, UpperAscii(name)) == Classify(mime, name)
  {
    var up := UpperAscii(name);
    assert Lower(up) == Lower(name) by {
      forall i | 0 <= i < |name| ensures Lower(up)[i] == Lower(name)[i] {
        if 'a' <= name[i] <= 'z' {
          assert LowerChar(up[i]) == name[i];
        }
      }
    }
  }

  /** The name alone never makes a `.txt` file readable: unless the MIME type is a text type,
      the file is rejected. */
  lemma TxtNeedsTextMime(mime: string, name: string)
    requires EndsWith(Lower(name), ".txt") && !StartsWith(mime, "text/") && mime != "application/pdf"
    ensures Classify(mime, name) == Unsupported
  {
    var lower := Lower(name);
    var n := |lower|;
    assert lower[n - 1] == 't' && lower[n - 4] == '.';
    assert !EndsWith(lower, ".pdf") by { assert lower[n - 1] != 'f'; }
    assert !EndsWith(lower, ".html") by { assert lower[n - 1] != 'l'; }
    assert !EndsWith(lower, ".htm") by { assert lower[n - 1] != 'm'; }
    assert !EndsWith(lower, ".md") by { assert lower[n - 1] != 'd'; }
    assert !EndsWith(lower, ".markdown") by { assert lower[n - 1] != 'n'; }
    assert mime != "text/html" && mime != "text/markdown" by {
      assert "text/html"[..5] == "text/" && "text/markdown"[..5] == "text/";
    }
  }

  /** The heading and text of page `i` (numbered from 1): its text items joined by spaces. */
  function PageBlock(i: nat, items: seq<string>): (r: string)
    ensures |r| == 10 + |NatToDecimal(i)| + 5 + |Join(items, " ")|
  {
    "\n--- Page " + NatToDecimal(i) + " ---\n" + Join(items, " ")
  }

  /** The text of a PDF given the text items of its pages in order: each page's block, page 1
      first. */
  function PdfText(pages: seq<seq<string>>): (r: string)
    ensures pages == [] ==> r == []
    decreases |pages|
  {
    if pages == [] then []
    else PdfText(pages[..|pages| - 1]) + PageBlock(|pages|, pages[|pages| - 1])
  }

  /** The loop of `extractTextFromPdf`, over the pages' text items. */
  method ExtractTextFromPdf(pages: seq<seq<string>>) returns (fullText: string)
    ensures fullText == PdfText(pages)
  {
    fullText := "";
    var i := 1;
    while i <= |pages|
      invariant 1 <= i <= |pages| + 1
      invariant fullText == PdfText(pages[..i - 1])
    {
      var pageText := Join(pages[i - 1], " ");
      assert pages[..i] == pages[..i - 1] + [pages[i - 1]];
      assert pages[..i][..i - 1] == pages[..i - 1];
      fullText := fullText + "\n--- Page " + NatToDecimal(i) + " ---\n" + pageText;
      i := i + 1;
    }
    assert pages[..|pages|] == pages;
  }

  /** The text of the first pages is the beginning of the whole text, and page `k + 1`'s block
      follows it directly. */
  lemma {:induction false} PdfTextPrefix(pages: seq<seq<string>>, k: nat)
    requires k < |pages|
    ensures var before := PdfText(pages[..k]);
      var block := PageBlock(k + 1, pages[k]);
      var all := PdfText(pages);
      && |before| + |block| <= |all|
      && all[..|before|] == before
      && all[|before|..|before| + |block|] == block
    decreases |pages|
  {
    var n := |pages|;
    var init := pages[..n - 1];
    var last := PageBlock(n, pages[n - 1]);
    assert init[..k] == pages[..k];
    if k == n - 1 {
      assert init == pages[..k];
      ConcatKeeps(PdfText(init), last, |PdfText(init)|, |PdfText(init)|);
      assert (PdfText(init) + last)[|PdfText(init)|..] == last;
    } else {
      PdfTextPrefix(init, k);
      assert init[k] == pages[k];
      var before := PdfText(pages[..k]);
      ConcatKeeps(PdfText(init), last, |before|, |before| + |PageBlock(k + 1, pages[k])|);
    }
  }

  lemma ConcatKeeps(x: string, y: string, lo: nat, hi: nat)
    requires lo <= hi <= |x|
    ensures (x + y)[..lo] == x[..lo] && (x + y)[lo..hi] == x[lo..hi]
  {
  }

  /** `processFile` with the three readers' outcomes as parameters: the PDF reader yields the
      pages' text items, the others the text. Whatever goes wrong, the caller sees the same
      message. */
  function ProcessFile(mime: string, name: string, pdf: Result<seq<seq<string>>, string>,
                       html: Result<string, string>, plain: Result<string, string>): (r: Result<string, string>)
    ensures r.Err? ==> r.error == ParseFailure
    ensures Classify(mime, name) == Unsupported ==> r.Err?
    ensures Classify(mime, name) == Pdf ==> (r.Ok? <==> pdf.Ok?) && (pdf.Ok? ==> r.value == PdfText(pdf.value))
    ensures Classify(mime, name) == Html ==> (r.Ok? <==> html.Ok?) && (html.Ok? ==> r.value == html.value)
    ensures Classify(mime, name) == Plain ==> (r.Ok? <==> plain.Ok?) && (plain.Ok? ==> r.value == plain.value)
  {
    match Classify(mime, name)
    case Pdf => if pdf.Ok? then Ok(PdfText(pdf.value)) else Err(ParseFailure)
    case Html => if html.Ok? then Ok(html.value) else Err(ParseFailure)
    case Plain => if plain.Ok? then Ok(plain.value) else Err(ParseFailure)
    case Unsupported => Err(ParseFailure)
  }

  /** `processFile` lower-cases the name before every test, so upper-casing it changes neither
      the reader chosen nor the outcome. */
  lemma ProcessFileIgnoresCase(mime: string, name: string, pdf: Result<seq<seq<string>>, string>,
                               html: Result<string, string>, plain: Result<string, string>)
    ensures ProcessFile(mime, UpperAscii(name), pdf, html, plain) == ProcessFile(mime, name, pdf, html, plain)
  {
    ClassifyIgnoresCase(mime, name);
  }
}
