/** Turning report files into chunk records (pdf_processor.py). For each
    file of the metadata dictionary, in order: the text of its non-empty
    pages, each followed by a newline; when that text is blank, the OCR text
    of its page images instead; a file whose text is still blank is skipped;
    otherwise the text is split and each piece becomes a record numbered
    from 0. Page extraction, OCR and the splitter are outside the model:
    they are parameters, keyed by the file path. */
module PdfProcessor {
  import opened Text
  import opened Dicts
  import opened CsvProcessor

  /** One chunk record: the dictionary process_pdfs_with_metadata appends. */
  datatype Chunk = Chunk(text: string, chunkId: string, company: string, fromYear: string,
                         toYear: string, filename: string, chunkIndex: nat, totalChunks: nat)

  /** The text the page loop accumulates: every non-empty page text followed
      by a newline; empty pages (no text, or None) add nothing. */
  function PageText(pages: seq<string>): string {
    if pages == [] then ""
    else
      var last := pages[|pages| - 1];
      PageText(pages[..|pages| - 1]) + (if last != "" then last + "\n" else "")
  }

  /** The text the OCR loop appends: every image's text followed by a newline. */
  function OcrText(images: seq<string>): string {
    if images == [] then ""
    else OcrText(images[..|images| - 1]) + images[|images| - 1] + "\n"
  }

  /** The text of a file after extraction and, when that was blank, OCR.
      `images` are the texts OCR produced before it finished or raised. */
  function FullText(pages: seq<string>, images: seq<string>): string {
    var extracted := PageText(pages);
    if IsPyBlank(extracted) then extracted + OcrText(images) else extracted
  }

  /** The chunk_id of piece i of a file: the company with each space
      replaced by '_', the two years and `chunk_i`, joined by '_'. */
  function ChunkId(meta: PdfMeta, i: nat): string {
    ReplaceChar(meta.company, ' ', '_') + "_" + meta.fromYear + "_" + meta.toYear + "_chunk_" + NatToString(i)
  }

  /** The records of one file split into `texts`. */
  function ChunksOfFile(filename: string, meta: PdfMeta, texts: seq<string>): seq<Chunk> {
    seq(|texts|, i requires 0 <= i < |texts| =>
      Chunk(texts[i], ChunkId(meta, i), meta.company, meta.fromYear, meta.toYear, filename, i, |texts|))
  }

  /** The records one metadata entry contributes. */
  function FileChunks(filename: string, meta: PdfMeta, extract: string -> seq<string>,
                      ocr: string -> seq<string>, split: string -> seq<string>): seq<Chunk> {
    var full := FullText(extract(meta.filepath), ocr(meta.filepath));
    if IsPyBlank(full) then [] else ChunksOfFile(filename, meta, split(full))
  }

  /** The records of all entries, in the dictionary's order. */
  function AllChunks(pdfMetadata: Dict<string, PdfMeta>, extract: string -> seq<string>,
                     ocr: string -> seq<string>, split: string -> seq<string>): seq<Chunk> {
    if pdfMetadata == [] then []
    else
      var (filename, meta) := pdfMetadata[|pdfMetadata| - 1];
      AllChunks(pdfMetadata[..|pdfMetadata| - 1], extract, ocr, split)
        + FileChunks(filename, meta, extract, ocr, split)
  }

  /** The page loop: appends each non-empty page text and a newline. */
  method AccumulatePages(pages: seq<string>) returns (fullText: string)
    ensures fullText == PageText(pages)
  {
    fullText := "";
    for p := 0 to |pages|
      invariant fullText == PageText(pages[..p])
    {
      var pageText := pages[p];
      if pageText != "" {
        fullText := fullText + pageText + "\n";
      }
      assert pages[..p + 1][..p] == pages[..p];
    }
    assert pages[..|pages|] == pages;
  }

  /** The OCR loop: appends each image's text and a newline. */
  method AppendOcr(text: string, images: seq<string>) returns (fullText: string)
    ensures fullText == text + OcrText(images)
  {
    fullText := text;
    for k := 0 to |images|
      invariant fullText == text + OcrText(images[..k])
    {
      fullText := fullText + images[k] + "\n";
      assert images[..k + 1][..k] == images[..k];
    }
    assert images[..|images|] == images;
  }

  /** The record loop for one file: appends piece i as record i of |texts|. */
  method AppendChunks(allChunks: seq<Chunk>, filename: string, meta: PdfMeta, texts: seq<string>)
    returns (extended: seq<Chunk>)
    ensures extended == allChunks + ChunksOfFile(filename, meta, texts)
  {
    extended := allChunks;
    ghost var records := ChunksOfFile(filename, meta, texts);
    for i := 0 to |texts|
      invariant extended == allChunks + records[..i]
    {
      var chunkData := Chunk(texts[i], ChunkId(meta, i), meta.company, meta.fromYear,
                             meta.toYear, filename, i, |texts|);
      extended := extended + [chunkData];
      assert records[..i + 1] == records[..i] + [chunkData];
    }
    assert records[..|texts|] == records;
  }

  /** process_pdfs_with_metadata(pdf_metadata). `extract(path)` is the text
      of each page of the file (empty for a page without text), `ocr(path)`
      the texts of its page images obtained before OCR finished or raised,
      and `split(text)` the splitter's pieces. */
  method ProcessPdfsWithMetadata(pdfMetadata: Dict<string, PdfMeta>, extract: string -> seq<string>,
                                 ocr: string -> seq<string>, split: string -> seq<string>)
    returns (allChunks: seq<Chunk>)
    ensures allChunks == AllChunks(pdfMetadata, extract, ocr, split)
  {
    allChunks := [];
    for f := 0 to |pdfMetadata|
      invariant allChunks == AllChunks(pdfMetadata[..f], extract, ocr, split)
    {
      var (filename, metadata) := pdfMetadata[f];
      ghost var expected := allChunks + FileChunks(filename, metadata, extract, ocr, split);
      assert pdfMetadata[..f + 1][..f] == pdfMetadata[..f];
      assert pdfMetadata[..f + 1][f] == (filename, metadata);
      assert AllChunks(pdfMetadata[..f + 1], extract, ocr, split) == expected;
      var fullText := AccumulatePages(extract(metadata.filepath));
      if PyStrip(fullText) == "" {
        fullText := AppendOcr(fullText, ocr(metadata.filepath));
      }
      assert fullText == FullText(extract(metadata.filepath), ocr(metadata.filepath));
      if PyStrip(fullText) == "" {
        assert expected == allChunks + [];
        continue;
      }
      allChunks := AppendChunks(allChunks, filename, metadata, split(fullText));
    }
    assert pdfMetadata[..|pdfMetadata|] == pdfMetadata;
  }

  /** OCR runs exactly when the extracted text is blank, and the extracted
      text is blank exactly when every page text is: so a single page with
      a visible character keeps OCR from running. */
  lemma {:induction false} PageTextBlank(pages: seq<string>)
    ensures IsPyBlank(PageText(pages)) <==> forall i :: 0 <= i < |pages| ==> IsPyBlank(pages[i])
  {
    if pages != [] {
      var init, last := pages[..|pages| - 1], pages[|pages| - 1];
      PageTextBlank(init);
      var t := PageText(init);
      var add := if last != "" then last + "\n" else "";
      assert PageText(pages) == t + add;
      assert IsPyBlank(t + add) <==> IsPyBlank(t) && IsPyBlank(add) by {
        assert forall i :: 0 <= i < |t| ==> (t + add)[i] == t[i];
        assert forall i :: 0 <= i < |add| ==> (t + add)[|t| + i] == add[i];
      }
      assert IsPyBlank(add) <==> IsPyBlank(last) by {
        if last != "" {
          assert forall i :: 0 <= i < |last| ==> add[i] == last[i];
          assert add[|last|] == '\n';
        }
      }
      assert forall i :: 0 <= i < |init| ==> init[i] == pages[i];
    }
  }

  /** No two pieces of one file share a chunk id: the ids differ in the
      number at their end. */
  lemma ChunkIdsDistinct(meta: PdfMeta, i: nat, j: nat)
    requires i != j
    ensures ChunkId(meta, i) != ChunkId(meta, j)
  {
    var prefix := ReplaceChar(meta.company, ' ', '_') + "_" + meta.fromYear + "_" + meta.toYear + "_chunk_";
    if ChunkId(meta, i) == ChunkId(meta, j) {
      assert ChunkId(meta, i) == prefix + NatToString(i);
      assert ChunkId(meta, j) == prefix + NatToString(j);
      assert NatToString(i) == ChunkId(meta, i)[|prefix|..];
      NatToStringInjective(i, j);
    }
  }

  /** A file whose text is blank even after OCR contributes no records. */
  lemma BlankFileSkipped(filename: string, meta: PdfMeta, extract: string -> seq<string>,
                         ocr: string -> seq<string>, split: string -> seq<string>)
    requires forall i :: 0 <= i < |extract(meta.filepath)| ==> IsPyBlank(extract(meta.filepath)[i])
    requires forall i :: 0 <= i < |ocr(meta.filepath)| ==> IsPyBlank(ocr(meta.filepath)[i])
    ensures FileChunks(filename, meta, extract, ocr, split) == []
  {
    var pages, images := extract(meta.filepath), ocr(meta.filepath);
    PageTextBlank(pages);
    OcrTextBlank(images);
    var t, o := PageText(pages), OcrText(images);
    assert forall i :: 0 <= i < |t| ==> (t + o)[i] == t[i];
    assert forall i :: 0 <= i < |o| ==> (t + o)[|t| + i] == o[i];
  }

  lemma {:induction false} OcrTextBlank(images: seq<string>)
    requires forall i :: 0 <= i < |images| ==> IsPyBlank(images[i])
    ensures IsPyBlank(OcrText(images))
  {
    if images != [] {
      var init, last := images[..|images| - 1], images[|images| - 1];
      OcrTextBlank(init);
      var t := OcrText(init);
      assert OcrText(images) == t + last + "\n";
      assert forall i :: 0 <= i < |t| ==> (t + last + "\n")[i] == t[i];
      assert forall i :: 0 <= i < |last| ==> (t + last + "\n")[|t| + i] == last[i];
    }
  }

  /** Every record comes from one entry of the dictionary: it carries that
      entry's file name, company and years, an index below the number of
      pieces of its file, and the chunk id of that index. */
  lemma {:induction false} AllChunksFromEntries(pdfMetadata: Dict<string, PdfMeta>, extract: string -> seq<string>,
                                                ocr: string -> seq<string>, split: string -> seq<string>)
    ensures forall c :: c in AllChunks(pdfMetadata, extract, ocr, split) ==>
      exists e :: e in pdfMetadata && FromEntry(c, e)
  {
    if pdfMetadata != [] {
      var init := pdfMetadata[..|pdfMetadata| - 1];
      var e := pdfMetadata[|pdfMetadata| - 1];
      AllChunksFromEntries(init, extract, ocr, split);
      forall c | c in FileChunks(e.0, e.1, extract, ocr, split) ensures FromEntry(c, e) {
      }
      assert forall x :: x in init ==> x in pdfMetadata;
    }
  }

  ghost predicate FromEntry(c: Chunk, e: (string, PdfMeta)) {
    && c.filename == e.0 && c.company == e.1.company
    && c.fromYear == e.1.fromYear && c.toYear == e.1.toYear
    && c.chunkIndex < c.totalChunks && c.chunkId == ChunkId(e.1, c.chunkIndex)
  }
}
