/** Loading the source document: the text of every page, concatenated in
    page order, handed to the (external) recursive character splitter. */
module PdfText {
  import opened Text
  import opened Settings

  /** `RecursiveCharacterTextSplitter(chunk_size, chunk_overlap).split_text`:
      text, chunk size and overlap to chunks. */
  type Splitter = (string, int, int) -> seq<string>

  /** The document's text: its pages' texts one after the other. */
  function Concat(pages: seq<string>): string {
    if pages == [] then "" else pages[0] + Concat(pages[1..])
  }

  lemma {:induction false} ConcatSnoc(pages: seq<string>, page: string)
    ensures Concat(pages + [page]) == Concat(pages) + page
    decreases |pages|
  {
    if pages == [] {
      assert pages + [page] == [page];
    } else {
      assert (pages + [page])[1..] == pages[1..] + [page];
      ConcatSnoc(pages[1..], page);
    }
  }

  /** Nothing is added or dropped: the text is as long as the pages together. */
  lemma {:induction false} ConcatLength(pages: seq<string>)
    ensures |Concat(pages)| == SumLengths(pages)
    decreases |pages|
  {
    if pages != [] {
      ConcatLength(pages[1..]);
    }
  }

  /** Page k sits in the text right after pages 0 .. k-1. */
  lemma {:induction false} PageAt(pages: seq<string>, k: nat)
    requires k < |pages|
    ensures SumLengths(pages[..k]) + |pages[k]| <= |Concat(pages)|
    ensures Concat(pages)[SumLengths(pages[..k])..SumLengths(pages[..k]) + |pages[k]|] == pages[k]
    decreases k
  {
    ConcatLength(pages);
    if k == 0 {
      assert pages[..0] == [];
    } else {
      PageAt(pages[1..], k - 1);
      assert pages[1..][..k - 1] == pages[..k][1..];
      assert pages[1..][k - 1] == pages[k];
      ConcatLength(pages[1..]);
    }
  }

  /** The page loop of `load_pdf_chunks`: each page's text appended to the
      text so far, in page order. */
  method ExtractText(pages: seq<string>) returns (text: string)
    ensures text == Concat(pages)
  {
    text := "";
    var i := 0;
    while i < |pages|
      invariant 0 <= i <= |pages|
      invariant text == Concat(pages[..i])
    {
      ConcatSnoc(pages[..i], pages[i]);
      assert pages[..i + 1] == pages[..i] + [pages[i]];
      text := text + pages[i];
      i := i + 1;
    }
    assert pages[..i] == pages;
  }

  /** `load_pdf_chunks`: the document's concatenated text, split into chunks. */
  method LoadPdfChunks(pages: seq<string>, split: Splitter,
                       chunkSize: int := ChunkSize, chunkOverlap: int := ChunkOverlap)
    returns (chunks: seq<string>)
    ensures chunks == split(Concat(pages), chunkSize, chunkOverlap)
  {
    var text := ExtractText(pages);
    chunks := split(text, chunkSize, chunkOverlap);
  }
}
