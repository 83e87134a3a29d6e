/** Start-up of the pipeline: load the persisted FAISS index and chunk list
    when both exist, otherwise build them from the PDF and persist them. The
    file system is an object holding, per path, whether the file exists and
    what it holds, plus the order in which files were written. */
module IndexBuilder {
  import opened Wrappers
  import opened Settings
  import opened Retrieval
  import opened PdfText

  /** A snapshot of the three files the pipeline touches: None when the file
      does not exist. `pdf` holds the PDF's pages as text; `writes` lists the
      paths written, oldest first. */
  datatype Disk = Disk(
    index: Option<VectorStore>,
    chunks: Option<seq<string>>,
    pdf: Option<seq<string>>,
    writes: seq<string>)

  /** What `build_or_load_index` ends with: it returns the store and the
      chunks, or the process exits with a status. */
  datatype Outcome = Returned(store: VectorStore, chunks: seq<string>) | Exited(status: int)

  class FileSystem {
    var index: Option<VectorStore>
    var chunkFile: Option<seq<string>>
    var pdf: Option<seq<string>>
    var writes: seq<string>

    function Snapshot(): Disk
      reads this
    {
      Disk(index, chunkFile, pdf, writes)
    }

    constructor (d: Disk)
      ensures Snapshot() == d
    {
      index, chunkFile, pdf, writes := d.index, d.chunks, d.pdf, d.writes;
    }

    /** `os.path.exists(path)` for the three paths the pipeline uses. */
    method Exists(path: string) returns (b: bool)
      ensures b <==> (|| (path == IndexPath && index.Some?)
                      || (path == ChunksPath && chunkFile.Some?)
                      || (path == PdfPath && pdf.Some?))
    {
      b := (path == IndexPath && index.Some?)
        || (path == ChunksPath && chunkFile.Some?)
        || (path == PdfPath && pdf.Some?);
    }

    /** `FAISS.load_local(INDEX_PATH, ...)` */
    method LoadLocal() returns (store: VectorStore)
      requires index.Some?
      ensures store == index.value
    {
      store := index.value;
    }

    /** `pickle.load` of CHUNKS_PATH */
    method PickleLoad() returns (chunks: seq<string>)
      requires chunkFile.Some?
      ensures chunks == chunkFile.value
    {
      chunks := chunkFile.value;
    }

    /** `fitz.open(PDF_PATH)`: the pages' text. */
    method OpenPdf() returns (pages: seq<string>)
      requires pdf.Some?
      ensures pages == pdf.value
    {
      pages := pdf.value;
    }

    /** `vectorstore.save_local(INDEX_PATH)` */
    method SaveLocal(store: VectorStore)
      modifies this
      ensures Snapshot() == old(Snapshot()).(index := Some(store), writes := old(writes) + [IndexPath])
    {
      index := Some(store);
      writes := writes + [IndexPath];
    }

    /** `pickle.dump(chunks, f)` on CHUNKS_PATH */
    method PickleDump(chunks: seq<string>)
      modifies this
      ensures Snapshot() == old(Snapshot()).(chunks := Some(chunks), writes := old(writes) + [ChunksPath])
    {
      chunkFile := Some(chunks);
      writes := writes + [ChunksPath];
    }
  }

  /** What start-up does to a disk, as a function: the outcome and the disk
      afterwards. */
  function BuildOrLoad(d: Disk, split: Splitter, embed: Embedder): (Outcome, Disk) {
    if d.index.Some? && d.chunks.Some? then
      (Returned(d.index.value, d.chunks.value), d)
    else if d.pdf.None? then
      (Exited(1), d)
    else
      var chunks := split(Concat(d.pdf.value), ChunkSize, ChunkOverlap);
      var store := FromTexts(chunks, embed);
      (Returned(store, chunks),
       d.(index := Some(store), chunks := Some(chunks), writes := d.writes + [IndexPath, ChunksPath]))
  }

  /** `build_or_load_index` */
  method BuildOrLoadIndex(fs: FileSystem, split: Splitter, embed: Embedder) returns (outcome: Outcome)
    modifies fs
    ensures (outcome, fs.Snapshot()) == BuildOrLoad(old(fs.Snapshot()), split, embed)
  {
    PathsDistinct();
    var hasIndex := fs.Exists(IndexPath);
    var hasChunks := false;
    if hasIndex {
      hasChunks := fs.Exists(ChunksPath);
    }
    if hasIndex && hasChunks {
      var store := fs.LoadLocal();
      var chunks := fs.PickleLoad();
      return Returned(store, chunks);
    }
    var hasPdf := fs.Exists(PdfPath);
    if !hasPdf {
      return Exited(1);
    }
    var pages := fs.OpenPdf();
    var chunks := LoadPdfChunks(pages, split);
    var store := FromTexts(chunks, embed);
    fs.SaveLocal(store);
    fs.PickleDump(chunks);
    assert fs.writes == old(fs.writes) + [IndexPath, ChunksPath];
    return Returned(store, chunks);
  }

  /** Both artifacts present: the persisted pair is returned, nothing is
      written, and the PDF is not consulted (any PDF gives the same). */
  lemma LoadPath(d: Disk, pdf: Option<seq<string>>, split: Splitter, embed: Embedder)
    requires d.index.Some? && d.chunks.Some?
    ensures BuildOrLoad(d, split, embed) == (Returned(d.index.value, d.chunks.value), d)
    ensures BuildOrLoad(d.(pdf := pdf), split, embed).0 == BuildOrLoad(d, split, embed).0
  {
  }

  /** An artifact missing and no PDF: exit status 1, disk untouched. */
  lemma MissingPdfExits(d: Disk, split: Splitter, embed: Embedder)
    requires d.index.None? || d.chunks.None?
    requires d.pdf.None?
    ensures BuildOrLoad(d, split, embed) == (Exited(1), d)
  {
  }

  /** An artifact missing and the PDF present: the chunks returned are the
      split PDF text, the store returned indexes exactly those chunks, and
      both are what was persisted: first the index, then the chunk list. */
  lemma BuildPath(d: Disk, split: Splitter, embed: Embedder)
    requires d.index.None? || d.chunks.None?
    requires d.pdf.Some?
    ensures var (out, d') := BuildOrLoad(d, split, embed);
      && out.Returned?
      && out.chunks == split(Concat(d.pdf.value), ChunkSize, ChunkOverlap)
      && StoredTexts(out.store) == out.chunks
      && |out.store.vectors| == |out.chunks|
      && d'.index == Some(out.store) && d'.chunks == Some(out.chunks)
      && d'.pdf == d.pdf
      && d'.writes == d.writes + [IndexPath, ChunksPath]
  {
    var chunks := split(Concat(d.pdf.value), ChunkSize, ChunkOverlap);
    StoredTextsFromTexts(chunks, embed);
  }

  /** Whenever start-up returns, the next start-up loads exactly what it
      returned and writes nothing. */
  lemma RestartLoadsSame(d: Disk, split: Splitter, embed: Embedder)
    requires BuildOrLoad(d, split, embed).0.Returned?
    ensures var (out, d') := BuildOrLoad(d, split, embed);
      BuildOrLoad(d', split, embed) == (out, d')
  {
  }

  /** The two writes are not atomic. If the build stops after saving the
      index and a chunk file from an earlier run is still on disk, the next
      start-up loads the new index with the old chunk list, though the index
      holds other texts. */
  lemma InterruptedBuildMixesArtifacts(split: Splitter, embed: Embedder)
    requires split("x", ChunkSize, ChunkOverlap) == ["x"]
    ensures var d := Disk(None, Some(["old"]), Some(["x"]), []);
      var store := FromTexts(split(Concat(d.pdf.value), ChunkSize, ChunkOverlap), embed);
      var interrupted := d.(index := Some(store), writes := d.writes + [IndexPath]);
      var out := BuildOrLoad(interrupted, split, embed).0;
      out == Returned(store, ["old"]) && StoredTexts(out.store) != out.chunks
  {
    var d := Disk(None, Some(["old"]), Some(["x"]), []);
    assert Concat(["x"]) == "x";
    var store := FromTexts(["x"], embed);
    StoredTextsFromTexts(["x"], embed);
    assert StoredTexts(store) == ["x"];
    assert ["x"] != ["old"] by { assert "x" != "old"; }
  }
}
