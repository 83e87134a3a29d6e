/** Module-level constants of the pipeline script. */
module Settings {
  const PdfPath: string := "data/philippine_history.pdf"
  const ChunkSize: int := 500
  const ChunkOverlap: int := 50
  /** Number of chunks retrieved per question. */
  const TopN: int := 5
  const IndexPath: string := "data/faiss_index"
  const ChunksPath: string := "data/chunks.pkl"

  lemma PathsDistinct()
    ensures IndexPath != ChunksPath && IndexPath != PdfPath && ChunksPath != PdfPath
  {
    assert |IndexPath| == 16 && |ChunksPath| == 15 && |PdfPath| == 27;
  }
}
