/** The vector store as the pipeline sees it, and the projection of its
    similarity-search hits onto (chunk text, score) pairs. Embedding and
    nearest-neighbour search are external: they enter as function values. */
module Retrieval {
  import opened Settings

  type Embedding = seq<real>

  /** The embedding model: text to vector. */
  type Embedder = string -> Embedding

  datatype Document = Document(pageContent: string, metadata: map<string, string>)

  /** A FAISS store: the stored documents and, index for index, their vectors. */
  datatype VectorStore = VectorStore(docs: seq<Document>, vectors: seq<Embedding>)

  /** One hit of a similarity search: a stored document and its distance. */
  type Hit = (Document, real)

  /** The store's `similarity_search_with_score(query, k)`; its ranking and
      scores are the library's business and are not modelled. */
  type Search = (VectorStore, string, int) -> seq<Hit>

  /** `FAISS.from_texts(texts, embeddings)`: one document (without metadata)
      and one vector per text, in the order given. */
  function FromTexts(texts: seq<string>, embed: Embedder): (store: VectorStore)
    ensures |store.docs| == |store.vectors| == |texts|
    ensures forall i :: 0 <= i < |texts| ==> store.vectors[i] == embed(texts[i])
  {
    VectorStore(
      seq(|texts|, i requires 0 <= i < |texts| => Document(texts[i], map[])),
      seq(|texts|, i requires 0 <= i < |texts| => embed(texts[i])))
  }

  /** The texts a store holds, in storage order. */
  function StoredTexts(store: VectorStore): seq<string> {
    seq(|store.docs|, i requires 0 <= i < |store.docs| => store.docs[i].pageContent)
  }

  /** A store built from some texts holds exactly those texts, in order. */
  lemma StoredTextsFromTexts(texts: seq<string>, embed: Embedder)
    ensures StoredTexts(FromTexts(texts, embed)) == texts
  {
  }

  /** `retrieve_chunks`: asks the store for `topN` hits and keeps each hit's
      text and score. */
  function RetrieveChunks(store: VectorStore, search: Search, query: string, topN: int := TopN): seq<(string, real)> {
    var hits := search(store, query, topN);
    seq(|hits|, i requires 0 <= i < |hits| => (hits[i].0.pageContent, hits[i].1))
  }

  /** Reference definition of the projection, one hit at a time. */
  function Project(hits: seq<Hit>): seq<(string, real)> {
    if hits == [] then [] else [(hits[0].0.pageContent, hits[0].1)] + Project(hits[1..])
  }

  lemma {:induction false} ProjectAt(hits: seq<Hit>, i: nat)
    requires i < |hits|
    ensures |Project(hits)| == |hits|
    ensures Project(hits)[i] == (hits[i].0.pageContent, hits[i].1)
    decreases |hits|
  {
    if i == 0 {
      if |hits| > 1 { ProjectAt(hits[1..], 0); }
    } else {
      ProjectAt(hits[1..], i - 1);
    }
  }

  /** The result is the store's answer to the query with `k = topN`, hit for
      hit and in the store's order, scores untouched. */
  lemma RetrieveChunksProjects(store: VectorStore, search: Search, query: string, topN: int)
    ensures RetrieveChunks(store, search, query, topN) == Project(search(store, query, topN))
  {
    var hits := search(store, query, topN);
    if hits != [] {
      ProjectAt(hits, 0);
      forall i | 0 <= i < |hits|
        ensures RetrieveChunks(store, search, query, topN)[i] == Project(hits)[i]
      {
        ProjectAt(hits, i);
      }
    }
  }

  /** Projecting two runs of hits one after the other is projecting them
      together: nothing is reordered, dropped or merged. */
  lemma {:induction false} ProjectAppend(a: seq<Hit>, b: seq<Hit>)
    ensures Project(a + b) == Project(a) + Project(b)
    decreases |a|
  {
    if a != [] {
      assert (a + b)[1..] == a[1..] + b;
      ProjectAppend(a[1..], b);
    } else {
      assert a + b == b;
    }
  }

  /** The texts of the retrieved (text, score) pairs, in order, scores dropped. */
  function ChunkTexts(retrieved: seq<(string, real)>): (texts: seq<string>)
    ensures |texts| == |retrieved|
    ensures forall i :: 0 <= i < |retrieved| ==> texts[i] == retrieved[i].0
  {
    seq(|retrieved|, i requires 0 <= i < |retrieved| => retrieved[i].0)
  }

  /** The retrieved texts are the page contents of the hits, in order. */
  lemma RetrievedTexts(store: VectorStore, search: Search, query: string, topN: int)
    ensures var hits := search(store, query, topN);
      var texts := ChunkTexts(RetrieveChunks(store, search, query, topN));
      |texts| == |hits| && forall i :: 0 <= i < |hits| ==> texts[i] == hits[i].0.pageContent
  {
  }

  /** Two hits come back as the two (text, score) pairs, in the same order. */
  lemma RetrieveTwo(store: VectorStore, search: Search, d1: Document, d2: Document)
    requires d1.pageContent == "chunk1" && d2.pageContent == "chunk2"
    requires search(store, "query", 2) == [(d1, 0.1), (d2, 0.2)]
    ensures RetrieveChunks(store, search, "query", 2) == [("chunk1", 0.1), ("chunk2", 0.2)]
  {
  }
}
