/** The command-line run: start up, read one question, retrieve, print a
    preview per retrieved chunk, ask the model and print its answer. Standard
    output is the sequence of `print` arguments; standard input is the line
    typed by the user. */
module Cli {
  import opened Text
  import opened Settings
  import opened Retrieval
  import opened Context
  import opened Preview
  import opened Prompt
  import opened PdfText
  import opened IndexBuilder

  /** The external collaborators of a run. */
  datatype Services = Services(split: Splitter, embed: Embedder, search: Search, llm: ChatModel)

  /** How a run ends: start-up called `sys.exit(status)`, or the run printed
      its lines and returned. */
  datatype RunResult = Stopped(status: int) | Completed(printed: seq<string>)

  /** The line printed for one retrieved chunk: its preview as a bullet. */
  function PreviewLine(chunk: string): string {
    Bullet(PreviewText(chunk))
  }

  /** The line printed for the answer: the reply stripped and put in double
      quotes. */
  function AnswerLine(response: string): string {
    "\"" + Strip(response) + "\""
  }

  /** The preview loop of `main`: one `print` per retrieved chunk, in
      retrieval order. */
  method PrintPreviews(chunks: seq<string>) returns (printed: seq<string>)
    ensures |printed| == |chunks|
    ensures forall k :: 0 <= k < |chunks| ==> printed[k] == PreviewLine(chunks[k])
  {
    printed := [];
    for i := 0 to |chunks|
      invariant |printed| == i
      invariant forall k :: 0 <= k < i ==> printed[k] == PreviewLine(chunks[k])
    {
      var firstSentence := FirstSentence(chunks[i]);
      printed := printed + [Bullet(Strip(firstSentence))];
    }
  }

  function Previews(chunks: seq<string>): seq<string> {
    seq(|chunks|, k requires 0 <= k < |chunks| => PreviewLine(chunks[k]))
  }

  /** Everything `main` prints after start-up, given the retrieved chunks and
      the model's reply. */
  function Transcript(chunks: seq<string>, response: string): seq<string> {
    ["User Query:", "\nRetrieving relevant chunks...", "\nRetrieved Chunks:"]
      + Previews(chunks)
      + ["\nLLM Response:", AnswerLine(response)]
  }

  /** What `main` prints once start-up has returned `store`. */
  function QueryOutput(store: VectorStore, svc: Services, inputLine: string): seq<string> {
    var query := Strip(inputLine);
    var chunks := ChunkTexts(RetrieveChunks(store, svc.search, query, TopN));
    Transcript(chunks, AskLlm(svc.llm, BuildContext(chunks), query))
  }

  /** One run of `main`, as a function of the disk, the services and the
      input line: how it ends and the disk afterwards. */
  function Session(d: Disk, svc: Services, inputLine: string): (RunResult, Disk) {
    var startup := BuildOrLoad(d, svc.split, svc.embed);
    match startup.0
    case Exited(status) => (Stopped(status), startup.1)
    case Returned(store, _) => (Completed(QueryOutput(store, svc, inputLine)), startup.1)
  }

  /** The part of `main` after start-up: read the question, retrieve, print
      the previews, ask the model, print its answer. */
  method Query(store: VectorStore, svc: Services, inputLine: string) returns (printed: seq<string>)
    ensures printed == QueryOutput(store, svc, inputLine)
  {
    var userQuery := Strip(inputLine);
    var retrieved := RetrieveChunks(store, svc.search, userQuery, TopN);
    var retrievedChunks := ChunkTexts(retrieved);
    var previews := PrintPreviews(retrievedChunks);
    assert previews == Previews(retrievedChunks);
    var context := BuildContext(retrievedChunks);
    var response := AskLlm(svc.llm, context, userQuery);
    printed := ["User Query:", "\nRetrieving relevant chunks...", "\nRetrieved Chunks:"]
      + previews
      + ["\nLLM Response:", AnswerLine(response)];
    assert printed == Transcript(retrievedChunks, response);
  }

  /** `main` */
  method RunMain(fs: FileSystem, svc: Services, inputLine: string) returns (result: RunResult)
    modifies fs
    ensures (result, fs.Snapshot()) == Session(old(fs.Snapshot()), svc, inputLine)
  {
    var startup := BuildOrLoadIndex(fs, svc.split, svc.embed);
    if startup.Exited? {
      return Stopped(startup.status);
    }
    var printed := Query(startup.store, svc, inputLine);
    return Completed(printed);
  }

  /** What `main` prints: three header lines, one preview line per chunk in
      order, the answer header and the answer line. */
  lemma TranscriptShape(chunks: seq<string>, response: string)
    ensures var out := Transcript(chunks, response);
      && |out| == |chunks| + 5
      && out[|out| - 2] == "\nLLM Response:"
      && out[|out| - 1] == AnswerLine(response)
  {
  }

  lemma TranscriptPreviewAt(chunks: seq<string>, response: string, k: nat)
    requires k < |chunks|
    ensures Transcript(chunks, response)[3 + k] == PreviewLine(chunks[k])
  {
  }

  /** After start-up `main` prints three header lines, one preview per hit
      of the store queried with the stripped question and `k = TOP_N`, in the
      store's order, then the answer header and the answer line. */
  lemma OnePreviewPerHit(store: VectorStore, svc: Services, inputLine: string)
    ensures var hits := svc.search(store, Strip(inputLine), TopN);
      var out := QueryOutput(store, svc, inputLine);
      && |out| == |hits| + 5
      && (forall k :: 0 <= k < |hits| ==> out[3 + k] == PreviewLine(hits[k].0.pageContent))
      && out[|out| - 2] == "\nLLM Response:"
  {
    var query := Strip(inputLine);
    RetrievedTexts(store, svc.search, query, TopN);
    var chunks := ChunkTexts(RetrieveChunks(store, svc.search, query, TopN));
    var response := AskLlm(svc.llm, BuildContext(chunks), query);
    TranscriptShape(chunks, response);
    forall k | 0 <= k < |chunks| ensures Transcript(chunks, response)[3 + k] == PreviewLine(chunks[k]) {
      TranscriptPreviewAt(chunks, response, k);
    }
  }

  /** The last line printed is the model's reply to the prompt built from the
      retrieved chunks and the stripped question (its `content`, else its
      `str()`), stripped and in double quotes. */
  lemma PrintsReply(store: VectorStore, svc: Services, inputLine: string)
    ensures var query := Strip(inputLine);
      var chunks := ChunkTexts(RetrieveChunks(store, svc.search, query, TopN));
      var out := QueryOutput(store, svc, inputLine);
      out[|out| - 1] == "\"" + Strip(ReplyText(svc.llm(BuildPrompt(BuildContext(chunks), query)))) + "\""
  {
  }

  /** With a model that always answers the same message, the last line printed
      is that message, stripped and in double quotes. */
  lemma PrintsConstantReply(store: VectorStore, svc: Services, inputLine: string, message: string)
    requires forall p :: svc.llm(p) == Message(message)
    ensures var out := QueryOutput(store, svc, inputLine);
      out[|out| - 1] == "\"" + Strip(message) + "\""
  {
    PrintsReply(store, svc, inputLine);
  }

  /** The fallback sentence is printed as it is, in double quotes. */
  lemma FallbackAnswerLine()
    ensures AnswerLine(Fallback) == "\"" + Fallback + "\""
  {
    assert Fallback[0] == 'N' && Fallback[|Fallback| - 1] == '.';
    StripUnchanged(Fallback);
  }

  /** The transcript of a run with no chunks and the fallback answer. */
  lemma FallbackTranscript()
    ensures Transcript([], Fallback) ==
      ["User Query:", "\nRetrieving relevant chunks...", "\nRetrieved Chunks:",
       "\nLLM Response:", "\"" + Fallback + "\""]
  {
    FallbackAnswerLine();
    assert Previews([]) == [];
  }

  /** No hits: no previews, the model is asked with an empty context, and a
      model that answers the fallback sentence has it printed in quotes. */
  lemma NoHitsFallback(store: VectorStore, svc: Services, inputLine: string)
    requires svc.search(store, Strip(inputLine), TopN) == []
    requires svc.llm(BuildPrompt("", Strip(inputLine))) == Message(Fallback)
    ensures QueryOutput(store, svc, inputLine) ==
      ["User Query:", "\nRetrieving relevant chunks...", "\nRetrieved Chunks:",
       "\nLLM Response:", "\"" + Fallback + "\""]
  {
    var query := Strip(inputLine);
    var chunks := ChunkTexts(RetrieveChunks(store, svc.search, query, TopN));
    assert chunks == [];
    assert BuildContext(chunks) == "";
    assert AskLlm(svc.llm, "", query) == Fallback;
    FallbackTranscript();
  }

  /** A start-up that exits ends the run with that status before anything of
      `main` is printed, and with the disk untouched. */
  lemma RunStopsWithoutPdf(d: Disk, svc: Services, inputLine: string)
    requires d.index.None? || d.chunks.None?
    requires d.pdf.None?
    ensures Session(d, svc, inputLine) == (Stopped(1), d)
  {
  }
}
