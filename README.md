# Philippine-history question answering, modelled in Dafny

The pipeline answers one question about Philippine history from a PDF. On
start-up it loads a persisted FAISS index and chunk list. If either file is
missing, it builds both from the PDF: the PDF's pages are concatenated, split
into overlapping chunks and embedded, and the index and chunk list are saved.
It then reads one question from standard input and strips it. The store is
asked for the `TOP_N = 5` nearest chunks. `main` prints one preview per
chunk. A preview can span several lines, since `strip` trims only the ends.
It then sends the chunks to a chat model as a bulleted context inside a fixed
grounded-answer prompt, and prints the model's reply, stripped and quoted.

The model has these modules:

- `Wrappers`: `Option`.
- `Text`: the Python `str` operations the code relies on.
  - `split` with a non-empty separator, `join`, `in`, and `strip` with
    Python's whitespace set.
  - `find`, `lstrip` and `rstrip`, which the code does not call, are the
    helpers that define `split` and `strip`.
- `Settings`: the module constants.
- `PdfText`: `load_pdf_chunks`.
  - The page loop is a `while` loop, proved against the concatenation `Concat`.
  - The text splitter is a parameter.
- `Retrieval`: the vector store as a value.
  - `FAISS.from_texts` as `FromTexts`.
  - `retrieve_chunks`, proved equal to a hit-by-hit reference projection.
- `Context`: `build_context`.
- `Preview`: the first-sentence preview that `main` prints for each chunk.
- `Prompt`: the prompt text and reply extraction of `ask_llm`. The chat model
  is a function value.
- `IndexBuilder`: `build_or_load_index`.
  - The file system is a class with one field per path (`None` = no file) and
    a write log.
  - The method is proved equal to the function `BuildOrLoad` on a snapshot of
    the disk.
- `Cli`: `main`.
  - The preview loop is a `for` loop.
  - What is printed is the sequence of `print` arguments. Start-up's
    `sys.exit` is an outcome.
  - The method `RunMain` is proved equal to the function `Session`.

Where the code and its documentation differ, the model follows the code:

- A comment in the preview loop mentions "up to 80 chars" (run.py:95).
  Nothing truncates the preview. A chunk with no ". " is printed whole.
- `retrieve_chunks` does not check `top_n`. It keeps the store's order, whatever
  that is. The model puts no ordering or length promise on the store's search.
- `ask_llm` returns the reply unstripped. Only `main` strips it (run.py:101).
- The preview appends "..." whenever the chunk contains any '.'. A chunk
  ending in "." with no ". " in it is therefore previewed ending in "....".
  `Preview.PreviewEllipsisIff` states the exact rule.
- The index and the chunk list are written one after the other, not
  atomically. A start-up loads whatever pair is on disk. It does not check
  that they agree (`IndexBuilder.InterruptedBuildMixesArtifacts`).

## Model

| member | source | states |
|---|---|---|
| Settings.PathsDistinct | run.py:18-23 | The PDF, index and chunk-list paths are three different files |
| Text.Split | run.py:96 | `s.split(sep)` for a non-empty `sep`: the text before the first occurrence of `sep`, then the split of the rest; the whole string when `sep` does not occur. There is always at least one piece |
| Text.Join | run.py:67 | `sep.join(parts)`: the parts in order with `sep` between neighbours; the empty string for no parts |
| Text.Find | run.py:96 | The result is the first index where the pattern occurs, or None exactly when it occurs nowhere |
| Text.JoinSplit | run.py:96 | Joining the pieces of `s.split(sep)` with `sep` gives back `s`, for every `s` and non-empty `sep` |
| Text.SplitJoin | run.py:67 | Splitting `c.join(parts)` on `c` gives back `parts` when no part contains `c` |
| Text.JoinLength | run.py:67 | A join of n >= 1 parts is the parts' total length plus n - 1 separators |
| Text.TrimEnd | run.py:97 | `rstrip` keeps a prefix, drops only whitespace, and ends in non-whitespace |
| Text.TrimStart | run.py:97 | `lstrip` keeps a suffix, drops only whitespace, and starts with non-whitespace |
| Text.Strip | run.py:89 | `strip` is no longer than its input and is empty or starts and ends with non-whitespace |
| Text.StripSlice | run.py:89 | `strip` returns a contiguous slice of the input, and everything cut off either side is whitespace |
| Text.StripUnchanged | run.py:101 | A string with no whitespace at either end is its own strip |
| Text.StripIdempotent | run.py:101 | Stripping an already stripped string changes nothing |
| Context.BuildContext | run.py:66-67 | The context: the bullets of the chunks joined with newlines |
| Context.Bullets | run.py:67 | One line `- "chunk"` per chunk, in order |
| Context.ContextEmptyIff | run.py:66-67 | The context is empty exactly when there are no chunks |
| Context.BulletsLength | run.py:67 | Each bullet adds four characters (`- "` and `"`) to its chunk |
| Context.ContextLength | run.py:66-67 | For n >= 1 chunks, the context length is the chunks' total length plus 4 per chunk plus n - 1 newlines |
| Context.ContextLines | run.py:66-67 | When no chunk contains a newline, splitting the context on newlines gives back exactly one bullet per chunk, in order |
| Context.ContextAppend | run.py:67 | Adding a chunk adds a newline and its bullet at the end of the context |
| Context.ContextOfTwo | tests/test_run.py:49-53 | The chunks ["A", "B"] give `- "A"` newline `- "B"` |
| PdfText.Concat | run.py:28-30 | The document text: the pages' texts one after the other, in page order |
| PdfText.ExtractText | run.py:28-30 | The page loop yields the concatenation of all pages' text, in page order |
| PdfText.ConcatLength | run.py:28-30 | The extracted text is as long as all pages together |
| PdfText.PageAt | run.py:28-30 | Page k appears unchanged in the text, right after pages 0..k-1 |
| PdfText.LoadPdfChunks | run.py:26-32 | The chunks are the splitter's output on the concatenated text, with size 500 and overlap 50 by default |
| Retrieval.FromTexts | run.py:54 | One document and one vector per text, the vector being that text's embedding |
| Retrieval.StoredTextsFromTexts | run.py:54 | A store built from texts holds exactly those texts, in order |
| Retrieval.RetrieveChunks | run.py:61-63 | The store is searched for the query with k = top_n (default 5). Each hit becomes its document's text and its score, in the order returned |
| Retrieval.ProjectAt | run.py:63 | The reference projection maps hit i to (its page content, its score) |
| Retrieval.RetrieveChunksProjects | run.py:61-63 | `retrieve_chunks` is the reference projection of the store's answer to the query with k = top_n |
| Retrieval.ProjectAppend | run.py:63 | The projection works hit by hit, so it distributes over concatenation |
| Retrieval.ChunkTexts | run.py:92 | The chunk list has one entry per retrieved pair: that pair's text |
| Retrieval.RetrievedTexts | run.py:91-92 | The retrieved texts are the hits' page contents, in the store's order |
| Retrieval.RetrieveTwo | tests/test_run.py:65-72 | Two hits come back as the two (text, score) pairs, in order |
| Preview.FirstSentence | run.py:96 | The chunk's text before its first ". " (all of it when there is none), plus "..." when the chunk contains a '.' anywhere |
| Preview.PreviewText | run.py:96-97 | The preview: the first sentence with surrounding whitespace stripped |
| Preview.SplitHead | run.py:96 | The first piece of `split(". ")` is the text before the first ". ", or the whole chunk |
| Preview.SplitHeadHasNoSeparator | run.py:96 | The first piece never contains the separator |
| Preview.PreviewIsFirstSentence | run.py:96-97 | The preview is the stripped text before the first ". " plus "...", or the stripped whole chunk with "..." only when it contains a '.' |
| Preview.StripKeepsDots | run.py:96-97 | Stripping never removes an appended "..." |
| Preview.PreviewEllipsisIff | run.py:96-97 | The preview ends in "..." exactly when the chunk contains a '.' |
| Preview.PreviewWithoutDot | run.py:96-97 | A chunk without '.' is previewed as the stripped chunk |
| Prompt.BuildPrompt | run.py:72-79 | The prompt: the fixed instructions naming the fallback sentence, then a `Context:` block holding the context, the question and `Answer:` |
| Prompt.ReplyText | run.py:81-83 | The reply's `content` when it is a message, else its `str()` |
| Prompt.PromptShape | run.py:72-79 | Every prompt opens with the fixed instructions and ends with the context block, the question and `Answer:` |
| Prompt.PromptNamesFallback | run.py:77 | The fallback sentence "Not enough information in the context." appears in every prompt |
| Prompt.PromptDeterminesContext | run.py:78 | For a fixed question, two prompts are equal if and only if their contexts are |
| Prompt.PromptDeterminesQuestion | run.py:78 | For a fixed context, two prompts are equal if and only if their questions are |
| Prompt.AskLlm | run.py:70-83 | The model is called once on the built prompt; the answer is the reply's `content` when it has one, else its `str()`, unstripped |
| IndexBuilder.BuildOrLoad | run.py:35-58 | Start-up as a function of the disk. Both artifacts present: return them, disk unchanged. Otherwise, no PDF: exit 1. Otherwise: split the concatenated PDF text, build the store, save the index and then the chunk list |
| IndexBuilder.FileSystem.Exists | run.py:36-48 | `os.path.exists` is true exactly for a path whose file is present |
| IndexBuilder.FileSystem.LoadLocal | run.py:38-42 | Loading the index returns the stored index |
| IndexBuilder.FileSystem.PickleLoad | run.py:43-44 | Loading the chunk file returns the stored chunk list |
| IndexBuilder.FileSystem.OpenPdf | run.py:27 | Opening the PDF yields its pages |
| IndexBuilder.FileSystem.SaveLocal | run.py:55 | Saving stores the index and logs the index path; nothing else changes |
| IndexBuilder.FileSystem.PickleDump | run.py:56-57 | Dumping stores the chunk list and logs the chunk path; nothing else changes |
| IndexBuilder.BuildOrLoadIndex | run.py:35-58 | The method's outcome and the disk afterwards are those of `BuildOrLoad` on the disk before |
| IndexBuilder.LoadPath | run.py:36-45 | With both artifacts present, the persisted pair is returned, nothing is written, and the PDF does not matter |
| IndexBuilder.MissingPdfExits | run.py:46-50 | With an artifact missing and no PDF, the run exits with status 1 and the disk is untouched |
| IndexBuilder.BuildPath | run.py:51-58 | With an artifact missing and the PDF present, the returned chunks are the split PDF text and the store indexes exactly them. Both are persisted, the index first |
| IndexBuilder.RestartLoadsSame | run.py:35-58 | After a start-up that returns, the next start-up loads exactly the same pair and writes nothing |
| IndexBuilder.InterruptedBuildMixesArtifacts | run.py:55-57 | A build stopped between the two writes, with an old chunk file present, makes the next start-up pair the new index with the old chunks |
| Cli.PreviewLine | run.py:96-97 | The line printed for a chunk: `- "` + its preview + `"` |
| Cli.AnswerLine | run.py:101 | The answer line: the reply stripped, in double quotes |
| Cli.Transcript | run.py:88-101 | The `print` arguments of `main` after start-up: three headers, one preview line per chunk, the answer header and the answer line |
| Cli.QueryOutput | run.py:88-101 | The transcript for the stripped input line: the chunks retrieved for it with k = 5 and the model's answer to the context built from them |
| Cli.Session | run.py:86-101 | A whole run: an exiting start-up stops with its status and prints nothing; otherwise the query output, with the disk as start-up left it |
| Cli.PrintPreviews | run.py:94-97 | The loop prints one preview line per chunk, in order |
| Cli.Query | run.py:88-101 | The lines printed after start-up are `QueryOutput` of the store, the services and the input line |
| Cli.RunMain | run.py:86-101 | The run's result and the disk afterwards are those of `Session` on the disk before |
| Cli.TranscriptShape | run.py:88-101 | The output has three header lines, one preview per chunk, the answer header and the answer line |
| Cli.TranscriptPreviewAt | run.py:93-97 | Line 3 + k is the preview of chunk k |
| Cli.OnePreviewPerHit | run.py:89-97 | One preview per hit of the store queried with the stripped question and k = 5, in the store's order |
| Cli.PrintsReply | run.py:98-101 | For any chat model, the last line printed is the model's reply to the prompt built from the retrieved chunks and the stripped question (its `content`, else its `str()`), stripped and in double quotes |
| Cli.PrintsConstantReply | tests/test_run.py:74-88 | A model that always answers one message has that message printed, stripped and in double quotes |
| Cli.FallbackAnswerLine | run.py:101 | The fallback sentence is printed unchanged, in double quotes |
| Cli.FallbackTranscript | tests/test_run.py:138-149 | No chunks and the fallback answer give the headers and the quoted fallback sentence only |
| Cli.NoHitsFallback | tests/test_run.py:138-149 | With no hits the model is asked with an empty context. If it answers the fallback sentence, no preview is printed and the quoted fallback sentence is |
| Cli.RunStopsWithoutPdf | run.py:46-50 | A start-up that exits ends the run with status 1 before `main` prints anything, with the disk untouched |

## Left out

- The text splitter (`RecursiveCharacterTextSplitter`) is a parameter. Its chunking algorithm and its size and overlap guarantees are not modelled.
- The embedding model and FAISS's nearest-neighbour search are parameters. Ranking, distances and the number of hits are whatever that function returns.
- The chat model (`ChatOpenAI`, its model name, temperature and API key) is a function from prompt to reply. Network failures and exceptions are not modelled.
- The PDF is modelled as the list of its pages' text. PyMuPDF's text extraction is not modelled.
- Serialisation is not modelled. `save_local`/`load_local` and `pickle.dump`/`pickle.load` store and return the value itself, so each round trip is taken to be the identity.
- Failures beyond a missing file are not modelled: a corrupt index, an unreadable pickle, an unopenable PDF, end of input at `input()`.
- `build_or_load_index`'s progress messages (run.py:37, 47, 49, 52) are not part of the printed output. Only `main`'s prints are.
- `print("User Query:", end=' ')`: the model records the argument but not the trailing-space line ending.
- `load_dotenv`, the `TOKENIZERS_PARALLELISM` setting and the `__main__` guard are not modelled.
- The HTTP API (app_api.py) and the web UI (app_ui.py) are not part of this model.
- Text.Split: the contract states only that there is at least one piece. Its meaning is stated by Text.JoinSplit, Text.SplitJoin and Preview.SplitHead.
