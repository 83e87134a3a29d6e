/** Context assembly: the retrieved chunks rendered as one quoted bullet
    line each, joined by newlines, in retrieval order. */
module Context {
  import opened Text

  /** One context line: `- "<chunk>"`. */
  function Bullet(chunk: string): string {
    "- \"" + chunk + "\""
  }

  function Bullets(chunks: seq<string>): (lines: seq<string>)
    ensures |lines| == |chunks|
    ensures forall k :: 0 <= k < |chunks| ==> lines[k] == Bullet(chunks[k])
  {
    seq(|chunks|, k requires 0 <= k < |chunks| => Bullet(chunks[k]))
  }

  /** The context block handed to the language model. */
  function BuildContext(chunks: seq<string>): string {
    Join("\n", Bullets(chunks))
  }

  /** The context is empty exactly when there are no chunks. */
  lemma ContextEmptyIff(chunks: seq<string>)
    ensures BuildContext(chunks) == "" <==> chunks == []
  {
    if chunks != [] {
      ContextLength(chunks);
    }
  }

  /** Every bullet adds four characters around its chunk. */
  lemma {:induction false} BulletsLength(chunks: seq<string>)
    ensures SumLengths(Bullets(chunks)) == SumLengths(chunks) + 4 * |chunks|
    decreases |chunks|
  {
    if chunks != [] {
      BulletsLength(chunks[1..]);
      assert Bullets(chunks)[1..] == Bullets(chunks[1..]);
    }
  }

  /** For n >= 1 chunks the context is the chunks, four quoting characters
      per chunk, and n - 1 newlines. */
  lemma ContextLength(chunks: seq<string>)
    requires |chunks| >= 1
    ensures |BuildContext(chunks)| == SumLengths(chunks) + 4 * |chunks| + (|chunks| - 1)
  {
    JoinLength("\n", Bullets(chunks));
    BulletsLength(chunks);
  }

  /** When no chunk contains a newline, splitting the context on newlines
      gives back exactly one bullet line per chunk, in order. */
  lemma ContextLines(chunks: seq<string>)
    requires |chunks| >= 1
    requires forall k :: 0 <= k < |chunks| ==> '\n' !in chunks[k]
    ensures Split(BuildContext(chunks), "\n") == Bullets(chunks)
    ensures |Split(BuildContext(chunks), "\n")| == |chunks|
  {
    var lines := Bullets(chunks);
    forall k | 0 <= k < |lines| ensures '\n' !in lines[k] {
      assert lines[k] == "- \"" + chunks[k] + "\"";
    }
    SplitJoin('\n', lines);
  }

  /** A chunk appended to the list becomes the last line of the context. */
  lemma {:induction false} ContextAppend(chunks: seq<string>, chunk: string)
    requires chunks != []
    ensures BuildContext(chunks + [chunk]) == BuildContext(chunks) + "\n" + Bullet(chunk)
    decreases |chunks|
  {
    if |chunks| == 1 {
      var lines := Bullets(chunks + [chunk]);
      assert lines == [Bullet(chunks[0]), Bullet(chunk)];
      assert lines[1..] == [Bullet(chunk)];
      assert Join("\n", lines) == Bullet(chunks[0]) + "\n" + Join("\n", [Bullet(chunk)]);
      assert Bullets(chunks) == [Bullet(chunks[0])];
    } else {
      ContextAppend(chunks[1..], chunk);
      assert (chunks + [chunk])[1..] == chunks[1..] + [chunk];
      assert Bullets(chunks + [chunk])[1..] == Bullets(chunks[1..] + [chunk]);
      assert Bullets(chunks)[1..] == Bullets(chunks[1..]);
    }
  }

  lemma ContextOfTwo()
    ensures BuildContext(["A", "B"]) == "- \"A\"\n- \"B\""
  {
    var lines := Bullets(["A", "B"]);
    assert lines[0] == Bullet("A") == "- \"A\"";
    assert lines[1] == Bullet("B") == "- \"B\"";
    assert lines == ["- \"A\"", "- \"B\""];
    assert lines[1..] == ["- \"B\""];
  }
}
