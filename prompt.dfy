/** The grounded-answer prompt and the extraction of the model's reply.
    The chat model itself is external and enters as a function value. */
module Prompt {
  import opened Text

  /** The sentence the model is told to answer with when the context does
      not suffice. */
  const Fallback: string := "Not enough information in the context."

  /** The instructions up to the quoted fallback sentence. */
  const Lead: string :=
    "You are a helpful Philippine history expert. "
    + "Using only the provided context, answer the user's question in a single, clear, and accurate sentence. "
    + "Your answer must include both the date and the significance of the event, and should be concise and self-contained. "
    + "Do not add any information that is not in the context. "
    + "If the context is insufficient, say '"

  /** The fixed instruction text that opens every prompt. */
  const Instructions: string := Lead + Fallback + "'\n\n"

  /** What follows the instructions: the context block and the question. */
  function Body(context: string, question: string): string {
    "Context:\n" + context + "\n\nQuestion: " + question + "\nAnswer:"
  }

  /** The prompt `ask_llm` sends. */
  function BuildPrompt(context: string, question: string): string {
    Instructions + Body(context, question)
  }

  /** Every prompt opens with the fixed instructions and closes with the
      context block and the question, in that order. */
  lemma PromptShape(context: string, question: string)
    ensures StartsWith(BuildPrompt(context, question), Instructions)
    ensures EndsWith(BuildPrompt(context, question),
                     "Context:\n" + context + "\n\nQuestion: " + question + "\nAnswer:")
  {
    var p := BuildPrompt(context, question);
    assert p[..|Instructions|] == Instructions;
    assert p[|p| - |Body(context, question)|..] == Body(context, question);
  }

  /** The fallback sentence is part of every prompt, inside the instructions. */
  lemma PromptNamesFallback(context: string, question: string)
    ensures Contains(BuildPrompt(context, question), Fallback)
  {
    var p := BuildPrompt(context, question);
    var rest := "'\n\n" + Body(context, question);
    assert p == Lead + Fallback + rest;
    assert p[|Lead|..|Lead| + |Fallback|] == Fallback;
    assert OccursAt(p, Fallback, |Lead|);
  }

  /** Text between a common prefix and a common suffix is determined by
      the whole. */
  lemma CancelAround(a: string, x: string, y: string, b: string)
    requires a + x + b == a + y + b
    ensures x == y
  {
    var w := a + x + b;
    assert |x| == |y|;
    assert w[|a|..|a| + |x|] == x;
    assert (a + y + b)[|a|..|a| + |y|] == y;
  }

  /** A common prefix can be cancelled. */
  lemma CancelPrefix(a: string, x: string, y: string)
    requires a + x == a + y
    ensures x == y
  {
    assert (a + x)[|a|..] == x;
    assert (a + y)[|a|..] == y;
  }

  /** With the question fixed, two prompts agree exactly when their contexts
      agree. */
  lemma PromptDeterminesContext(c1: string, c2: string, question: string)
    ensures BuildPrompt(c1, question) == BuildPrompt(c2, question) <==> c1 == c2
  {
    if BuildPrompt(c1, question) == BuildPrompt(c2, question) {
      CancelPrefix(Instructions, Body(c1, question), Body(c2, question));
      var post := "\n\nQuestion: " + question + "\nAnswer:";
      assert Body(c1, question) == "Context:\n" + c1 + post;
      assert Body(c2, question) == "Context:\n" + c2 + post;
      CancelAround("Context:\n", c1, c2, post);
    }
  }

  /** With the context fixed, two prompts agree exactly when their questions
      agree. */
  lemma PromptDeterminesQuestion(context: string, q1: string, q2: string)
    ensures BuildPrompt(context, q1) == BuildPrompt(context, q2) <==> q1 == q2
  {
    if BuildPrompt(context, q1) == BuildPrompt(context, q2) {
      CancelPrefix(Instructions, Body(context, q1), Body(context, q2));
      var pre := "Context:\n" + context + "\n\nQuestion: ";
      assert Body(context, q1) == pre + q1 + "\nAnswer:";
      assert Body(context, q2) == pre + q2 + "\nAnswer:";
      CancelAround(pre, q1, q2, "\nAnswer:");
    }
  }

  /** What the chat model's `invoke` returns: a message object with a
      `content` attribute, or any other object, known here by its `str()`. */
  datatype Reply = Message(content: string) | Other(text: string)

  /** The chat model (`gpt-3.5-turbo`, temperature 0): prompt to reply. */
  type ChatModel = string -> Reply

  /** The answer text: the reply's `content` when it has one, else `str(reply)`. */
  function ReplyText(reply: Reply): string {
    match reply
    case Message(content) => content
    case Other(text) => text
  }

  /** `ask_llm`: one call of the model on the prompt built from the context
      and the question; the reply text is returned unstripped. */
  function AskLlm(llm: ChatModel, context: string, question: string): (answer: string)
    ensures llm(BuildPrompt(context, question)).Message? ==>
      answer == llm(BuildPrompt(context, question)).content
    ensures llm(BuildPrompt(context, question)).Other? ==>
      answer == llm(BuildPrompt(context, question)).text
  {
    ReplyText(llm(BuildPrompt(context, question)))
  }
}
