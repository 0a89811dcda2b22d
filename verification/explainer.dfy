/**
 * The explainer agent: explains pasted text at a requested level, explains a
 * question from context chunks the caller supplies (numbering them as
 * "[Chunk i]" blocks), or first retrieves those chunks from the vector store.
 *
 * The language model is the function parameter `chat` and the vector store's
 * similarity search the function parameter `search`; what each returns, or
 * that it raises, is its `Outcome`. An exception leaves the explainer
 * unchanged, as the `Raised` outcome of the explanation.
 */
module Explainer {
  import opened Common
  import opened Text

  /** The level an explanation is given at when the caller names none. */
  const DefaultLevel: string := "simple"

  function PlainSystemText(): string { "You explain concepts " + "clearly for students." }

  function ContextSystemText(): string {
    "You explain concepts " + "clearly for students " + "using given context."
  }

  // ---------- explaining pasted text ----------

  /**
   * The template before the level, as it stands after stripping. The
   * templates are written line by line, each line as short string pieces,
   * because the verifier's cost for a string literal grows quickly with its
   * length.
   */
  function RawHead(): string {
    "You are a friendly " + "teaching assistant.\n\n"
    + "Explain the following " + "content to a " + "student.\n\n"
    + "- Use clear, simple " + "language.\n"
    + "- Focus on " + "understanding, not " + "just definitions.\n"
    + "- Use short " + "paragraphs and bullet " + "points where " + "helpful.\n"
    + "- Adjust the depth " + "to this level: "
  }

  /** The template between the level and the content. */
  function RawMiddle(): string {
    "\n\n" + "Content to explain:\n" + "\"\"\""
  }

  lemma RawHeadStart()
    ensures RawHead()[0] == 'Y'
  {
  }

  /** `_build_explainer_prompt`: the template around the level and the content, stripped. */
  function ExplainerPrompt(content: string, level: string): string {
    Strip("\n" + RawHead() + (level + RawMiddle() + content) + "\"\"\"" + "\n")
  }

  /**
   * Stripping removes only the template's outer newlines: the level and the
   * content, whatever whitespace they hold, appear verbatim, the content
   * between triple quotes.
   */
  lemma ExplainerPromptEmbeds(content: string, level: string)
    ensures ExplainerPrompt(content, level) == RawHead() + (level + RawMiddle() + content) + "\"\"\""
  {
    RawHeadStart();
    StripNewlines(RawHead(), level + RawMiddle() + content, "\"\"\"");
  }

  function RawTextMessages(text: string, level: string): seq<Message> {
    [Message("system", PlainSystemText()), Message("user", ExplainerPrompt(text, level))]
  }

  /** `explain_raw_text`: what the model answers to the system message and the stripped prompt. */
  function ExplainRawText(text: string, level: string, chat: seq<Message> -> Outcome<string>): (out: Outcome<string>)
    ensures out == chat([Message("system", PlainSystemText()),
                         Message("user", RawHead() + (level + RawMiddle() + text) + "\"\"\"")])
  {
    ExplainerPromptEmbeds(text, level);
    chat(RawTextMessages(text, level))
  }

  // ---------- explaining from context ----------

  /** The no-context template before the question. */
  function FallbackHead(): string {
    "\nA student asked " + "the following " + "question:\n\n" + "\"\"\""
  }

  /** The no-context template between the question and the level. */
  function FallbackMiddle(): string {
    "\"\"\"\n\n"
    + "There is no study " + "material context " + "available.\n"
    + "Give the best " + "explanation you can " + "at this level: "
  }

  /** The prompt used when no context chunk is supplied (it is not stripped). */
  function FallbackPrompt(question: string, level: string): string {
    FallbackHead() + question + FallbackMiddle() + level + ".\n"
  }

  /** "[Chunk i]" and the chunk's text on the lines below it. */
  function ChunkPart(i: nat, text: string): string {
    "[Chunk " + Decimal(i) + "]\n" + text
  }

  /** The chunks, each labelled with its position counted from 1. */
  function LabelledChunks(chunks: seq<string>): (parts: seq<string>)
    ensures |parts| == |chunks|
    ensures forall i :: 0 <= i < |chunks| ==> parts[i] == ChunkPart(i + 1, chunks[i])
  {
    seq(|chunks|, i requires 0 <= i < |chunks| => ChunkPart(i + 1, chunks[i]))
  }

  /** The labelled chunks joined by blank lines. */
  function ContextString(chunks: seq<string>): string {
    Join(LabelledChunks(chunks), "\n\n")
  }

  /** The context template before the question. */
  function ContextHead(): string {
    "\nYou are a teaching " + "assistant helping a " + "student.\n\n"
    + "The student's " + "question:\n" + "\"\"\""
  }

  /** The context template between the question and the context. */
  function ContextMiddle(): string {
    "\"\"\"\n\n"
    + "You are given some " + "context from their " + "study material:\n\n"
  }

  /** The context template between the context and the level. */
  function InstructionsHead(): string {
    "\n\nInstructions:\n"
    + "- Use the context " + "above as your main " + "source.\n"
    + "- If something is " + "not in the context, " + "say you are not sure "
    + "instead of making " + "it up.\n"
    + "- Explain at this " + "level: "
  }

  /** The context template after the level. */
  function InstructionsTail(): string {
    "\n" + "- Use clear, " + "structured " + "explanation.\n"
  }

  /** The prompt used when context chunks are supplied (it is not stripped). */
  function ContextPrompt(question: string, level: string, context: string): string {
    ContextHead() + question + ContextMiddle() + context + InstructionsHead() + level + InstructionsTail()
  }

  /** The chat `explain_from_context` sends: the fallback when there is no chunk, the context prompt otherwise. */
  function ExplanationMessages(question: string, level: string, chunks: seq<string>): seq<Message> {
    if chunks == [] then
      [Message("system", PlainSystemText()), Message("user", FallbackPrompt(question, level))]
    else
      [Message("system", ContextSystemText()), Message("user", ContextPrompt(question, level, ContextString(chunks)))]
  }

  /** A chunk's label gives back its position and its text: different chunks never share a labelled form. */
  lemma ChunkPartInjective(i: nat, a: string, j: nat, b: string)
    ensures ChunkPart(i, a) == ChunkPart(j, b) ==> i == j && a == b
  {
    if ChunkPart(i, a) == ChunkPart(j, b) {
      var lead := "[Chunk ";
      assert ChunkPart(i, a) == lead + (Decimal(i) + [']'] + ("\n" + a));
      assert ChunkPart(j, b) == lead + (Decimal(j) + [']'] + ("\n" + b));
      assert (lead + (Decimal(i) + [']'] + ("\n" + a)))[|lead|..] == Decimal(i) + [']'] + ("\n" + a);
      assert (lead + (Decimal(j) + [']'] + ("\n" + b)))[|lead|..] == Decimal(j) + [']'] + ("\n" + b);
      assert ']' !in Decimal(i) && ']' !in Decimal(j);
      SplitAtMark(Decimal(i), "\n" + a, Decimal(j), "\n" + b, ']');
      DecimalInjective(i, j);
      assert a == ("\n" + a)[1..] && b == ("\n" + b)[1..];
    }
  }

  /**
   * The context string holds the n labelled chunks and exactly n - 1 blank-line
   * separators; it opens with chunk 1 and closes with chunk n.
   */
  lemma ContextStringShape(chunks: seq<string>)
    requires chunks != []
    ensures var parts := LabelledChunks(chunks); var c := ContextString(chunks);
      && |c| == TotalLength(parts) + 2 * (|chunks| - 1)
      && ChunkPart(1, chunks[0]) <= c
      && var last := ChunkPart(|chunks|, chunks[|chunks| - 1]);
         |last| <= |c| && c[|c| - |last|..] == last
  {
    JoinLength(LabelledChunks(chunks), "\n\n");
    JoinEnds(LabelledChunks(chunks), "\n\n");
  }

  lemma FallbackTemplateHasNoBracket()
    ensures '[' !in FallbackHead() && '[' !in FallbackMiddle() && '[' !in ".\n"
  {
  }

  /**
   * Without context the prompt carries no "[Chunk i]" label: its only '['
   * characters are those of the question and the level.
   */
  lemma FallbackHasNoChunkLabel(question: string, level: string)
    ensures '[' in FallbackPrompt(question, level) ==> '[' in question || '[' in level
  {
    FallbackTemplateHasNoBracket();
  }

  /** `explain_from_context`: labels the chunks in a loop, joins them and asks the model. */
  method ExplainFromContext(question: string, level: string, chunks: seq<string>, chat: seq<Message> -> Outcome<string>)
    returns (out: Outcome<string>)
    ensures out == chat(ExplanationMessages(question, level, chunks))
  {
    if chunks == [] {
      var prompt := FallbackPrompt(question, level);
      out := chat([Message("system", PlainSystemText()), Message("user", prompt)]);
      return;
    }
    var parts: seq<string> := [];
    var i := 0;
    while i < |chunks|
      invariant 0 <= i <= |chunks|
      invariant |parts| == i
      invariant forall j :: 0 <= j < i ==> parts[j] == ChunkPart(j + 1, chunks[j])
    {
      parts := parts + ["[Chunk " + Decimal(i + 1) + "]\n" + chunks[i]];
      i := i + 1;
    }
    assert parts == LabelledChunks(chunks);
    var contextStr := Join(parts, "\n\n");
    var prompt := ContextPrompt(question, level, contextStr);
    out := chat([Message("system", ContextSystemText()), Message("user", prompt)]);
  }

  // ---------- explaining with retrieval ----------

  /** The texts of the search hits, in rank order; the scores are dropped. */
  function HitTexts(hits: seq<(string, real)>): (texts: seq<string>)
    ensures |texts| == |hits|
    ensures forall i :: 0 <= i < |hits| ==> texts[i] == hits[i].0
  {
    seq(|hits|, i requires 0 <= i < |hits| => hits[i].0)
  }

  /** Only the hit texts and their order matter: hits that differ only in their scores give the same texts. */
  lemma HitTextsIgnoreScores(a: seq<(string, real)>, b: seq<(string, real)>)
    requires |a| == |b| && forall i :: 0 <= i < |a| ==> a[i].0 == b[i].0
    ensures HitTexts(a) == HitTexts(b)
  {
  }

  /**
   * `explain_with_retrieval`: the top-k hits of the search, with their scores
   * dropped, become the context; with no hit it is the no-context explanation.
   * A search that raises raises out of the explainer before the model is asked.
   */
  method ExplainWithRetrieval(question: string, level: string, k: int,
                              search: (string, int) -> Outcome<seq<(string, real)>>,
                              chat: seq<Message> -> Outcome<string>)
    returns (out: Outcome<string>)
    ensures search(question, k).Raised? ==> out == Raised(search(question, k).error)
    ensures search(question, k).Ok? ==>
              out == chat(ExplanationMessages(question, level, HitTexts(search(question, k).value)))
    ensures search(question, k) == Ok([]) ==> out == chat(ExplanationMessages(question, level, []))
  {
    var found := search(question, k);
    if found.Raised? {
      return Raised(found.error);
    }
    var hits := found.value;
    if hits == [] {
      out := ExplainFromContext(question, level, [], chat);
      return;
    }
    var contextChunks := HitTexts(hits);
    out := ExplainFromContext(question, level, contextChunks, chat);
  }
}
