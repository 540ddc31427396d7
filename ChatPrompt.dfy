/**
  What `chatWithContext` sends to the model provider: the retrieved chunks as
  numbered "Source N" blocks, the system prompt that wraps them, the two chat
  messages, and the generation settings after the option defaults apply.
*/
module ChatPrompt {
  import opened Wrappers
  import opened JsStrings

  /** A retrieved chunk; only its `pageContent` reaches the prompt. */
  datatype Chunk = Chunk(pageContent: string)

  /** Placed between two source blocks. */
  const SOURCE_DIVIDER: string := "\n\n---\n\n"

  /** The label of the chunk at (0-based) `index`: "Source 1:\n", "Source 2:\n", ... */
  function SourceLabel(index: nat): string {
    "Source " + NatToString(index + 1) + ":\n"
  }

  /** `Source ${index + 1}:\n${chunk.pageContent}` */
  function SourceBlock(index: nat, chunk: Chunk): (b: string)
    ensures StartsWith(b, SourceLabel(index)) && EndsWith(b, chunk.pageContent)
    ensures |b| == |SourceLabel(index)| + |chunk.pageContent|
  {
    var b := SourceLabel(index) + chunk.pageContent;
    assert b[..|SourceLabel(index)|] == SourceLabel(index);
    assert b[|b| - |chunk.pageContent|..] == chunk.pageContent;
    b
  }

  /** The chunks' blocks, in retrieval order. */
  function SourceBlocks(chunks: seq<Chunk>): (r: seq<string>)
    ensures |r| == |chunks| && forall i :: 0 <= i < |chunks| ==> r[i] == SourceBlock(i, chunks[i])
  {
    seq(|chunks|, i requires 0 <= i < |chunks| => SourceBlock(i, chunks[i]))
  }

  /** `contextText`: the source blocks joined by the divider; it opens with the first chunk's block. */
  function ContextText(chunks: seq<Chunk>): (c: string)
    ensures c == "" <==> chunks == []
    ensures chunks != [] ==> StartsWith(c, SourceBlock(0, chunks[0]))
  {
    var blocks := SourceBlocks(chunks);
    if blocks != [] then JoinStartsWithFirst(blocks, SOURCE_DIVIDER); Join(blocks, SOURCE_DIVIDER)
    else Join(blocks, SOURCE_DIVIDER)
  }

  /** No chunks give an empty context; one chunk gives its block alone. */
  lemma ContextTextSmall(c: Chunk)
    ensures ContextText([]) == ""
    ensures ContextText([c]) == "Source 1:\n" + c.pageContent
  {
    assert NatToString(1) == "1";
  }

  /** Each further chunk adds a divider and its own block at the end, numbered by its position. */
  lemma ContextTextSnoc(chunks: seq<Chunk>, c: Chunk)
    requires chunks != []
    ensures ContextText(chunks + [c]) == ContextText(chunks) + SOURCE_DIVIDER + SourceBlock(|chunks|, c)
  {
    var blocks := SourceBlocks(chunks + [c]);
    assert blocks[..|blocks| - 1] == SourceBlocks(chunks);
  }

  /** Every retrieved chunk's block, label and content, appears in the context. */
  lemma ContextTextHasEverySource(chunks: seq<Chunk>, i: nat)
    requires i < |chunks|
    ensures Contains(ContextText(chunks), SourceBlock(i, chunks[i]))
    ensures Contains(ContextText(chunks), chunks[i].pageContent)
  {
    var blocks := SourceBlocks(chunks);
    JoinContainsParts(blocks, SOURCE_DIVIDER, i);
    assert blocks[i] == SourceLabel(i) + chunks[i].pageContent;
    ContainsTail(ContextText(chunks), SourceLabel(i), chunks[i].pageContent);
  }

  /** Text containing `head + tail` contains `tail`. */
  lemma ContainsTail(text: string, head: string, tail: string)
    requires Contains(text, head + tail)
    ensures Contains(text, tail)
  {
    var j: nat :| j <= |text| && OccursAt(text, head + tail, j);
    assert text[j + |head|..j + |head| + |tail|] == (head + tail)[|head|..];
    assert OccursAt(text, tail, j + |head|);
  }

  /** Different positions get different labels, so no two blocks are numbered alike. */
  lemma SourceLabelsDistinct(i: nat, j: nat)
    requires i != j
    ensures SourceLabel(i) != SourceLabel(j)
  {
    var a := NatToString(i + 1);
    var b := NatToString(j + 1);
    if SourceLabel(i) == SourceLabel(j) {
      assert |a| == |b|;
      assert SourceLabel(i)[7..7 + |a|] == a;
      assert SourceLabel(j)[7..7 + |b|] == b;
      ParseNatToString(i + 1);
      ParseNatToString(j + 1);
    }
  }

  /** The system prompt's fixed text before the context. */
  const PROMPT_PREAMBLE: string :=
    "You are a helpful AI assistant. Answer questions based ONLY on the provided context.\n"
    + "\n"
    + "FORMATTING RULES:\n"
    + "- Use clear headings with ## for main topics\n"
    + "- Use bullet points for lists\n"
    + "- Use **bold** for important terms\n"
    + "- Use proper paragraph spacing\n"
    + "- Keep responses well-structured and easy to read\n"
    + "- If providing steps, use numbered lists\n"
    + "- Include relevant examples when helpful\n"
    + "\n"
    + "Context:\n"

  /** The system prompt's fixed text after the context. */
  const PROMPT_CLOSING: string :=
    "\n\nIf the context doesn't contain enough information to answer the question, "
    + "say so politely and suggest what additional information might be needed."

  /** `SYSTEM_PROMPT`: the context verbatim between the preamble and the closing instruction. */
  function SystemPrompt(contextText: string): (p: string)
    ensures StartsWith(p, PROMPT_PREAMBLE) && EndsWith(p, PROMPT_CLOSING)
    ensures |p| == |PROMPT_PREAMBLE| + |contextText| + |PROMPT_CLOSING|
  {
    var p := PROMPT_PREAMBLE + contextText + PROMPT_CLOSING;
    assert p[..|PROMPT_PREAMBLE|] == PROMPT_PREAMBLE;
    assert p[|p| - |PROMPT_CLOSING|..] == PROMPT_CLOSING;
    p
  }

  /** Reads the context back out of a system prompt, when the text has the prompt's shape. */
  function ContextOfPrompt(p: string): (c: Option<string>)
    ensures c.Some? ==> StartsWith(p, PROMPT_PREAMBLE) && EndsWith(p, PROMPT_CLOSING)
  {
    if |p| >= |PROMPT_PREAMBLE| + |PROMPT_CLOSING| && StartsWith(p, PROMPT_PREAMBLE) && EndsWith(p, PROMPT_CLOSING) then
      Some(p[|PROMPT_PREAMBLE|..|p| - |PROMPT_CLOSING|])
    else
      None
  }

  /** The prompt carries the context verbatim: it can be read back exactly, so distinct contexts give distinct prompts. */
  lemma SystemPromptRoundTrip(contextText: string)
    ensures ContextOfPrompt(SystemPrompt(contextText)) == Some(contextText)
  {
    var p := SystemPrompt(contextText);
    assert p == PROMPT_PREAMBLE + contextText + PROMPT_CLOSING;
    assert p[|PROMPT_PREAMBLE|..|p| - |PROMPT_CLOSING|] == contextText;
  }

  datatype Role = System | User

  datatype Message = Message(role: Role, content: string)

  /**
    `messages`: exactly two, system then user; the user message is the query
    unchanged and the system message carries the context of the chunks verbatim.
  */
  function PromptMessages(userQuery: string, chunks: seq<Chunk>): (ms: seq<Message>)
    ensures |ms| == 2 && ms[0].role == System && ms[1].role == User
    ensures ms[1].content == userQuery
    ensures ContextOfPrompt(ms[0].content) == Some(ContextText(chunks))
  {
    SystemPromptRoundTrip(ContextText(chunks));
    [Message(System, SystemPrompt(ContextText(chunks))), Message(User, userQuery)]
  }

  /** The options object as the caller passes it; a missing property is None (`undefined`). */
  datatype ChatOptions = ChatOptions(
    stream: Option<bool>,
    model: Option<string>,
    temperature: Option<real>,
    topP: Option<real>,
    maxCompletionTokens: Option<int>)

  /** No options object at all: every property is undefined. */
  const NO_OPTIONS: ChatOptions := ChatOptions(None, None, None, None, None)

  const DEFAULT_MODEL: string := "llama3.1-8b"
  const DEFAULT_TEMPERATURE: real := 0.7
  const DEFAULT_TOP_P: real := 0.8
  const DEFAULT_MAX_COMPLETION_TOKENS: int := 2000

  /** The settings after destructuring with defaults. */
  datatype Settings = Settings(
    stream: bool,
    model: string,
    temperature: real,
    topP: real,
    maxCompletionTokens: int)

  /** Destructuring with defaults: a default replaces only an undefined property. */
  function ResolveOptions(o: ChatOptions): (s: Settings)
    ensures o.stream.Some? ==> s.stream == o.stream.value
    ensures o.model.Some? ==> s.model == o.model.value
    ensures o.temperature.Some? ==> s.temperature == o.temperature.value
    ensures o.topP.Some? ==> s.topP == o.topP.value
    ensures o.maxCompletionTokens.Some? ==> s.maxCompletionTokens == o.maxCompletionTokens.value
    ensures o.stream.None? ==> !s.stream
    ensures o.model.None? ==> s.model == DEFAULT_MODEL
    ensures o.temperature.None? ==> s.temperature == DEFAULT_TEMPERATURE
    ensures o.topP.None? ==> s.topP == DEFAULT_TOP_P
    ensures o.maxCompletionTokens.None? ==> s.maxCompletionTokens == DEFAULT_MAX_COMPLETION_TOKENS
  {
    Settings(
      o.stream.GetOr(false),
      o.model.GetOr(DEFAULT_MODEL),
      o.temperature.GetOr(DEFAULT_TEMPERATURE),
      o.topP.GetOr(DEFAULT_TOP_P),
      o.maxCompletionTokens.GetOr(DEFAULT_MAX_COMPLETION_TOKENS))
  }

  /** Called without options (as the chat route does), the call does not stream and uses the default model and sampling settings. */
  lemma DefaultSettings()
    ensures ResolveOptions(NO_OPTIONS) == Settings(false, "llama3.1-8b", 0.7, 0.8, 2000)
  {
  }

  /** The request body sent to the provider; `stream` is true only on the streaming path. */
  datatype CompletionRequest = CompletionRequest(
    model: string,
    messages: seq<Message>,
    temperature: real,
    topP: real,
    maxCompletionTokens: int,
    stream: bool)

  /** The provider request for a query, its retrieved chunks and the resolved settings. */
  function RequestFor(userQuery: string, chunks: seq<Chunk>, s: Settings): (req: CompletionRequest)
    ensures req.stream == s.stream && req.model == s.model
    ensures req.temperature == s.temperature && req.topP == s.topP
    ensures req.maxCompletionTokens == s.maxCompletionTokens
    ensures req.messages == PromptMessages(userQuery, chunks)
  {
    CompletionRequest(s.model, PromptMessages(userQuery, chunks), s.temperature, s.topP, s.maxCompletionTokens, s.stream)
  }
}
