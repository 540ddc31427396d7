# GranthX back end: indexing and chat core, in Dafny

This project models the two services behind the GranthX retrieval-augmented
chat back end:

- **Indexing** (`services/indexService.js`, `initIndexing`):
  - decides which loader an input string goes to: PDF, CSV, YouTube, rendered web page or plain text;
  - for a web page, renders the page into structured text with `extractStructuredContent`, whose helper is `processElement`;
  - keeps only documents whose trimmed content is longer than 200 characters;
  - fails with "No meaningful content extracted from the website." when none is left;
  - otherwise returns the receipt `{documentsProcessed, chunksCreated}`.
- **Chat** (`services/chatService.js`, `chatWithContext`):
  - numbers the retrieved chunks as "Source N" blocks joined by a divider;
  - wraps them in the fixed system prompt;
  - builds the two chat messages;
  - applies the option defaults;
  - answers with the first choice's content (or "") without streaming;
  - when streaming, accumulates the non-empty deltas, handing each one to the optional `onToken` callback.

The page is an abstract snapshot (`PageModel.Page`): what each selector list
of the script returns, in document order, with each element's lower-cased
tag, its raw `textContent`, its attributes and whether it has a structured
descendant. Everything outside the process is an input or a parameter:

- the loaders' documents;
- the text splitter (a function parameter of `InitIndexing`);
- the retrieved chunks;
- the provider's completion and its stream events.

JavaScript details are written out explicitly:

- `trim` strips the ECMAScript whitespace set;
- `length` counts UTF-16 code units, so a character above U+FFFF counts twice (`JsStrings.JsLength`);
- truthiness of an attribute means present and not empty;
- a missing `content` attribute prints as "null" in a template literal;
- a destructuring default replaces only an undefined property.

Modules and files:

- `Wrappers`: Option and Result.
- `JsStrings`: trim, length, includes, startsWith/endsWith, join, `toUpperCase` on ASCII, `repeat`, number-to-string.
- `Sequences`: map-and-flatten, first-occurrence de-duplication (a `Set` seen in insertion order) and `filter`.
- `PageModel`: the page snapshot, `processElement`, and each section's lines as pure functions.
- `PageExtraction`: the script's loops, as methods proved equal to those functions.
- `PageProperties`: what the page text guarantees.
- `Ingestion`: classification, filtering, receipt.
- `ChatPrompt`: context text, system prompt, messages, options, request.
- `ChatGeneration`: the answer, the stream loop and the token sink.

Thresholds and edge cases, as the code has them:

- The content filter keeps a document only when its trimmed length is **strictly greater** than 200 UTF-16 units: a document whose trimmed content is exactly 200 units long is dropped.
- A main-content block must be **strictly longer** than 20 units.
- Streaming delivers only **non-empty** deltas to the sink. An event whose delta is missing or empty adds nothing and does not call the sink.

## Model

| member | source | states |
|---|---|---|
| Ingestion.Classify | services/indexService.js:13-28 | The loader is chosen by the first test that succeeds: ".pdf" suffix, then ".csv" suffix, then the YouTube pattern `^https?://(www\.)?youtu`, then an http(s) scheme, else plain text. There is one if-and-only-if per outcome. |
| Ingestion.YouTubeUrlHasHttpScheme | services/indexService.js:21-28 | Every input the YouTube pattern accepts also passes the http(s) test, so the YouTube branch shadows part of the web-page branch. |
| Ingestion.ClassifyPdfUrl | services/indexService.js:13-16 | A URL ending in ".pdf" goes to the PDF loader, because the suffix tests come before the URL tests. |
| Ingestion.ClassifyUpperCaseSuffix | services/indexService.js:13-20 | The suffix test is case-sensitive: "REPORT.PDF" is plain text. |
| Ingestion.ClassifyYouTubeWatch | services/indexService.js:21-27 | "https://www.youtube.com/watch?v=x" goes to the YouTube loader. |
| Ingestion.ClassifyYouTubeShort | services/indexService.js:21-27 | "https://youtu.be/x" goes to the YouTube loader. |
| Ingestion.ClassifyOtherYouTubeHost | services/indexService.js:21-29 | "https://m.youtube.com/…" does not match the YouTube pattern and is loaded as a web page. |
| Ingestion.YouTubeHost | services/indexService.js:21 | Whenever an http(s) URL matches the YouTube pattern, the text after the scheme starts with "youtu" or "www.". |
| Ingestion.NotYouTubePattern | services/indexService.js:21 | An http or https URL whose host (the text after the scheme) starts with neither "youtu" nor "www." fails the YouTube pattern. |
| Ingestion.ClassifyOtherScheme | services/indexService.js:244-246 | A non-http scheme such as "ftp://…" is treated as plain text. |
| Ingestion.LoadDocuments | services/indexService.js:10-249 | A ".pdf" input gets the PDF loader's documents, a ".csv" input the CSV loader's, a YouTube URL the YouTube loader's. Plain text becomes exactly one document holding the input. A web page becomes exactly one document holding the page text. |
| Ingestion.HasHttpScheme | services/indexService.js:28 | The general-URL test: the input starts with "http://" or "https://". |
| Ingestion.IsYouTubeUrl | services/indexService.js:21 | The YouTube test: the input starts with one of the four prefixes `^https?://(www\.)?youtu` accepts. |
| Ingestion.Meaningful | services/indexService.js:251-253 | The filter's test: the content is present (not `undefined`, not "") and its trimmed length in UTF-16 units exceeds 200. |
| Ingestion.FilterDocs | services/indexService.js:251-253 | A document is kept if and only if its content is present and its trimmed UTF-16 length exceeds 200. |
| Ingestion.FilterDocsSingle | services/indexService.js:251-253 | One document filters to itself when meaningful, else to nothing. |
| Ingestion.InitIndexing | services/indexService.js:251-281 | Fails exactly when no loaded document is meaningful, with the source's error text. Otherwise `documentsProcessed` is the number of kept documents (at least 1) and `chunksCreated` is the number of split chunks. |
| Ingestion.PlainTextIndexing | services/indexService.js:244-257 | Plain text is indexed if and only if its trimmed length exceeds 200, and then as exactly one document. |
| Ingestion.WebPageIndexing | services/indexService.js:28-257 | A web page is indexed if and only if its extracted text, trimmed, exceeds 200 units, and then as exactly one document. |
| Sequences.Filter | services/indexService.js:251-253 | `filter` never grows the sequence. |
| Sequences.FilterMembers | services/indexService.js:251-253 | The filter keeps exactly the elements the predicate accepts. |
| Sequences.FilterAppend | services/indexService.js:251-253 | The filter distributes over concatenation, so it keeps the relative order of the documents. |
| JsStrings.Trim | services/indexService.js:252 | `trim` leaves no whitespace at either end and never lengthens. |
| JsStrings.TrimIsSlice | services/indexService.js:252 | What `trim` keeps is one contiguous slice with only whitespace around it. |
| JsStrings.TrimCharacterization | services/indexService.js:70-72 | A trimmed string is its own trim, and the trim is empty if and only if the string is all whitespace. |
| JsStrings.JsLength | services/indexService.js:252 | `length` lies between the number of characters and twice it. |
| JsStrings.ConcatAppend | services/indexService.js:235 | `join('')` of two runs of lines is the two joins concatenated. |
| JsStrings.JoinContainsParts | services/chatService.js:34-36 | Every part appears in the joined string. |
| JsStrings.ParseNatToString | services/chatService.js:35 | The decimal rendering of `index + 1` reads back as that number, so different numbers render differently. |
| JsStrings.ToUpperAscii | services/indexService.js:84 | `toUpperCase` keeps the length and upper-cases each ASCII letter in place. |
| PageModel.ProcessElement | services/indexService.js:68-125 | An element with empty trimmed text renders as ""; anything rendered ends with a newline. |
| PageModel.ProcessElementFormats | services/indexService.js:77-95 | A heading renders as "\n", the indent, the upper-cased tag, ": ", the text and "\n". A paragraph renders if and only if its text is longer than 10. A list item renders as the indent, "• ", the text and "\n". |
| PageModel.ProcessElementKeepsText | services/indexService.js:77-122 | Whatever a non-image element renders contains its trimmed text. |
| PageModel.NavLine | services/indexService.js:152-157 | A navigation line is the trimmed text and a newline, pushed only for non-empty text, and never looks like a section marker. |
| PageModel.LinkCandidate | services/indexService.js:191-195 | A link yields at most one "text -> href" entry. |
| PageModel.ImageLine | services/indexService.js:207-212 | An image line is pushed only for an alt text that is not blank, and never looks like a section marker. |
| PageModel.ControlText | services/indexService.js:221 | The control's label (trimmed text, placeholder or value) is never empty when present. |
| PageModel.FormInfo | services/indexService.js:226-230 | The `formInfo` line starts with the upper-cased tag, has " (type)" right after the tag when the type is truthy, contains " [name]" when the name is truthy, and ends with a newline, preceded by ": text" when there is a text. |
| PageModel.ControlLine | services/indexService.js:219-231 | A control pushes a line if and only if it has a label, a type or a name. The line starts with the whole upper-cased tag, has " (type)" right after it when the type is truthy, contains " [name]" when the name is truthy, ends with a newline, and ends with ": label\n" when there is a label. |
| PageModel.TitleLines | services/indexService.js:57-60 | A title line is pushed if and only if the title is not empty; it starts with "Page Title: " and ends with the title and a newline. |
| PageModel.DescriptionLines | services/indexService.js:62-65 | One description line is pushed exactly when the meta tag exists; it starts with "Description: " and ends with the content attribute and a newline, or is "Description: null\n" without one. |
| PageModel.HeaderLines | services/indexService.js:57-65 | There is one header line for a non-empty title and one for a meta description, title first. |
| PageModel.FirstMatch | services/indexService.js:139-147 | When no candidate selector matched, the result is the fallback. Otherwise it is the region of a matched selector with no matched selector before it. |
| PageModel.MainRoot | services/indexService.js:139-147 | The main-content root is the body or the region of some selector that matched. |
| PageModel.KeptBlocks | services/indexService.js:173-184 | The scan keeps at most one block per scanned text. |
| PageModel.LinkInfos | services/indexService.js:190-199 | The LINKS entries, the de-duplicated "text -> href" candidates, contain no entry twice. |
| PageModel.PageLines | services/indexService.js:50-233 | The pushed lines begin with the header lines; the sections follow in push order (see SectionOrder). |
| PageModel.PageText | services/indexService.js:50-235 | The joined page text always contains the MAIN CONTENT marker, which the script pushes unconditionally. |
| PageExtraction.ChooseMainRoot | services/indexService.js:139-147 | The loop over the main selectors stops at the first one that matches and returns its region; it falls back to the body when none matches. |
| PageExtraction.NavigationLines | services/indexService.js:152-157 | The `forEach` over navigation elements pushes exactly `FlatMap(nav, NavLine)`. |
| PageExtraction.HeadingLines | services/indexService.js:163-165 | The `forEach` over headings pushes each heading's `processElement` output, "" included. |
| PageExtraction.MainContentLines | services/indexService.js:170-185 | The scan with the `processedTexts` set pushes exactly the blocks `KeptBlocks` keeps, each with a newline. |
| PageExtraction.KeptBlocksStep | services/indexService.js:173-184 | One scanned text is appended to the kept blocks exactly when it is admitted. |
| PageExtraction.AdmitsBySeenSet | services/indexService.js:175-180 | The set test (`!has(text)` and no related block) is the same as being admitted against the kept sequence. |
| PageExtraction.LinkLines | services/indexService.js:187-201 | The `forEach` with the `uniqueLinks` set pushes exactly the de-duplicated "text -> href" entries, each with a newline. |
| PageExtraction.LinkInfosStep | services/indexService.js:194-199 | A link adds its entry exactly when the entry is not yet present. |
| PageExtraction.ImageLines | services/indexService.js:207-213 | The `forEach` over `img[alt]` pushes exactly `FlatMap(images, ImageLine)`. |
| PageExtraction.ControlLines | services/indexService.js:219-232 | The `forEach` over form controls pushes exactly `FlatMap(forms, ControlLine)`. |
| PageExtraction.ControlCallback | services/indexService.js:220-231 | One control's callback, with its step-by-step `formInfo` string, pushes exactly `ControlLine(form)`. |
| PageExtraction.HeaderSection | services/indexService.js:58-66 | The title and description lines are pushed first, as `HeaderLines`. |
| PageExtraction.NavigationSection | services/indexService.js:149-158 | The NAVIGATION marker and lines are pushed only when a navigation element matched. |
| PageExtraction.HeadingSection | services/indexService.js:160-166 | The HEADINGS marker and lines are pushed only when a heading matched. |
| PageExtraction.LinkSection | services/indexService.js:187-202 | The LINKS marker and entries are pushed only when a link matched. |
| PageExtraction.ImageSection | services/indexService.js:204-214 | The IMAGES marker and lines are pushed only when an `img[alt]` matched. |
| PageExtraction.ControlSection | services/indexService.js:216-233 | The INTERACTIVE ELEMENTS marker and lines are pushed only when a control matched. |
| PageExtraction.ExtractStructuredContent | services/indexService.js:50-238 | The script's result is exactly `PageText(page)`: every section in push order, joined. |
| PageProperties.KeptBlocksAreLongInputs | services/indexService.js:173-184 | Every main-content block is one of the scanned trimmed texts and is longer than 20 units. |
| PageProperties.KeptBlocksPairwiseUnrelated | services/indexService.js:175-183 | No kept block contains another, and no block is kept twice. |
| PageProperties.KeptBlocksGrowByAppending | services/indexService.js:173-185 | Blocks are only appended: what a prefix of the scan kept is a prefix of the final blocks. |
| PageProperties.CoveredByEarlierBlock | services/indexService.js:173-185 | Every scanned text longer than 20 units contains, or is contained in, a block kept by the time it was scanned, and so in the final content. |
| PageProperties.MainContentBlocks | services/indexService.js:170-185 | The main-content blocks are trimmed, long and taken from the elements, and together they cover every long text. |
| PageProperties.LinkEntries | services/indexService.js:187-201 | The LINKS entries are distinct and are exactly the eligible "text -> href" strings. |
| PageProperties.LinkEntriesOrder | services/indexService.js:190-199 | The LINKS entries appear in the order of their first occurrence. |
| PageProperties.HeadingLineFree | services/indexService.js:160-165 | A rendered heading never looks like a section marker. |
| PageProperties.ControlLineFree | services/indexService.js:226-230 | A control line never looks like a section marker. |
| PageProperties.MainLinesFree | services/indexService.js:181 | A main-content line never looks like a section marker. |
| PageProperties.LinkLinesFree | services/indexService.js:195-198 | A LINKS line never looks like a section marker. |
| PageProperties.HeaderMarkers | services/indexService.js:58-66 | No title or description line is a marker line. |
| PageProperties.SectionOrder | services/indexService.js:149-235 | Among the pushed lines (before `join`), the marker lines are NAVIGATION, HEADINGS, MAIN CONTENT, LINKS, IMAGES, INTERACTIVE ELEMENTS, in that order. MAIN CONTENT is always there; each other marker is there exactly when its selector matched. |
| Sequences.DedupNoDuplicates | services/indexService.js:190-199 | A Set-guarded push yields each value once. |
| Sequences.DedupSameValues | services/indexService.js:190-199 | The Set-guarded push loses no value and invents none. |
| Sequences.DedupFirstOccurrenceOrder | services/indexService.js:190-199 | The Set-guarded push keeps values in the order of their first occurrences. |
| Sequences.FlatMapMembers | services/indexService.js:152-157 | Everything a `forEach` pushes came from some element. |
| Sequences.FlatMapIncludes | services/indexService.js:152-157 | Whatever an element contributes is pushed. |
| ChatPrompt.SourceBlock | services/chatService.js:35 | A block is "Source N:\n" followed by the chunk's content, and nothing else. |
| ChatPrompt.ContextText | services/chatService.js:34-36 | The context is empty exactly when no chunk was retrieved, and otherwise opens with the first chunk's "Source 1:" block. |
| ChatPrompt.ContextTextSmall | services/chatService.js:34-36 | No chunks give "". One chunk gives "Source 1:\n" followed by its content. |
| ChatPrompt.ContextTextSnoc | services/chatService.js:34-36 | Each further chunk adds the divider "\n\n---\n\n" and its own block. |
| ChatPrompt.ContextTextHasEverySource | services/chatService.js:34-36 | Every retrieved chunk's block and content appear in the context. |
| ChatPrompt.SourceLabelsDistinct | services/chatService.js:35 | Different positions get different labels. |
| ChatPrompt.SystemPrompt | services/chatService.js:38-52 | The prompt is the fixed preamble, the context verbatim, then the fixed closing instruction. |
| ChatPrompt.ContextOfPrompt | services/chatService.js:49-52 | Reading a context back succeeds only on text with the prompt's preamble and closing. |
| ChatPrompt.SystemPromptRoundTrip | services/chatService.js:38-52 | The context can be read back exactly from the prompt, so different contexts give different prompts. |
| ChatPrompt.PromptMessages | services/chatService.js:54-57 | There are exactly two messages, system then user. The user message is the query unchanged; the context of the chunks can be read back exactly from the system message. |
| ChatPrompt.ResolveOptions | services/chatService.js:11-18 | Each property the caller gives is used as given, and each missing one takes its default: no streaming, "llama3.1-8b", 0.7, 0.8 and 2000. |
| ChatPrompt.DefaultSettings | services/chatService.js:11-18 | Without options the call does not stream and uses "llama3.1-8b", temperature 0.7, top_p 0.8 and 2000 completion tokens. |
| ChatPrompt.RequestFor | services/chatService.js:59-78 | The request carries the two prompt messages and the resolved model, sampling settings, token limit and stream flag. |
| ChatGeneration.AnswerText | services/chatService.js:68 | The answer is non-empty if and only if the first choice has non-empty message content, and then it is that content. Otherwise it is "". |
| ChatGeneration.DeltaText | services/chatService.js:82 | When the event, its choices, the first choice, its delta and the delta's content are all present, the delta text is that content; a non-empty delta text always comes from there. |
| ChatGeneration.Tokens | services/chatService.js:81-86 | A stream yields at most one token per event. |
| ChatGeneration.StreamedText | services/chatService.js:80-88 | The streamed answer is empty exactly when no event carries delta text. |
| ChatGeneration.TokensAreDeltas | services/chatService.js:82-86 | Every token is non-empty and is the delta text of some event. |
| ChatGeneration.TokensOfTextEvents | services/chatService.js:81-87 | When every event carries text, each event yields exactly one token, in arrival order. |
| ChatGeneration.TokensAppend | services/chatService.js:81-87 | The tokens of a stream are the tokens of its segments, in order. |
| ChatGeneration.StreamedTextAppend | services/chatService.js:80-87 | The answer of two stream segments is the two answers concatenated; an event without text adds nothing. |
| ChatGeneration.TokensStep | services/chatService.js:82-85 | One event extends the tokens by its delta exactly when the delta is non-empty. |
| ChatGeneration.TokenSink.OnToken | services/chatService.js:85 | The callback records each token it is handed, after the earlier ones. |
| ChatGeneration.AccumulateStream | services/chatService.js:80-88 | The loop returns the concatenation of the non-empty deltas. When there is a sink, the sink receives exactly those deltas, in order. |
| ChatGeneration.ChatWithContext | services/chatService.js:9-89 | The request is built from the query, the chunks and the resolved options. Without streaming the answer is `AnswerText` and the sink is untouched. With streaming the answer is the streamed text and the sink receives every token in order. |

## Left out

- Loaders: the PDF, CSV, YouTube and web-page loaders, including the browser launch, the waits (`waitForTimeout`, `waitForSelector`, network idle, 30 s timeout) and removing script/style/embedded elements. What a loader returns is an input. The page snapshot is taken after the removal.
- The text splitter (chunk size 3000, overlap 300): a function parameter of `InitIndexing`. `chunksCreated` is the length of its result.
- Embeddings and vector store: the embedding calls, the Qdrant upsert and query, and the retriever (k = 3). The retrieved chunks are an input of `ChatWithContext`.
- Logging: all `console.log` output, including the 500-character preview.
- The model provider: the call to the Cerebras chat-completion service is represented by its reply, given as a completion or a sequence of stream events.
- Provider and stream failures propagating as exceptions are not modelled; a failing call has no result here.
- The "Unsupported input type." branch: the model's input is always a string, so this branch cannot be reached.
- Pages without a `document.body` (for example a frameset): `Page.body` is always present.
- `toUpperCase` beyond ASCII: `ToUpperAscii` maps only a–z. Tags are ASCII.
- Real numbers: temperature and top_p are passed through as given; floating-point behaviour is not modelled.
- Asynchrony and cancellation: `for await` is modelled as a loop over the event sequence; abandoning a stream midway is not modelled.
- Requests sent by the non-streaming branch have no `stream` property. The model gives them `stream == false`, which the provider treats the same way.
- Section markers inside content: the marker lines are guaranteed only among the pushed lines. After `join('')` a content line can still spell a marker inside the text; for example, a navigation text "=== LINKS ===" puts the LINKS marker text into a page with no links.
- HTTP routes and server start-up (`api/`, `server.js`) are not part of this model.
