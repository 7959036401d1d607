# A verified model of the rollout and fine-tuning pipeline

The repository trains a language model to repair software. A model writes turns of tool calls, a container runs
them, the good attempts become training rows, and an outer loop trains, prunes, checkpoints and starts again after
crashes. This project models the parts whose correctness spans many functions or many runs, and proves what they
promise. `dafny verify dfyconfig.toml` checks everything.

## How it is organised

- `codec/`: the assistant-action codec. An envelope (optional thinking, one or more tool calls) is printed as JSON
  between tags or as XML. Three parsers read it back: a plain delimiter parser, a JSON parser that detects and
  skips XML, and an XML parser; a dual mode picks between the last two from a hint. The main results, in
  `DualRoundTrip` and `ChatTurn`, say exactly when the dual mode returns what was printed, in the format it was
  printed in, over all envelopes, argument strings and limits. `PayloadGrammar` says what every mode returns on every
  payload: the three parsers, the element scanner, the sequence scanner, the construct rejector, the JSON decoder and the
  XML reader are each proved equal to a grammar of positions, which tells what a text means without running them. Small
  concrete codecs stand for `json` (RFC 8259, sections 2 to 7) and ElementTree (XML 1.0 Fifth Edition, sections 2.2,
  2.4, 2.5, 2.7, 2.11, 3.1, 3.3.3 and 4.1, and Namespaces in XML 1.0).
- `runtime/`: the outer training loop as a machine whose steps are single writes and deletions, with a crash
  possible between any two, server starts that may fail and a trainer that may leave anything behind. `Loop` is the
  program itself; every run of it is proved to be the run of the machine that its inputs leave no choice about.
- `batching/`: effective batch size and upsampling, the length-bucket sampler, and the characters and tokens that
  are trained on.
- `tasks/`: the task pool and its filters, the held-out split, and cyclic task batches.
- `probing/`: difficulty probing that resumes from partial results, with concurrent probes finishing in any order
  and crashes between any two writes. `Probe` is the program itself, proved to follow the machine.
- `pairs/`: the incremental writer that pairs baseline and teacher attempts.
- `history/`: the flat history of an attempt, built by the collector and the environment bridge and decoded by
  the pilot script and the teacher memory.
- `search/`: the subsequence matcher and the ranked, truncated file search.
- `common/`: text, arithmetic, permutations and stable sorting.

A method with a loop is proved equal to a function of its inputs, and the properties are lemmas about that function.

## What was found

- Thinking that contains a CDATA section need not survive JSON rendering: the JSON parser can take a beginning of the
  payload for an XML think block and skip it. `JsonDualExact` is the exact condition, and `CDataThinkingRefused` a
  whole family on which the dual mode fails, with `<![CDATA[a]]>&#65;` in it (`ReferenceThinkingRefused`).
- The XML-aware JSON parser raises when an opener it looks at turns out to be an element in a namespace, where the
  delimiter parser reads on (`NamespaceSeparates`). `DualRefinesSimple` says exactly when the two agree.
- With `checkpoint_keep_last` 1, a crash between pruning and the commit leaves the committed pointer at a deleted
  checkpoint, and no later run starts again (`WindowOfOneLoses`, `LostForGood`). `CrashSafeExactly`: from a fresh
  directory, the committed pointer is valid at every crash point exactly when the window is at least two or there is at
  most one step. At iteration boundaries it is valid for every window (`PointerSafe`).
- A probe that dies after its first progress write and before its first record makes every later unforced run of
  the same job raise (`CrashBeforeFirstRecord`, `RaisesUntilForced`). `ResumeRaisesExactly` is the exact condition.
- A file whose name holds a line end breaks the ranked search: what comes back is not the top k, and the truncated
  flag can be wrong (`NewlineInName`). `TopKExact` and `TruncatedExact` are the exact conditions.
- Decoding the flat history gives the turns back exactly when no turn is blank or shaped like a tool response
  (`TurnsRecovered`).

## Model

| member | source | states |
|---|---|---|
| DualRoundTrip.XmlDualExact | src/rollout/action_format.py:123-198 | For every typed envelope, limit and rendering option: parsing its XML form in dual mode gives the envelope and the XML format if and only if its strings are legal XML characters, nothing in it is changed by newline normalization or by stripping the thinking, and its calls are within the limit; no delimiter inside a string matters |
| DualRoundTrip.JsonDualExact | src/rollout/action_format.py:123-198 | For every envelope, with arguments of every modelled JSON type: parsing its JSON form in dual mode gives the envelope and the JSON format if and only if the payload does not begin with an XML think element that has a CDATA section, the thinking is stripped and holds no end tag, and the limit allows the calls |
| DualRoundTrip.JsonDualWithoutCData | src/rollout/action_format.py:201-348 | Its corollary for thinking without a CDATA opener, where no look at the payload is needed |
| DualRoundTrip.ThinkTakenForXml | src/rollout/action_format.py:201-348 | Where the excluded element is the whole printed think block, the dual mode does not just return something else: it fails |
| CDataThinking.CDataThinkingRefused | src/rollout/action_format.py:453-478 | A whole family of valid envelopes fails in dual mode when rendered as JSON, for all calls and limits: thinking that is a CDATA section, alone or with any text behind it that has no markup and that ElementTree decodes |
| CDataThinking.ReferenceThinkingRefused | src/rollout/action_format.py:453-478 | A member of that family with a character reference, which the named-entity pattern of the rejector does not match |
| PayloadGrammar.ModesExactly | src/rollout/action_format.py:123-186 | Over every payload, limit and mode: json_only returns exactly the envelope the payload means as JSON, xml_only the one it means as XML, each with its format, and the dual mode the one it means in either; when it means one in both, XML wins exactly if an XML tool-call opener stands ahead of every JSON one. What a payload means is a grammar of positions that calls no parser |
| PayloadGrammar.AtMostOne | src/rollout/action_format.py:123-186 | In a format and for a limit, a payload means at most one envelope |
| DualGrammar.JsonExactly | src/rollout/action_format.py:201-348 | Over every payload: the XML-aware JSON parser returns an envelope if and only if the payload is made of JSON blocks that mean it, XML regions that are skipped, and text that opens nothing; a region that only blanks separate from JSON, or an element in a namespace that is looked at, refuses the payload |
| DualGrammar.RunExact | src/rollout/action_format.py:351-387 | A run of XML tool calls is skipped exactly when it reads as a document of named tool calls and blanks, and raises exactly when an element in a namespace comes before anything else out of place |
| DelimiterGrammar.DelimiterExact | src/rollout/turn_parser.py:65-142 | Over every payload: the delimiter parser returns an envelope if and only if the payload consists of at most one think block and of tool blocks, each one JSON object between blanks that names a tool, with any text around them that opens no block; the calls come in order, within the limit, and a submit alone |
| DelimiterGrammar.DelimiterFails | src/rollout/turn_parser.py:65-142 | A payload that means nothing is malformed; the other error is exactly a limit below one |
| XmlGrammar.XmlExactly | src/rollout/action_format.py:585-645 | Over every payload: the XML parser returns an envelope if and only if the rejector accepts the payload, it reads as a document with nothing but blanks around its elements, and these are at most one plain think element and the tool calls of the envelope in order |
| XmlGrammar.XmlFails | src/rollout/action_format.py:585-645 | A payload that means nothing is malformed; the other error is exactly a limit below one |
| XmlGrammar.CallExact | src/rollout/action_format.py:682-734 | A tool-call element gives a call exactly when its one attribute names the tool and its children are the arguments, each name once, without attributes, in no namespace, and with a value of the declared kind |
| XmlGrammar.HoldsExact | src/rollout/action_format.py:737-809 | An argument element holds a value exactly when it is a list of the declared item elements, a decimal numeral with an optional sign and blanks around it, or any text, as its kind says |
| MarkupGrammar.ElementExactly | src/rollout/action_format.py:390-450 | Over every text: the element scanner stops exactly where the tags, with sections, comments and quoted text left out, first close what the first of them opened |
| MarkupGrammar.SequenceExactly | src/rollout/action_format.py:372-387 | Over every text: the sequence scanner gives an end and a count exactly when that many tool-call elements stand one after the other up to there, with only blanks between |
| MarkupGrammar.RejectorExactly | src/rollout/action_format.py:648-673 | Over every text: the rejector accepts exactly closed CDATA sections with text between them that has no declaration, instruction or comment in either case and no named reference but the built-in ones |
| JsonGrammar.ReaderExact | src/rollout/action_format.py:301-313 | Over every text: the JSON decoder reads a value and leaves a rest if and only if the text is a spelling of that value, with any blanks, escapes and repeated keys that RFC 8259 allows, and then the rest |
| XmlSyntax.DocumentExact | src/rollout/action_format.py:585-600 | Over every text: the XML reader accepts exactly the documents of its grammar, names, quoted attributes, references, sections, comments and nesting, with its names resolved |
| XmlSyntax.NewlinesExact | src/rollout/action_format.py:585-600 | Line-end normalization turns a carriage return, with a newline behind it or alone, into one newline and changes nothing else |
| ParseModes.HintExact | src/rollout/action_format.py:189-198 | The hint is XML exactly when an XML tool-call opener stands before every JSON one |
| ParseModes.DualError | src/rollout/action_format.py:123-166 | The dual mode fails exactly when both parsers do, with the error of the hinted one |
| ParseModes.AcceptedIsValid | src/rollout/action_format.py:123-186 | Whatever the payload and the mode, an envelope that is returned has calls, a submit only alone, no blank thinking, and keeps the limit |
| ParseModes.JsonModesExact | src/rollout/action_format.py:123-142 | For every envelope rendered as JSON: json_only returns it with the JSON format under the exact condition of DualJsonExact, and xml_only fails |
| ParseModes.XmlModesExact | src/rollout/action_format.py:123-142 | For every typed envelope rendered as XML: xml_only returns it with the XML format under the exact condition of XmlRoundTripExact, and json_only refuses it as mixed when its characters are legal |
| ChatTurn.Extracted | src/rollout/turn_parser.py:42-63 | Extraction from a ChatML assistant turn returns exactly the payload that was wrapped |
| ChatTurn.WrappedIsBare | src/rollout/action_format.py:80-120 | A payload parses alike bare and wrapped as a ChatML assistant turn, in every mode |
| ChatTurn.XmlTurnExact | src/rollout/action_format.py:104-120 | The XML round trip of the dual mode, from text, bare or wrapped as a ChatML turn |
| ChatTurn.JsonTurnExact | src/rollout/action_format.py:104-120 | The JSON round trip of the dual mode from text, bare or wrapped as a ChatML turn, with the same exact condition |
| ChatTurn.JsonModesTurnExact | src/rollout/action_format.py:80-142 | The single-format modes on JSON renderings, from text, bare or wrapped as a ChatML turn |
| ChatTurn.XmlModesTurnExact | src/rollout/action_format.py:80-142 | The single-format modes on XML renderings, from text, bare or wrapped as a ChatML turn |
| ChatTurn.TextExact | src/rollout/turn_parser.py:42-63 | Over every text and mode: a ChatML turn is parsed as its body, a text that is none as it is, and a turn without its end marker is refused |
| XmlFaithful.XmlRoundTripExact | src/rollout/action_format.py:585-645 | The XML parser returns the printed envelope if and only if XML can carry it unchanged and the limit allows its calls |
| XmlFaithful.NormalizeSame | src/rollout/action_format.py:812-904 | Newline normalization and stripping leave an envelope alone exactly when no string holds a carriage return and the thinking is stripped |
| XmlFaithful.LegalEnvelope | src/rollout/action_format.py:812-904 | The printed payload consists of legal XML characters exactly when the envelope's own strings do |
| XmlExact.ParseXmlExact | src/rollout/action_format.py:585-645 | What the XML parser returns on any printed payload: the bad-limit error, the malformed error, or the normalized envelope |
| XmlRoundTrip.DocumentParses | src/rollout/action_format.py:585-645 | ElementTree reads the wrapped payload as exactly the printed elements, texts and attributes |
| XmlTreeRendered.StringElement | src/rollout/action_format.py:897-904 | A printed string, in CDATA or escaped, reads back as itself up to newline normalization, whatever delimiters it holds |
| XmlTreeRendered.DecodeEscaped | src/rollout/action_format.py:897-900 | Escaping is undone by decoding, and leaves no angle bracket |
| ActionRender.FindCDataEnd | src/rollout/action_format.py:897-904 | The first section end after a wrapped string is the closing one, also when the string ends in a bracket |
| JsonRoundTrip.ValueRoundTrip | src/rollout/action_format.py:494-507 | Every JSON value reads back from its compact or spaced printing as itself, leaving exactly the text that follows |
| PrintedForms.KeysInOrder | src/rollout/action_format.py:494-507 | An object prints its members in ascending order of their keys |
| PrintedForms.JsonPrintable | src/rollout/action_format.py:494-507 | JSON is printed in printable ASCII, whatever the strings contain |
| PrintedForms.TwoItems | src/rollout/action_format.py:494-507 | Items are separated by a comma, followed by a space unless the rendering is compact |
| PrintedForms.CallForm | src/rollout/action_format.py:494-507 | A JSON block holds the arguments and then the name of the tool, with the separators of the rendering option |
| PrintedForms.XmlCallPrintable | src/rollout/action_format.py:812-904 | XML prints a call exactly when every argument is declared and is null, text, a number, a truth value, or a list of strings where one is declared |
| PrintedForms.ArgForms | src/rollout/action_format.py:812-860 | The arguments of a call are printed one after the other in the declared order; null ones, and those not given, are left out |
| PrintedForms.ScalarForms | src/rollout/action_format.py:862-904 | A truth value is printed in lower case, a number in decimal, text in a CDATA section unless it holds a section end, and then escaped |
| PrintedForms.ItemForms | src/rollout/action_format.py:862-895 | A list argument is printed as one element for each string, in order |
| PrintedForms.Schema | src/schemas/xml_action_schema.py:49-107 | The declared arguments of each tool, in print order, with their kinds |
| RenderPieces.RejectorAcceptsRendered | src/rollout/action_format.py:648-673 | The construct rejector accepts every payload the XML printer emits |
| RejectorAccepts.RejectorAcceptsPieces | src/rollout/action_format.py:648-673 | The construct rejector accepts every sequence of printed tags, text with built-in or character references, and CDATA sections |
| RenderPieces.RenderIsPieces | src/rollout/action_format.py:812-904 | The rendering of an envelope as XML is defined and is the listed tags and texts in order |
| RenderPieces.ScannerExactOnCall | src/rollout/action_format.py:390-434 | From a rendered tool-call block inside any text, the element scanner stops exactly at that block's end |
| ScannerExact.ElementEndExact | src/rollout/action_format.py:390-434 | The scanner stops exactly at the end of any balanced element of printed pieces |
| DualOnXml.SequenceExact | src/rollout/action_format.py:372-387 | The sequence scanner counts exactly the consecutive blocks and stops after the whitespace that follows the last one |
| DualOnXml.DualRefusesXml | src/rollout/action_format.py:201-348 | The JSON parser rejects every legal rendered XML payload as a mixed payload, so the dual mode cannot take it for JSON |
| XmlOnJson.XmlRefusesJson | src/rollout/action_format.py:585-645 | The XML parser fails on every JSON rendering, so the dual mode cannot take it for XML |
| XmlOnJson.XmlRefuses | src/rollout/action_format.py:585-645 | The XML parser fails on every text that ends as a JSON tool block does |
| DualOnJson.DualJsonExact | src/rollout/action_format.py:201-348 | The JSON parser returns the printed envelope if and only if the payload does not begin with an XML think element that has a CDATA section, the thinking is stripped and holds no end tag, and the limit allows the calls |
| DualOnJson.SkippedThinking | src/rollout/action_format.py:226-252 | When such an element is skipped, wherever it ends, the envelope is never returned, whatever the arguments contain |
| ParsedWeight.ParsedIsPaid | src/rollout/action_format.py:201-348 | From any cursor the parser returns an envelope that weighs no more than the turn so far and the text left, in a weight of characters that printing keeps |
| ParsedWeight.CallMade | src/schemas/contracts.py:321-333 | A decoded object weighs at least as much as the printed form of the call made of it, aliases included |
| JsonWeight.ValueRead | src/rollout/action_format.py:301-313 | Reading a JSON value takes from the text at least the weight the value has when printed, for every escape and with repeated keys |
| JsonWeight.PrintedWeight | src/rollout/action_format.py:494-507 | Printing a JSON value weighs the same in every key order and spacing |
| DualOnJson.SimpleJsonExact | src/rollout/turn_parser.py:65-142 | The delimiter parser returns the printed JSON envelope exactly when the thinking is stripped and holds no end tag and the limit allows the calls |
| DualOnJson.ToolBlockExact | src/rollout/turn_parser.py:98-131 | On a printed JSON tool block a parser adds exactly that call and moves to the block's end, or fails at the limit |
| CDataGuard.GuardHolds | src/rollout/action_format.py:453-459 | Without a CDATA opener in the thinking, a JSON payload never opens with an XML think element that has a CDATA section |
| ParserRefinement.DualRefinesSimple | src/rollout/action_format.py:201-348 | On every payload without a CDATA opener and without an XML tool-call opener, the XML-aware JSON parser and the delimiter parser return the same envelope or the same failure if and only if the delimiter parser never comes to a think opener that is an element in a namespace; otherwise the XML-aware parser raises for the namespace |
| ParserRefinement.DualRefinesWithoutXmlns | src/rollout/action_format.py:462-478 | In particular they agree on every such payload without the text xmlns |
| ParserRefinement.NamespaceSeparates | src/rollout/action_format.py:462-478 | A family on which they differ: before any printed tool calls, one think element with a default namespace |
| Contracts.CanonicalOfName | src/schemas/contracts.py:197-206 | Every canonical tool name is accepted as the tool it names |
| Contracts.CanonicalExact | src/schemas/contracts.py:197-206 | A name is accepted exactly when, stripped and in lower case, it is a canonical name or one of the two aliases, and as which tool |
| Contracts.MakeEnvelope | src/schemas/contracts.py:223-237 | Every envelope that is built has calls, has a submit only alone, and has no blank thinking |
| ActionParse.DualStep | src/rollout/action_format.py:201-348 | Every path of the JSON parser's loop that goes on advances the cursor and stays inside the payload |
| ActionParse.SimpleStep | src/rollout/turn_parser.py:65-142 | Every path of the delimiter parser's loop that goes on advances the cursor and stays inside the payload |
| ElementScanner.FindXmlTagEnd | src/rollout/action_format.py:437-450 | The loop equals the recursive reading of a tag with quotes |
| ElementScanner.ScanOnce | src/rollout/action_format.py:390-434 | One iteration of the element scanner: comments, sections, end tags, self-closing tags, depth |
| ElementScanner.FindXmlElementEnd | src/rollout/action_format.py:390-434 | The loop equals the specification the scanner theorems are about |
| ElementScanner.FindXmlToolCallSequence | src/rollout/action_format.py:372-387 | The loop equals the specification the sequence theorem is about |
| ElementScanner.RejectDisallowedXmlConstructs | src/rollout/action_format.py:648-673 | The loop over the segments between CDATA sections equals the specification of the rejector |
| FormatHints.HintRight | src/rollout/action_format.py:189-198 | Without a tool-call tag in the thinking, the hint names the format that was rendered, for both formats and whatever the arguments contain |
| FormatHints.HintMisled | src/rollout/action_format.py:189-198 | Thinking that quotes the JSON tag makes the hint of an XML payload JSON, and the payload comes back under the same exact condition all the same |
| ActionLoops.ParseAssistantTurnPayload | src/rollout/turn_parser.py:65-142 | The delimiter parser's loop equals its specification |
| ActionLoops.ReadToolBlock | src/rollout/turn_parser.py:98-131 | Reading one tool block: decoding, the end tag, the call, the limit and the cursor |
| ActionLoops.ParseJsonAssistantTurnPayloadDual | src/rollout/action_format.py:201-348 | The XML-aware JSON parser's loop equals its specification |
| ActionLoops.DualIteration | src/rollout/action_format.py:215-348 | One iteration of that loop |
| ActionLoops.FindXmlRegion | src/rollout/action_format.py:215-300 | Where the loop sees an XML think element or an XML tool-call region, and when looking for one raises |
| ActionLoops.FindXmlThinkEnd | src/rollout/action_format.py:462-478 | The element that the scanner delimits counts as a think block when the rejector and ElementTree accept it and it is a bare think element without children; in a namespace it raises |
| ActionLoops.FindXmlCDataThinkEnd | src/rollout/action_format.py:453-459 | A think element counts only with a CDATA section in it; the exception comes first |
| ActionLoops.LooksLikeXmlToolCallSequence | src/rollout/action_format.py:351-369 | A segment counts as XML tool calls only if it parses and holds nothing but named tool calls; an element in a namespace that is reached raises |
| ActionLoops.IsWhitespaceOrSingleXmlThink | src/rollout/action_format.py:481-491 | What may stand before an XML tool-call region: blanks, or one think element; it raises when that is in a namespace |
| ActionLoops.ParseXmlAssistantTurnPayload | src/rollout/action_format.py:585-645 | The XML parser's loop over the children equals its specification |
| ActionLoops.ParseXmlToolCall | src/rollout/action_format.py:682-734 | Reading one tool-call element equals its specification |
| ActionLoops.ReadXmlArgs | src/rollout/action_format.py:708-729 | The loop over the arguments, with its namespace, attribute, duplicate and value errors, equals its specification |
| ActionLoops.CoerceXmlArgValue | src/rollout/action_format.py:737-809 | Reading one argument by its declared kind equals its specification |
| ActionLoops.ParseAssistantPayload | src/rollout/action_format.py:123-166 | The three modes, the hint and the order of the attempts equal the function ModesExactly is about |
| ActionLoops.ParseAssistantPayloadAs | src/rollout/action_format.py:169-186 | One attempt in a given format |
| TrainingTheorems.PointerSafe | src/trainer/rft_runtime_loop.py:1167-1227 | Over every sequence of runs, each with its own command line, failures and crashes from a fresh directory: when every run keeps a window of at least two or has at most one step, the committed pointer refers to an existing checkpoint at every point; it does throughout any such run whatever came before, and in any run outside the stretch between pruning and the commit |
| CommitOrigin.CommitsWhatWasTrained | src/trainer/rft_runtime_loop.py:1153-1227 | Over every sequence of runs, failures and crashes: the committed checkpoint is the newest one of a training that succeeded, for the step that is committed, by the same run with no training in between; so is what a run is about to commit |
| CommitOrigin.FailedTrainingEnds | src/trainer/rft_runtime_loop.py:1156-1171 | A trainer that fails, or leaves no checkpoint, ends the run and changes nothing but the tree of its step |
| CommitOrigin.CollectDecides | src/trainer/rft_runtime_loop.py:1069-1090 | What collection leads to: no rows skip the trainer, fewer than one distributed batch end the run, more stop the server for training |
| Retention.PayloadsPruned | src/trainer/rft_runtime_loop.py:1886-1924 | A step ends by deleting exactly the payloads of the steps outside the window, except those of the step about to be committed, or of the committed one |
| Retention.RestartDecides | src/trainer/rft_runtime_loop.py:1200-1212 | After a training, a managed run with a step left comes to serve the trained model or ends; the trees that are deleted next are exactly those outside the window, except the spared one |
| Retention.TreeDropped | src/trainer/rft_runtime_loop.py:1834-1860 | Each listed tree is deleted whole and alone |
| Retention.LoopEnds | src/trainer/rft_runtime_loop.py:1363-1378 | A step that is left is begun from nothing; with none left the run stops its server, writes the manifest with its list, and ends |
| Retention.ResetPartWay | src/trainer/rft_runtime_loop.py:1927-1941 | A reset can be cut short exactly before a step that is left; it has touched nothing but that step, and leaves of its checkpoints only such as were there |
| Retention.PrunePartWay | src/trainer/rft_runtime_loop.py:1834-1860 | A prune can be cut short exactly within the next tree on its list, of which it leaves only what was there |
| TrainingTheorems.CrashSafeExactly | src/trainer/rft_runtime_loop.py:1834-1860 | With one command line for all runs, the committed pointer is valid after every sequence of events if and only if the window is at least two or there is at most one step |
| TrainingTheorems.WindowOfOneLoses | src/trainer/rft_runtime_loop.py:1206-1227 | With a window of one, a concrete run ends with the committed pointer at a deleted checkpoint |
| TrainingTheorems.LostForGood | src/trainer/rft_runtime_loop.py:633-676 | Once the named checkpoint is gone, no later sequence of runs changes the directory |
| TrainingTheorems.CommittedGrows | src/trainer/rft_runtime_loop.py:1355-1362 | Over every sequence of events the committed step never decreases |
| TrainingTheorems.ReadBackSucceeds | src/trainer/rft_runtime_loop.py:1355-1362 | Reading the committed pointer right after writing it succeeds and gives the step just trained; a step that did not train leaves it alone |
| TrainingTheorems.ManifestRecovered | src/trainer/rft_runtime_loop.py:555-630 | Wherever the last run stopped, the next one loads exactly one manifest entry per committed step, in order |
| TrainingTheorems.ManifestGrows | src/trainer/rft_runtime_loop.py:1344-1354 | While a run lasts, its list holds exactly one entry per step done, in order |
| TrainingSafety.ExecuteKeeps | src/trainer/rft_runtime_loop.py:764-1378 | The loop's invariant over disk and variables holds after every sequence of events |
| TrainingSafety.StepKeeps | src/trainer/rft_runtime_loop.py:907-1362 | Every single event, crash, partial reset and partial prune keeps the invariant |
| TrainingDisk.ReloadIsExact | src/trainer/rft_runtime_loop.py:569-630 | With complete summaries, normalizing, recovering and sorting any manifest gives one entry per committed step, in order |
| TrainingDisk.LatestIsNewest | src/trainer/rft_runtime_loop.py:1497-1513 | The resolved checkpoint is one of those in the tree, the newest, and of several as new the one with the highest number |
| TrainingDisk.LatestSurvives | src/trainer/rft_runtime_loop.py:1863-1883 | Pruning a tree keeps its newest checkpoint, which stays the resolved one |
| ServerAgreement.CollectsFromCommitted | src/trainer/rft_runtime_loop.py:865-905 | In a managed run every collection happens while the address serves the committed checkpoint, or the initial model when nothing is committed |
| ServerAgreement.ServerDiscipline | src/trainer/rft_runtime_loop.py:275-347 | Training runs with nothing served, start is never called while a server is held, and a run that ends by itself leaves the address empty unless it found it taken before its first start |
| RuntimeLoop.NormalizeSteps | src/trainer/rft_runtime_loop.py:594-613 | The manifest's normalization loop equals its specification, with the indexes seen |
| RuntimeLoop.RecoverSteps | src/trainer/rft_runtime_loop.py:615-626 | The loop that recovers missing entries from summaries equals its specification |
| RuntimeLoop.LoadStepSummaries | src/trainer/rft_runtime_loop.py:555-566 | The loop over the step directories equals its specification |
| RuntimeLoop.LoadExistingSteps | src/trainer/rft_runtime_loop.py:569-630 | Loading the manifest's entries equals the function ReloadIsExact is about |
| RuntimeLoop.PruneOldGlobals | src/trainer/rft_runtime_loop.py:1863-1883 | The loop that removes the oldest checkpoints leaves the last ones |
| RuntimeLoop.StepsToPrune | src/trainer/rft_runtime_loop.py:1834-1860 | Which step directories a prune goes through |
| RuntimeLoop.Loop.Begin | src/trainer/rft_runtime_loop.py:822-880 | Loading the committed pointer, the manifest and the step lists is the machine's start event |
| RuntimeLoop.Loop.StartServer | src/trainer/rft_runtime_loop.py:275-322 | The start succeeds exactly when the server becomes ready, none is held and the address is free; otherwise the run ends |
| RuntimeLoop.Loop.ResetStepArtifacts | src/trainer/rft_runtime_loop.py:1927-1941 | The reset of a step is the machine's reset event |
| RuntimeLoop.Loop.CollectBatch | src/trainer/rft_runtime_loop.py:1069-1090 | Skipped exactly without rows, failed exactly with fewer than one distributed batch; only the payload is added to the directory |
| RuntimeLoop.Loop.Train | src/trainer/rft_runtime_loop.py:1153-1192 | Training goes on exactly when the trainer succeeded and left a checkpoint, with the newest one of its tree pending for this step; otherwise the run ends; nothing but the tree changes on disk |
| RuntimeLoop.Loop.PruneStepTree | src/trainer/rft_runtime_loop.py:1193-1202 | Pruning the new tree and making the trained model current |
| RuntimeLoop.Loop.PruneOldStepCheckpoints | src/trainer/rft_runtime_loop.py:1206-1218 | Removing old trees, one machine step per tree |
| RuntimeLoop.Loop.PruneOldStepPayloads | src/trainer/rft_runtime_loop.py:1219-1227 | Removing old payloads leaves the summaries |
| RuntimeLoop.Loop.WriteSummary | src/trainer/rft_runtime_loop.py:1344-1352 | The summary is on disk and in the list |
| RuntimeLoop.Loop.CommitStep | src/trainer/rft_runtime_loop.py:1355-1362 | The commit is one machine step, after which the committed pointer is valid |
| RuntimeLoop.Loop.Iterate | src/trainer/rft_runtime_loop.py:907-1362 | Exactly when an iteration succeeds; it ends at the next step with a valid pointer, which a trained step, and only one, moves to its newest checkpoint; any failure ends the run with the pointer as it was |
| RuntimeLoop.Loop.Run | src/trainer/rft_runtime_loop.py:764-1378 | The whole program is the execution of the machine that its inputs dictate event by event, and leaves a directory that satisfies the invariant; when nothing fails it commits the newest checkpoint of the last step, and with nothing to do it commits nothing |
| BatchArithmetic.EffectiveBatchExact | src/trainer/rft_runtime_loop.py:2690-2715 | No batch exactly when the rows do not fill one micro-batch per replica; otherwise the largest multiple of replicas times micro-batch within the request, raised to one such multiple, and the rows |
| BatchArithmetic.UpsampleSelectedRows | src/trainer/rft_runtime_loop.py:2731-2752 | The loop that repeats rows equals its specification, with the number added |
| BatchArithmetic.UpsampledExact | src/trainer/rft_runtime_loop.py:2731-2752 | The result fills whole batches, adds less than one batch, and holds every row once and a first part of them twice |
| LengthBuckets.BucketsConcat | src/trainer/rft_token_cache.py:543-560 | The buckets are a cut of the sorted order, all full but the last |
| LengthBuckets.BucketsContiguous | src/trainer/rft_token_cache.py:543-560 | No sample of an earlier bucket is longer than one of a later bucket |
| LengthBuckets.DatasetBucketsContiguous | src/trainer/rft_token_cache.py:543-546 | The same for the buckets of any dataset, cut from its own length order |
| LengthBuckets.EmittedPermutes | src/trainer/rft_token_cache.py:543-560 | The emitted order is a permutation of the dataset made of whole buckets, whatever was drawn |
| LengthBuckets.EmittedOrder | src/trainer/rft_token_cache.py:543-560 | Without shuffling the dataset is read in its length order; with it, bucket after bucket in the drawn order and each in its own |
| LengthBuckets.LevelledCyclic | src/trainer/rft_token_cache.py:560-570 | Padding only repeats the emitted order from its start, by less than one round of the replicas; dropping leaves out less than one round |
| LengthBuckets.PlacesDiffer | src/trainer/rft_token_cache.py:560-570 | No two replicas read the same place, and none reads a place twice |
| LengthBuckets.PlaceRead | src/trainer/rft_token_cache.py:560-570 | Every place is read by some replica |
| LengthBuckets.SamplesLength | src/trainer/rft_token_cache.py:535-573 | All replicas get equally many samples, the number the sampler announces |
| LengthBuckets.NothingMissed | src/trainer/rft_token_cache.py:535-570 | Without dropping, every index is read by some replica |
| LengthBuckets.NothingRepeated | src/trainer/rft_token_cache.py:535-570 | With dropping, no index is read twice in an epoch |
| LengthBuckets.NothingDropped | src/trainer/rft_token_cache.py:535-570 | When the replicas divide the dataset, dropping drops nothing |
| LengthBuckets.RowsReachReplicas | src/trainer/rft_runtime_loop.py:2690-2752 | From selected rows to replicas: every upsampled row is read exactly once per epoch, and each replica's share is a whole number of its part of the batch |
| LengthBucketSampler.LengthBucketDistributedSampler.constructor | src/trainer/rft_token_cache.py:508-541 | The sampler's fields, with the default bucket size |
| LengthBucketSampler.BucketSizeExact | src/trainer/rft_token_cache.py:508-541 | A bucket size that is given and not 0 is used; otherwise a bucket holds eight batches of every replica |
| LengthBucketSampler.LengthBucketDistributedSampler.CutBuckets | src/trainer/rft_token_cache.py:543-550 | The slicing loop equals the specification of the buckets |
| LengthBucketSampler.LengthBucketDistributedSampler.ShuffleBuckets | src/trainer/rft_token_cache.py:550-560 | The shuffling loop equals the concatenation of the visited buckets |
| LengthBucketSampler.LengthBucketDistributedSampler.Iterate | src/trainer/rft_token_cache.py:543-570 | One epoch equals the samples the theorems are about, for the seed and the epoch set |
| LossSpans.AssistantLossCharSpans | src/trainer/rft_token_cache.py:218-247 | The span loop equals its specification |
| LossSpans.CandidatesExact | src/trainer/rft_token_cache.py:270-284 | The candidates of a message: its text, and for the assistant also without leading newlines and what follows its last think end tag without them; empty ones do not count |
| LossSpans.MessageSpanExact | src/trainer/rft_token_cache.py:218-247 | A message none of whose candidates is found is an error for the assistant and is passed over otherwise; one that is found moves the cursor behind it and gives a span exactly for the assistant |
| LossSpans.TurnEndExact | src/trainer/rft_token_cache.py:287-300 | A turn ends behind the first end marker after its content, with its newline, or with the text |
| LossSpans.SpansOrdered | src/trainer/rft_token_cache.py:218-300 | For every text and messages, without assumptions: spans lie in the text, and their starts never decrease |
| LossSpans.SpansExact | src/trainer/rft_token_cache.py:218-300 | On a rendered conversation whose candidates are unambiguous, the spans are exactly the content of each message whose stripped role is assistant, with its end marker, and are disjoint |
| LossSpans.LossMask | src/trainer/rft_token_cache.py:170-177 | The mask written in place is 1 exactly at the tokens that overlap a span |
| LossSpans.TrainedExactly | src/trainer/rft_token_cache.py:141-177 | On such a conversation a token is trained if and only if it covers a character of a reply, the content and end marker of a message whose stripped role is assistant |
| TaskPool.BuildTaskPool | src/env/task_dataset.py:382-461 | The pool is, in row order, the first acceptable row of each logical task; the counters count exactly the filtered rows of each bucket; the build fails exactly on an empty dataset or a row whose error aborts |
| TaskPool.JudgeIs | src/env/task_dataset.py:382-461 | Which rows are kept, abort the build, or are counted in which bucket |
| TaskPool.PoolExact | src/env/task_dataset.py:382-461 | Every scanned row is kept or filtered once, kept tasks are distinct, and exactly the acceptable keys are kept |
| TaskPool.EvalIndexesExact | src/env/task_dataset.py:1534-1538 | The held-out set has exactly the wanted size, and every task in it ranks before every task outside |
| TaskPool.EvalExtends | src/env/task_dataset.py:1534-1538 | A larger eval count extends the held-out set |
| TaskPool.SplitExact | src/env/task_dataset.py:1503-1558 | The split is a partition that keeps the order on both sides, holds out exactly the lowest ranks, and leaves the train side something |
| TaskPool.HeldOutCount | src/env/task_dataset.py:1534-1558 | How many tasks are held out: a positive count, as many; by a positive fraction of two tasks or more, the floor of that fraction or the minimum, whichever is more, up to all but one; otherwise none |
| TaskPool.SplitErrors | src/env/task_dataset.py:1503-1533 | The exact condition of each error of the split, and that there is no other |
| TaskPool.SidesAreDisjoint | src/env/task_dataset.py:1503-1558 | No logical task is on both sides |
| TaskPool.SplitTaskSamplesForEval | src/env/task_dataset.py:1503-1558 | The splitting loop equals its specification, errors included |
| TaskBatches.OrderedIsPermutation | src/env/task_dataset.py:1058-1093 | The stage's order only reorders |
| TaskBatches.OrderedByBand | src/env/task_dataset.py:1058-1093 | In the positive stage, tasks that are not held out stand in band order, in pool order within a band |
| TaskBatches.BandOrder | src/env/task_dataset.py:1058-1093 | The order of the bands spelled out: easy, learnable, any other, near impossible; within a band the order of the pool |
| TaskBatches.OrderKept | src/env/task_dataset.py:1058-1093 | The format stage, and held-out tasks in every stage, keep the order of the pool |
| TaskBatches.SamplesExact | src/env/task_dataset.py:1096-1146 | Which side of the split a partition loads, and what a pool that was probed for one partition serves |
| TaskBatches.LoadTaskBatch | src/env/task_dataset.py:1147-1218 | Loading a batch equals its specification, errors included |
| TaskBatches.BatchErrors | src/env/task_dataset.py:1147-1218 | The exact condition of each error of a batch; without error it has the size asked for, or nothing of an empty partition |
| TaskBatches.FillBatch | src/env/task_dataset.py:1211-1218 | The wraparound loop reads the specified indexes |
| TaskBatches.HeldOutNeverTrained | src/env/task_dataset.py:1096-1218 | No train batch of any step, size or stage shares a logical task with any eval batch of the same source |
| TaskBatches.BatchesAreFair | src/env/task_dataset.py:1147-1218 | Over any run of consecutive steps, every task of the partition stands in the loaded batches floor or ceiling of draws over tasks times |
| TaskBatches.IndexesAreFair | src/env/task_dataset.py:1211-1218 | The same for the indexes that the wraparound reads |
| TaskBatches.WholeBatchIsFixed | src/trainer/rft_runtime_loop.py:1025-1031 | A batch as large as the partition reads every task once, in the same order at every step |
| ProbeTheorems.ProbingIsSafe | src/env/preload_onpolicy_difficulty_bands.py:735-840 | Over every sequence of runs, completions, failures and crashes: the records file never repeats a task, every cache has exactly one record per selected task in task order, and running probes never exceed the window that the run was begun with, or one; a run that waits with tasks left has exactly that many running |
| ProbeTheorems.BeginExact | src/env/preload_onpolicy_difficulty_bands.py:963-1010 | When a run returns the complete cache, one record for each selected task and no other; raises, because the records are missing, repeat a task or hold one that is not selected; resumes from the records; or starts over |
| ProbeTheorems.ProgressCounts | src/env/preload_onpolicy_difficulty_bands.py:735-840 | While a run submits and waits, the progress file counts exactly the tasks with a record in the file |
| ProbeTheorems.ProbesHeard | src/env/preload_onpolicy_difficulty_bands.py:795-838 | Only a waiting run hears of its probes: one that fails ends it and changes no file, one that completes is taken off the running ones and its record is appended next |
| ProbeTheorems.EndsClean | src/env/preload_onpolicy_difficulty_bands.py:1040-1062 | Once the cache is written the partial files go, the progress first, and the run ends |
| ProbeTheorems.NeverProbedAgain | src/env/preload_onpolicy_difficulty_bands.py:735-790 | A task that is submitted is selected, has no record and is not running |
| ProbeTheorems.CacheComesFromFile | src/env/preload_onpolicy_difficulty_bands.py:1040-1062 | A run that gets to writing the cache writes it, from the records in the file, one per task in task order |
| ProbeTheorems.RecordsSurvive | src/env/preload_onpolicy_difficulty_bands.py:971-1040 | Over unforced runs of one job, recorded results stay in the file until the complete cache stands |
| ProbeTheorems.ResumeRaisesExactly | src/env/preload_onpolicy_difficulty_bands.py:585-632 | When an unforced run refuses to start: exactly when there is progress of this job and no records file |
| ProbeTheorems.CrashBeforeFirstRecord | src/env/preload_onpolicy_difficulty_bands.py:735-772 | A concrete run that leaves progress without records |
| ProbeTheorems.RaisesUntilForced | src/env/preload_onpolicy_difficulty_bands.py:585-632 | After it, no sequence of unforced runs of the job changes anything |
| ProbeSafety.ExecuteKeeps | src/env/preload_onpolicy_difficulty_bands.py:735-840 | The probe's invariant over files and variables holds after every sequence of events |
| ProbeSafety.OrderedExact | src/env/preload_onpolicy_difficulty_bands.py:468-478 | The ordered records are complete exactly when every task has one, and are then in task order |
| ProbeLoop.LoadPartialRecords | src/env/preload_onpolicy_difficulty_bands.py:548-582 | The loop over the records file equals its specification |
| ProbeLoop.OrderedRecords | src/env/preload_onpolicy_difficulty_bands.py:468-478 | The loop equals its specification |
| ProbeLoop.Probe.Begin | src/env/preload_onpolicy_difficulty_bands.py:963-1010 | The decision whether to return, raise, resume or start over |
| ProbeLoop.Probe.Submit | src/env/preload_onpolicy_difficulty_bands.py:773-790 | Submitting while the window has room: never more than the window asked for, or one, and exactly that many while tasks are left |
| ProbeLoop.Probe.RecordResult | src/env/preload_onpolicy_difficulty_bands.py:795-838 | The completion, the append and the progress write, in this order |
| ProbeLoop.Probe.ProbeTasks | src/env/preload_onpolicy_difficulty_bands.py:735-840 | Whatever the completion order, probing ends with nothing left or with the exception of a probe |
| ProbeLoop.Probe.Run | src/env/preload_onpolicy_difficulty_bands.py:867-1062 | The whole program is an execution of the machine that its inputs allow event by event; when it completes, the cache is exact and the partial files are gone |
| PairRewards.SummaryConsistent | scripts/run_teacher_reprompt_pilot.py:550-569 | Improved, worsened and tied pairs add up to the count, and the mean delta is the difference of the means |
| PairRewards.SummaryExact | scripts/run_teacher_reprompt_pilot.py:550-569 | The summary counts the pairs in which the reward of the teacher is higher, lower and the same, and its means are those of the two rewards |
| PairRewards.SumExact | scripts/run_teacher_reprompt_pilot.py:550-569 | The sum behind the means is what it is of one value, and adds up over two lists |
| PairRewards.PairRewardAccumulator.Add | scripts/run_teacher_reprompt_pilot.py:648-661 | The running totals stay the totals of the pairs so far |
| PairRewards.PairRewardAccumulator.Snapshot | scripts/run_teacher_reprompt_pilot.py:663-675 | The running summary equals the batch summary of the same pairs |
| PilotPartialWriter.PilotPartialWriter.AppendPair | scripts/run_teacher_reprompt_pilot.py:836-859 | A key is paired at most once; a new one adds exactly its pair |
| PilotPartialWriter.TeacherPair | scripts/run_teacher_reprompt_pilot.py:790-800 | A teacher row pairs its reward with the one the baseline got for that key, or 0, unless the key is paired |
| PilotPartialWriter.MissingExact | scripts/run_teacher_reprompt_pilot.py:861-872 | The missing pairs are those of the keys without one, each once in key order, with the reward of the baseline beside 0 |
| PilotPartialWriter.PilotPartialWriter.RecordBaseline | scripts/run_teacher_reprompt_pilot.py:780-788 | A baseline row's effect on the whole state; its key joins the list of keys when it is first seen |
| PilotPartialWriter.PilotPartialWriter.RecordTeacher | scripts/run_teacher_reprompt_pilot.py:790-800 | A teacher row adds the pair with the baseline reward known so far, once |
| PilotPartialWriter.PilotPartialWriter.RecordRow | scripts/run_teacher_reprompt_pilot.py:773-806 | The whole new state after a row of either phase, or of no known phase: row counters, rewards, keys in first-seen order, pairs, and a summary exactly when one is due |
| PilotPartialWriter.PilotPartialWriter.AppendMissingPairs | scripts/run_teacher_reprompt_pilot.py:861-872 | Afterwards exactly the baseline and teacher keys are paired; the new pairs are those of the unanswered keys, in first-seen order, with teacher reward 0 |
| PilotPartialWriter.PilotPartialWriter.WriteSummary | scripts/run_teacher_reprompt_pilot.py:874-895 | The summary equals the batch summary of all pairs, and counts only flushed rows |
| PilotPartialWriter.PilotPartialWriter.FinalizeCompleted | scripts/run_teacher_reprompt_pilot.py:808-813 | Finalizing pairs every key once, the unanswered ones in first-seen order, reports none missing, and its summary is the batch summary with status completed |
| PilotPartialWriter.PilotPartialWriter.MarkFailed | scripts/run_teacher_reprompt_pilot.py:815-819 | A failure summary counts only flushed rows, and its status is failed, also after finalizing |
| PilotPartialWriter.PilotPartialWriter.Close | scripts/run_teacher_reprompt_pilot.py:754-758 | Closing flushes everything written |
| TurnHistory.RunEnvBridgeStep | src/verl_integration/env_bridge.py:87-157 | The bridge's loop with its early returns equals its specification |
| TurnHistory.BridgeExact | src/verl_integration/env_bridge.py:87-157 | One block per step, consecutive step numbers from the start, at most the limit, and terminal exactly on a valid submit, which has no step |
| TurnHistory.AnswersExact | src/verl_integration/env_bridge.py:87-157 | What the steps answer: the parse error, the validation error of a submit, or per call its validation error and else what executing it gave |
| TurnHistory.CollectAttempt | src/rollout/onpolicy_collector.py:362-454 | The attempt loop's history, turns and steps are the flattened turns it went through |
| TurnHistory.TurnsExact | src/rollout/onpolicy_collector.py:362-454 | One turn per answer in order; an attempt ends at the turn limit, before a timeout or a failing generator, or after a turn that ends it |
| HistoryDecoding.DeriveAssistantTurns | scripts/run_teacher_reprompt_pilot.py:214-222 | The decoding loop equals its specification |
| HistoryDecoding.DeriveTurnToolResponseBlocks | scripts/run_teacher_reprompt_pilot.py:191-211 | The loop that deals blocks to turns equals its specification |
| HistoryDecoding.TurnsRecovered | scripts/run_teacher_reprompt_pilot.py:214-222 | Decoding gives the turns back if and only if none is blank or shaped like a tool response |
| HistoryDecoding.BlocksRecovered | scripts/run_teacher_reprompt_pilot.py:191-211 | When only the last turn may be without responses, decoding gives every turn's blocks back if and only if no turn is shaped like a response, or there is one turn and it has none |
| HistoryDecoding.AttemptDecodes | src/rollout/onpolicy_collector.py:362-420 | The history of every attempt decodes to its turns and their blocks if and only if no turn is blank or shaped like a response; with the turns known, the blocks come back under the condition of BlocksRecovered |
| HistoryDecoding.IndicesIncrease | src/rollout/onpolicy_collector.py:362-420 | Step indices strictly increase over the whole trajectory of every attempt |
| HistoryDecoding.PrefixCutsAtTurn | src/teacher/memory_builder.py:128-140 | The prefix count exists exactly for turns of the attempt, and cuts the trajectory exactly at that turn |
| HistoryDecoding.RowIndexUnique | src/rollout/onpolicy_collector.py:476-480 | Different steps, tasks or attempts get different row indices |
| FileSearch.IsSubsequence | src/env/docker_executor.py:117-126 | The loop equals the greedy matching, and rejects an empty needle |
| FileSearch.GreedyExact | src/env/docker_executor.py:117-126 | Greedy matching succeeds if and only if some order-preserving embedding exists |
| FileSearch.SearchFiles | src/env/docker_executor.py:206-216 | The script writes the first paths of the ranking of all hits, each followed by a newline |
| FileSearch.TopKExact | src/env/docker_executor.py:823-850 | Splitting what the script wrote for k + 1 paths into lines and keeping k returns the true top k if and only if none of its paths holds a line end; the text returned is then those paths again |
| FileSearch.TruncatedExact | src/env/docker_executor.py:833-835 | The truncated flag tells whether more than k paths match if and only if more do or the matches and their extra lines together stay within k; in particular when no printed path holds a line end |
| FileSearch.TopIsBest | src/env/docker_executor.py:214-216 | The top k are the first of a permutation of all matches, and none is worse than a match outside it |
| FileSearch.HitsExact | src/env/docker_executor.py:206-216 | Each path with a score is a hit with that score, and no other is, in path order |
| FileSearch.LexExact | src/env/docker_executor.py:214-216 | The order between equal scores: a prefix first, and otherwise the smaller character at the first difference |
| FileSearch.NewlineInName | src/env/docker_executor.py:833-835 | One matching file with a newline in its name: half of the name is returned and truncation reported |
| FileSearch.SplitAfterNewline | src/env/docker_executor.py:833 | What stands before a newline and what follows it are split into lines independently |

## Left out

- LossSpans.SpansExact: assumes that no candidate of a message occurs in the text before its own content, from where the previous message ended; SpansOrdered holds without assumptions.
- ProbeTheorems.ProbingIsSafe: tasks are distinct; an append is one write, so a record cut short by a crash is not modelled, nor is a progress file in the older format that carries its records.
- ServerAgreement.ServerDiscipline: the address changes only through the controller and, between runs, through an operator; a server that dies by itself, or a foreign process that takes the address during a run, is not modelled.
- RuntimeLoop.Loop: holds the controller's process fields itself; a trainer that outlives a crashed run, the dry run, the stage and fixed-eval checks, telemetry and the token cache are left out. The prune of checkpoints inside one tree is one step.
- Codec: delimiters other than the default ones, the fallback payload format argument, JSON numbers with fractions or exponents, underscores and non-ASCII digits in integers, XML processing instructions and DTDs, which no caller lets through. Integers of more than 4300 digits, for which Python 3.11 and later raises when it prints or reads them, and the recursion limit on deeply nested values are not modelled: the theorems cover all integers and depths. A character is a Unicode scalar value. Letters beyond ASCII follow a simplified table in lower-casing, word characters and XML names.
- Error messages are reduced to their kind; a Python exception is a value of a result type.
- Task rows are reduced to a logical key, a rank and a band; an injective rank stands for the hash, and coercion, the prompt limit and parquet files are left out. A fraction of the tasks is computed over reals.
- Rewards are reals, and the reward is an arbitrary number; format metrics, timestamps, and the phase label and error text of the pilot summary are left out.
- The sampler's random generator is a parameter that gives one permutation of the buckets and one of each bucket.
- Token offsets are an arbitrary list; the tokenizer and the chat template are not part of this model beyond the rendering SpansExact describes.
- History: timing, verification, feedback text and the patch memory's rendering.
- Search: the score's weights, which are a parameter, text search, reading files, file names that are not valid Unicode, and the container. Reading its output in text mode turns carriage returns into newlines, which gives the same lines.
- Losses, checkpoint merging, metrics and configuration loading.
