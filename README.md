# sidecar core, modelled in Dafny

This project models five pieces of the sidecar editor backend and proves
properties of them:

- **Search executor** (`Repository::execute_search`). It turns one query of
  the iterative code search into search results. A file query looks the text
  up among file paths in the tag index and reports at most twenty tags. When
  no tag matches, it falls back to a single file found by name and read from
  disk. A keyword query reports every tag whose name is exactly the text.
- **Reply codec** of the Google AI Studio reasoning backend. It extracts the
  payload between the `<reply>` line and the next `</reply>` line, hands it
  to an XML decoder and reports a failed decode together with the block. It
  also strips a leading XML declaration from serialised search results and
  builds the user messages of the three reasoning steps.
- **Current-file context** for inline completion (`CurrentFileContext::generate_context`).
  It builds the current line, the optional file path header and the lines
  after the cursor that fit the token budget.
- **Codebase context** for inline completion (`CodeBaseContext`). It takes
  the fifty lines before the cursor as the window to match against other
  files. It then assembles the ranked snippets, at most ten per file, as
  comment blocks headed by their path.
- **Inline agent** (`InLineAgent`). It covers parsing the model's choice of
  action, the message constructors, the step list that `iterate` extends,
  and the prompts and answers of documentation generation.

Each file is one module:

- `wrappers.dfy`: `Option` and `Result`.
- `strings.dfy`: the Rust standard library string operations the core uses,
  on `seq<char>`.
- `search_executor.dfy`: the search executor.
- `reply_codec.dfy`: the reply codec.
- `completion_types.dfy`: the shared inline completion types.
- `current_file.dfy`: the current-file context.
- `codebase_context.dfy`: the codebase context.
- `inline_agent.dfy`: the inline agent.

Collaborators the core calls but does not define are function-valued
parameters:

- the tag index, the git-aware file lookup and `fs::read`;
- the tokenizer and the language configuration lookup;
- the XML decoder and serialisers;
- the language model and the documentation system prompt.

Code that computes values is written as functions. Code that loops is
written as methods with loop invariants, proved against specification
functions. The agent, whose methods update its message list in place, is a
class.

## Model

| member | source | states |
|---|---|---|
| Strings.Find | sidecar/src/agentic/tool/search/google_studio.rs:470 | `str::find`: the result is an occurrence with no earlier one, and there is none exactly when the text does not contain the pattern |
| Strings.TrimPadded | src/in_line_agent/types.rs:69 | `trim` removes exactly the whitespace around a text that neither starts nor ends with whitespace |
| Strings.SplitJoin | sidecar/src/inline_completion/context/codebase_context.rs:128-134 | splitting a join on a separator that occurs in no part gives the parts back |
| Strings.LinesOfJoin | sidecar/src/agentic/tool/search/google_studio.rs:342-343 | `str::lines` reads newline-joined single lines back unchanged when the last is not empty |
| SearchExecutor.TagResults | sidecar/src/agentic/tool/search/repository.rs:117-129 | one result per tag, in index order, each naming the tag's file, the rationale "This file contains a {kind} named {name}" and the tag |
| SearchExecutor.FallbackResults | sidecar/src/agentic/tool/search/repository.rs:48-82 | no file found gives no result; a found file gives one result with the query's thinking and the file's bytes, or empty content when the read fails |
| SearchExecutor.ExecuteSearch | sidecar/src/agentic/tool/search/repository.rs:34-132 | file query: the first min(20, n) path-matching tags, or the fallback when there are none; keyword query: every exact-name tag, in order |
| SearchExecutor.FileSearchIsCapped | sidecar/src/agentic/tool/search/repository.rs:86-88 | a file query never returns more than twenty results |
| SearchExecutor.KeywordSearchIgnoresFilesystem | sidecar/src/agentic/tool/search/repository.rs:108-130 | a keyword query does not depend on the file lookup or the file reader |
| SearchExecutor.TaggedFileSearchIgnoresFilesystem | sidecar/src/agentic/tool/search/repository.rs:83-105 | a file query that matches tags does not depend on the file lookup or the file reader |
| SearchExecutor.SearchUsesOneMode | sidecar/src/agentic/tool/search/repository.rs:42-46 | a file query consults the index by path only and a keyword query by exact name only |
| ReplyCodec.SkipToOpening | sidecar/src/agentic/tool/search/google_studio.rs:344 | `skip_while`: a suffix of the lines whose earlier lines all lack `<reply>` and whose first line has it |
| ReplyCodec.TakeToClosing | sidecar/src/agentic/tool/search/google_studio.rs:346 | `take_while`: a prefix of the lines none of which has `</reply>`, stopped by the first line that has it |
| ReplyCodec.ReplyLines | sidecar/src/agentic/tool/search/google_studio.rs:342-347 | the payload has fewer lines than the reply when it is not empty, none of its lines has `</reply>`, and a reply without a `<reply>` line gives none |
| ReplyCodec.ExtractReplyBlock | sidecar/src/agentic/tool/search/google_studio.rs:342-348 | a reply none of whose lines has `<reply>` gives the empty block |
| ReplyCodec.SkipToOpeningAt | sidecar/src/agentic/tool/search/google_studio.rs:344 | the skipped lines are exactly those before the first `<reply>` line |
| ReplyCodec.TakeToClosingAt | sidecar/src/agentic/tool/search/google_studio.rs:346 | the taken lines are exactly those before the first `</reply>` line |
| ReplyCodec.ReplyLinesBetween | sidecar/src/agentic/tool/search/google_studio.rs:342-347 | the payload is the lines strictly between the first `<reply>` line and the next `</reply>` line, or the end |
| ReplyCodec.ReplyLinesWithoutOpening | sidecar/src/agentic/tool/search/google_studio.rs:344-345 | with no `<reply>` line the payload is empty |
| ReplyCodec.ExtractReplyBlockBetween | sidecar/src/agentic/tool/search/google_studio.rs:342-348 | for a text made of single lines, the block handed to the decoder is the framed lines joined by newlines |
| ReplyCodec.ParseReply | sidecar/src/agentic/tool/search/google_studio.rs:341-354 | the parse succeeds exactly when the decoder accepts the block, with the decoded value; a failure carries the decoder's cause and the block |
| ReplyCodec.ParseWithoutOpeningFails | sidecar/src/agentic/tool/search/google_studio.rs:350-353 | a reply without `<reply>` reaches the decoder as the empty block and, when that is rejected, fails reporting the empty block |
| ReplyCodec.ParseSearchResponse | sidecar/src/agentic/tool/search/google_studio.rs:341-354 | succeeds exactly when the decoder accepts the extracted block, with the decoded value; a failure carries the decoder's cause and the block |
| ReplyCodec.ParseIdentifyResponse | sidecar/src/agentic/tool/search/google_studio.rs:356-369 | succeeds exactly when the decoder accepts the extracted block, with the decoded value; a failure carries the decoder's cause and the block (identify schema) |
| ReplyCodec.ParseDecideResponse | sidecar/src/agentic/tool/search/google_studio.rs:371-384 | succeeds exactly when the decoder accepts the extracted block, with the decoded value; a failure carries the decoder's cause and the block (decide schema) |
| ReplyCodec.StripXmlDeclaration | sidecar/src/agentic/tool/search/google_studio.rs:465-479 | the result is a suffix of the input; an input without `<?xml` at its start or without `?>` comes back unchanged; otherwise at least `?>` is removed and the result does not start with whitespace |
| ReplyCodec.DeclarationEndFirst | sidecar/src/agentic/tool/search/google_studio.rs:470 | in a declared text the `?>` after the attributes is an occurrence and no earlier position starts one |
| ReplyCodec.FindDeclarationEnd | sidecar/src/agentic/tool/search/google_studio.rs:470 | `find("?>")` in a declared text returns the end of its attributes |
| ReplyCodec.DeclaredParts | sidecar/src/agentic/tool/search/google_studio.rs:469-472 | a declared text starts with `<?xml`, and what follows `?>` is the whitespace and the body, whose `trim_start` is the body |
| ReplyCodec.StripXmlDeclarationRoundTrip | sidecar/src/agentic/tool/search/google_studio.rs:465-479 | stripping a declaration and whitespace put in front of a body gives the body back, and a body on its own is left as it is |
| ReplyCodec.SerialisedResults | sidecar/src/agentic/tool/search/google_studio.rs:197-206 | results that fail to serialise are dropped; when all serialise, each entry is its result's XML with the declaration stripped, in order |
| ReplyCodec.SerialisedResultsAppend | sidecar/src/agentic/tool/search/google_studio.rs:197-206 | serialisation keeps input order: serialising a concatenation concatenates the serialisations |
| ReplyCodec.UserMessageForGenerateSearchQuery | sidecar/src/agentic/tool/search/google_studio.rs:109-129 | the message contains the user query, the scratch pad and the serialised files |
| ReplyCodec.UserMessageForIdentify | sidecar/src/agentic/tool/search/google_studio.rs:192-227 | the message contains the user query, the serialised files, the newline-joined serialised results and the scratch pad |
| ReplyCodec.UserMessageForDecide | sidecar/src/agentic/tool/search/google_studio.rs:284-299 | the message contains the user query and the serialised files |
| ReplyCodec.DecideMessageIgnoresScratchPad | sidecar/src/agentic/tool/search/google_studio.rs:284-299 | the decide message does not depend on the scratch pad |
| CurrentFile.NoStopBeforeWindowEnd | sidecar/src/inline_completion/context/current_file.rs:98-128 | before the end of the suffix window the loop has no reason to stop |
| CurrentFile.SuffixWindowEndUnique | sidecar/src/inline_completion/context/current_file.rs:98-128 | the suffix window is determined by its start and the budget |
| CurrentFile.AsWrittenSuffixStep | sidecar/src/inline_completion/context/current_file.rs:114-127 | one pass of the loop as written advances by one line when it takes one, and changes nothing once the lines have run out |
| CurrentFile.AsWrittenLoopNeverExits | sidecar/src/inline_completion/context/current_file.rs:98-128 | once the lines run out under the budget, no number of passes of the loop as written leaves that state |
| CurrentFile.AsWrittenLoopSpinsOnLastLine | sidecar/src/inline_completion/context/current_file.rs:96-128 | with the cursor on the last line and any budget left, the loop as written never exits |
| CurrentFile.AsWrittenPasses | sidecar/src/inline_completion/context/current_file.rs:98-128 | up to `n` passes of the loop as written: it never moves backwards and takes at most one line per pass |
| CurrentFile.AsWrittenStopsAtWindowEnd | sidecar/src/inline_completion/context/current_file.rs:98-128 | wherever the loop as written breaks out or uses up the budget, it stops at the end of the suffix window, where the corrected loop stops |
| CurrentFile.AsWrittenAgreesWhereItStops | sidecar/src/inline_completion/context/current_file.rs:93-128 | from the first line after the cursor with nothing counted, a loop as written that stops has taken exactly the corrected window |
| CurrentFile.SuffixBudget | sidecar/src/inline_completion/context/current_file.rs:65-85 | the suffix budget is the limit less the current line, and less the path header exactly when the header fits |
| CurrentFile.CollectSuffix | sidecar/src/inline_completion/context/current_file.rs:97-128 | the corrected loop returns the lines from the start up to the window end, which fits the budget, was not reached early and is where the loop must stop |
| CurrentFile.GenerateContext | sidecar/src/inline_completion/context/current_file.rs:51-183 | fails exactly when the file has no language configuration; otherwise the prefix is the cursor's line, preceded by the path header when it fitted and the line is not indented, and the suffix is the budget window after the cursor, joined by newlines |
| CodebaseContext.GetPrefixWithTokens | sidecar/src/inline_completion/context/codebase_context.rs:34-41 | the context and its count exactly for a truncated context, nothing otherwise |
| CodebaseContext.ContextWindowLines | sidecar/src/inline_completion/context/codebase_context.rs:65-76 | the window is the min(50, cursor line) lines just before the cursor's line |
| CodebaseContext.ContextWindowFromCurrentFile | sidecar/src/inline_completion/context/codebase_context.rs:65-76 | a cursor on the first line gives an empty window |
| CodebaseContext.ContextWindowShowsLine | sidecar/src/inline_completion/context/codebase_context.rs:65-76 | each of the up to fifty lines before the cursor's line appears in the window text |
| CodebaseContext.ContextWindowOfJoinedLines | sidecar/src/inline_completion/context/codebase_context.rs:65-76 | for a file of newline-joined lines, the window text is those lines of the fifty before the cursor joined by newlines |
| CodebaseContext.CommentLines | sidecar/src/inline_completion/context/codebase_context.rs:131-133 | each snippet line becomes the comment prefix, a space and the line, one for one |
| CodebaseContext.CommentedSnippetLines | sidecar/src/inline_completion/context/codebase_context.rs:128-137 | a snippet block's lines are the path header and then one commented line per snippet line, from which the snippet is recovered |
| CodebaseContext.Selected | sidecar/src/inline_completion/context/codebase_context.rs:117-127 | no more snippets are kept than were ranked, and every kept snippet is a ranked one (the order is stated by `SelectedStep`) |
| CodebaseContext.SelectedCountPerFile | sidecar/src/inline_completion/context/codebase_context.rs:117-127 | each file contributes min(10, its snippet count) snippets |
| CodebaseContext.SelectedStep | sidecar/src/inline_completion/context/codebase_context.rs:117-138 | a further snippet is kept exactly when fewer than ten earlier ones came from its file, and its block is then appended |
| CodebaseContext.AsI64 | sidecar/src/inline_completion/context/codebase_context.rs:159 | `as i64` keeps counts below 2^63 and wraps larger ones into the i64 range |
| CodebaseContext.GenerateContext | sidecar/src/inline_completion/context/codebase_context.rs:78-161 | fails with "not_supported" exactly when the language is unknown; otherwise the kept snippets' blocks joined by blank lines, with their token count |
| InLineAgent.InLineAgentMessage.AddAgentAction | src/in_line_agent/types.rs:150-152 | one more step at the end; the earlier steps and every other field are unchanged |
| InLineAgent.FromGptResponse | src/in_line_agent/types.rs:67-80 | never fails and never yields a decision; the trimmed answer is the action's word, or the answer is `Unknown` and names no action |
| InLineAgent.KeywordTrimmed | src/in_line_agent/types.rs:69 | whitespace around an action's word is exactly what `trim` removes |
| InLineAgent.FromGptResponseOfKeyword | src/in_line_agent/types.rs:67-80 | an action's word with whitespace around it parses back to that action |
| InLineAgent.DecideActionMessage | src/in_line_agent/types.rs:95-114 | a started message whose one step is the given action, with no answer, created and updated now |
| InLineAgent.AnswerUpdateMessage | src/in_line_agent/types.rs:116-131 | a message with no query and no steps carrying the answer, in the default state |
| InLineAgent.StartMessage | src/in_line_agent/types.rs:133-148 | a pending message with the query, no steps and no answer |
| InLineAgent.CommentTypeArticle | src/in_line_agent/types.rs:418-430 | for TypeScript and JavaScript a symbol with a kind gets the comment type with "a " in front; other languages ignore the kind |
| InLineAgent.CommentTypeNames | src/in_line_agent/types.rs:418-430 | the comment type is a docstring exactly for Python; every other language gets a kind of comment |
| InLineAgent.MetadataAsksForCommentType | src/in_line_agent/types.rs:417-441 | the documentation request names the language's comment type and ends a sentence |
| InLineAgent.MetadataForSelection | src/in_line_agent/types.rs:437-439 | a symbol without a name asks about the selection, whatever else it holds besides whether it has a kind |
| InLineAgent.MetadataNamesSymbol | src/in_line_agent/types.rs:433-436 | the documentation request names the symbol when it has a name |
| InLineAgent.DocumentSymbolPromptFenced | src/in_line_agent/types.rs:399-415 | the code prompt opens with the selection line and a fence tagged with the language, and ends with the closing fence |
| InLineAgent.DocumentSymbolPromptShowsCode | src/in_line_agent/types.rs:399-415 | the code prompt contains the symbol's code and its file path |
| InLineAgent.SymbolMessages | src/in_line_agent/types.rs:376-394 | three messages: a system message holding the documentation system prompt for the language and kind, then two user messages |
| InLineAgent.SymbolMessagesContent | src/in_line_agent/types.rs:376-394 | the code message shows the symbol's code and file; the request asks for the language's comment type and ends with the user's query |
| InLineAgent.MessagesForDocumentationGeneration | src/in_line_agent/types.rs:366-397 | one entry per symbol, in order: its system, code and request messages, and the symbol |
| InLineAgent.DocumentationAnswers | src/in_line_agent/types.rs:323-353 | at most one answer per symbol, each in the default state with its text as delta; when every generation succeeds, one per symbol in order with its text and symbol |
| InLineAgent.DocumentationAnswerOfOne | src/in_line_agent/types.rs:342-351 | a failed generation sends nothing for its symbol; a successful one sends its text, as answer and delta, with the symbol |
| InLineAgent.DocumentationAnswersAppend | src/in_line_agent/types.rs:323-353 | a failure skips only its own symbol: the answers of a concatenation are the answers of each part, in order |
| InLineAgent.StreamDocumentation | src/in_line_agent/types.rs:323-353 | the loop sends exactly the documentation answers |
| InLineAgent.InLineAgent.constructor | src/in_line_agent/types.rs:175-197 | the agent starts with the given messages and has sent nothing |
| InLineAgent.InLineAgent.AddStepToLastMessage | src/in_line_agent/types.rs:207-211 | the last message gets the step; the others and the sent messages are unchanged |
| InLineAgent.InLineAgent.ApologiseMessage | src/in_line_agent/types.rs:360-364 | the last message records `Unknown` |
| InLineAgent.InLineAgent.DecideActionStep | src/in_line_agent/types.rs:254-268 | a failed model call changes nothing; otherwise the last message records the decision and the reply is parsed |
| InLineAgent.InLineAgent.GenerateDocumentation | src/in_line_agent/types.rs:270-358 | no documentation node: the last message is errored and one errored answer is sent; otherwise it is streaming and the documentation answers are sent |
| InLineAgent.InLineAgent.Iterate | src/in_line_agent/types.rs:213-252 | a decision records the step, sends the last message and returns the parsed action; `Doc` records the step, sends the message and generates documentation; any other action records `Unknown` |
| InLineAgent.AddAgentActionKeepsSteps | src/in_line_agent/types.rs:150-152 | recording several steps appends them in order and keeps the message state |

## Left out

- Logging (`println!`, `eprintln!`, `info!`) is not modelled.
- Async execution, channels and locks are not modelled. Sent messages and answers are a list field and return values.
- SearchExecutor.ExecuteSearch: the tag index, `GitWalker::find_file` and `fs::read` are parameters. How the index matches paths and names is not part of this model.
- ReplyCodec.ParseReply: `serde_xml_rs` is a decoder parameter, so the XML grammar and the schemas' field mapping are not modelled.
- ReplyCodec.UserMessageForGenerateSearchQuery: states containment of the parts, not the whole message text. The message is kept as written, with the closing `</file_context` tag lacking its `>`.
- ReplyCodec.UserMessageForDecide: states containment of the parts, not the whole message text; the closing `</file_context` tag is kept as written.
- ReplyCodec.UserMessageForIdentify: states containment of the parts, not the whole message text.
- The LLM calls of the reasoning backend (`generate_search_query`, `identify`, `decide`) and the system prompt templates are not modelled. Only their parsers and user messages are.
- `File::serialise_files` and `to_string` are parameters.
- Strings are sequences of Unicode scalar values. Rust slices strings by byte offset; every pattern here is ASCII, so both views give the same text.
- CurrentFile.GenerateContext requires the current line's tokens not to exceed the token limit. `self.token_limit -= current_line_token_count` on `usize` would otherwise panic in a debug build or wrap in a release build.
- CurrentFile.GenerateContext requires the cursor line to be a line of the document, since `DocumentLines::get_line` is not part of this model.
- CurrentFile.GenerateContext does not model tokenizer failures (the `?` after each count); the tokenizer is a total function.
- CurrentFile.GenerateContext models `current_line_number - 1` at line 0 as the release build's wrap-around, which `prefix_line + 1` undoes. A debug build panics there instead.
- CurrentFile.GenerateContext: line ranges are line numbers, not editor positions (`start_position_at_line`, `end_position_at_line`).
- CurrentFile.GenerateContext: the prefix branch of the loop is not modelled, since `iteration_number` is never incremented and that branch never runs.
- CodebaseContext.GenerateContext takes the snippets already ranked. The symbol tracker (`get_document_history`, `get_document_lines`) and the score sort are not part of this model.
- CodebaseContext.GenerateContext omits the in-loop token count and the `token_limit > token_limit` early return. That return can never be taken, so the result does not depend on the limit. A failure of that in-loop count is not modelled either.
- CodebaseContext.GenerateContext has no cursor: the window of lines before the cursor (line 85) is computed on its own by `ContextWindowFromCurrentFile`, and the panic of that slice for a cursor past the last line is a precondition there.
- CodebaseContext.GenerateContext does not model a failure of the final `count_tokens` call (lines 153-156); the tokenizer is a total function.
- CodebaseContext.ContextWindowLines requires the cursor line to be at most the line count, where the source's slice would panic.
- InLineAgent.FromGptResponse: `anyhow::Result` errors are a string. Message and session identifiers (`Uuid::new_v4`) and the clock are caller-supplied parameters.
- InLineAgent.InLineAgent.DecideActionStep requires a message when the model replied, and InLineAgent.InLineAgent.Iterate requires one unless it is deciding and the model failed: `get_last_agent_message` panics on an empty list through its `expect`. A failed model call returns before that lookup, so that case is modelled on an empty list.
- InLineAgent.InLineAgent.Iterate does not model failures to send on the channels.
- InLineAgent.InLineAgent.Iterate: the model lookup (`get_model`) and the model's reply are the `response` parameter. The documentation-node lookup, the system prompt and the streamed generation are parameters.
- InLineAgent.InLineAgent.Iterate: the agent fields not used by these operations are not modelled (application, repo ref, database, client, model, session id).
- The other files of the repository are context only and not part of this model: `inline_completion/types.rs`, `webserver/repos.rs`, `errors.rs` and the tree-sitter header.

## Findings

| source | as written | input that shows it | evidently intended | confidence | as-written member | corrected member |
|---|---|---|---|---|---|---|
| sidecar/src/inline_completion/context/current_file.rs:98-128 | the loop runs while `current_token_count < token_limit`; when the suffix lines run out under budget, a pass changes nothing, so the loop never exits | a two-line document, cursor on line 1, any budget left after the current line (e.g. ten tokens) | stop at the end of the document as well | not executed | CurrentFile.AsWrittenLoopNeverExits | CurrentFile.CollectSuffix |
