/** The inline agent's actions, messages and state
    (src/in_line_agent/types.rs): parsing the model's choice of action, the
    message constructors, the step list that `iterate` extends, and the
    prompts of documentation generation. The language model, the editor's
    documentation-node lookup, the prompt templates of the prompts module,
    identifiers and clocks are parameters. */
module InLineAgent {
  import opened Wrappers
  import opened Strings

  datatype InLineAgentAction =
    | Code
    | Doc
    | Edit
    | Tests
    | Fix
    | Explain
    | Unknown
    | DecideAction(query: string)

  datatype MessageState = Pending | Started | StreamingAnswer | Finished | Errored

  /** `MessageState::default()`. */
  const DefaultMessageState: MessageState := StreamingAnswer

  /** The parts of a document symbol the agent reads. */
  datatype DocumentSymbol = DocumentSymbol(name: Option<string>, kind: Option<string>, code: string)

  datatype InLineAgentAnswer = InLineAgentAnswer(
    answerUpUntilNow: string, delta: Option<string>, state: MessageState, documentSymbol: Option<DocumentSymbol>)

  /** Message and session identifiers (`uuid::Uuid`), supplied by the caller. */
  type Uuid = nat

  datatype InLineAgentMessage = InLineAgentMessage(
    messageId: Uuid,
    sessionId: Uuid,
    query: string,
    stepsTaken: seq<InLineAgentAction>,
    messageState: MessageState,
    answer: Option<InLineAgentAnswer>,
    lastUpdated: nat,
    createdAt: nat)
  {
    /** `add_agent_action`: one more step at the end, nothing else changes. */
    function AddAgentAction(action: InLineAgentAction): (r: InLineAgentMessage)
      ensures |r.stepsTaken| == |stepsTaken| + 1 && r.stepsTaken[|stepsTaken|] == action
      ensures r.stepsTaken[..|stepsTaken|] == stepsTaken
      ensures r.(stepsTaken := stepsTaken) == this
    {
      this.(stepsTaken := stepsTaken + [action])
    }
  }

  /** The word the model answers with for each action it can choose. */
  function ActionKeyword(action: InLineAgentAction): Option<string> {
    match action
    case Code => Some("code")
    case Doc => Some("doc")
    case Edit => Some("edit")
    case Tests => Some("tests")
    case Fix => Some("fix")
    case Explain => Some("explain")
    case Unknown => Some("unknown")
    case DecideAction(_) => None
  }

  /** The action a word names; any other word is `Unknown`. */
  function ActionOfWord(word: string): (r: InLineAgentAction)
    ensures !r.DecideAction?
    ensures ActionKeyword(r) == Some(word) || (r == Unknown && forall a :: ActionKeyword(a) != Some(word))
  {
    match word
    case "code" => Code
    case "doc" => Doc
    case "edit" => Edit
    case "tests" => Tests
    case "fix" => Fix
    case "explain" => Explain
    case "unknown" => Unknown
    case _ => Unknown
  }

  /** `InLineAgentAction::from_gpt_response`: the trimmed answer names the
      action; any other answer is `Unknown`. It never fails and never asks to
      decide again. */
  function FromGptResponse(response: string): (r: Result<InLineAgentAction, string>)
    ensures r.Ok? && !r.value.DecideAction?
    ensures ActionKeyword(r.value) == Some(Trim(response)) || (r.value == Unknown && forall a :: ActionKeyword(a) != Some(Trim(response)))
  {
    Ok(ActionOfWord(Trim(response)))
  }

  /** Whitespace around an action's word is what `trim` removes. */
  lemma KeywordTrimmed(action: InLineAgentAction, before: string, after: string)
    requires ActionKeyword(action).Some?
    requires forall i :: 0 <= i < |before| ==> IsWhitespace(before[i])
    requires forall i :: 0 <= i < |after| ==> IsWhitespace(after[i])
    ensures Trim(before + ActionKeyword(action).value + after) == ActionKeyword(action).value
  {
    var word := ActionKeyword(action).value;
    assert !IsWhitespace(word[0]) && !IsWhitespace(word[|word| - 1]) by {
      assert word[0] in "cdetfu" && word[|word| - 1] in "cedstxnn";
    }
    TrimPadded(before, word, after);
  }

  /** An answer that is an action's word, with any whitespace around it, parses
      back to that action. */
  lemma FromGptResponseOfKeyword(action: InLineAgentAction, before: string, after: string)
    requires ActionKeyword(action).Some?
    requires forall i :: 0 <= i < |before| ==> IsWhitespace(before[i])
    requires forall i :: 0 <= i < |after| ==> IsWhitespace(after[i])
    ensures FromGptResponse(before + ActionKeyword(action).value + after) == Ok(action)
  {
    KeywordTrimmed(action, before, after);
    FromGptResponseOfTrimmed(before + ActionKeyword(action).value + after, action);
  }

  /** An answer whose trimmed text is an action's word parses to that action. */
  lemma FromGptResponseOfTrimmed(response: string, action: InLineAgentAction)
    requires ActionKeyword(action) == Some(Trim(response))
    ensures FromGptResponse(response) == Ok(action)
  {
    ActionOfKeyword(action);
  }

  /** Each action's word names that action. */
  lemma ActionOfKeyword(action: InLineAgentAction)
    requires ActionKeyword(action).Some?
    ensures ActionOfWord(ActionKeyword(action).value) == action
  {
  }

  /** `InLineAgentMessage::decide_action`: the first message of an exchange,
      already started, whose one step is the given action. */
  function DecideActionMessage(
    messageId: Uuid, sessionId: Uuid, query: string, agentState: InLineAgentAction, currentTime: nat)
    : (m: InLineAgentMessage)
    ensures m.stepsTaken == [agentState] && m.messageState == Started && m.answer.None?
    ensures m.query == query && m.sessionId == sessionId && m.lastUpdated == m.createdAt == currentTime
  {
    InLineAgentMessage(messageId, sessionId, query, [agentState], Started, None, currentTime, currentTime)
  }

  /** `InLineAgentMessage::answer_update`: a message that only carries an answer. */
  function AnswerUpdateMessage(messageId: Uuid, sessionId: Uuid, answerUpdate: InLineAgentAnswer, currentTime: nat)
    : (m: InLineAgentMessage)
    ensures m.query == "" && m.stepsTaken == [] && m.messageState == DefaultMessageState
    ensures m.answer == Some(answerUpdate) && m.sessionId == sessionId && m.lastUpdated == m.createdAt == currentTime
  {
    InLineAgentMessage(messageId, sessionId, "", [], StreamingAnswer, Some(answerUpdate), currentTime, currentTime)
  }

  /** `InLineAgentMessage::start_message`: a pending message with no steps yet. */
  function StartMessage(messageId: Uuid, sessionId: Uuid, query: string, currentTime: nat): (m: InLineAgentMessage)
    ensures m.stepsTaken == [] && m.messageState == Pending && m.answer.None?
    ensures m.query == query && m.sessionId == sessionId && m.lastUpdated == m.createdAt == currentTime
  {
    InLineAgentMessage(messageId, sessionId, query, [], Pending, None, currentTime, currentTime)
  }

  /** A chat message for the model. */
  datatype ChatMessage = System(content: string) | User(content: string)

  /** The comment the model is asked to write, by language. */
  function CommentType(language: string, hasKind: bool): string
  {
    match language
    case "typescript" => if hasKind then "a TSDoc comment" else "TSDoc comment"
    case "typescriptreact" => if hasKind then "a TSDoc comment" else "TSDoc comment"
    case "javascript" => if hasKind then "a JSDoc comment" else "JSDoc comment"
    case "javascriptreact" => if hasKind then "a JSDoc comment" else "JSDoc comment"
    case "python" => "docstring"
    case "rust" => "Rustdoc comment"
    case _ => "documentation comment"
  }

  /** Python asks for a docstring and every other language for some kind of comment. */
  lemma CommentTypeNames(language: string, hasKind: bool)
    ensures CommentType(language, hasKind) == "docstring" <==> language == "python"
    ensures language != "python" ==>
      var r := CommentType(language, hasKind);
      |r| >= 7 && r[|r| - 7..] == "comment"
  {
    var r := CommentType(language, hasKind);
    if language != "python" {
      assert r[|r| - 7..] == "comment";
      assert r[|r| - 1] == 't';
    }
  }

  /** For TypeScript and JavaScript the comment type with a kind is the one
      without, preceded by the article; other languages ignore the kind. */
  lemma CommentTypeArticle(language: string)
    ensures language in {"typescript", "typescriptreact", "javascript", "javascriptreact"} ==>
      CommentType(language, true) == "a " + CommentType(language, false)
    ensures language !in {"typescript", "typescriptreact", "javascript", "javascriptreact"} ==>
      CommentType(language, true) == CommentType(language, false)
  {
  }

  /** `document_symbol_metadata`: the request to document the symbol by name,
      or the selection when it has none. */
  function DocumentSymbolMetadata(symbol: DocumentSymbol, language: string): string {
    var commentType := CommentType(language, symbol.kind.Some?);
    match symbol.name
    case Some(name) => "Please add " + commentType + " for " + name + "."
    case None => "Please add " + commentType + " for the selection."
  }

  /** The request asks for the language's comment type and ends a sentence. */
  lemma MetadataAsksForCommentType(symbol: DocumentSymbol, language: string)
    ensures var r := DocumentSymbolMetadata(symbol, language);
      Contains(r, CommentType(language, symbol.kind.Some?)) && r[|r| - 1] == '.'
  {
    var commentType := CommentType(language, symbol.kind.Some?);
    var before := "Please add ";
    var after := if symbol.name.Some? then " for " + symbol.name.value + "." else " for the selection.";
    assert DocumentSymbolMetadata(symbol, language) == before + commentType + after;
    ContainsEnding(before, commentType);
    ContainsExtended(before + commentType, commentType, after);
  }

  /** The request names the symbol when it has a name. */
  lemma MetadataNamesSymbol(symbol: DocumentSymbol, language: string)
    requires symbol.name.Some?
    ensures Contains(DocumentSymbolMetadata(symbol, language), symbol.name.value)
  {
    var before := "Please add " + CommentType(language, symbol.kind.Some?) + " for ";
    ContainsEnding(before, symbol.name.value);
    ContainsExtended(before + symbol.name.value, symbol.name.value, ".");
  }

  /** A symbol without a name asks for documentation of the selection, and the
      request depends only on the language and on whether the symbol has a kind. */
  lemma MetadataForSelection(symbol: DocumentSymbol, other: DocumentSymbol, language: string)
    requires symbol.name.None? && other.name.None? && symbol.kind.Some? == other.kind.Some?
    ensures DocumentSymbolMetadata(symbol, language) == DocumentSymbolMetadata(other, language)
    ensures Contains(DocumentSymbolMetadata(symbol, language), "the selection")
  {
    var before := "Please add " + CommentType(language, symbol.kind.Some?) + " for ";
    assert DocumentSymbolMetadata(symbol, language) == before + "the selection" + ".";
    ContainsEnding(before, "the selection");
    ContainsExtended(before + "the selection", "the selection", ".");
  }

  /** `document_symbol_prompt`: the symbol's code in a fenced block tagged with
      the language and headed by a comment naming the file. */
  function DocumentSymbolPrompt(symbol: DocumentSymbol, language: string, filePath: string): string {
    "I have the following code in the selection:\n```" + language + "\n// FILEPATH: " + filePath + "\n"
      + symbol.code + "\n```\n"
  }

  /** The prompt opens a code fence tagged with the language and closes it at its end. */
  lemma DocumentSymbolPromptFenced(symbol: DocumentSymbol, language: string, filePath: string)
    ensures var r := DocumentSymbolPrompt(symbol, language, filePath);
      && StartsWith(r, "I have the following code in the selection:\n```" + language)
      && |r| >= 5 && r[|r| - 5..] == "\n```\n"
  {
    var head := "I have the following code in the selection:\n```" + language;
    var rest := "\n// FILEPATH: " + filePath + "\n" + symbol.code;
    var r := DocumentSymbolPrompt(symbol, language, filePath);
    assert r == head + rest + "\n```\n";
    assert r[..|head|] == head;
    assert r[|r| - 5..] == "\n```\n";
  }

  /** The code prompt shows the symbol's code and names its file. */
  lemma DocumentSymbolPromptShowsCode(symbol: DocumentSymbol, language: string, filePath: string)
    ensures Contains(DocumentSymbolPrompt(symbol, language, filePath), symbol.code)
    ensures Contains(DocumentSymbolPrompt(symbol, language, filePath), filePath)
  {
    var a := "I have the following code in the selection:\n```";
    var b := "\n// FILEPATH: ";
    var c := "\n";
    var d := "\n```\n";
    ContainsEnding(a + language + b + filePath + c, symbol.code);
    ContainsExtended(a + language + b + filePath + c + symbol.code, symbol.code, d);
    ContainsEnding(a + language + b, filePath);
    ContainsExtended(a + language + b + filePath, filePath, c);
    ContainsExtended(a + language + b + filePath + c, filePath, symbol.code);
    ContainsExtended(a + language + b + filePath + c + symbol.code, filePath, d);
  }

  /** The three messages for one symbol: the system prompt, the code, and the
      request followed by the user's query. */
  function SymbolMessages(
    symbol: DocumentSymbol, language: string, filePath: string, query: string,
    systemPrompt: (string, bool) -> string): (r: seq<ChatMessage>)
    ensures |r| == 3 && r[0].System? && r[1].User? && r[2].User?
    ensures r[0].content == systemPrompt(language, symbol.kind.Some?)
  {
    [ System(systemPrompt(language, symbol.kind.Some?)),
      User(DocumentSymbolPrompt(symbol, language, filePath)),
      User(DocumentSymbolMetadata(symbol, language) + " " + query) ]
  }

  /** The code message shows the symbol's code and file; the request message
      asks for the language's comment type and ends with the user's query. */
  lemma SymbolMessagesContent(
    symbol: DocumentSymbol, language: string, filePath: string, query: string,
    systemPrompt: (string, bool) -> string)
    ensures var r := SymbolMessages(symbol, language, filePath, query, systemPrompt);
      && Contains(r[1].content, symbol.code) && Contains(r[1].content, filePath)
      && Contains(r[2].content, CommentType(language, symbol.kind.Some?))
      && |r[2].content| >= |query| && r[2].content[|r[2].content| - |query|..] == query
  {
    DocumentSymbolPromptShowsCode(symbol, language, filePath);
    var request := DocumentSymbolMetadata(symbol, language);
    MetadataAsksForCommentType(symbol, language);
    ContainsExtended(request, CommentType(language, symbol.kind.Some?), " " + query);
    assert request + " " + query == request + (" " + query);
  }

  /** `messages_for_documentation_generation`: one entry per symbol, in order,
      each with its three messages and the symbol itself. */
  function MessagesForDocumentationGeneration(
    symbols: seq<DocumentSymbol>, language: string, filePath: string, query: string,
    systemPrompt: (string, bool) -> string): (r: seq<(seq<ChatMessage>, DocumentSymbol)>)
    ensures |r| == |symbols|
    ensures forall i :: 0 <= i < |r| ==>
      && |r[i].0| == 3
      && r[i].0 == SymbolMessages(symbols[i], language, filePath, query, systemPrompt)
      && r[i].1 == symbols[i]
  {
    if symbols == [] then []
    else
      var entry := (SymbolMessages(symbols[0], language, filePath, query, systemPrompt), symbols[0]);
      [entry] + MessagesForDocumentationGeneration(symbols[1..], language, filePath, query, systemPrompt)
  }

  /** The answers sent for the symbols' message lists, in order: one per
      symbol whose generation succeeded. */
  function DocumentationAnswers(
    messagesList: seq<(seq<ChatMessage>, DocumentSymbol)>, llm: seq<ChatMessage> -> Option<string>)
    : (r: seq<InLineAgentAnswer>)
    ensures |r| <= |messagesList|
    ensures forall k :: 0 <= k < |r| ==> r[k].state == DefaultMessageState && r[k].delta == Some(r[k].answerUpUntilNow)
    ensures (forall i :: 0 <= i < |messagesList| ==> llm(messagesList[i].0).Some?) ==>
      && |r| == |messagesList|
      && forall i :: 0 <= i < |r| ==>
           r[i].answerUpUntilNow == llm(messagesList[i].0).value && r[i].documentSymbol == Some(messagesList[i].1)
  {
    if messagesList == [] then []
    else
      var init := messagesList[..|messagesList| - 1];
      var (messages, symbol) := messagesList[|messagesList| - 1];
      DocumentationAnswers(init, llm)
        + match llm(messages)
          case Some(answer) => [InLineAgentAnswer(answer, Some(answer), DefaultMessageState, Some(symbol))]
          case None => []
  }

  /** The answer sent for one symbol's messages: its generated text, with the
      symbol, or nothing when the generation failed. */
  lemma DocumentationAnswerOfOne(entry: (seq<ChatMessage>, DocumentSymbol), llm: seq<ChatMessage> -> Option<string>)
    ensures llm(entry.0).None? ==> DocumentationAnswers([entry], llm) == []
    ensures llm(entry.0).Some? ==>
      var answer := llm(entry.0).value;
      DocumentationAnswers([entry], llm) == [InLineAgentAnswer(answer, Some(answer), DefaultMessageState, Some(entry.1))]
  {
    assert [entry][..0] == [];
  }

  /** A failed generation skips only its own symbol: the answers for a
      concatenation of message lists are the answers for each, in order. */
  lemma {:induction false} DocumentationAnswersAppend(
    first: seq<(seq<ChatMessage>, DocumentSymbol)>, second: seq<(seq<ChatMessage>, DocumentSymbol)>,
    llm: seq<ChatMessage> -> Option<string>)
    ensures DocumentationAnswers(first + second, llm)
         == DocumentationAnswers(first, llm) + DocumentationAnswers(second, llm)
    decreases |second|
  {
    if second == [] {
      assert first + second == first;
    } else {
      var both := first + second;
      assert both[..|both| - 1] == first + second[..|second| - 1];
      assert both[|both| - 1] == second[|second| - 1];
      DocumentationAnswersAppend(first, second[..|second| - 1], llm);
    }
  }

  /** The `for_each` over the message lists: each list goes to the model in
      turn, and a successful generation is sent as a finished answer carrying
      its symbol; a failed one sends nothing. */
  method StreamDocumentation(
    messagesList: seq<(seq<ChatMessage>, DocumentSymbol)>, llm: seq<ChatMessage> -> Option<string>)
    returns (answers: seq<InLineAgentAnswer>)
    ensures answers == DocumentationAnswers(messagesList, llm)
  {
    answers := [];
    for i := 0 to |messagesList|
      invariant answers == DocumentationAnswers(messagesList[..i], llm)
    {
      assert messagesList[..i + 1][..i] == messagesList[..i];
      var (messages, documentSymbol) := messagesList[i];
      match llm(messages)
      case Some(answer) =>
        answers := answers + [InLineAgentAnswer(answer, Some(answer), DefaultMessageState, Some(documentSymbol))];
      case None =>
    }
    assert messagesList[..|messagesList|] == messagesList;
  }

  const NoDocumentationNode := "could not find documentation node"

  /** The exchange's current message (`last_mut`); the source panics without one. */
  function Last(messages: seq<InLineAgentMessage>): InLineAgentMessage
    requires messages != []
  {
    messages[|messages| - 1]
  }

  /** The messages with the last one replaced. */
  function WithLast(messages: seq<InLineAgentMessage>, m: InLineAgentMessage): (r: seq<InLineAgentMessage>)
    requires messages != []
    ensures |r| == |messages| && r[..|r| - 1] == messages[..|messages| - 1] && Last(r) == m
  {
    messages[|messages| - 1 := m]
  }

  /** The agent: the exchange's messages, the messages it sent to the editor,
      and the editor request it serves. */
  class InLineAgent {
    var inlineAgentMessages: seq<InLineAgentMessage>
    var sent: seq<InLineAgentMessage>
    const language: string
    const fsFilePath: string
    const request: string

    constructor (messages: seq<InLineAgentMessage>, language: string, fsFilePath: string, request: string)
      ensures inlineAgentMessages == messages && sent == []
      ensures this.language == language && this.fsFilePath == fsFilePath && this.request == request
    {
      inlineAgentMessages := messages;
      sent := [];
      this.language := language;
      this.fsFilePath := fsFilePath;
      this.request := request;
    }

    /** `get_last_agent_message().add_agent_action(action)`. */
    method AddStepToLastMessage(action: InLineAgentAction)
      requires inlineAgentMessages != []
      modifies this
      ensures inlineAgentMessages
           == WithLast(old(inlineAgentMessages), Last(old(inlineAgentMessages)).AddAgentAction(action))
      ensures sent == old(sent)
    {
      inlineAgentMessages := WithLast(inlineAgentMessages, Last(inlineAgentMessages).AddAgentAction(action));
    }

    /** `apologise_message`: the last message records `Unknown`. */
    method ApologiseMessage()
      requires inlineAgentMessages != []
      modifies this
      ensures inlineAgentMessages
           == WithLast(old(inlineAgentMessages), Last(old(inlineAgentMessages)).AddAgentAction(Unknown))
      ensures sent == old(sent)
    {
      AddStepToLastMessage(Unknown);
    }

    /** `decide_action`: given the model's reply, the last message records the
      decision step and the reply is parsed; a failed call changes nothing. */
    method DecideActionStep(query: string, response: Result<string, string>)
      returns (r: Result<InLineAgentAction, string>)
      requires response.Ok? ==> inlineAgentMessages != []
      modifies this
      ensures response.Err? ==> r == Err(response.error) && inlineAgentMessages == old(inlineAgentMessages)
      ensures response.Ok? ==>
        && r == FromGptResponse(response.value)
        && inlineAgentMessages
           == WithLast(old(inlineAgentMessages), Last(old(inlineAgentMessages)).AddAgentAction(DecideAction(query)))
      ensures sent == old(sent)
    {
      if response.Err? {
        return Err(response.error);
      }
      AddStepToLastMessage(DecideAction(query));
      r := FromGptResponse(response.value);
    }

    /** `generate_documentation`: with no documentation node the last message
      is marked `Errored` and one errored answer is sent; otherwise it is
      marked `StreamingAnswer` and one answer is sent per symbol the model
      documented, in order. */
    method GenerateDocumentation(
      documentNodes: seq<DocumentSymbol>, systemPrompt: (string, bool) -> string,
      llm: seq<ChatMessage> -> Option<string>)
      returns (answers: seq<InLineAgentAnswer>)
      requires inlineAgentMessages != []
      modifies this
      ensures inlineAgentMessages
           == WithLast(old(inlineAgentMessages), Last(old(inlineAgentMessages)).(
                messageState := if documentNodes == [] then Errored else StreamingAnswer))
      ensures sent == old(sent)
      ensures documentNodes == [] ==>
        answers == [InLineAgentAnswer(NoDocumentationNode, Some(NoDocumentationNode), Errored, None)]
      ensures documentNodes != [] ==>
        answers == DocumentationAnswers(
          MessagesForDocumentationGeneration(documentNodes, language, fsFilePath, request, systemPrompt), llm)
    {
      if documentNodes == [] {
        inlineAgentMessages := WithLast(inlineAgentMessages, Last(inlineAgentMessages).(messageState := Errored));
        answers := [InLineAgentAnswer(NoDocumentationNode, Some(NoDocumentationNode), Errored, None)];
        return;
      }
      inlineAgentMessages := WithLast(inlineAgentMessages, Last(inlineAgentMessages).(messageState := StreamingAnswer));
      var messagesList := MessagesForDocumentationGeneration(documentNodes, language, fsFilePath, request, systemPrompt);
      answers := StreamDocumentation(messagesList, llm);
    }

    /** `iterate`: a decision step records `DecideAction`, sends the last
      message and returns the parsed next action; a documentation step
      records `Doc`, sends the last message and generates documentation; any
      other action records `Unknown`. */
    method Iterate(
      action: InLineAgentAction, response: Result<string, string>,
      documentNodes: seq<DocumentSymbol>, systemPrompt: (string, bool) -> string,
      llm: seq<ChatMessage> -> Option<string>)
      returns (r: Result<Option<InLineAgentAction>, string>, answers: seq<InLineAgentAnswer>)
      requires inlineAgentMessages != [] || (action.DecideAction? && response.Err?)
      modifies this
      ensures match action
        case DecideAction(query) =>
          && answers == []
          && (response.Err? ==> r == Err(response.error) && inlineAgentMessages == old(inlineAgentMessages)
                                && sent == old(sent))
          && (response.Ok? ==>
                var before := Last(old(inlineAgentMessages));
                && r == Ok(Some(FromGptResponse(response.value).value))
                && inlineAgentMessages == WithLast(old(inlineAgentMessages), before.AddAgentAction(action))
                && sent == old(sent) + [before.AddAgentAction(action)])
        case Doc =>
          var before := Last(old(inlineAgentMessages));
          && r == Ok(None)
          && inlineAgentMessages == WithLast(old(inlineAgentMessages), before.AddAgentAction(Doc).(
               messageState := if documentNodes == [] then Errored else StreamingAnswer))
          && sent == old(sent) + [before.AddAgentAction(Doc)]
          && (documentNodes == [] ==>
                answers == [InLineAgentAnswer(NoDocumentationNode, Some(NoDocumentationNode), Errored, None)])
          && (documentNodes != [] ==>
                answers == DocumentationAnswers(
                  MessagesForDocumentationGeneration(documentNodes, language, fsFilePath, request, systemPrompt), llm))
        case _ =>
          var before := Last(old(inlineAgentMessages));
          && r == Ok(None) && answers == []
          && inlineAgentMessages == WithLast(old(inlineAgentMessages), before.AddAgentAction(Unknown))
          && sent == old(sent)
    {
      answers := [];
      match action
      case DecideAction(query) =>
        var nextAction := DecideActionStep(query, response);
        if nextAction.Err? {
          return Err(nextAction.error), answers;
        }
        sent := sent + [Last(inlineAgentMessages)];
        r := Ok(Some(nextAction.value));
      case Doc =>
        AddStepToLastMessage(Doc);
        sent := sent + [Last(inlineAgentMessages)];
        answers := GenerateDocumentation(documentNodes, systemPrompt, llm);
        r := Ok(None);
      case _ =>
        ApologiseMessage();
        r := Ok(None);
    }
  }

  /** However an exchange proceeds, a step only ever extends the step list:
      the earlier steps are kept, in order. */
  lemma {:induction false} AddAgentActionKeepsSteps(m: InLineAgentMessage, actions: seq<InLineAgentAction>)
    ensures StepsAfter(m, actions).stepsTaken == m.stepsTaken + actions
    ensures StepsAfter(m, actions).messageState == m.messageState
  {
    if actions != [] {
      AddAgentActionKeepsSteps(m, actions[..|actions| - 1]);
      assert m.stepsTaken + actions == m.stepsTaken + actions[..|actions| - 1] + [actions[|actions| - 1]];
    }
  }

  /** The message after recording each of `actions` in turn. */
  function StepsAfter(m: InLineAgentMessage, actions: seq<InLineAgentAction>): InLineAgentMessage {
    if actions == [] then m else StepsAfter(m, actions[..|actions| - 1]).AddAgentAction(actions[|actions| - 1])
  }
}
