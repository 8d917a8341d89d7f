/** The reply-envelope codec of the Google AI Studio reasoning backend
    (sidecar/src/agentic/tool/search/google_studio.rs): extracting the payload
    framed by `<reply>` lines from generated text, decoding it with a
    schema-specific XML decoder, removing a leading XML declaration from
    serialised search results, and building the user messages of the three
    reasoning steps. The XML decoder and serialiser themselves
    (`serde_xml_rs::from_str`, `to_string`, `File::serialise_files`) are
    parameters of the functions here. */
module ReplyCodec {
  import opened Wrappers
  import opened Strings
  import opened SearchExecutor

  const ReplyOpen := "<reply>"
  const ReplyClose := "</reply>"

  /** `skip_while(|l| !l.contains("<reply>"))`: the lines from the first one
      that holds the opening marker on. */
  function SkipToOpening(lines: seq<string>): (r: seq<string>)
    ensures |r| <= |lines| && r == lines[|lines| - |r|..]
    ensures forall k :: 0 <= k < |lines| - |r| ==> !Contains(lines[k], ReplyOpen)
    ensures r != [] ==> Contains(r[0], ReplyOpen)
  {
    if lines == [] || Contains(lines[0], ReplyOpen) then lines else SkipToOpening(lines[1..])
  }

  /** `take_while(|l| !l.contains("</reply>"))`: the lines before the first one
      that holds the closing marker. */
  function TakeToClosing(lines: seq<string>): (r: seq<string>)
    ensures |r| <= |lines| && r == lines[..|r|]
    ensures forall k :: 0 <= k < |r| ==> !Contains(lines[k], ReplyClose)
    ensures |r| < |lines| ==> Contains(lines[|r|], ReplyClose)
  {
    if lines == [] || Contains(lines[0], ReplyClose) then []
    else [lines[0]] + TakeToClosing(lines[1..])
  }

  /** The payload lines: after the opening line (`skip(1)`) up to the closing line. */
  function ReplyLines(lines: seq<string>): (r: seq<string>)
    ensures r != [] ==> |r| < |lines|
    ensures forall k :: 0 <= k < |r| ==> !Contains(r[k], ReplyClose)
    ensures (forall k :: 0 <= k < |lines| ==> !Contains(lines[k], ReplyOpen)) ==> r == []
  {
    var fromOpening := SkipToOpening(lines);
    if fromOpening == [] then [] else TakeToClosing(fromOpening[1..])
  }

  /** The block every parser hands to the decoder; a text without an opening
      line gives the empty block. */
  function ExtractReplyBlock(response: string): (r: string)
    ensures (forall k :: 0 <= k < |Lines(response)| ==> !Contains(Lines(response)[k], ReplyOpen)) ==> r == ""
  {
    Join(ReplyLines(Lines(response)), "\n")
  }

  lemma {:induction false} SkipToOpeningAt(lines: seq<string>, open: nat)
    requires open <= |lines|
    requires forall k :: 0 <= k < open ==> !Contains(lines[k], ReplyOpen)
    requires open == |lines| || Contains(lines[open], ReplyOpen)
    ensures SkipToOpening(lines) == lines[open..]
    decreases open
  {
    if open > 0 {
      assert forall k :: 0 <= k < open - 1 ==> lines[1..][k] == lines[k + 1];
      SkipToOpeningAt(lines[1..], open - 1);
      assert lines[1..][open - 1..] == lines[open..];
    }
  }

  lemma {:induction false} TakeToClosingAt(lines: seq<string>, close: nat)
    requires close <= |lines|
    requires forall k :: 0 <= k < close ==> !Contains(lines[k], ReplyClose)
    requires close == |lines| || Contains(lines[close], ReplyClose)
    ensures TakeToClosing(lines) == lines[..close]
    decreases close
  {
    if close > 0 {
      assert forall k :: 0 <= k < close - 1 ==> lines[1..][k] == lines[k + 1];
      TakeToClosingAt(lines[1..], close - 1);
      assert lines[..close] == [lines[0]] + lines[1..][..close - 1];
    }
  }

  /** The payload is exactly the lines strictly between the first line holding
      `<reply>` and the next line holding `</reply>`, or the end of the text
      when no later line closes it. Text on the opening line is dropped. */
  lemma ReplyLinesBetween(lines: seq<string>, open: nat, close: nat)
    requires open < close <= |lines|
    requires Contains(lines[open], ReplyOpen)
    requires forall k :: 0 <= k < open ==> !Contains(lines[k], ReplyOpen)
    requires forall k :: open < k < close ==> !Contains(lines[k], ReplyClose)
    requires close == |lines| || Contains(lines[close], ReplyClose)
    ensures ReplyLines(lines) == lines[open + 1..close]
  {
    SkipToOpeningAt(lines, open);
    var rest := lines[open + 1..];
    var end := close - open - 1;
    assert SkipToOpening(lines)[1..] == rest;
    forall k | 0 <= k < end
      ensures !Contains(rest[k], ReplyClose)
    {
      assert rest[k] == lines[open + 1 + k];
    }
    assert end == |rest| || Contains(rest[end], ReplyClose) by {
      if end < |rest| {
        assert rest[end] == lines[close];
      }
    }
    TakeToClosingAt(rest, end);
    assert rest[..end] == lines[open + 1..close];
  }

  /** Without an opening line the payload is empty. */
  lemma ReplyLinesWithoutOpening(lines: seq<string>)
    requires forall k :: 0 <= k < |lines| ==> !Contains(lines[k], ReplyOpen)
    ensures ReplyLines(lines) == []
  {
    assert SkipToOpening(lines) == [];
  }

  predicate SingleLine(s: string) {
    '\n' !in s && '\r' !in s
  }

  /** For a text made of single lines, where line `open` is the first to hold
      `<reply>` and line `close` is the next to hold `</reply>` (or the end),
      the extracted block is the lines strictly between them joined by newlines. */
  lemma ExtractReplyBlockBetween(lines: seq<string>, open: nat, close: nat)
    requires open < close <= |lines|
    requires forall i :: 0 <= i < |lines| ==> SingleLine(lines[i])
    requires lines[|lines| - 1] != ""
    requires Contains(lines[open], ReplyOpen)
    requires forall k :: 0 <= k < open ==> !Contains(lines[k], ReplyOpen)
    requires forall k :: open < k < close ==> !Contains(lines[k], ReplyClose)
    requires close == |lines| || Contains(lines[close], ReplyClose)
    ensures ExtractReplyBlock(Join(lines, "\n")) == Join(lines[open + 1..close], "\n")
  {
    LinesOfJoin(lines);
    ReplyLinesBetween(lines, open, close);
  }

  /** What the abstract XML decoder makes of a block. */
  datatype Decoded<T> = Decoded(value: T) | Malformed(cause: string)

  /** `IterativeSearchError::SerdeError`: the decoder's complaint and the block it was given. */
  datatype IterativeSearchError = SerdeError(cause: string, block: string)

  /** The shared shape of the three parsers: extract the block, decode it,
      and on failure report the block alongside the decoder's error. */
  function ParseReply<T>(response: string, decode: string -> Decoded<T>): (r: Result<T, IterativeSearchError>)
    ensures var block := ExtractReplyBlock(response);
      && (r.Ok? <==> decode(block).Decoded?)
      && (r.Ok? ==> r.value == decode(block).value)
      && (r.Err? ==> r.error == SerdeError(decode(block).cause, block))
  {
    var block := ExtractReplyBlock(response);
    match decode(block)
    case Decoded(value) => Ok(value)
    case Malformed(cause) => Err(SerdeError(cause, block))
  }

  /** A text with no `<reply>` line reaches the decoder as the empty block;
      when the decoder rejects that, the parse fails and reports the empty
      block, it never yields a default value. */
  lemma ParseWithoutOpeningFails<T>(response: string, decode: string -> Decoded<T>)
    requires forall k :: 0 <= k < |Lines(response)| ==> !Contains(Lines(response)[k], ReplyOpen)
    requires decode("").Malformed?
    ensures ParseReply(response, decode) == Err(SerdeError(decode("").cause, ""))
  {
    ReplyLinesWithoutOpening(Lines(response));
  }

  // The three payload schemas.

  datatype SearchRequests = SearchRequests(requests: seq<SearchQuery>)

  datatype IdentifiedFile = IdentifiedFile(path: string, thinking: string)

  datatype IdentifyResponse = IdentifyResponse(items: seq<IdentifiedFile>, scratchPad: string)

  datatype DecideResponse = DecideResponse(suggestions: string, complete: bool)

  /** `parse_search_response`. */
  function ParseSearchResponse(response: string, decode: string -> Decoded<SearchRequests>)
    : (r: Result<SearchRequests, IterativeSearchError>)
    ensures r.Ok? <==> decode(ExtractReplyBlock(response)).Decoded?
    ensures r.Ok? ==> decode(ExtractReplyBlock(response)) == Decoded(r.value)
    ensures r.Err? ==> r.error == SerdeError(decode(ExtractReplyBlock(response)).cause, ExtractReplyBlock(response))
  {
    ParseReply(response, decode)
  }

  /** `parse_identify_response`. */
  function ParseIdentifyResponse(response: string, decode: string -> Decoded<IdentifyResponse>)
    : (r: Result<IdentifyResponse, IterativeSearchError>)
    ensures r.Ok? <==> decode(ExtractReplyBlock(response)).Decoded?
    ensures r.Ok? ==> decode(ExtractReplyBlock(response)) == Decoded(r.value)
    ensures r.Err? ==> r.error == SerdeError(decode(ExtractReplyBlock(response)).cause, ExtractReplyBlock(response))
  {
    ParseReply(response, decode)
  }

  /** `parse_decide_response`. */
  function ParseDecideResponse(response: string, decode: string -> Decoded<DecideResponse>)
    : (r: Result<DecideResponse, IterativeSearchError>)
    ensures r.Ok? <==> decode(ExtractReplyBlock(response)).Decoded?
    ensures r.Ok? ==> decode(ExtractReplyBlock(response)) == Decoded(r.value)
    ensures r.Err? ==> r.error == SerdeError(decode(ExtractReplyBlock(response)).cause, ExtractReplyBlock(response))
  {
    ParseReply(response, decode)
  }

  const XmlDeclarationStart := "<?xml"
  const XmlDeclarationEnd := "?>"

  /** `strip_xml_declaration`: a text that starts with `<?xml` and contains
      `?>` loses everything up to the first `?>` and the whitespace after it;
      any other text is returned as it is. The result is always a suffix. */
  function StripXmlDeclaration(input: string): (r: string)
    ensures |r| <= |input| && r == input[|input| - |r|..]
    ensures !StartsWith(input, XmlDeclarationStart) || !Contains(input, XmlDeclarationEnd) ==> r == input
    ensures StartsWith(input, XmlDeclarationStart) && Contains(input, XmlDeclarationEnd) ==>
      |r| <= |input| - |XmlDeclarationEnd| && (r == [] || !IsWhitespace(r[0]))
  {
    if StartsWith(input, XmlDeclarationStart) then
      match Find(input, XmlDeclarationEnd)
      case Some(endPos) => TrimStart(input[endPos + |XmlDeclarationEnd|..])
      case None => input
    else input
  }

  /** No position before the end of the attributes starts a `?>` when the
      attributes themselves hold none. */
  lemma NoDeclarationEndBefore(attributes: string, rest: string, k: nat)
    requires forall j :: 0 <= j < |attributes| - 1 ==> !(attributes[j] == '?' && attributes[j + 1] == '>')
    requires |rest| > 0 && rest[0] == '?'
    requires k < |XmlDeclarationStart| + |attributes|
    ensures !StartsWith((XmlDeclarationStart + attributes + rest)[k..], XmlDeclarationEnd)
  {
    var s := XmlDeclarationStart + attributes + rest;
    if k + 2 <= |s| {
      if k < |XmlDeclarationStart| {
        assert s[k] == XmlDeclarationStart[k];
        assert k == 1 ==> s[k + 1] == 'x';
      } else if k + 1 < |XmlDeclarationStart| + |attributes| {
        assert s[k] == attributes[k - 5] && s[k + 1] == attributes[k - 4];
      } else {
        assert s[k + 1] == rest[0];
      }
      assert s[k..][..2] == [s[k], s[k + 1]];
    }
  }

  /** A text without `?>` has no `?` directly followed by `>`. */
  lemma NoDeclarationEndChars(attributes: string)
    requires !Contains(attributes, XmlDeclarationEnd)
    ensures forall j :: 0 <= j < |attributes| - 1 ==> !(attributes[j] == '?' && attributes[j + 1] == '>')
  {
    forall j | 0 <= j < |attributes| - 1
      ensures !(attributes[j] == '?' && attributes[j + 1] == '>')
    {
      NotContainsAt(attributes, XmlDeclarationEnd, j);
      assert attributes[j..j + 2] == [attributes[j], attributes[j + 1]];
    }
  }

  /** In a declared text, the `?>` after the attributes is an occurrence and
      no earlier position starts one. */
  lemma DeclarationEndFirst(attributes: string, rest: string)
    requires !Contains(attributes, XmlDeclarationEnd)
    ensures var s := XmlDeclarationStart + attributes + (XmlDeclarationEnd + rest);
      var close := |XmlDeclarationStart| + |attributes|;
      close + |XmlDeclarationEnd| <= |s| && s[close..close + |XmlDeclarationEnd|] == XmlDeclarationEnd
      && forall k :: 0 <= k < close ==> !StartsWith(s[k..], XmlDeclarationEnd)
  {
    var s := XmlDeclarationStart + attributes + (XmlDeclarationEnd + rest);
    var close := |XmlDeclarationStart| + |attributes|;
    assert s[close] == '?' && s[close + 1] == '>';
    assert s[close..close + 2] == [s[close], s[close + 1]];
    NoDeclarationEndChars(attributes);
    forall k | 0 <= k < close
      ensures !StartsWith(s[k..], XmlDeclarationEnd)
    {
      NoDeclarationEndBefore(attributes, XmlDeclarationEnd + rest, k);
    }
  }

  /** The first `?>` of a declared text is the one that closes the declaration. */
  lemma FindDeclarationEnd(attributes: string, rest: string)
    requires !Contains(attributes, XmlDeclarationEnd)
    ensures Find(XmlDeclarationStart + attributes + (XmlDeclarationEnd + rest), XmlDeclarationEnd)
         == Some(|XmlDeclarationStart| + |attributes|)
  {
    DeclarationEndFirst(attributes, rest);
    FindAt(XmlDeclarationStart + attributes + (XmlDeclarationEnd + rest), XmlDeclarationEnd,
      |XmlDeclarationStart| + |attributes|);
  }

  /** The pieces `StripXmlDeclaration` looks at in a declared text. */
  lemma DeclaredParts(attributes: string, space: string, body: string)
    requires forall i :: 0 <= i < |space| ==> IsWhitespace(space[i])
    requires body == [] || !IsWhitespace(body[0])
    ensures var s := XmlDeclarationStart + attributes + (XmlDeclarationEnd + (space + body));
      StartsWith(s, XmlDeclarationStart)
      && s[|XmlDeclarationStart| + |attributes| + |XmlDeclarationEnd|..] == space + body
    ensures TrimStart(space + body) == body
  {
    var s := XmlDeclarationStart + attributes + (XmlDeclarationEnd + (space + body));
    assert s[..|XmlDeclarationStart|] == XmlDeclarationStart;
    TrimStartAt(space + body, |space|);
    assert (space + body)[|space|..] == body;
  }

  /** A serialised value compares equal whether or not a declaration and
      whitespace were put in front of it: stripping removes exactly them. */
  lemma StripXmlDeclarationRoundTrip(attributes: string, space: string, body: string)
    requires !Contains(attributes, XmlDeclarationEnd)
    requires forall i :: 0 <= i < |space| ==> IsWhitespace(space[i])
    requires body == [] || !IsWhitespace(body[0])
    requires !StartsWith(body, XmlDeclarationStart)
    ensures StripXmlDeclaration(XmlDeclarationStart + attributes + (XmlDeclarationEnd + (space + body))) == body
    ensures StripXmlDeclaration(body) == body
  {
    FindDeclarationEnd(attributes, space + body);
    DeclaredParts(attributes, space, body);
  }

  /** The session state the messages are built from; the file entries are
      opaque to this model and reach the prompt only through their serialisation. */
  datatype IterativeSearchContext<F> = IterativeSearchContext(userQuery: string, scratchPad: string, files: seq<F>)

  /** The search results as they are embedded in the identify prompt: each
      result is serialised, a result that fails to serialise is dropped, and
      the declaration is stripped from the others. */
  function SerialisedResults(results: seq<SearchResult>, toXml: SearchResult -> Option<string>): (r: seq<string>)
    ensures |r| <= |results|
    ensures (forall i :: 0 <= i < |results| ==> toXml(results[i]).Some?) ==>
      |r| == |results| && forall i :: 0 <= i < |r| ==> r[i] == StripXmlDeclaration(toXml(results[i]).value)
    ensures (forall i :: 0 <= i < |results| ==> toXml(results[i]).None?) ==> r == []
  {
    if results == [] then []
    else
      var rest := SerialisedResults(results[1..], toXml);
      match toXml(results[0])
      case Some(xml) => [StripXmlDeclaration(xml)] + rest
      case None => rest
  }

  /** The serialisation keeps input order: serialising a concatenation is
      concatenating the serialisations. */
  lemma {:induction false} SerialisedResultsAppend(
    first: seq<SearchResult>, second: seq<SearchResult>, toXml: SearchResult -> Option<string>)
    ensures SerialisedResults(first + second, toXml)
         == SerialisedResults(first, toXml) + SerialisedResults(second, toXml)
    decreases |first|
  {
    if first != [] {
      var both := first + second;
      assert both[0] == first[0] && both[1..] == first[1..] + second;
      SerialisedResultsAppend(first[1..], second, toXml);
    } else {
      assert first + second == second;
    }
  }

  /** `user_message_for_generate_search_query` (as written, the closing
      `</file_context` tag lacks its `>`). */
  function UserMessageForGenerateSearchQuery<F>(
    context: IterativeSearchContext<F>, serialiseFiles: seq<F> -> string): (m: string)
    ensures Contains(m, context.userQuery)
    ensures Contains(m, context.scratchPad)
    ensures Contains(m, serialiseFiles(context.files))
  {
    var files := serialiseFiles(context.files);
    var a := "<issue>\n";
    var b := "\n</issue>\n<thoughts>\n";
    var c := "\n</thoughts>\n<file_context>\n";
    var d := "\n</file_context\n        ";
    var m := a + context.userQuery + b + context.scratchPad + c + files + d;
    ContainsEnding(a, context.userQuery);
    ContainsExtended(a + context.userQuery, context.userQuery, b);
    ContainsExtended(a + context.userQuery + b, context.userQuery, context.scratchPad);
    ContainsExtended(a + context.userQuery + b + context.scratchPad, context.userQuery, c);
    ContainsExtended(a + context.userQuery + b + context.scratchPad + c, context.userQuery, files);
    ContainsExtended(a + context.userQuery + b + context.scratchPad + c + files, context.userQuery, d);
    ContainsEnding(a + context.userQuery + b, context.scratchPad);
    ContainsExtended(a + context.userQuery + b + context.scratchPad, context.scratchPad, c);
    ContainsExtended(a + context.userQuery + b + context.scratchPad + c, context.scratchPad, files);
    ContainsExtended(a + context.userQuery + b + context.scratchPad + c + files, context.scratchPad, d);
    ContainsEnding(a + context.userQuery + b + context.scratchPad + c, files);
    ContainsExtended(a + context.userQuery + b + context.scratchPad + c + files, files, d);
    m
  }

  /** `user_message_for_identify`: the issue, the serialised files, the
      serialised search results joined by newlines, and the scratch pad. */
  function UserMessageForIdentify<F>(
    context: IterativeSearchContext<F>, searchResults: seq<SearchResult>,
    serialiseFiles: seq<F> -> string, toXml: SearchResult -> Option<string>): (m: string)
    ensures Contains(m, context.userQuery)
    ensures Contains(m, serialiseFiles(context.files))
    ensures Contains(m, Join(SerialisedResults(searchResults, toXml), "\n"))
    ensures Contains(m, context.scratchPad)
  {
    var q := context.userQuery;
    var files := serialiseFiles(context.files);
    var results := Join(SerialisedResults(searchResults, toXml), "\n");
    var sp := context.scratchPad;
    var a := "<issue>\n";
    var b := "\n</issue>\n<file_context>\n";
    var c := "\n</file_context>\n<search_results>\n";
    var d := "\n</search_results>\n<scratch_pad>\n";
    var e := "\n</scratch_pad>\n";
    var m := a + q + b + files + c + results + d + sp + e;
    ContainsEnding(a, q);
    ContainsExtended(a + q, q, b);
    ContainsExtended(a + q + b, q, files);
    ContainsExtended(a + q + b + files, q, c);
    ContainsExtended(a + q + b + files + c, q, results);
    ContainsExtended(a + q + b + files + c + results, q, d);
    ContainsExtended(a + q + b + files + c + results + d, q, sp);
    ContainsExtended(a + q + b + files + c + results + d + sp, q, e);
    ContainsEnding(a + q + b, files);
    ContainsExtended(a + q + b + files, files, c);
    ContainsExtended(a + q + b + files + c, files, results);
    ContainsExtended(a + q + b + files + c + results, files, d);
    ContainsExtended(a + q + b + files + c + results + d, files, sp);
    ContainsExtended(a + q + b + files + c + results + d + sp, files, e);
    ContainsEnding(a + q + b + files + c, results);
    ContainsExtended(a + q + b + files + c + results, results, d);
    ContainsExtended(a + q + b + files + c + results + d, results, sp);
    ContainsExtended(a + q + b + files + c + results + d + sp, results, e);
    ContainsEnding(a + q + b + files + c + results + d, sp);
    ContainsExtended(a + q + b + files + c + results + d + sp, sp, e);
    m
  }

  /** `user_message_for_decide`: the issue and the serialised files only (as
      written, the closing `</file_context` tag lacks its `>`). */
  function UserMessageForDecide<F>(context: IterativeSearchContext<F>, serialiseFiles: seq<F> -> string): (m: string)
    ensures Contains(m, context.userQuery)
    ensures Contains(m, serialiseFiles(context.files))
  {
    var q := context.userQuery;
    var files := serialiseFiles(context.files);
    var a := "<user_query>\n";
    var b := "\n</user_query>\n<file_context>\n";
    var c := "\n</file_context\n        ";
    var m := a + q + b + files + c;
    ContainsEnding(a, q);
    ContainsExtended(a + q, q, b);
    ContainsExtended(a + q + b, q, files);
    ContainsExtended(a + q + b + files, q, c);
    ContainsEnding(a + q + b, files);
    ContainsExtended(a + q + b + files, files, c);
    m
  }

  /** The decide prompt does not depend on the scratch pad (and it is given no
      search results at all). */
  lemma DecideMessageIgnoresScratchPad<F>(
    context: IterativeSearchContext<F>, scratchPad: string, serialiseFiles: seq<F> -> string)
    ensures UserMessageForDecide(context.(scratchPad := scratchPad), serialiseFiles)
         == UserMessageForDecide(context, serialiseFiles)
  {
  }
}
