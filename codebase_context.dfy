/** `CodeBaseContext` (sidecar/src/inline_completion/context/codebase_context.rs):
    the window of the current file that is matched against other files, and
    the codebase context assembled from the ranked snippets of recently used
    files, at most ten per file, each written as comment lines. The symbol
    tracker that finds and ranks the snippets, the tokenizer and the language
    lookup are parameters. */
module CodebaseContext {
  import opened Wrappers
  import opened Strings
  import opened CompletionTypes

  /** How many lines before the cursor the window keeps. */
  const WindowLines: nat := 50

  /** How many snippets one file may contribute. */
  const MaxSnippetsPerFile: nat := 10

  datatype CodebaseContextString = TruncatedToLimit(prefix: string, usedTokens: int) | UnableToTruncate

  /** `get_prefix_with_tokens`: the context and its token count, when there is one. */
  function GetPrefixWithTokens(c: CodebaseContextString): (r: Option<(string, int)>)
    ensures r.Some? <==> c.TruncatedToLimit?
    ensures r.Some? ==> r.value.0 == c.prefix && r.value.1 == c.usedTokens
  {
    match c
    case TruncatedToLimit(prefix, usedTokens) => Some((prefix, usedTokens))
    case UnableToTruncate => None
  }

  /** The lines of the window: the (at most fifty) lines just before the
      cursor's line. A cursor past the last line makes the source's slice panic. */
  function ContextWindowLines(lines: seq<string>, currentLine: nat): (w: seq<string>)
    requires currentLine <= |lines|
    ensures |w| == if currentLine >= WindowLines then WindowLines else currentLine
    ensures w == lines[currentLine - |w|..currentLine]
  {
    var startLine := if currentLine >= WindowLines then currentLine - WindowLines else 0;
    lines[startLine..currentLine]
  }

  /** `get_context_window_from_current_file`: empty for a cursor on the first line. */
  function ContextWindowFromCurrentFile(fileContent: string, currentLine: nat): (r: string)
    requires currentLine <= |Lines(fileContent)|
    ensures currentLine == 0 ==> r == ""
  {
    Join(ContextWindowLines(Lines(fileContent), currentLine), "\n")
  }

  /** Each of the (at most fifty) lines before the cursor's line appears in the window. */
  lemma ContextWindowShowsLine(fileContent: string, currentLine: nat, line: nat)
    requires currentLine <= |Lines(fileContent)|
    requires line < currentLine && currentLine - line <= WindowLines
    ensures Contains(ContextWindowFromCurrentFile(fileContent, currentLine), Lines(fileContent)[line])
  {
    var lines := Lines(fileContent);
    var w := ContextWindowLines(lines, currentLine);
    var i := line - (currentLine - |w|);
    assert w[i] == lines[line];
    JoinContainsPart(w, "\n", i);
  }

  /** For a file written as newline-separated lines, the window is those lines
      of the fifty before the cursor, joined again by newlines. */
  lemma ContextWindowOfJoinedLines(lines: seq<string>, currentLine: nat)
    requires lines != [] && lines[|lines| - 1] != ""
    requires forall i :: 0 <= i < |lines| ==> '\n' !in lines[i] && '\r' !in lines[i]
    requires currentLine <= |lines|
    ensures Lines(Join(lines, "\n")) == lines
    ensures ContextWindowFromCurrentFile(Join(lines, "\n"), currentLine)
         == Join(lines[if currentLine >= WindowLines then currentLine - WindowLines else 0..currentLine], "\n")
  {
    var text := Join(lines, "\n");
    LinesOfJoin(lines);
    assert Lines(text) == lines;
  }

  /** A ranked snippet: the file it comes from and its text. */
  datatype Snippet = Snippet(filePath: string, snippet: string)

  /** Each line of a snippet behind the comment prefix: `format!("{} {}", prefix, line)`. */
  function CommentLines(commentPrefix: string, lines: seq<string>): (r: seq<string>)
    ensures |r| == |lines|
    ensures forall i :: 0 <= i < |r| ==> r[i] == commentPrefix + " " + lines[i]
  {
    if lines == [] then []
    else [commentPrefix + " " + lines[0]] + CommentLines(commentPrefix, lines[1..])
  }

  /** The comment line that names a snippet's file. */
  function PathHeader(commentPrefix: string, filePath: string): string {
    commentPrefix + " Path: " + filePath
  }

  /** A snippet as it enters the context: the path header, a newline, and the
      snippet's lines commented out and joined by newlines. */
  function CommentedSnippet(commentPrefix: string, s: Snippet): string {
    PathHeader(commentPrefix, s.filePath) + "\n"
      + Join(CommentLines(commentPrefix, Split(s.snippet, '\n')), "\n")
  }

  /** The block is the path header followed by one commented line per line of
      the snippet, and dropping the prefixes gives the snippet back. */
  lemma CommentedSnippetLines(commentPrefix: string, s: Snippet)
    requires '\n' !in commentPrefix && '\n' !in s.filePath
    ensures var blockLines := Split(CommentedSnippet(commentPrefix, s), '\n');
      && |blockLines| == 1 + |Split(s.snippet, '\n')|
      && blockLines[0] == PathHeader(commentPrefix, s.filePath)
      && (forall i :: 1 <= i < |blockLines| ==> blockLines[i] == commentPrefix + " " + Split(s.snippet, '\n')[i - 1])
      && Join(Split(s.snippet, '\n'), "\n") == s.snippet
  {
    var header := PathHeader(commentPrefix, s.filePath);
    var commented := CommentLines(commentPrefix, Split(s.snippet, '\n'));
    var parts := [header] + commented;
    assert parts[1..] == commented;
    assert Join(parts, "\n") == CommentedSnippet(commentPrefix, s);
    forall i | 0 <= i < |parts|
      ensures '\n' !in parts[i]
    {
      if i > 0 {
        assert parts[i] == commentPrefix + " " + Split(s.snippet, '\n')[i - 1];
      }
    }
    SplitJoin(parts, '\n');
  }

  /** How many of the snippets come from `path`. */
  function Occurrences(snippets: seq<Snippet>, path: string): nat {
    if snippets == [] then 0
    else
      Occurrences(snippets[..|snippets| - 1], path) + (if snippets[|snippets| - 1].filePath == path then 1 else 0)
  }

  /** The snippets that are kept, in ranking order: a snippet is kept when
      fewer than ten earlier snippets came from its file. */
  function Selected(snippets: seq<Snippet>): (r: seq<Snippet>)
    ensures |r| <= |snippets|
    ensures forall x :: x in r ==> x in snippets
  {
    if snippets == [] then []
    else
      var init := snippets[..|snippets| - 1];
      var last := snippets[|snippets| - 1];
      Selected(init) + (if Occurrences(init, last.filePath) < MaxSnippetsPerFile then [last] else [])
  }

  /** Every file contributes its first ten snippets, or all of them when it has fewer. */
  lemma {:induction false} SelectedCountPerFile(snippets: seq<Snippet>, path: string)
    ensures Occurrences(Selected(snippets), path)
         == if Occurrences(snippets, path) < MaxSnippetsPerFile then Occurrences(snippets, path) else MaxSnippetsPerFile
    decreases |snippets|
  {
    if snippets != [] {
      var init := snippets[..|snippets| - 1];
      var last := snippets[|snippets| - 1];
      SelectedCountPerFile(init, path);
      var kept := if Occurrences(init, last.filePath) < MaxSnippetsPerFile then [last] else [];
      OccurrencesAppend(Selected(init), kept, path);
    }
  }

  lemma {:induction false} OccurrencesAppend(first: seq<Snippet>, second: seq<Snippet>, path: string)
    requires |second| <= 1
    ensures Occurrences(first + second, path)
         == Occurrences(first, path) + (if second != [] && second[0].filePath == path then 1 else 0)
  {
    if second != [] {
      assert (first + second)[..|first + second| - 1] == first;
    } else {
      assert first + second == first;
    }
  }

  /** The blocks of the kept snippets, in order. */
  function Blocks(commentPrefix: string, snippets: seq<Snippet>): seq<string> {
    seq(|snippets|, i requires 0 <= i < |snippets| => CommentedSnippet(commentPrefix, snippets[i]))
  }

  /** One more ranked snippet: it is kept exactly when its file has fewer than
      ten snippets among the earlier ones, and then its block is appended. */
  lemma SelectedStep(commentPrefix: string, snippets: seq<Snippet>, i: nat)
    requires i < |snippets|
    ensures Selected(snippets[..i + 1])
         == Selected(snippets[..i])
          + (if Occurrences(snippets[..i], snippets[i].filePath) < MaxSnippetsPerFile then [snippets[i]] else [])
    ensures Occurrences(snippets[..i + 1], snippets[i].filePath) == Occurrences(snippets[..i], snippets[i].filePath) + 1
    ensures forall p :: p != snippets[i].filePath ==> Occurrences(snippets[..i + 1], p) == Occurrences(snippets[..i], p)
    ensures Blocks(commentPrefix, Selected(snippets[..i]) + [snippets[i]])
         == Blocks(commentPrefix, Selected(snippets[..i])) + [CommentedSnippet(commentPrefix, snippets[i])]
  {
    assert snippets[..i + 1][..i] == snippets[..i];
    var sel := Selected(snippets[..i]) + [snippets[i]];
    assert sel[..|sel| - 1] == Selected(snippets[..i]);
  }

  /** The counter map's entry for a file, zero when it has none (`get(..).unwrap_or(&0)`). */
  function CountFor(counts: map<string, nat>, path: string): nat {
    if path in counts then counts[path] else 0
  }

  /** `tokens as i64` on a 64-bit `usize`. */
  function AsI64(n: nat): (r: int)
    ensures -0x8000_0000_0000_0000 <= r < 0x8000_0000_0000_0000
    ensures n < 0x8000_0000_0000_0000 ==> r == n
  {
    var w := n % 0x1_0000_0000_0000_0000;
    if w < 0x8000_0000_0000_0000 then w else w - 0x1_0000_0000_0000_0000
  }

  /** `generate_context` over the snippets the symbol tracker found, already in
      ranking order: the kept snippets' blocks joined by blank lines, with
      their token count. */
  method GenerateContext(
    filePath: string, tokenLimit: nat, languageFor: string -> Option<LanguageConfig>,
    countTokens: string -> nat, relevantSnippets: seq<Snippet>)
    returns (r: Result<CodebaseContextString, InLineCompletionError>)
    ensures languageFor(filePath).None? <==> r.Err?
    ensures r.Err? ==> r.error == LanguageNotSupported("not_supported")
    ensures r.Ok? ==>
      var context := Join(Blocks(languageFor(filePath).value.commentPrefix, Selected(relevantSnippets)), "\n\n");
      r.value == TruncatedToLimit(context, AsI64(countTokens(context)))
  {
    if languageFor(filePath).None? {
      return Err(LanguageNotSupported("not_supported"));
    }
    var languageConfig := languageFor(filePath).value;
    var runningContext: seq<string> := [];
    var includedSnippetFromFiles: map<string, nat> := map[];
    for i := 0 to |relevantSnippets|
      invariant forall p :: CountFor(includedSnippetFromFiles, p) == Occurrences(relevantSnippets[..i], p)
      invariant runningContext == Blocks(languageConfig.commentPrefix, Selected(relevantSnippets[..i]))
    {
      var snippet := relevantSnippets[i];
      SelectedStep(languageConfig.commentPrefix, relevantSnippets, i);
      var currentCount := CountFor(includedSnippetFromFiles, snippet.filePath) + 1;
      ghost var before := includedSnippetFromFiles;
      includedSnippetFromFiles := includedSnippetFromFiles[snippet.filePath := currentCount];
      forall p
        ensures CountFor(includedSnippetFromFiles, p) == Occurrences(relevantSnippets[..i + 1], p)
      {
        if p != snippet.filePath {
          assert CountFor(includedSnippetFromFiles, p) == CountFor(before, p);
        }
      }
      if currentCount > MaxSnippetsPerFile {
        continue;
      }
      runningContext := runningContext + [CommentedSnippet(languageConfig.commentPrefix, snippet)];
    }
    assert relevantSnippets[..|relevantSnippets|] == relevantSnippets;
    var prefixContext := Join(runningContext, "\n\n");
    var usedTokensForPrefix := countTokens(prefixContext);
    return Ok(TruncatedToLimit(prefixContext, AsI64(usedTokensForPrefix)));
  }
}
