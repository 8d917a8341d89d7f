/** `CurrentFileContext::generate_context`
    (sidecar/src/inline_completion/context/current_file.rs): the prefix and
    suffix of the cursor's file that fit a token budget. The tokenizer and the
    language lookup are parameters. */
module CurrentFile {
  import opened Wrappers
  import opened Strings
  import opened CompletionTypes

  /** The tokens of the run of lines `from..end`, counted line by line. */
  function RunTokens(lines: seq<string>, from: nat, end: nat, countTokens: string -> nat): nat
    requires from <= end <= |lines|
    decreases end - from
  {
    if end == from then 0
    else RunTokens(lines, from, end - 1, countTokens) + countTokens(lines[end - 1])
  }

  /** A longer run never has fewer tokens. */
  lemma {:induction false} RunTokensMonotone(lines: seq<string>, from: nat, mid: nat, end: nat, countTokens: string -> nat)
    requires from <= mid <= end <= |lines|
    ensures RunTokens(lines, from, mid, countTokens) <= RunTokens(lines, from, end, countTokens)
    decreases end - mid
  {
    if mid < end {
      RunTokensMonotone(lines, from, mid, end - 1, countTokens);
    }
  }

  /** The comment line naming the file: `format!("{comment_style} {file_path}")`. */
  function FilePathHeader(commentPrefix: string, filePath: string): string {
    commentPrefix + " " + filePath
  }

  /** The suffix loop stops at `end` when the lines ran out, the budget is
      exactly used, or the next line would not fit. */
  predicate StopsAt(lines: seq<string>, from: nat, budget: nat, end: nat, countTokens: string -> nat)
    requires from <= end <= |lines|
  {
    || end == |lines|
    || RunTokens(lines, from, end, countTokens) == budget
    || RunTokens(lines, from, end + 1, countTokens) > budget
  }

  /** Every run of lines from `from` that ends before `end` is under the budget,
      so the loop's condition held on each of them. */
  predicate UnderBudgetBefore(lines: seq<string>, from: nat, budget: nat, end: nat, countTokens: string -> nat)
    requires from <= end <= |lines|
  {
    forall e :: from <= e < end ==> RunTokens(lines, from, e, countTokens) < budget
  }

  /** `end` closes the suffix window that starts at line `from` under `budget`:
      the lines `from..end` fit, the loop did not stop earlier, and it stops here. */
  predicate IsSuffixWindowEnd(lines: seq<string>, from: nat, budget: nat, end: nat, countTokens: string -> nat)
    requires from <= |lines|
  {
    && from <= end <= |lines|
    && RunTokens(lines, from, end, countTokens) <= budget
    && UnderBudgetBefore(lines, from, budget, end, countTokens)
    && StopsAt(lines, from, budget, end, countTokens)
  }

  /** Before the end of a window the loop has no reason to stop. */
  lemma NoStopBeforeWindowEnd(lines: seq<string>, from: nat, budget: nat, end: nat, countTokens: string -> nat)
    requires from <= |lines|
    requires IsSuffixWindowEnd(lines, from, budget, end, countTokens)
    ensures forall e :: from <= e < end ==> !StopsAt(lines, from, budget, e, countTokens)
  {
    forall e | from <= e < end
      ensures !StopsAt(lines, from, budget, e, countTokens)
    {
      RunTokensMonotone(lines, from, e + 1, end, countTokens);
    }
  }

  /** The window is determined by its start and the budget. */
  lemma SuffixWindowEndUnique(
    lines: seq<string>, from: nat, budget: nat, end1: nat, end2: nat, countTokens: string -> nat)
    requires from <= |lines|
    requires IsSuffixWindowEnd(lines, from, budget, end1, countTokens)
    requires IsSuffixWindowEnd(lines, from, budget, end2, countTokens)
    ensures end1 == end2
  {
    NoStopBeforeWindowEnd(lines, from, budget, end1, countTokens);
    NoStopBeforeWindowEnd(lines, from, budget, end2, countTokens);
  }

  /** The state of the suffix loop as written: the next line to take and the tokens taken. */
  datatype SuffixLoopState = SuffixLoopState(suffixLine: nat, currentTokenCount: nat)

  /** A pass either lets the loop go on or breaks out of it, leaving the state as it was. */
  datatype SuffixLoopStep = Continue(state: SuffixLoopState) | Break(state: SuffixLoopState)

  /** One pass of the loop body as written. `iteration_number` is never
      incremented, so every pass takes the suffix branch; when the lines run
      out, the pass changes nothing. */
  function AsWrittenSuffixStep(
    lines: seq<string>, budget: nat, countTokens: string -> nat, s: SuffixLoopState): (r: SuffixLoopStep)
    ensures r.Break? ==> r.state == s
    ensures r.Continue? && s.suffixLine < |lines| ==> r.state.suffixLine == s.suffixLine + 1
    ensures s.suffixLine >= |lines| ==> r == Continue(s)
  {
    if s.suffixLine < |lines| then
      var tokens := countTokens(lines[s.suffixLine]);
      if s.currentTokenCount + tokens > budget then Break(s)
      else Continue(SuffixLoopState(s.suffixLine + 1, s.currentTokenCount + tokens))
    else Continue(s)
  }

  /** The state after at most `n` passes of the loop as written, which stops
      early when its condition `current_token_count < token_limit` fails or a
      pass breaks out. The loop never moves backwards, and one pass takes at
      most one line. */
  function AsWrittenPasses(
    lines: seq<string>, budget: nat, countTokens: string -> nat, s: SuffixLoopState, n: nat): (r: SuffixLoopStep)
    ensures s.suffixLine <= r.state.suffixLine <= s.suffixLine + n
    decreases n
  {
    if n == 0 || s.currentTokenCount >= budget then Continue(s)
    else match AsWrittenSuffixStep(lines, budget, countTokens, s)
      case Break(t) => Break(t)
      case Continue(t) => AsWrittenPasses(lines, budget, countTokens, t, n - 1)
  }

  /** Once the lines have run out under the budget, the loop as written never
      leaves that state: however many passes it makes, its condition still holds. */
  lemma {:induction false} AsWrittenLoopNeverExits(
    lines: seq<string>, budget: nat, countTokens: string -> nat, s: SuffixLoopState, n: nat)
    requires s.suffixLine >= |lines| && s.currentTokenCount < budget
    ensures AsWrittenPasses(lines, budget, countTokens, s, n) == Continue(s)
    decreases n
  {
    if n > 0 {
      AsWrittenLoopNeverExits(lines, budget, countTokens, s, n - 1);
    }
  }

  /** As written, a cursor on the last line with any budget left makes the loop
      spin: it starts with the suffix line past the end and nothing counted. */
  lemma AsWrittenLoopSpinsOnLastLine(lines: seq<string>, budget: nat, countTokens: string -> nat, n: nat)
    requires |lines| > 0 && budget > 0
    ensures var cursorLine := |lines| - 1;
      var start := SuffixLoopState(cursorLine + 1, 0);
      AsWrittenPasses(lines, budget, countTokens, start, n) == Continue(start)
  {
    AsWrittenLoopNeverExits(lines, budget, countTokens, SuffixLoopState(|lines|, 0), n);
  }

  /** Where the loop as written does stop, by breaking out or by using up the
      budget, it stops at the end of the suffix window, so the corrected loop
      agrees with it on every such input. The state is the one the loop keeps
      from the start `from`: the lines taken so far and their tokens. */
  lemma {:induction false} AsWrittenStopsAtWindowEnd(
    lines: seq<string>, from: nat, budget: nat, countTokens: string -> nat, s: SuffixLoopState, n: nat)
    requires from <= s.suffixLine <= |lines|
    requires s.currentTokenCount == RunTokens(lines, from, s.suffixLine, countTokens) <= budget
    requires UnderBudgetBefore(lines, from, budget, s.suffixLine, countTokens)
    ensures var r := AsWrittenPasses(lines, budget, countTokens, s, n);
      r.Break? || r.state.currentTokenCount >= budget ==>
        r.state.suffixLine <= |lines| && IsSuffixWindowEnd(lines, from, budget, r.state.suffixLine, countTokens)
    decreases n
  {
    if n == 0 {
    } else if s.currentTokenCount >= budget {
      WindowEndAt(lines, from, budget, s.suffixLine, countTokens);
    } else if s.suffixLine == |lines| {
      AsWrittenLoopNeverExits(lines, budget, countTokens, s, n);
    } else {
      var tokens := countTokens(lines[s.suffixLine]);
      if s.currentTokenCount + tokens > budget {
        WindowEndAt(lines, from, budget, s.suffixLine, countTokens);
      } else {
        var t := SuffixLoopState(s.suffixLine + 1, s.currentTokenCount + tokens);
        UnderBudgetExtended(lines, from, budget, s.suffixLine, countTokens);
        AsWrittenStopsAtWindowEnd(lines, from, budget, countTokens, t, n - 1);
      }
    }
  }

  /** From the start of the suffix, wherever the loop as written stops, it has
      taken exactly the window the corrected loop takes. */
  lemma AsWrittenAgreesWhereItStops(lines: seq<string>, from: nat, budget: nat, countTokens: string -> nat, n: nat)
    requires from <= |lines|
    ensures var r := AsWrittenPasses(lines, budget, countTokens, SuffixLoopState(from, 0), n);
      r.Break? || r.state.currentTokenCount >= budget ==>
        r.state.suffixLine <= |lines| && IsSuffixWindowEnd(lines, from, budget, r.state.suffixLine, countTokens)
  {
    AsWrittenStopsAtWindowEnd(lines, from, budget, countTokens, SuffixLoopState(from, 0), n);
  }

  /** A run that fits, ran under the budget before, and stops, ends the window. */
  lemma WindowEndAt(lines: seq<string>, from: nat, budget: nat, end: nat, countTokens: string -> nat)
    requires from <= end <= |lines|
    requires RunTokens(lines, from, end, countTokens) <= budget
    requires UnderBudgetBefore(lines, from, budget, end, countTokens)
    requires StopsAt(lines, from, budget, end, countTokens)
    ensures IsSuffixWindowEnd(lines, from, budget, end, countTokens)
  {
  }

  /** A run still under the budget extends the stretch the loop's condition held on. */
  lemma UnderBudgetExtended(lines: seq<string>, from: nat, budget: nat, end: nat, countTokens: string -> nat)
    requires from <= end < |lines|
    requires UnderBudgetBefore(lines, from, budget, end, countTokens)
    requires RunTokens(lines, from, end, countTokens) < budget
    ensures UnderBudgetBefore(lines, from, budget, end + 1, countTokens)
  {
  }

  /** The tokens left for the suffix: the limit less the current line and,
      when it fits, less the file path header too. */
  function SuffixBudget(tokenLimit: nat, currentLineTokens: nat, headerTokens: nat): (r: nat)
    requires currentLineTokens <= tokenLimit
    ensures r + currentLineTokens <= tokenLimit
    ensures headerTokens <= tokenLimit - currentLineTokens ==> r + currentLineTokens + headerTokens == tokenLimit
    ensures headerTokens > tokenLimit - currentLineTokens ==> r + currentLineTokens == tokenLimit
  {
    var afterLine := tokenLimit - currentLineTokens;
    if headerTokens <= afterLine then afterLine - headerTokens else afterLine
  }

  /** The loop of `generate_context` as corrected: it takes the lines from
      `from` on, in document order, while the running count is under the
      budget, a next line exists, and that line still fits. */
  method CollectSuffix(lines: seq<string>, from: nat, limit: nat, countTokens: string -> nat)
    returns (suffixLine: nat, suffix: seq<string>)
    requires from <= |lines|
    ensures IsSuffixWindowEnd(lines, from, limit, suffixLine, countTokens)
    ensures suffix == lines[from..suffixLine]
  {
    suffix := [];
    var currentTokenCount := 0;
    suffixLine := from;
    while currentTokenCount < limit && suffixLine < |lines|
      invariant from <= suffixLine <= |lines|
      invariant suffix == lines[from..suffixLine]
      invariant currentTokenCount == RunTokens(lines, from, suffixLine, countTokens) <= limit
      invariant UnderBudgetBefore(lines, from, limit, suffixLine, countTokens)
      decreases |lines| - suffixLine
    {
      var line := lines[suffixLine];
      var tokens := countTokens(line);
      if currentTokenCount + tokens > limit {
        break;
      }
      currentTokenCount := currentTokenCount + tokens;
      suffix := suffix + [line];
      suffixLine := suffixLine + 1;
    }
  }

  /** `generate_context`, with the suffix loop corrected to stop at the end of
      the document. The prefix is the current line, preceded by the file path
      header when the header fitted and the line is not indented; it spans
      the cursor's line only, since the prefix branch of the loop never runs.
      The suffix is the window of lines after the cursor that fits the budget. */
  method GenerateContext(
    filePath: string, cursorLine: nat, tokenLimit: nat,
    languageFor: string -> Option<LanguageConfig>, countTokens: string -> nat, lines: seq<string>)
    returns (r: Result<CurrentFilePrefixSuffix, InLineCompletionError>)
    requires cursorLine < |lines|
    requires countTokens(lines[cursorLine]) <= tokenLimit
    ensures languageFor(filePath).None? <==> r.Err?
    ensures r.Err? ==> r.error == NoLanguageConfiguration(filePath)
    ensures r.Ok? ==>
      var current := lines[cursorLine];
      var header := FilePathHeader(languageFor(filePath).value.commentPrefix, filePath);
      var headerFits := countTokens(header) <= tokenLimit - countTokens(current);
      var budget := SuffixBudget(tokenLimit, countTokens(current), countTokens(header));
      var prefix := r.value.prefix;
      var suffix := r.value.suffix;
      && prefix.range == LineRange(cursorLine, cursorLine)
      && prefix.filePath == filePath
      && prefix.content == (if headerFits && !StartsWith(current, " ") && !StartsWith(current, "\t")
                            then header + "\n" + current else current)
      && suffix.range.startLine == cursorLine + 1
      && suffix.filePath == filePath
      && IsSuffixWindowEnd(lines, cursorLine + 1, budget, suffix.range.endLine + 1, countTokens)
      && suffix.content == Join(lines[cursorLine + 1..suffix.range.endLine + 1], "\n")
  {
    var currentLine := lines[cursorLine];
    var limit := tokenLimit - countTokens(currentLine);
    if languageFor(filePath).None? {
      return Err(NoLanguageConfiguration(filePath));
    }
    var commentStyle := languageFor(filePath).value.commentPrefix;
    var filePathContent := FilePathHeader(commentStyle, filePath);
    var possibleFilePath: Option<string> := None;
    var filePathTokenCount := countTokens(filePathContent);
    if filePathTokenCount <= limit {
      possibleFilePath := Some(filePathContent);
      limit := limit - filePathTokenCount;
    }

    // `iteration_number` stays 0, so only the suffix branch runs; the prefix
    // list stays empty and `prefix_line` stays one before the cursor.
    var prefix: seq<string> := [];
    var suffixLine, suffix := CollectSuffix(lines, cursorLine + 1, limit, countTokens);

    // Reversing the empty prefix list changes nothing.
    prefix := prefix + [currentLine];
    assert Join(prefix, "\n") == currentLine;
    if possibleFilePath.Some? && !StartsWith(prefix[0], " ") && !StartsWith(prefix[0], "\t") {
      prefix := [possibleFilePath.value] + prefix;
      assert prefix[1..] == [currentLine];
    }
    // `prefix_line + 1` is the cursor's line again (with wrap-around at line 0).
    var prefixSelection := CodeSelection(LineRange(cursorLine, cursorLine), filePath, Join(prefix, "\n"));
    var suffixSelection := CodeSelection(LineRange(cursorLine + 1, suffixLine - 1), filePath, Join(suffix, "\n"));
    return Ok(CurrentFilePrefixSuffix(prefixSelection, suffixSelection));
  }
}
