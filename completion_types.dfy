/** The values the inline-completion context builders exchange with their
    callers (sidecar/src/inline_completion/types.rs and the context types):
    the errors they can report, the language configuration they consult, and
    the code selections they produce. */
module CompletionTypes {

  /** The two `InLineCompletionError` variants the context builders return. */
  datatype InLineCompletionError =
    | LanguageNotSupported(reason: string)
    | NoLanguageConfiguration(filePath: string)

  /** The part of a language configuration the builders read. */
  datatype LanguageConfig = LanguageConfig(commentPrefix: string)

  /** A range from the start of line `startLine` to the end of line `endLine`
      (`start_position_at_line` and `end_position_at_line`). */
  datatype LineRange = LineRange(startLine: nat, endLine: nat)

  datatype CodeSelection = CodeSelection(range: LineRange, filePath: string, content: string)

  datatype CurrentFilePrefixSuffix = CurrentFilePrefixSuffix(prefix: CodeSelection, suffix: CodeSelection)
}
