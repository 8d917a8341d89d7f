/** The search executor of the iterative code search
    (`Repository::execute_search` in sidecar/src/agentic/tool/search/repository.rs).
    The tag index, the git-aware filename lookup and the filesystem read are
    read-only collaborators and appear here as functions held by the repository. */
module SearchExecutor {
  import opened Wrappers

  newtype byte = x: int | 0 <= x < 256

  datatype SearchToolType = File | Keyword

  /** One query issued by the reasoning backend. */
  datatype SearchQuery = SearchQuery(thinking: string, tool: SearchToolType, query: string)

  datatype SearchResultSnippet = FileContent(bytes: seq<byte>) | Tag(name: string)

  datatype SearchResult = SearchResult(path: string, thinking: string, snippet: SearchResultSnippet)

  /** How the tag index matches the query text: against file paths or exact tag names. */
  datatype SearchMode = FilePath | ExactTagName

  /** A record of the tag index; `kind` is the Debug rendering of the tag's kind. */
  datatype TagRecord = TagRecord(name: string, kind: string, fname: string)

  /** `Repository`: the directory tree and outline text (unused by the search),
      the root directory, and the three read-only collaborators:
      `searchDefinitions(query, mode)` is `TagIndex::search_definitions_flattened(query, false, mode)`,
      `findFile(root, name)` is `GitWalker::find_file`, and
      `readFile(path)` is `fs::read`, `None` standing for a read error. */
  datatype Repository = Repository(
    tree: string,
    outline: string,
    root: string,
    searchDefinitions: (string, SearchMode) -> seq<TagRecord>,
    findFile: (string, string) -> Option<string>,
    readFile: string -> Option<seq<byte>>)

  /** A file query reports at most this many tags, to bound the prompt built from the results. */
  const MaxFileTagResults: nat := 20

  function Min(a: nat, b: nat): nat {
    if a <= b then a else b
  }

  /** The rationale synthesised for a tag: "This file contains a {kind:?} named {name}". */
  function TagRationale(t: TagRecord): string {
    "This file contains a " + t.kind + " named " + t.name
  }

  /** The search result that reports tag `t`. */
  predicate ReportsTag(r: SearchResult, t: TagRecord) {
    r.path == t.fname && r.thinking == TagRationale(t) && r.snippet == Tag(t.name)
  }

  /** One result per tag, in index order. */
  function TagResults(tags: seq<TagRecord>): (r: seq<SearchResult>)
    ensures |r| == |tags|
    ensures forall i :: 0 <= i < |tags| ==> ReportsTag(r[i], tags[i])
  {
    if tags == [] then []
    else [SearchResult(tags[0].fname, TagRationale(tags[0]), Tag(tags[0].name))] + TagResults(tags[1..])
  }

  /** The file-name fallback of a file query that matched no tag: the file found
      under the root, read whole; a file that cannot be read gives empty content. */
  function FallbackResults(repo: Repository, q: SearchQuery): (r: seq<SearchResult>)
    ensures repo.findFile(repo.root, q.query).None? ==> r == []
    ensures repo.findFile(repo.root, q.query).Some? ==>
      var path := repo.findFile(repo.root, q.query).value;
      && |r| == 1
      && r[0].path == path
      && r[0].thinking == q.thinking
      && r[0].snippet.FileContent?
      && (repo.readFile(path).Some? ==> r[0].snippet.bytes == repo.readFile(path).value)
      && (repo.readFile(path).None? ==> r[0].snippet.bytes == [])
  {
    match repo.findFile(repo.root, q.query)
    case None => []
    case Some(path) =>
      var contents := match repo.readFile(path)
        case Some(content) => content
        case None => [];
      [SearchResult(path, q.thinking, FileContent(contents))]
  }

  /** `Repository::execute_search`: a file query looks the text up among file
      paths and reports the first twenty matching tags, or falls back to a
      single file found by name; a keyword query reports every tag whose name
      is exactly the text and never touches the filesystem. */
  function ExecuteSearch(repo: Repository, q: SearchQuery): (r: seq<SearchResult>)
    ensures q.tool == File ==>
      var tags := repo.searchDefinitions(q.query, FilePath);
      && (tags != [] ==>
            && |r| == Min(MaxFileTagResults, |tags|)
            && forall i :: 0 <= i < |r| ==> ReportsTag(r[i], tags[i]))
      && (tags == [] ==> r == FallbackResults(repo, q))
    ensures q.tool == Keyword ==>
      var tags := repo.searchDefinitions(q.query, ExactTagName);
      && |r| == |tags|
      && forall i :: 0 <= i < |r| ==> ReportsTag(r[i], tags[i])
  {
    match q.tool
    case File =>
      var tags := repo.searchDefinitions(q.query, FilePath);
      if tags == [] then FallbackResults(repo, q)
      else TagResults(tags[..Min(MaxFileTagResults, |tags|)])
    case Keyword =>
      TagResults(repo.searchDefinitions(q.query, ExactTagName))
  }

  /** A file query never returns more than twenty results, whatever the index
      and the filesystem hold. */
  lemma FileSearchIsCapped(repo: Repository, q: SearchQuery)
    requires q.tool == File
    ensures |ExecuteSearch(repo, q)| <= MaxFileTagResults
  {
    var tags := repo.searchDefinitions(q.query, FilePath);
    if tags == [] {
      assert |FallbackResults(repo, q)| <= 1;
    }
  }

  /** A keyword query depends on the tag index alone: replacing the filename
      lookup and the file reader changes nothing. */
  lemma KeywordSearchIgnoresFilesystem(
    repo: Repository, q: SearchQuery,
    findFile: (string, string) -> Option<string>, readFile: string -> Option<seq<byte>>)
    requires q.tool == Keyword
    ensures ExecuteSearch(repo.(findFile := findFile, readFile := readFile), q) == ExecuteSearch(repo, q)
  {
  }

  /** A file query whose path lookup finds tags does not touch the filesystem either. */
  lemma TaggedFileSearchIgnoresFilesystem(
    repo: Repository, q: SearchQuery,
    findFile: (string, string) -> Option<string>, readFile: string -> Option<seq<byte>>)
    requires q.tool == File && repo.searchDefinitions(q.query, FilePath) != []
    ensures ExecuteSearch(repo.(findFile := findFile, readFile := readFile), q) == ExecuteSearch(repo, q)
  {
  }

  /** File queries search by path and keyword queries by exact name: the
      result of each depends on the index only through that one mode. */
  lemma SearchUsesOneMode(repo: Repository, q: SearchQuery, other: (string, SearchMode) -> seq<TagRecord>)
    requires q.tool == File ==> other(q.query, FilePath) == repo.searchDefinitions(q.query, FilePath)
    requires q.tool == Keyword ==> other(q.query, ExactTagName) == repo.searchDefinitions(q.query, ExactTagName)
    ensures ExecuteSearch(repo.(searchDefinitions := other), q) == ExecuteSearch(repo, q)
  {
  }
}
