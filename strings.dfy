/** Text helpers with the meaning of the Rust standard library operations the
    core uses: `str::lines`, `split('\n')`, `join`, `contains`, `starts_with`,
    `find`, `trim_start` and `trim`. Strings are sequences of Unicode scalar values. */
module Strings {
  import opened Wrappers

  /** Rust's `char::is_whitespace`: the characters with the Unicode White_Space property. */
  predicate IsWhitespace(c: char) {
    ('\t' <= c <= '\r') || c == ' ' || c == '\U{85}' || c == '\U{A0}' || c == '\U{1680}'
    || ('\U{2000}' <= c <= '\U{200A}') || c == '\U{2028}' || c == '\U{2029}'
    || c == '\U{202F}' || c == '\U{205F}' || c == '\U{3000}'
  }

  predicate StartsWith(s: string, prefix: string) {
    |prefix| <= |s| && s[..|prefix|] == prefix
  }

  /** `s.contains(pattern)`: some position of `s` starts an occurrence of `pattern`. */
  predicate Contains(s: string, pattern: string) {
    exists k :: 0 <= k <= |s| && StartsWith(s[k..], pattern)
  }

  /** An occurrence of `pattern` at position `k` is a witness for `Contains`. */
  lemma ContainsAt(s: string, pattern: string, k: nat)
    requires k + |pattern| <= |s| && s[k..k + |pattern|] == pattern
    ensures Contains(s, pattern)
  {
    assert s[k..][..|pattern|] == s[k..k + |pattern|];
  }

  /** `s.find(pattern)`: the first position at which `pattern` occurs, if any. */
  function Find(s: string, pattern: string): (r: Option<nat>)
    ensures r.Some? ==> r.value + |pattern| <= |s| && s[r.value..r.value + |pattern|] == pattern
    ensures r.Some? ==> forall k :: 0 <= k < r.value ==> !StartsWith(s[k..], pattern)
    ensures r.None? <==> !Contains(s, pattern)
    decreases |s|
  {
    if StartsWith(s, pattern) then assert s[0..] == s; Some(0)
    else if |s| == 0 then None
    else
      OccurrencesAfterFirst(s);
      match Find(s[1..], pattern)
      case None => assert s[0..] == s; None
      case Some(i) => Some(i + 1)
  }

  /** The positions of `s` after the first are those of `s[1..]`, shifted by one. */
  lemma OccurrencesAfterFirst(s: string)
    requires |s| > 0
    ensures forall k :: 1 <= k <= |s| ==> s[k..] == s[1..][k - 1..]
  {
    forall k | 1 <= k <= |s|
      ensures s[k..] == s[1..][k - 1..]
    {
    }
  }

  /** `Find` returns the position of an occurrence that no earlier position starts. */
  lemma {:induction false} FindAt(s: string, pattern: string, j: nat)
    requires j + |pattern| <= |s| && s[j..j + |pattern|] == pattern
    requires forall k :: 0 <= k < j ==> !StartsWith(s[k..], pattern)
    ensures Find(s, pattern) == Some(j)
    decreases j
  {
    if j == 0 {
      assert s[..|pattern|] == s[0..|pattern|];
    } else {
      assert s[0..] == s;
      assert s[1..][j - 1..j - 1 + |pattern|] == s[j..j + |pattern|];
      forall k | 0 <= k < j - 1
        ensures !StartsWith(s[1..][k..], pattern)
      {
        assert s[1..][k..] == s[k + 1..];
      }
      FindAt(s[1..], pattern, j - 1);
    }
  }

  /** `s.trim_start()`: the longest suffix of `s` that does not start with whitespace. */
  function TrimStart(s: string): (r: string)
    ensures |r| <= |s| && r == s[|s| - |r|..]
    ensures forall i :: 0 <= i < |s| - |r| ==> IsWhitespace(s[i])
    ensures r == [] || !IsWhitespace(r[0])
    decreases |s|
  {
    if |s| > 0 && IsWhitespace(s[0]) then TrimStart(s[1..]) else s
  }

  /** `s.trim_end()`: the longest prefix of `s` that does not end with whitespace. */
  function TrimEnd(s: string): (r: string)
    ensures |r| <= |s| && r == s[..|r|]
    ensures forall i :: |r| <= i < |s| ==> IsWhitespace(s[i])
    ensures r == [] || !IsWhitespace(r[|r| - 1])
    decreases |s|
  {
    if |s| > 0 && IsWhitespace(s[|s| - 1]) then TrimEnd(s[..|s| - 1]) else s
  }

  /** `s.trim()`. */
  function Trim(s: string): string {
    TrimEnd(TrimStart(s))
  }

  /** `trim_start` removes exactly a whitespace run that ends at a
      non-whitespace character (or at the end of the text). */
  lemma {:induction false} TrimStartAt(s: string, k: nat)
    requires k <= |s|
    requires forall i :: 0 <= i < k ==> IsWhitespace(s[i])
    requires k == |s| || !IsWhitespace(s[k])
    ensures TrimStart(s) == s[k..]
    decreases k
  {
    if k > 0 {
      TrimStartAt(s[1..], k - 1);
    }
  }

  /** `trim_end` removes exactly a whitespace run that starts after a
      non-whitespace character (or at the start of the text). */
  lemma {:induction false} TrimEndAt(s: string, k: nat)
    requires k <= |s|
    requires forall i :: k <= i < |s| ==> IsWhitespace(s[i])
    requires k == 0 || !IsWhitespace(s[k - 1])
    ensures TrimEnd(s) == s[..k]
    decreases |s| - k
  {
    if k < |s| {
      TrimEndAt(s[..|s| - 1], k);
    }
  }

  /** Whitespace on either side of a text that neither starts nor ends with
      whitespace is exactly what `trim` removes. */
  lemma TrimPadded(pre: string, t: string, post: string)
    requires forall i :: 0 <= i < |pre| ==> IsWhitespace(pre[i])
    requires forall i :: 0 <= i < |post| ==> IsWhitespace(post[i])
    requires t != [] && !IsWhitespace(t[0]) && !IsWhitespace(t[|t| - 1])
    ensures Trim(pre + t + post) == t
  {
    var u := t + post;
    var s := pre + u;
    assert pre + t + post == s;
    assert s[|pre|..] == u;
    assert u[..|t|] == t;
    forall i | 0 <= i < |pre|
      ensures IsWhitespace(s[i])
    {
      assert s[i] == pre[i];
    }
    assert s[|pre|] == t[0];
    TrimStartAt(s, |pre|);
    forall i | |t| <= i < |u|
      ensures IsWhitespace(u[i])
    {
      assert u[i] == post[i - |t|];
    }
    assert u[|t| - 1] == t[|t| - 1];
    TrimEndAt(u, |t|);
  }

  /** `parts.join(sep)`. */
  function Join(parts: seq<string>, sep: string): string
    decreases |parts|
  {
    if |parts| == 0 then ""
    else if |parts| == 1 then parts[0]
    else parts[0] + sep + Join(parts[1..], sep)
  }

  /** `s.split(sep)`: the pieces between occurrences of `sep`; there is always
      at least one piece, and joining the pieces with `sep` gives `s` back. */
  function Split(s: string, sep: char): (r: seq<string>)
    ensures |r| >= 1
    ensures forall i :: 0 <= i < |r| ==> sep !in r[i]
    ensures Join(r, [sep]) == s
    decreases |s|
  {
    if |s| == 0 then [""]
    else
      var rest := Split(s[1..], sep);
      if s[0] == sep then [""] + rest
      else
        var r := [[s[0]] + rest[0]] + rest[1..];
        assert Join(r, [sep]) == [s[0]] + Join(rest, [sep]) by {
          if |rest| > 1 {
            assert r[1..] == rest[1..];
          }
        }
        r
  }

  /** Splitting a join on a separator that occurs in no part gives the parts back. */
  lemma {:induction false} SplitJoin(parts: seq<string>, sep: char)
    requires |parts| >= 1
    requires forall i :: 0 <= i < |parts| ==> sep !in parts[i]
    ensures Split(Join(parts, [sep]), sep) == parts
    decreases |parts|, |parts[0]|
  {
    var s := Join(parts, [sep]);
    if |parts[0]| == 0 {
      if |parts| > 1 {
        assert s == [sep] + Join(parts[1..], [sep]);
        assert s[1..] == Join(parts[1..], [sep]);
        SplitJoin(parts[1..], sep);
      }
    } else {
      var c := parts[0][0];
      var shorter := [parts[0][1..]] + parts[1..];
      assert s == [c] + Join(shorter, [sep]) by {
        if |parts| > 1 {
          assert shorter[1..] == parts[1..];
        }
      }
      assert s[1..] == Join(shorter, [sep]);
      SplitJoin(shorter, sep);
      assert parts[0] == [c] + shorter[0];
      assert parts == [[c] + shorter[0]] + shorter[1..];
    }
  }

  /** Drops one trailing carriage return, as `str::lines` does for a `\r\n` ending. */
  function StripCr(line: string): string {
    if |line| > 0 && line[|line| - 1] == '\r' then line[..|line| - 1] else line
  }

  /** `s.lines()`: the pieces of `s` between newlines, where a piece that was
      ended by a newline also loses one trailing carriage return, and a final
      empty piece (the text is empty or ends with a newline) is not a line. */
  function Lines(s: string): (r: seq<string>)
    ensures forall i :: 0 <= i < |r| ==> '\n' !in r[i]
    ensures s == [] ==> r == []
  {
    LinesOfPieces(Split(s, '\n'))
  }

  /** The lines made of the newline-separated pieces of a text. */
  function LinesOfPieces(pieces: seq<string>): seq<string>
    requires |pieces| >= 1
  {
    var ended := pieces[..|pieces| - 1];
    var last := pieces[|pieces| - 1];
    seq(|ended|, i requires 0 <= i < |ended| => StripCr(ended[i]))
      + (if last == "" then [] else [last])
  }

  /** Newline-joined lines without carriage returns, whose last line is not
      empty, are read back by `lines` unchanged. */
  lemma LinesOfJoin(parts: seq<string>)
    requires |parts| >= 1 && parts[|parts| - 1] != ""
    requires forall i :: 0 <= i < |parts| ==> '\n' !in parts[i] && '\r' !in parts[i]
    ensures Lines(Join(parts, "\n")) == parts
  {
    SplitJoin(parts, '\n');
    PiecesWithoutCr(parts);
  }

  /** Pieces without carriage returns, the last of them not empty, are the
      lines as they are. */
  lemma PiecesWithoutCr(pieces: seq<string>)
    requires |pieces| >= 1 && pieces[|pieces| - 1] != ""
    requires forall i :: 0 <= i < |pieces| ==> '\r' !in pieces[i]
    ensures LinesOfPieces(pieces) == pieces
  {
    var ended := pieces[..|pieces| - 1];
    var stripped := seq(|ended|, i requires 0 <= i < |ended| => StripCr(ended[i]));
    forall i | 0 <= i < |ended|
      ensures stripped[i] == ended[i]
    {
      NoCrUnchanged(ended[i]);
    }
    assert stripped == ended;
  }

  lemma NoCrUnchanged(line: string)
    requires '\r' !in line
    ensures StripCr(line) == line
  {
    if |line| > 0 {
      assert line[|line| - 1] in line;
    }
  }

  /** A text ending with a pattern contains it. */
  lemma ContainsEnding(before: string, pattern: string)
    ensures Contains(before + pattern, pattern)
  {
    var s := before + pattern;
    assert s[|before|..|before| + |pattern|] == pattern;
    ContainsAt(s, pattern, |before|);
  }

  /** Appending text keeps every occurrence. */
  lemma ContainsExtended(s: string, pattern: string, after: string)
    requires Contains(s, pattern)
    ensures Contains(s + after, pattern)
  {
    var k :| 0 <= k <= |s| && StartsWith(s[k..], pattern);
    assert (s + after)[k..][..|pattern|] == s[k..][..|pattern|];
  }

  /** Putting text in front keeps every occurrence. */
  lemma ContainsPrepended(before: string, s: string, pattern: string)
    requires Contains(s, pattern)
    ensures Contains(before + s, pattern)
  {
    var k :| 0 <= k <= |s| && StartsWith(s[k..], pattern);
    assert (before + s)[|before| + k..] == s[k..];
  }

  /** A join contains each of its parts. */
  lemma {:induction false} JoinContainsPart(parts: seq<string>, sep: string, i: nat)
    requires i < |parts|
    ensures Contains(Join(parts, sep), parts[i])
    decreases |parts|
  {
    ContainsEnding("", parts[i]);
    assert "" + parts[i] == parts[i];
    if |parts| > 1 {
      var rest := Join(parts[1..], sep);
      assert Join(parts, sep) == parts[0] + (sep + rest);
      if i == 0 {
        ContainsExtended(parts[0], parts[0], sep + rest);
      } else {
        JoinContainsPart(parts[1..], sep, i - 1);
        ContainsPrepended(parts[0] + sep, rest, parts[i]);
        assert parts[0] + sep + rest == parts[0] + (sep + rest);
      }
    }
  }

  /** A text that does not contain a pattern has no occurrence of it at any position. */
  lemma NotContainsAt(s: string, pattern: string, k: nat)
    requires !Contains(s, pattern) && k + |pattern| <= |s|
    ensures s[k..k + |pattern|] != pattern
  {
    assert s[k..][..|pattern|] == s[k..k + |pattern|];
  }
}
