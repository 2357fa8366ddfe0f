/** Recognising a value line: `line.substr(0, p.length()) == p` decides whether
    a line carries the value named by the prefix `p`, and
    `line.substr(p.length())` takes the value out of it. */
module LineClassifier {

  /** `line.substr(0, n)`: the first `n` characters, or the whole line when it
      is shorter (std::string clips the count instead of failing). */
  function Head(line: string, n: nat): (r: string)
    ensures |r| == if n <= |line| then n else |line|
  {
    if n <= |line| then line[..n] else line
  }

  predicate Matches(line: string, prefix: string) {
    Head(line, |prefix|) == prefix
  }

  /** A line matches exactly when the prefix is a prefix of it. */
  lemma MatchesIffPrefix(line: string, prefix: string)
    ensures Matches(line, prefix) <==> prefix <= line
  {
  }

  /** A line shorter than the prefix never matches (and clipping means it is
      never read beyond its end). */
  lemma ShortLineNeverMatches(line: string, prefix: string)
    requires |line| < |prefix|
    ensures !Matches(line, prefix)
  {
  }

  /** The empty prefix matches every line, and its field is the whole line. */
  lemma EmptyPrefixMatchesAll(line: string)
    ensures Matches(line, "") && Field(line, "") == line
  {
  }

  /** `line.substr(prefix.length())` on a matching line: what follows the
      prefix, possibly empty. */
  function Field(line: string, prefix: string): (r: string)
    requires Matches(line, prefix)
    ensures |r| == |line| - |prefix|
  {
    line[|prefix|..]
  }

  /** A matching line is its prefix followed by its field. */
  lemma FieldSplit(line: string, prefix: string)
    requires Matches(line, prefix)
    ensures prefix + Field(line, prefix) == line
  {
    assert line == line[..|prefix|] + line[|prefix|..];
  }
}
