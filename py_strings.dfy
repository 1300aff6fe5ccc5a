/** The Python string operations the strategies apply to trade pairs and ledger ids:
    `endswith`, slicing with a non-negative or a negative bound, and `split`. */
module PyStrings {

  /** `s.endswith(suffix)` */
  predicate EndsWith(s: string, suffix: string) {
    |suffix| <= |s| && s[|s| - |suffix|..] == suffix
  }

  /** `s[:n]` for n >= 0: the first n characters, or all of s when it is shorter. */
  function Prefix(s: string, n: nat): (r: string)
    ensures |r| == if n <= |s| then n else |s|
    ensures r <= s
  {
    if n <= |s| then s[..n] else s
  }

  /** `s[n:]` for n >= 0: exactly what Prefix(s, n) leaves over. */
  function Suffix(s: string, n: nat): (r: string)
    ensures Prefix(s, n) + r == s
    ensures |r| == if n <= |s| then |s| - n else 0
  {
    if n <= |s| then s[n..] else ""
  }

  /** `s[:-n]` for n > 0: all but the last n characters; empty when s is not longer than n. */
  function DropLast(s: string, n: nat): (r: string)
    requires n > 0
    ensures r <= s
    ensures |r| == if n <= |s| then |s| - n else 0
  {
    if n <= |s| then s[..|s| - n] else ""
  }

  /** A Kraken pair is an asset code followed by a four-letter quote code;
      `pair[:-4]` recovers the asset code. */
  lemma DropLastOfPair(asset: string, quote: string)
    requires |quote| == 4
    ensures DropLast(asset + quote, 4) == asset
  {
    assert (asset + quote)[..|asset|] == asset;
  }

  /** `s.split(sep)` for a one-character separator: the pieces between separators,
      always at least one (the empty string splits into [""]). */
  function Split(s: string, sep: char): (parts: seq<string>)
    ensures |parts| >= 1
    ensures forall i :: 0 <= i < |parts| ==> sep !in parts[i]
    ensures |parts| >= 2 <==> sep in s
    decreases |s|
  {
    if s == [] then [""]
    else
      var rest := Split(s[1..], sep);
      if s[0] == sep then [""] + rest
      else [[s[0]] + rest[0]] + rest[1..]
  }

  /** `sep.join(parts)`, the inverse of Split. */
  function Join(parts: seq<string>, sep: char): string
    requires |parts| >= 1
  {
    if |parts| == 1 then parts[0] else parts[0] + [sep] + Join(parts[1..], sep)
  }

  /** Splitting loses nothing: joining the pieces back gives the original string. */
  lemma {:induction false} JoinSplit(s: string, sep: char)
    ensures Join(Split(s, sep), sep) == s
    decreases |s|
  {
    if s != [] {
      var rest := Split(s[1..], sep);
      JoinSplit(s[1..], sep);
      if s[0] == sep {
        assert ([""] + rest)[1..] == rest;
        assert s == [sep] + s[1..];
      } else if |rest| == 1 {
        assert s == [s[0]] + s[1..];
      } else {
        var parts := [[s[0]] + rest[0]] + rest[1..];
        assert parts[1..] == rest[1..];
        assert s == [s[0]] + s[1..];
      }
    }
  }
}
