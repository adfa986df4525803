/** String helpers with the semantics of the Python built-ins the add-on uses. */
module Text {

  /** ASCII lower-casing of one character; every other character is kept. */
  function Lower(c: char): char
  {
    if 'A' <= c <= 'Z' then (c as int + 32) as char else c
  }

  /** `str.casefold`, restricted to ASCII letters. */
  function Fold(s: string): (r: string)
    ensures |r| == |s|
    ensures forall i :: 0 <= i < |r| ==> !('A' <= r[i] <= 'Z')
    ensures forall i :: 0 <= i < |s| && !('A' <= s[i] <= 'Z') ==> r[i] == s[i]
    ensures forall i :: 0 <= i < |s| && 'A' <= s[i] <= 'Z' ==> r[i] as int == s[i] as int + 32
  {
    seq(|s|, i requires 0 <= i < |s| => Lower(s[i]))
  }

  predicate StartsWith(s: string, prefix: string)
  {
    |prefix| <= |s| && s[..|prefix|] == prefix
  }

  predicate EndsWith(s: string, suffix: string)
  {
    |suffix| <= |s| && s[|s| - |suffix|..] == suffix
  }

  /** `path[1:] if path.startswith("/") else path`: removes at most one leading slash. */
  function StripSlash(s: string): (r: string)
    ensures s == (if StartsWith(s, "/") then "/" + r else r)
  {
    if StartsWith(s, "/") then s[1..] else s
  }

  /** Number of occurrences of `c` in `s`. */
  function Count(s: string, c: char): nat
  {
    if s == [] then 0 else (if s[0] == c then 1 else 0) + Count(s[1..], c)
  }

  /** `sep.join(pieces)` for a one-character separator. */
  function JoinWith(pieces: seq<string>, sep: char): string
  {
    if |pieces| == 0 then ""
    else if |pieces| == 1 then pieces[0]
    else pieces[0] + [sep] + JoinWith(pieces[1..], sep)
  }

  /** `s.split(sep)`: the maximal separator-free pieces, in order; joining them back gives `s`. */
  function Split(s: string, sep: char): (r: seq<string>)
    ensures |r| >= 1
    ensures forall k :: 0 <= k < |r| ==> sep !in r[k]
    ensures JoinWith(r, sep) == s
    decreases |s|
  {
    if s == [] then [""]
    else
      var rest := Split(s[1..], sep);
      if s[0] == sep then
        [""] + rest
      else
        assert JoinWith([[s[0]] + rest[0]] + rest[1..], sep) == [s[0]] + JoinWith(rest, sep);
        [[s[0]] + rest[0]] + rest[1..]
  }

  /** A string splits into one more piece than it has separators. */
  lemma {:induction false} SplitLength(s: string, sep: char)
    ensures |Split(s, sep)| == Count(s, sep) + 1
    decreases |s|
  {
    if s != [] {
      SplitLength(s[1..], sep);
    }
  }

  /** The first piece of a split is the text before the first separator (all of `s` when there is none). */
  lemma SplitHead(s: string, sep: char)
    ensures var h := Split(s, sep)[0];
      |h| <= |s| && s[..|h|] == h && sep !in h &&
      (|h| < |s| ==> s[|h|] == sep) &&
      (|h| == |s| <==> sep !in s)
  {
    var r := Split(s, sep);
    var h := r[0];
    if |r| == 1 {
      assert JoinWith(r, sep) == h;
    } else {
      assert JoinWith(r, sep) == h + [sep] + JoinWith(r[1..], sep);
      assert s[|h|] == sep;
    }
  }

  /** Whether a concatenation starts with `/` depends on its first non-empty part. */
  lemma SlashPrefixOfAppend(x: string, y: string)
    ensures StartsWith(x + y, "/") <==> if x == [] then StartsWith(y, "/") else StartsWith(x, "/")
  {
    if x == [] {
      assert x + y == y;
    } else {
      assert (x + y)[0] == x[0];
    }
  }

  /** `os.path.join(a, b)` on POSIX: an absolute `b` discards `a`; otherwise one `/` separates them. */
  function PathJoin(a: string, b: string): (r: string)
    ensures EndsWith(r, b)
    ensures StartsWith(b, "/") ==> r == b
    ensures !StartsWith(b, "/") ==> StartsWith(r, a)
    ensures !StartsWith(b, "/") ==> r == if a == [] || EndsWith(a, "/") then a + b else a + "/" + b
  {
    if StartsWith(b, "/") then b
    else if a == [] || EndsWith(a, "/") then a + b
    else a + "/" + b
  }
}
