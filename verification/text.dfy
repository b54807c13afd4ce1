/** Strings as `seq<char>`: the prefix test of `str.startswith` and the
    whitespace split of `str.split()` called without arguments. */
module Text {

  /** The characters for which Python's `str.isspace()` holds: the ASCII
      separators, the information separators U+001C..U+001F, and the Unicode
      space characters. `str.split()` breaks on runs of exactly these. */
  predicate IsSpace(c: char) {
    || c == ' ' || c == '\t' || c == '\n' || c == '\r'
    || c == '\U{B}' || c == '\U{C}'
    || ('\U{1C}' <= c <= '\U{1F}')
    || c == '\U{85}' || c == '\U{A0}' || c == '\U{1680}'
    || ('\U{2000}' <= c <= '\U{200A}')
    || c == '\U{2028}' || c == '\U{2029}' || c == '\U{202F}' || c == '\U{205F}'
    || c == '\U{3000}'
  }

  /** A word: a non-empty string without whitespace, which is what every
      element of a split result is. */
  predicate IsWord(w: string) {
    |w| > 0 && forall i :: 0 <= i < |w| ==> !IsSpace(w[i])
  }

  /** `s.startswith(prefix)`: `s` is at least as long as `prefix` and agrees
      with it character by character. */
  predicate StartsWith(s: string, prefix: string)
    ensures StartsWith(s, prefix) <==> |prefix| <= |s| && forall i :: 0 <= i < |prefix| ==> s[i] == prefix[i]
  {
    |prefix| <= |s| && s[..|prefix|] == prefix
  }

  /** `s.split()`: the maximal runs of non-whitespace characters of `s`, in
      order; leading, trailing and repeated whitespace yields no empty words. */
  function Split(s: string): (words: seq<string>)
    ensures forall i :: 0 <= i < |words| ==> IsWord(words[i])
    ensures |s| > 0 && !IsSpace(s[0]) ==> |words| > 0 && IsWord(words[0]) && words[0][0] == s[0]
    decreases |s|
  {
    if s == [] then []
    else if IsSpace(s[0]) then Split(s[1..])
    else
      var rest := Split(s[1..]);
      if |s| > 1 && !IsSpace(s[1]) then [[s[0]] + rest[0]] + rest[1..]
      else [[s[0]]] + rest
  }

  /** `" ".join(words)`. */
  function JoinWords(words: seq<string>): string {
    if words == [] then []
    else if |words| == 1 then words[0]
    else words[0] + " " + JoinWords(words[1..])
  }

  /** A word splits to itself. */
  lemma {:induction false} SplitWord(w: string)
    requires IsWord(w)
    ensures Split(w) == [w]
    decreases |w|
  {
    if |w| > 1 {
      assert !IsSpace(w[0]) && !IsSpace(w[1]);
      SplitWord(w[1..]);
      assert [w[0]] + w[1..] == w;
    } else {
      assert !IsSpace(w[0]) && w[1..] == [] && [w[0]] == w;
    }
  }

  /** A whitespace character separates: splitting `a + [c] + b` splits the two
      sides independently. */
  lemma {:induction false} SplitAtSpace(a: string, c: char, b: string)
    requires IsSpace(c)
    ensures Split(a + [c] + b) == Split(a) + Split(b)
    decreases |a|
  {
    var s := a + [c] + b;
    if a == [] {
      assert s[1..] == b;
    } else {
      assert s[0] == a[0];
      assert s[1..] == a[1..] + [c] + b;
      SplitAtSpace(a[1..], c, b);
      if !IsSpace(a[0]) {
        if |a| == 1 {
          assert s[1] == c;
        } else {
          assert s[1] == a[1];
        }
      }
    }
  }

  /** Joining words with single spaces and splitting again gives the words back. */
  lemma {:induction false} SplitJoinWords(words: seq<string>)
    requires forall i :: 0 <= i < |words| ==> IsWord(words[i])
    ensures Split(JoinWords(words)) == words
    decreases |words|
  {
    if |words| == 1 {
      SplitWord(words[0]);
    } else if |words| > 1 {
      SplitAtSpace(words[0], ' ', JoinWords(words[1..]));
      SplitWord(words[0]);
      SplitJoinWords(words[1..]);
      assert words == [words[0]] + words[1..];
    }
  }
}
