/** The few operations on Python `str` that the extractor and the dispatcher rely on:
    `str.isspace`, `str.strip`, `str.split()` with no separator, `sep.join`, the
    substring test `sub in s`, slicing `s[:n]` and `str.lower` on ASCII letters. */
module Text {

  /** Python's `str.isspace` for one character: the ASCII whitespace and separator
      controls, and the Unicode space and line/paragraph separators. */
  predicate IsSpace(c: char) {
    || c == ' '
    || ('\t' <= c <= '\r')
    || ('\U{1C}' <= c <= '\U{1F}')
    || c == '\U{85}' || c == '\U{A0}' || c == '\U{1680}'
    || ('\U{2000}' <= c <= '\U{200A}')
    || c == '\U{2028}' || c == '\U{2029}' || c == '\U{202F}' || c == '\U{205F}' || c == '\U{3000}'
  }

  predicate NoSpace(s: string) {
    forall i :: 0 <= i < |s| ==> !IsSpace(s[i])
  }

  predicate AllSpace(s: string) {
    forall i :: 0 <= i < |s| ==> IsSpace(s[i])
  }

  /** The number of whitespace characters at the start of `s`. */
  function LeadingSpace(s: string): (n: nat)
    ensures n <= |s| && (n == |s| || !IsSpace(s[n]))
    ensures forall i :: 0 <= i < n ==> IsSpace(s[i])
  {
    if s == [] || !IsSpace(s[0]) then 0 else 1 + LeadingSpace(s[1..])
  }

  /** The number of whitespace characters at the end of `s`. */
  function TrailingSpace(s: string): (n: nat)
    ensures n <= |s| && (n == |s| || !IsSpace(s[|s| - n - 1]))
    ensures forall i :: |s| - n <= i < |s| ==> IsSpace(s[i])
  {
    if s == [] || !IsSpace(s[|s| - 1]) then 0 else 1 + TrailingSpace(s[..|s| - 1])
  }

  /** `s.lstrip()`. */
  function TrimLeft(s: string): string {
    s[LeadingSpace(s)..]
  }

  /** `s.rstrip()`. */
  function TrimRight(s: string): string {
    s[..|s| - TrailingSpace(s)]
  }

  /** `s.strip()`: drops the whitespace at both ends. */
  function Strip(s: string): (r: string)
    ensures |r| <= |s|
    ensures r == [] || (!IsSpace(r[0]) && !IsSpace(r[|r| - 1]))
  {
    TrimRight(TrimLeft(s))
  }

  /** What `strip` keeps is a contiguous piece of `s`, starting where the leading
      whitespace ends ... */
  lemma StripIsSlice(s: string)
    ensures var k, r := LeadingSpace(s), Strip(s);
      k + |r| <= |s| && r == s[k..k + |r|]
  {
    var k := LeadingSpace(s);
    var t := s[k..];
    var m := TrailingSpace(t);
    SuffixSlices(s, k, |t| - m);
  }

  /** ... and only whitespace is dropped around it. */
  lemma StripDropsSpace(s: string)
    ensures var k, r := LeadingSpace(s), Strip(s);
      k + |r| <= |s| && AllSpace(s[..k]) && AllSpace(s[k + |r|..])
  {
    var k := LeadingSpace(s);
    var t := s[k..];
    var m := TrailingSpace(t);
    var e := k + |t| - m;
    assert |Strip(s)| == |t| - m;
    forall i | 0 <= i < k ensures IsSpace(s[..k][i]) {
    }
    forall i | 0 <= i < |s| - e ensures IsSpace(s[e..][i]) {
      assert s[e..][i] == t[|t| - m + i];
    }
  }

  lemma SuffixSlices(s: string, k: nat, n: nat)
    requires k + n <= |s|
    ensures s[k..][..n] == s[k..k + n] && s[k..][n..] == s[k + n..]
  {
  }

  /** The length of the run of non-whitespace characters at the start of `s`. */
  function WordLength(s: string): (n: nat)
    ensures n <= |s| && NoSpace(s[..n])
    ensures n == |s| || IsSpace(s[n])
  {
    if s == [] || IsSpace(s[0]) then 0 else 1 + WordLength(s[1..])
  }

  /** `s.split()`: the maximal runs of non-whitespace characters, in order. */
  function Split(s: string): seq<string>
    decreases |s|
  {
    var t := TrimLeft(s);
    if t == [] then []
    else
      var n := WordLength(t);
      [t[..n]] + Split(t[n..])
  }

  /** The items of a split are non-empty and hold no whitespace. */
  lemma {:induction false} SplitGivesWords(s: string)
    ensures AreWords(Split(s))
    decreases |s|
  {
    var t := TrimLeft(s);
    if t != [] {
      var n := WordLength(t);
      SplitGivesWords(t[n..]);
      var r := Split(s);
      assert r == [t[..n]] + Split(t[n..]);
      forall k | 0 <= k < |r| ensures r[k] != [] && NoSpace(r[k]) {
        if k > 0 {
          assert r[k] == Split(t[n..])[k - 1];
        }
      }
    }
  }

  /** Every item is non-empty and free of whitespace, as the items of a split are. */
  predicate AreWords(words: seq<string>) {
    forall k :: 0 <= k < |words| ==> words[k] != [] && NoSpace(words[k])
  }

  /** `sep.join(parts)`. */
  function Join(sep: string, parts: seq<string>): string {
    if parts == [] then ""
    else if |parts| == 1 then parts[0]
    else parts[0] + sep + Join(sep, parts[1..])
  }

  /** `Split` undoes a join on single spaces of words that hold no whitespace. */
  lemma {:induction false} SplitJoin(words: seq<string>)
    requires AreWords(words)
    ensures Split(Join(" ", words)) == words
  {
    if words == [] {
    } else if |words| == 1 {
      SplitWord(words[0], "");
      assert words[0] + "" == words[0];
    } else {
      AreWordsTail(words);
      SplitJoin(words[1..]);
      SplitJoinStep(words);
    }
  }

  /** One more word in front of a joined list adds that word in front of the split. */
  lemma SplitJoinStep(words: seq<string>)
    requires |words| >= 2 && words[0] != [] && NoSpace(words[0])
    requires Split(Join(" ", words[1..])) == words[1..]
    ensures Split(Join(" ", words)) == words
  {
    SplitConsWord(words[0], Join(" ", words[1..]));
    assert [words[0]] + words[1..] == words;
  }

  /** A word and a space in front of `rest` add that word in front of its split. */
  lemma SplitConsWord(w: string, rest: string)
    requires w != [] && NoSpace(w)
    ensures Split(w + " " + rest) == [w] + Split(rest)
  {
    var tail := " " + rest;
    assert w + " " + rest == w + tail;
    SplitWord(w, tail);
    SplitSkipsSpace(tail);
    assert tail[1..] == rest;
  }

  lemma AreWordsTail(words: seq<string>)
    requires AreWords(words) && words != []
    ensures AreWords(words[1..])
  {
    forall k | 0 <= k < |words| - 1 ensures words[1..][k] != [] && NoSpace(words[1..][k]) {
      assert words[1..][k] == words[k + 1];
    }
  }

  /** A word followed by nothing or by whitespace is the first item of the split. */
  lemma SplitWord(w: string, tail: string)
    requires w != [] && NoSpace(w)
    requires tail == [] || IsSpace(tail[0])
    ensures Split(w + tail) == [w] + Split(tail)
  {
    var s := w + tail;
    assert s[0] == w[0];
    assert TrimLeft(s) == s;
    WordLengthAt(w, tail);
    assert s[..|w|] == w && s[|w|..] == tail;
    if tail != [] {
      SplitSkipsSpace(tail);
    }
  }

  /** Leading whitespace does not change the split. */
  lemma SplitSkipsSpace(s: string)
    requires s != [] && IsSpace(s[0])
    ensures Split(s) == Split(s[1..])
  {
    assert TrimLeft(s) == TrimLeft(s[1..]);
  }

  lemma {:induction false} WordLengthAt(w: string, tail: string)
    requires NoSpace(w)
    requires tail == [] || IsSpace(tail[0])
    ensures WordLength(w + tail) == |w|
  {
    if w != [] {
      assert (w + tail)[1..] == w[1..] + tail;
      WordLengthAt(w[1..], tail);
    } else {
      assert w + tail == tail;
    }
  }

  /** Python's `sub in s` on strings: `sub` occurs at some position of `s`. */
  predicate Contains(s: string, sub: string) {
    exists i :: 0 <= i <= |s| && OccursAt(s, sub, i)
  }

  /** `sub` occurs in `s` starting at index `i`. */
  predicate OccursAt(s: string, sub: string, i: int) {
    0 <= i && i + |sub| <= |s| && s[i..i + |sub|] == sub
  }

  /** `sub in s` is ruled out when some character of `sub` never occurs in `s`. */
  lemma MissingCharRulesOut(s: string, sub: string, c: char)
    requires c in sub && c !in s
    ensures !Contains(s, sub)
  {
    var k :| 0 <= k < |sub| && sub[k] == c;
    forall i | 0 <= i && i + |sub| <= |s| ensures !OccursAt(s, sub, i) {
      assert s[i..i + |sub|][k] == s[i + k];
    }
  }

  /** `s[:n]` for n >= 0. */
  function Truncate(s: string, n: nat): (r: string)
    ensures |r| <= n && |r| <= |s| && r == s[..|r|]
    ensures |s| <= n ==> r == s
    ensures n <= |s| ==> |r| == n
  {
    if |s| <= n then s else s[..n]
  }

  function LowerChar(c: char): char {
    if 'A' <= c <= 'Z' then (c as int + 32) as char else c
  }

  /** `s.lower()` on ASCII letters. */
  function Lower(s: string): (r: string)
    ensures |r| == |s|
    ensures forall i :: 0 <= i < |s| ==> r[i] == LowerChar(s[i])
  {
    seq(|s|, i requires 0 <= i < |s| => LowerChar(s[i]))
  }

  predicate IsDigit(c: char) {
    '0' <= c <= '9'
  }

  /** `re.match(r"^\d{4}$", s)` on a string without a trailing newline. */
  predicate IsFourDigits(s: string) {
    |s| == 4 && forall i :: 0 <= i < 4 ==> IsDigit(s[i])
  }
}
