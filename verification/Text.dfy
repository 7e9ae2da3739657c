/** Python's text primitives as the chunker and the vault use them: whitespace,
    `splitlines`, `strip`, `join`, and the tokens found by the pattern `\S+`. */
module Text {

  /** The characters for which `str.isspace` holds; the pattern class `\s` matches the same ones. */
  predicate IsSpace(c: char) {
    || '\t' <= c <= '\r'
    || '\U{1C}' <= c <= ' '
    || c == '\U{85}'
    || c == '\U{A0}'
    || c == '\U{1680}'
    || '\U{2000}' <= c <= '\U{200A}'
    || '\U{2028}' <= c <= '\U{2029}'
    || c == '\U{202F}'
    || c == '\U{205F}'
    || c == '\U{3000}'
  }

  /** The characters at which `str.splitlines` ends a line. */
  predicate IsLineBreak(c: char) {
    || '\n' <= c <= '\r'
    || '\U{1C}' <= c <= '\U{1E}'
    || c == '\U{85}'
    || '\U{2028}' <= c <= '\U{2029}'
  }

  predicate Blank(s: string) {
    forall i | 0 <= i < |s| :: IsSpace(s[i])
  }

  /** A non-empty run of characters none of which is whitespace. */
  predicate IsWord(s: string) {
    s != "" && forall i | 0 <= i < |s| :: !IsSpace(s[i])
  }

  // ----- Tokens -----

  function WordLength(s: string): (n: nat)
    ensures n <= |s|
    ensures forall i | 0 <= i < n :: !IsSpace(s[i])
    ensures n < |s| ==> IsSpace(s[n])
  {
    if s == "" || IsSpace(s[0]) then 0 else 1 + WordLength(s[1..])
  }

  /** The maximal runs of non-whitespace characters, in order. */
  function Tokens(s: string): seq<string>
    decreases |s|
  {
    if s == "" then []
    else if IsSpace(s[0]) then Tokens(s[1..])
    else [s[..WordLength(s)]] + Tokens(s[WordLength(s)..])
  }

  lemma {:induction false} TokensAreWords(s: string)
    ensures forall t | t in Tokens(s) :: IsWord(t)
    decreases |s|
  {
    if s != "" && IsSpace(s[0]) {
      TokensAreWords(s[1..]);
    } else if s != "" {
      assert IsWord(s[..WordLength(s)]);
      TokensAreWords(s[WordLength(s)..]);
    }
  }

  lemma {:induction false} NoTokensWhenBlank(s: string)
    ensures Tokens(s) == [] <==> Blank(s)
  {
    if s != "" && IsSpace(s[0]) {
      assert s == [s[0]] + s[1..];
      NoTokensWhenBlank(s[1..]);
    }
  }

  lemma {:induction false} WordLengthAppend(a: string, b: string)
    requires WordLength(a) < |a| || b == "" || IsSpace(b[0])
    ensures WordLength(a + b) == WordLength(a)
  {
    hide IsSpace;
    if a == "" {
      assert a + b == b;
    } else if !IsSpace(a[0]) {
      assert (a + b)[1..] == a[1..] + b;
      WordLengthAppend(a[1..], b);
    }
  }

  lemma TokensStart(s: string)
    requires s != "" && !IsSpace(s[0])
    ensures Tokens(s) == [s[..WordLength(s)]] + Tokens(s[WordLength(s)..])
  {
    hide IsSpace;
  }

  lemma TokensAppendWord(a: string, b: string)
    requires a != "" && !IsSpace(a[0])
    requires b == "" || IsSpace(a[|a| - 1]) || IsSpace(b[0])
    ensures var n := WordLength(a);
      Tokens(a + b) == [a[..n]] + Tokens(a[n..] + b)
  {
    hide IsSpace, Tokens, WordLength;
    var n, s := WordLength(a), a + b;
    assert WordLength(s) == n by {
      assert n < |a| || b == "" || IsSpace(b[0]) by {
        assert n == |a| ==> !IsSpace(a[n - 1]);
      }
      WordLengthAppend(a, b);
    }
    assert s[0] == a[0];
    TokensStart(s);
    assert s[..n] == a[..n];
    assert s[n..] == a[n..] + b;
  }

  /** Cutting a text next to a whitespace character cuts no token. */
  lemma {:induction false} TokensAppend(a: string, b: string)
    requires a == "" || b == "" || IsSpace(a[|a| - 1]) || IsSpace(b[0])
    ensures Tokens(a + b) == Tokens(a) + Tokens(b)
    decreases |a|
  {
    hide IsSpace;
    if a == "" {
      assert a + b == b;
    } else if IsSpace(a[0]) {
      assert (a + b)[1..] == a[1..] + b;
      TokensAppend(a[1..], b);
    } else {
      var n := WordLength(a);
      TokensAppendWord(a, b);
      TokensAppend(a[n..], b);
      assert Tokens(a) == [a[..n]] + Tokens(a[n..]);
    }
  }

  lemma TokensOfWord(w: string)
    requires IsWord(w)
    ensures Tokens(w) == [w]
  {
    assert WordLength(w) == |w|;
    assert w[..|w|] == w && w[|w|..] == "";
  }

  // ----- Concatenating the tokens of several texts -----

  function FlatTokens(parts: seq<string>): seq<string> {
    if parts == [] then [] else Tokens(parts[0]) + FlatTokens(parts[1..])
  }

  lemma {:induction false} FlatTokensAppend(a: seq<string>, b: seq<string>)
    ensures FlatTokens(a + b) == FlatTokens(a) + FlatTokens(b)
  {
    if a == [] {
      assert a + b == b;
    } else {
      assert (a + b)[1..] == a[1..] + b;
      FlatTokensAppend(a[1..], b);
    }
  }

  lemma FlatTokensPush(parts: seq<string>, last: string)
    ensures FlatTokens(parts + [last]) == FlatTokens(parts) + Tokens(last)
  {
    FlatTokensAppend(parts, [last]);
    assert [last][1..] == [];
  }

  // ----- join -----

  function Join(parts: seq<string>, separator: string): string {
    if parts == [] then ""
    else if |parts| == 1 then parts[0]
    else parts[0] + separator + Join(parts[1..], separator)
  }

  /** Joining with whitespace keeps the tokens of every part. */
  lemma {:induction false} TokensJoin(parts: seq<string>, separator: string)
    requires separator != "" && Blank(separator)
    ensures Tokens(Join(parts, separator)) == FlatTokens(parts)
  {
    hide IsSpace;
    if |parts| == 1 {
      assert FlatTokens(parts) == Tokens(parts[0]) + FlatTokens(parts[1..]);
    } else if parts == [] {
    } else {
      NoTokensWhenBlank(separator);
      var rest := Join(parts[1..], separator);
      TokensJoin(parts[1..], separator);
      TokensAppend(separator, rest);
      TokensAppend(parts[0], separator + rest);
      assert parts[0] + separator + rest == parts[0] + (separator + rest);
    }
  }

  lemma {:induction false} FlatTokensOfWords(words: seq<string>)
    requires forall w | w in words :: IsWord(w)
    ensures FlatTokens(words) == words
  {
    if words != [] {
      TokensOfWord(words[0]);
      FlatTokensOfWords(words[1..]);
    }
  }

  /** Words joined by blanks are found again as the tokens of the result. */
  lemma TokensOfJoinedWords(words: seq<string>, separator: string)
    requires forall w | w in words :: IsWord(w)
    requires separator != "" && Blank(separator)
    ensures Tokens(Join(words, separator)) == words
  {
    TokensJoin(words, separator);
    FlatTokensOfWords(words);
  }

  // ----- strip -----

  function StripLeft(s: string): (r: string)
    ensures |r| <= |s|
  {
    if s == "" || !IsSpace(s[0]) then s else StripLeft(s[1..])
  }

  function StripRight(s: string): string {
    if s == "" || !IsSpace(s[|s| - 1]) then s else StripRight(s[..|s| - 1])
  }

  function Strip(s: string): string {
    StripRight(StripLeft(s))
  }

  lemma {:induction false} TokensStripLeft(s: string)
    ensures Tokens(StripLeft(s)) == Tokens(s)
  {
    if s != "" && IsSpace(s[0]) {
      TokensStripLeft(s[1..]);
    }
  }

  lemma {:induction false} TokensStripRight(s: string)
    ensures Tokens(StripRight(s)) == Tokens(s)
  {
    if s != "" && IsSpace(s[|s| - 1]) {
      var front, last := s[..|s| - 1], s[|s| - 1..];
      assert s == front + last;
      TokensAppend(front, last);
      TokensStripRight(front);
    }
  }

  /** Stripping a text changes none of its tokens. */
  lemma TokensStrip(s: string)
    ensures Tokens(Strip(s)) == Tokens(s)
    ensures Strip(s) == "" <==> Blank(s)
  {
    TokensStripLeft(s);
    TokensStripRight(StripLeft(s));
    StripIsTight(s);
    NoTokensWhenBlank(s);
    NoTokensWhenBlank(Strip(s));
    assert Strip(s) != "" ==> !Blank(Strip(s));
  }

  /** What is left after stripping neither begins nor ends with whitespace. */
  lemma {:induction false} StripIsTight(s: string)
    ensures Strip(s) != "" ==> !IsSpace(Strip(s)[0]) && !IsSpace(Strip(s)[|Strip(s)| - 1])
  {
    StripLeftIsTight(s);
    StripRightIsTight(StripLeft(s));
  }

  lemma {:induction false} StripLeftIsTight(s: string)
    ensures StripLeft(s) != "" ==> !IsSpace(StripLeft(s)[0])
  {
    if s != "" && IsSpace(s[0]) {
      StripLeftIsTight(s[1..]);
    }
  }

  lemma {:induction false} StripRightIsTight(s: string)
    ensures StripRight(s) <= s
    ensures StripRight(s) != "" ==> !IsSpace(StripRight(s)[|StripRight(s)| - 1])
  {
    if s != "" && IsSpace(s[|s| - 1]) {
      StripRightIsTight(s[..|s| - 1]);
    }
  }

  /** A text without outer whitespace is its own strip. */
  lemma StripOfTight(s: string)
    requires s != "" ==> !IsSpace(s[0]) && !IsSpace(s[|s| - 1])
    ensures Strip(s) == s
  {
  }

  // ----- splitlines -----

  function LineLength(s: string): (n: nat)
    ensures n <= |s|
    ensures forall i | 0 <= i < n :: !IsLineBreak(s[i])
    ensures n < |s| ==> IsLineBreak(s[n])
  {
    if s == "" || IsLineBreak(s[0]) then 0 else 1 + LineLength(s[1..])
  }

  /** A carriage return followed by a line feed is one break. */
  function BreakLength(s: string, at: nat): (n: nat)
    requires at < |s|
    ensures at < at + n <= |s|
  {
    if s[at] == '\r' && at + 1 < |s| && s[at + 1] == '\n' then 2 else 1
  }

  function SplitLines(s: string): seq<string>
    decreases |s|
  {
    if s == "" then []
    else
      var n := LineLength(s);
      if n == |s| then [s] else [s[..n]] + SplitLines(s[n + BreakLength(s, n)..])
  }

  lemma TokensAcrossBreak(line: string, gap: string, rest: string)
    requires gap != "" && Blank(gap)
    ensures Tokens(line + (gap + rest)) == Tokens(line) + Tokens(rest)
  {
    hide IsSpace;
    NoTokensWhenBlank(gap);
    TokensAppend(gap, rest);
    assert (gap + rest)[0] == gap[0];
    TokensAppend(line, gap + rest);
  }

  lemma BreakIsBlank(s: string, n: nat)
    requires n < |s| && IsLineBreak(s[n])
    ensures Blank(s[n..n + BreakLength(s, n)])
  {
  }

  /** Every line break is whitespace, so no token crosses a line and none is lost at a break. */
  lemma {:induction false} TokensOfLines(s: string)
    ensures FlatTokens(SplitLines(s)) == Tokens(s)
    decreases |s|
  {
    hide IsSpace, IsLineBreak;
    var n := LineLength(s);
    if n < |s| {
      var b := BreakLength(s, n);
      var line, gap, rest := s[..n], s[n..n + b], s[n + b..];
      BreakIsBlank(s, n);
      TokensAcrossBreak(line, gap, rest);
      assert s == line + (gap + rest);
      TokensOfLines(rest);
      FlatTokensAppend([line], SplitLines(rest));
      FlatTokensPush([], line);
    } else if s != "" {
      assert SplitLines(s) == [s];
      assert FlatTokens([s]) == Tokens(s) + FlatTokens([s][1..]);
    }
  }

  lemma {:induction false} LineLengthAppend(line: string, rest: string)
    requires forall i | 0 <= i < |line| :: !IsLineBreak(line[i])
    requires rest == "" || IsLineBreak(rest[0])
    ensures LineLength(line + rest) == |line|
  {
    if line != "" {
      assert (line + rest)[1..] == line[1..] + rest;
      LineLengthAppend(line[1..], rest);
    } else {
      assert line + rest == rest;
    }
  }

  /** A line without breaks, closed by a line feed, is the first line of the text. */
  lemma SplitFirstLine(line: string, rest: string)
    requires forall i | 0 <= i < |line| :: !IsLineBreak(line[i])
    ensures SplitLines(line + "\n" + rest) == [line] + SplitLines(rest)
  {
    var s := line + "\n" + rest;
    assert s == line + ("\n" + rest);
    LineLengthAppend(line, "\n" + rest);
    assert s[..|line|] == line;
    assert s[|line|] == '\n';
    assert s[|line| + 1..] == rest;
  }

  // ----- What strip and join leave -----

  /** Stripping only removes whitespace at the ends. */
  lemma {:induction false} StripRightIsPrefix(s: string)
    ensures StripRight(s) <= s && Blank(s[|StripRight(s)|..])
  {
    if s != "" && IsSpace(s[|s| - 1]) {
      var front := s[..|s| - 1];
      StripRightIsPrefix(front);
      assert s[|StripRight(s)|..] == front[|StripRight(front)|..] + [s[|s| - 1]];
    }
  }

  lemma {:induction false} StripLeftIsSuffix(s: string)
    ensures StripLeft(s) == s[|s| - |StripLeft(s)|..] && Blank(s[..|s| - |StripLeft(s)|])
  {
    if s != "" && IsSpace(s[0]) {
      StripLeftIsSuffix(s[1..]);
      var n := |s| - |StripLeft(s)|;
      assert s[..n] == [s[0]] + s[1..][..n - 1];
    }
  }

  /** Whitespace in front of a text that does not begin with any is all that is stripped. */
  lemma {:induction false} StripLeftOf(gap: string, rest: string)
    requires Blank(gap) && (rest == "" || !IsSpace(rest[0]))
    ensures StripLeft(gap + rest) == rest
  {
    if gap == "" {
      assert gap + rest == rest;
    } else {
      assert (gap + rest)[1..] == gap[1..] + rest;
      StripLeftOf(gap[1..], rest);
    }
  }

  lemma StripIsMiddle(s: string)
    ensures exists lo, hi | 0 <= lo <= hi <= |s| ::
              Strip(s) == s[lo..hi] && Blank(s[..lo]) && Blank(s[hi..])
  {
    hide IsSpace, StripRight, StripLeft;
    StripLeftIsSuffix(s);
    StripRightIsPrefix(StripLeft(s));
    var lo := |s| - |StripLeft(s)|;
    var hi := lo + |Strip(s)|;
    assert s[hi..] == StripLeft(s)[|Strip(s)|..];
    assert Strip(s) == s[lo..hi];
  }

  /** Where the k-th part of a joined text begins. */
  function Offset(parts: seq<string>, separator: string, k: nat): nat
    requires k <= |parts|
  {
    if k == 0 then 0 else Offset(parts, separator, k - 1) + |parts[k - 1]| + |separator|
  }

  /** The k-th part stands at its place, after a separator if it is not the first. */
  predicate PartAt(text: string, parts: seq<string>, separator: string, k: nat)
    requires k < |parts|
  {
    var at := Offset(parts, separator, k);
    && at + |parts[k]| <= |text| && text[at..at + |parts[k]|] == parts[k]
    && (k > 0 ==> at >= |separator| && text[at - |separator|..at] == separator)
  }

  /** The text is the parts in order with one separator between neighbours, and nothing else. */
  ghost predicate IsLaidOut(text: string, parts: seq<string>, separator: string) {
    && (forall k | 0 <= k < |parts| :: PartAt(text, parts, separator, k))
    && |text| == (if parts == [] then 0
                  else Offset(parts, separator, |parts| - 1) + |parts[|parts| - 1]|)
  }

  lemma {:induction false} OffsetOfPrefix(parts: seq<string>, more: seq<string>, separator: string, k: nat)
    requires k <= |parts|
    ensures Offset(parts + more, separator, k) == Offset(parts, separator, k)
  {
    if k > 0 {
      OffsetOfPrefix(parts, more, separator, k - 1);
    }
  }

  lemma {:induction false} JoinPush(parts: seq<string>, last: string, separator: string)
    requires parts != []
    ensures Join(parts + [last], separator) == Join(parts, separator) + separator + last
  {
    var all := parts + [last];
    if |parts| > 1 {
      JoinPush(parts[1..], last, separator);
      assert all[1..] == parts[1..] + [last];
      var rest := Join(parts[1..], separator);
      assert parts[0] + separator + (rest + separator + last) == (parts[0] + separator + rest) + separator + last;
    } else {
      assert all[1..] == [last];
    }
  }

  lemma PartStays(text: string, more: string, parts: seq<string>, last: string, separator: string, k: nat)
    requires k < |parts| && PartAt(text, parts, separator, k)
    ensures PartAt(text + more, parts + [last], separator, k)
  {
    OffsetOfPrefix(parts, [last], separator, k);
    var at := Offset(parts, separator, k);
    assert (text + more)[at..at + |parts[k]|] == text[at..at + |parts[k]|];
    assert k > 0 ==> (text + more)[at - |separator|..at] == text[at - |separator|..at];
  }

  /** What `join` returns. */
  lemma {:induction false} JoinIsLaidOut(parts: seq<string>, separator: string)
    ensures IsLaidOut(Join(parts, separator), parts, separator)
  {
    hide PartAt, Offset, Join;
    if |parts| <= 1 {
      JoinOfAtMostOne(parts, separator);
    } else {
      var front, last := parts[..|parts| - 1], parts[|parts| - 1];
      JoinIsLaidOut(front, separator);
      JoinPush(front, last, separator);
      assert parts == front + [last];
      var text := Join(front, separator);
      assert Join(parts, separator) == text + (separator + last);
      forall k | 0 <= k < |parts| ensures PartAt(Join(parts, separator), parts, separator, k) {
        if k < |front| {
          PartStays(text, separator + last, front, last, separator, k);
        } else {
          LastPart(text, front, last, separator);
        }
      }
      LastPart(text, front, last, separator);
    }
  }

  lemma LastPart(text: string, front: seq<string>, last: string, separator: string)
    requires front != []
    requires |text| == Offset(front, separator, |front| - 1) + |front[|front| - 1]|
    ensures PartAt(text + (separator + last), front + [last], separator, |front|)
    ensures |text + (separator + last)| == Offset(front + [last], separator, |front|) + |last|
  {
    var parts := front + [last];
    OffsetOfPrefix(front, [last], separator, |front| - 1);
    assert parts[|front| - 1] == front[|front| - 1];
    assert Offset(parts, separator, |front|) == |text| + |separator|;
  }

  lemma JoinOfAtMostOne(parts: seq<string>, separator: string)
    requires |parts| <= 1
    ensures IsLaidOut(Join(parts, separator), parts, separator)
  {
  }
}
