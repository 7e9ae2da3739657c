/** The line grammar of the chunker: which lines open a heading, a fence, a table or a list item. */
module Markdown {
  import opened Text

  datatype Kind = Heading | Code | Table | List | Paragraph

  // ----- The line patterns -----

  function Hashes(line: string): (n: nat)
    ensures n <= |line|
  {
    if line == "" || line[0] != '#' then 0 else 1 + Hashes(line[1..])
  }

  /** One to six '#', whitespace, and at least one more character; 0 when the line is no heading. */
  function HeadingLevel(line: string): (level: nat)
    ensures level <= 6
  {
    var n := Hashes(line);
    if 1 <= n <= 6 && n + 2 <= |line| && IsSpace(line[n]) then n else 0
  }

  function HeadingText(line: string): string {
    Strip(line[Hashes(line)..])
  }

  predicate StartsWith(s: string, prefix: string) {
    prefix <= s
  }

  predicate IsFence(line: string) {
    StartsWith(StripLeft(line), "```") || StartsWith(StripLeft(line), "~~~")
  }

  /** The marker that must open the line closing the fence. */
  function FenceMarker(line: string): string {
    if StartsWith(StripLeft(line), "```") then "```" else "~~~"
  }

  function Digits(s: string): (n: nat)
    ensures n <= |s|
  {
    if s == "" || !('0' <= s[0] <= '9') then 0 else 1 + Digits(s[1..])
  }

  predicate IsListItem(line: string) {
    var s := StripLeft(line);
    var n := Digits(s);
    || (|s| >= 2 && s[0] in "-+*" && IsSpace(s[1]))
    || (1 <= n && n + 2 <= |s| && s[n] in ".)" && IsSpace(s[n + 1]))
  }

  function Dashes(s: string): (n: nat)
    ensures n <= |s|
  {
    if s == "" || s[0] != '-' then 0 else 1 + Dashes(s[1..])
  }

  function SkipOptional(s: string, c: char): (r: string)
    ensures |r| <= |s|
  {
    if s != "" && s[0] == c then s[1..] else s
  }

  /** The text after one delimiter cell, or the text itself when no cell starts here. */
  function AfterCell(s: string): (r: string)
    ensures |r| <= |s|
  {
    var dashes := SkipOptional(s, ':');
    if Dashes(dashes) < 3 then s
    else StripLeft(SkipOptional(dashes[Dashes(dashes)..], ':'))
  }

  /** Delimiter cells up to the end of the line, at least two counting those already read. */
  predicate Cells(s: string, read: nat)
    decreases |s|
  {
    var rest := AfterCell(s);
    && |rest| < |s|
    && if rest == "" then read >= 1
       else
         && rest[0] == '|'
         && var next := StripLeft(rest[1..]);
            (next == "" && read >= 1) || Cells(next, read + 1)
  }

  predicate IsTableSeparator(line: string) {
    Cells(StripLeft(SkipOptional(StripLeft(line), '|')), 0)
  }

  predicate IsTableStart(lines: seq<string>, i: nat)
    requires i < |lines|
  {
    i + 1 < |lines| && '|' in lines[i] && IsTableSeparator(lines[i + 1])
  }

  predicate StartsSpecial(lines: seq<string>, i: nat)
    requires i < |lines|
  {
    || HeadingLevel(lines[i]) > 0
    || IsFence(lines[i])
    || IsListItem(lines[i])
    || IsTableStart(lines, i)
  }

  // ----- The grammar of blocks -----

  /** What opens at a line; the first pattern that applies wins. */
  function KindAt(lines: seq<string>, i: nat): Kind
    requires i < |lines|
  {
    if HeadingLevel(lines[i]) > 0 then Heading
    else if IsFence(lines[i]) then Code
    else if IsTableStart(lines, i) then Table
    else if IsListItem(lines[i]) then List
    else Paragraph
  }

  predicate Closes(lines: seq<string>, opening: nat, i: nat)
    requires opening < |lines| && i < |lines|
  {
    StartsWith(StripLeft(lines[i]), FenceMarker(lines[opening]))
  }

  /** Whether a block opened at line s and reaching up to line j takes in line j as well. */
  predicate Extends(lines: seq<string>, s: nat, j: nat)
    requires s < j < |lines|
  {
    match KindAt(lines, s)
    case Heading => false
    case Code => j - 1 == s || !Closes(lines, s, j - 1)
    case Table => j == s + 1 || ('|' in lines[j] && !Blank(lines[j]))
    case List =>
      && !Blank(lines[j]) && HeadingLevel(lines[j]) == 0 && !IsFence(lines[j])
      && (IsListItem(lines[j]) || lines[j][0] in " \t")
    case Paragraph => !Blank(lines[j]) && !StartsSpecial(lines, j)
  }

  /** The headings in force from a line on: a heading of level n keeps the first n - 1 of them. */
  function PathAt(lines: seq<string>, i: nat, before: seq<string>): seq<string>
    requires i < |lines|
  {
    var level := HeadingLevel(lines[i]);
    if level == 0 then before
    else before[..if level - 1 < |before| then level - 1 else |before|] + [HeadingText(lines[i])]
  }

  datatype Block = Block(
    content: string, headingPath: seq<string>, startLine: nat, endLine: nat, kind: Kind)

  /** The block is the longest one that opens at its first line. */
  ghost predicate BlockAt(lines: seq<string>, b: Block, before: seq<string>) {
    && 1 <= b.startLine <= b.endLine <= |lines|
    && var s, e := b.startLine - 1, b.endLine;
      && !Blank(lines[s])
      && b.kind == KindAt(lines, s)
      && (forall j | s < j < e :: Extends(lines, s, j))
      && (e < |lines| ==> !Extends(lines, s, e))
      && b.content == Join(lines[s..e], "\n")
      && b.headingPath == PathAt(lines, s, before)
  }

  function EndOf(blocks: seq<Block>, i: nat): nat
    requires i <= |blocks|
  {
    if i == 0 then 0 else blocks[i - 1].endLine
  }

  function PathOf(blocks: seq<Block>, i: nat): seq<string>
    requires i <= |blocks|
  {
    if i == 0 then [] else blocks[i - 1].headingPath
  }

  ghost predicate BlankBetween(lines: seq<string>, lo: nat, hi: nat) {
    lo <= hi <= |lines| && forall k | lo <= k < hi :: Blank(lines[k])
  }

  ghost predicate Placed(lines: seq<string>, blocks: seq<Block>, i: nat)
    requires i < |blocks|
  {
    && BlockAt(lines, blocks[i], PathOf(blocks, i))
    && BlankBetween(lines, EndOf(blocks, i), blocks[i].startLine - 1)
  }

  /** The blocks account for the first `upto` lines: they follow each other in order and only
      blank lines lie before, between and after them. */
  ghost predicate Parsed(lines: seq<string>, upto: nat, blocks: seq<Block>) {
    && (forall i | 0 <= i < |blocks| :: Placed(lines, blocks, i))
    && BlankBetween(lines, EndOf(blocks, |blocks|), upto)
  }

  lemma BlockIsNotEmpty(lines: seq<string>, b: Block, before: seq<string>)
    requires BlockAt(lines, b, before)
    ensures 1 <= b.startLine <= b.endLine <= |lines|
    ensures BlankBetween(lines, b.endLine, b.endLine)
  {
  }

  lemma ParsedPush(lines: seq<string>, upto: nat, blocks: seq<Block>, b: Block)
    requires Parsed(lines, upto, blocks)
    requires b.startLine == upto + 1 && BlockAt(lines, b, PathOf(blocks, |blocks|))
    ensures Parsed(lines, b.endLine, blocks + [b])
  {
    hide BlockAt, BlankBetween;
    var all := blocks + [b];
    forall i | 0 <= i < |all| ensures Placed(lines, all, i) {
      assert i < |blocks| ==> Placed(lines, blocks, i);
      assert PathOf(all, i) == PathOf(blocks, i) && EndOf(all, i) == EndOf(blocks, i);
    }
    BlockIsNotEmpty(lines, b, PathOf(blocks, |blocks|));
  }

  // ----- The parser -----

  method MarkdownBlocks(content: string) returns (blocks: seq<Block>)
    ensures Parsed(SplitLines(content), |SplitLines(content)|, blocks)
  {
    hide HeadingLevel, IsFence, FenceMarker, IsListItem, IsTableSeparator, IsTableStart, SplitLines,
      Blank, HeadingText, Join;
    var lines := SplitLines(content);
    blocks := [];
    var headings: seq<string> := [];
    var index := 0;
    while index < |lines|
      invariant Parsed(lines, index, blocks)
      invariant headings == PathOf(blocks, |blocks|)
    {
      if Blank(lines[index]) {
        index := index + 1;
        continue;
      }
      var start := index;
      var level := HeadingLevel(lines[index]);
      if level > 0 {
        headings := headings[..if level - 1 < |headings| then level - 1 else |headings|];
        headings := headings + [HeadingText(lines[index])];
        index := index + 1;
        var block := Block(Join(lines[start..index], "\n"), headings, start + 1, index, Heading);
        ParsedPush(lines, start, blocks, block);
        blocks := blocks + [block];
        continue;
      }
      var kind;
      if IsFence(lines[index]) {
        kind := Code;
        index := CodeEnd(lines, start);
      } else if IsTableStart(lines, index) {
        kind := Table;
        index := TableEnd(lines, start);
      } else if IsListItem(lines[index]) {
        kind := List;
        index := ListEnd(lines, start);
      } else {
        kind := Paragraph;
        index := ParagraphEnd(lines, start);
      }
      var block := Block(Join(lines[start..index], "\n"), headings, start + 1, index, kind);
      ParsedPush(lines, start, blocks, block);
      blocks := blocks + [block];
    }
  }

  ghost predicate IsBlockEnd(lines: seq<string>, s: nat, e: nat)
    requires s < |lines|
  {
    && s < e <= |lines|
    && (forall j | s < j < e :: Extends(lines, s, j))
    && (e < |lines| ==> !Extends(lines, s, e))
  }

  method CodeEnd(lines: seq<string>, start: nat) returns (index: nat)
    requires start < |lines| && KindAt(lines, start) == Code
    ensures IsBlockEnd(lines, start, index)
  {
    var marker := FenceMarker(lines[start]);
    index := start + 1;
    while index < |lines|
      invariant start < index <= |lines|
      invariant forall j | start < j < index :: !Closes(lines, start, j)
    {
      if StartsWith(StripLeft(lines[index]), marker) {
        index := index + 1;
        break;
      }
      index := index + 1;
    }
  }

  method TableEnd(lines: seq<string>, start: nat) returns (index: nat)
    requires start < |lines| && KindAt(lines, start) == Table
    ensures IsBlockEnd(lines, start, index)
  {
    index := start + 2;
    while index < |lines| && '|' in lines[index] && !Blank(lines[index])
      invariant start + 2 <= index <= |lines|
      invariant forall j | start < j < index :: Extends(lines, start, j)
    {
      index := index + 1;
    }
  }

  method ListEnd(lines: seq<string>, start: nat) returns (index: nat)
    requires start < |lines| && KindAt(lines, start) == List
    ensures IsBlockEnd(lines, start, index)
  {
    hide HeadingLevel, IsFence, IsListItem, IsTableStart;
    index := start + 1;
    while index < |lines|
      invariant start < index <= |lines|
      invariant forall j | start < j < index :: Extends(lines, start, j)
    {
      var line := lines[index];
      if Blank(line) {
        break;
      }
      if HeadingLevel(line) > 0 || IsFence(line) {
        break;
      }
      if IsListItem(line) || line[0] in " \t" {
        index := index + 1;
        continue;
      }
      break;
    }
  }

  method ParagraphEnd(lines: seq<string>, start: nat) returns (index: nat)
    requires start < |lines| && KindAt(lines, start) == Paragraph
    ensures IsBlockEnd(lines, start, index)
  {
    hide HeadingLevel, IsFence, IsListItem, IsTableStart;
    index := start + 1;
    while index < |lines|
      invariant start < index <= |lines|
      invariant forall j | start < j < index :: Extends(lines, start, j)
    {
      if Blank(lines[index]) || StartsSpecial(lines, index) {
        break;
      }
      index := index + 1;
    }
  }

  // ----- The grammar determines the blocks -----

  lemma NextBlockIsUnique(lines: seq<string>, a: seq<Block>, b: seq<Block>, i: nat)
    requires Parsed(lines, |lines|, a) && Parsed(lines, |lines|, b)
    requires i < |a| && i <= |b| && a[..i] == b[..i]
    ensures i < |b| && a[i] == b[i]
  {
    hide Blank, KindAt, Extends, PathAt, Join;
    assert i > 0 ==> a[..i][i - 1] == b[..i][i - 1];
    assert EndOf(a, i) == EndOf(b, i) && PathOf(a, i) == PathOf(b, i);
    assert Placed(lines, a, i);
    assert i == |b| ==> BlankBetween(lines, EndOf(b, i), |lines|);
    assert Placed(lines, b, i);
    assert b[i].startLine == a[i].startLine;
    assert a[i].endLine == b[i].endLine;
  }

  lemma {:induction false} ParsePrefixIsUnique(lines: seq<string>, a: seq<Block>, b: seq<Block>, i: nat)
    requires Parsed(lines, |lines|, a) && Parsed(lines, |lines|, b)
    requires i <= |a|
    ensures i <= |b| && a[..i] == b[..i]
  {
    hide Parsed;
    if i > 0 {
      ParsePrefixIsUnique(lines, a, b, i - 1);
      NextBlockIsUnique(lines, a, b, i - 1);
      assert a[..i] == a[..i - 1] + [a[i - 1]] && b[..i] == b[..i - 1] + [b[i - 1]];
    }
  }

  /** A document has one reading only, so the grammar states exactly what the parser returns. */
  lemma ParseIsUnique(lines: seq<string>, a: seq<Block>, b: seq<Block>)
    requires Parsed(lines, |lines|, a) && Parsed(lines, |lines|, b)
    ensures a == b
  {
    ParsePrefixIsUnique(lines, a, b, |a|);
    ParsePrefixIsUnique(lines, b, a, |b|);
    assert a == a[..|a|] && b == b[..|b|];
  }

  // ----- What every reading keeps -----

  function Contents(blocks: seq<Block>): seq<string> {
    seq(|blocks|, i requires 0 <= i < |blocks| => blocks[i].content)
  }

  lemma {:induction false} BlankLinesHaveNoTokens(lines: seq<string>)
    requires forall k | 0 <= k < |lines| :: Blank(lines[k])
    ensures FlatTokens(lines) == []
  {
    if lines != [] {
      NoTokensWhenBlank(lines[0]);
      BlankLinesHaveNoTokens(lines[1..]);
    }
  }

  lemma TokensOfBlock(lines: seq<string>, lo: nat, b: Block, before: seq<string>)
    requires BlockAt(lines, b, before) && BlankBetween(lines, lo, b.startLine - 1)
    ensures FlatTokens(lines[..b.endLine]) == FlatTokens(lines[..lo]) + Tokens(b.content)
  {
    hide KindAt, Extends, PathAt, Join, Blank;
    var s, e := b.startLine - 1, b.endLine;
    TokensJoinLines(lines[s..e]);
    BlankLinesHaveNoTokens(lines[lo..s]);
    assert lines[..e] == lines[..lo] + (lines[lo..s] + lines[s..e]);
    FlatTokensAppend(lines[..lo], lines[lo..s] + lines[s..e]);
    FlatTokensAppend(lines[lo..s], lines[s..e]);
  }

  lemma TokensJoinLines(lines: seq<string>)
    ensures Tokens(Join(lines, "\n")) == FlatTokens(lines)
  {
    TokensJoin(lines, "\n");
  }

  lemma {:induction false} TokensOfBlockPrefix(lines: seq<string>, blocks: seq<Block>, i: nat)
    requires Parsed(lines, |lines|, blocks) && i <= |blocks|
    ensures EndOf(blocks, i) <= |lines|
    ensures FlatTokens(Contents(blocks[..i])) == FlatTokens(lines[..EndOf(blocks, i)])
  {
    hide Blank, KindAt, Extends, PathAt, Join, Tokens;
    if i > 0 {
      var b := blocks[i - 1];
      TokensOfBlockPrefix(lines, blocks, i - 1);
      assert Placed(lines, blocks, i - 1);
      TokensOfBlock(lines, EndOf(blocks, i - 1), b, PathOf(blocks, i - 1));
      assert Contents(blocks[..i]) == Contents(blocks[..i - 1]) + [b.content];
      FlatTokensPush(Contents(blocks[..i - 1]), b.content);
    }
  }

  /** The blocks carry every token of the document once and in order. */
  lemma TokensOfBlocks(content: string, blocks: seq<Block>)
    requires Parsed(SplitLines(content), |SplitLines(content)|, blocks)
    ensures FlatTokens(Contents(blocks)) == Tokens(content)
  {
    hide Blank, KindAt, Extends, PathAt, Join, Tokens, SplitLines;
    var lines := SplitLines(content);
    var end := EndOf(blocks, |blocks|);
    TokensOfBlockPrefix(lines, blocks, |blocks|);
    assert blocks[..|blocks|] == blocks;
    BlankLinesHaveNoTokens(lines[end..]);
    assert lines == lines[..end] + lines[end..];
    FlatTokensAppend(lines[..end], lines[end..]);
    TokensOfLines(content);
  }

  lemma {:induction false} BlocksAreOrdered(lines: seq<string>, blocks: seq<Block>, i: nat, j: nat)
    requires Parsed(lines, |lines|, blocks) && i < j < |blocks|
    ensures blocks[i].endLine < blocks[j].startLine
  {
    hide Blank, KindAt, Extends, PathAt, Join;
    assert Placed(lines, blocks, j);
    if i + 1 < j {
      BlocksAreOrdered(lines, blocks, i, j - 1);
      assert Placed(lines, blocks, j - 1);
    }
  }

  ghost predicate Holds(b: Block, line: nat) {
    b.startLine <= line + 1 <= b.endLine
  }

  lemma {:induction false} LineIsInSomeBlock(lines: seq<string>, blocks: seq<Block>, upto: nat, line: nat)
    requires Parsed(lines, |lines|, blocks) && upto <= |blocks|
    requires line < |lines| && line < EndOf(blocks, upto) && !Blank(lines[line])
    ensures exists i | 0 <= i < upto :: Holds(blocks[i], line)
  {
    hide Blank, KindAt, Extends, PathAt, Join;
    if upto > 0 {
      assert Placed(lines, blocks, upto - 1);
      if line < EndOf(blocks, upto - 1) {
        LineIsInSomeBlock(lines, blocks, upto - 1, line);
      } else {
        assert Holds(blocks[upto - 1], line);
      }
    }
  }

  /** Every line that is not blank belongs to exactly one block. */
  lemma EveryLineOnce(lines: seq<string>, blocks: seq<Block>, line: nat)
    requires Parsed(lines, |lines|, blocks)
    requires line < |lines| && !Blank(lines[line])
    ensures exists i | 0 <= i < |blocks| ::
      Holds(blocks[i], line) && forall j | 0 <= j < |blocks| && Holds(blocks[j], line) :: j == i
  {
    hide Blank, KindAt, Extends, PathAt, Join;
    LineIsInSomeBlock(lines, blocks, |blocks|, line);
    var i :| 0 <= i < |blocks| && Holds(blocks[i], line);
    forall j | 0 <= j < |blocks| && Holds(blocks[j], line) ensures j == i {
      if i < j {
        BlocksAreOrdered(lines, blocks, i, j);
      } else if j < i {
        BlocksAreOrdered(lines, blocks, j, i);
      }
    }
  }
}
