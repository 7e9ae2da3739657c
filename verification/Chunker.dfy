/** Packing the blocks of a document into chunks of bounded size, with an overlap of tokens
    between neighbours. */
module Chunker {
  import opened Text
  import opened Markdown

  datatype ChunkerConfig = ChunkerConfig(targetTokens: nat, maxTokens: nat, overlapTokens: nat)
  {
    predicate Valid() {
      0 < targetTokens <= maxTokens && overlapTokens < targetTokens
    }
  }

  datatype Locator = Locator(source: string, startLine: nat, endLine: nat)

  datatype Chunk = Chunk(
    documentId: string, ordinal: nat, content: string, headingPath: seq<string>,
    locator: Locator, tokenCount: nat)

  // ----- Splitting blocks that are too large -----

  function Cut(tokens: seq<string>, maximum: nat): seq<seq<string>>
    requires maximum > 0
  {
    if |tokens| <= maximum then (if tokens == [] then [] else [tokens])
    else [tokens[..maximum]] + Cut(tokens[maximum..], maximum)
  }

  function Rejoined(b: Block, parts: seq<seq<string>>): seq<Block> {
    seq(|parts|, i requires 0 <= i < |parts| => b.(content := Join(parts[i], " ")))
  }

  function PiecesOf(b: Block, maximum: nat): seq<Block>
    requires maximum > 0
  {
    if |Tokens(b.content)| <= maximum then [b] else Rejoined(b, Cut(Tokens(b.content), maximum))
  }

  function AllPieces(blocks: seq<Block>, maximum: nat): seq<Block>
    requires maximum > 0
  {
    if blocks == [] then []
    else AllPieces(blocks[..|blocks| - 1], maximum) + PiecesOf(blocks[|blocks| - 1], maximum)
  }

  method SplitOversizedBlocks(blocks: seq<Block>, maximum: nat) returns (split: seq<Block>)
    requires maximum > 0
    ensures split == AllPieces(blocks, maximum)
  {
    hide Tokens, Join, Cut, Rejoined;
    split := [];
    for k := 0 to |blocks|
      invariant split == AllPieces(blocks[..k], maximum)
    {
      var block := blocks[k];
      assert blocks[..k + 1][..k] == blocks[..k];
      ghost var before := split;
      var tokens := Tokens(block.content);
      if |tokens| <= maximum {
        split := split + [block];
        continue;
      }
      var offset := 0;
      assert tokens[0..] == tokens;
      while offset < |tokens|
        invariant 0 <= offset
        invariant before + Rejoined(block, Cut(tokens, maximum))
          == split + if offset < |tokens| then Rejoined(block, Cut(tokens[offset..], maximum)) else []
      {
        var end := if offset + maximum < |tokens| then offset + maximum else |tokens|;
        CutStep(block, tokens, offset, maximum);
        split := split + [block.(content := Join(tokens[offset..end], " "))];
        offset := offset + maximum;
      }
    }
    assert blocks[..|blocks|] == blocks;
  }

  lemma CutStep(b: Block, tokens: seq<string>, offset: nat, maximum: nat)
    requires maximum > 0 && offset < |tokens|
    ensures var end := if offset + maximum < |tokens| then offset + maximum else |tokens|;
      Rejoined(b, Cut(tokens[offset..], maximum))
      == [b.(content := Join(tokens[offset..end], " "))]
         + if end < |tokens| then Rejoined(b, Cut(tokens[end..], maximum)) else []
  {
    hide Join;
    var rest := tokens[offset..];
    if maximum < |rest| {
      assert rest[..maximum] == tokens[offset..offset + maximum];
      assert rest[maximum..] == tokens[offset + maximum..];
    } else {
      assert rest == tokens[offset..|tokens|];
      assert Cut(rest, maximum) == [rest];
    }
  }

  ghost predicate Fits(blocks: seq<Block>, maximum: nat) {
    forall b | b in blocks :: |Tokens(b.content)| <= maximum
  }

  /** A block that is no heading carries the path of the block before it. */
  ghost predicate PathsFollow(blocks: seq<Block>) {
    forall i, j | 0 <= i && j == i + 1 && j < |blocks| && blocks[j].kind != Heading ::
      blocks[j].headingPath == blocks[i].headingPath
  }

  lemma {:induction false} CutKeepsTokens(b: Block, tokens: seq<string>, maximum: nat)
    requires maximum > 0 && forall t | t in tokens :: IsWord(t)
    ensures var r := Rejoined(b, Cut(tokens, maximum));
      FlatTokens(Contents(r)) == tokens && Fits(r, maximum)
  {
    hide IsWord, Join, Tokens;
    var parts := Cut(tokens, maximum);
    var r := Rejoined(b, parts);
    if tokens == [] {
    } else if |tokens| <= maximum {
      WordsFromBlanks(tokens);
      FlatTokensPush([], Join(tokens, " "));
      assert Contents(r) == [] + [Join(tokens, " ")];
    } else {
      var head, tail := tokens[..maximum], tokens[maximum..];
      CutKeepsTokens(b, tail, maximum);
      WordsFromBlanks(head);
      var rest := Rejoined(b, Cut(tail, maximum));
      assert r == [b.(content := Join(head, " "))] + rest;
      FlatTokensPush([], Join(head, " "));
      FlatTokensAppend([] + [Join(head, " ")], Contents(rest));
      assert Contents(r) == ([] + [Join(head, " ")]) + Contents(rest);
    }
  }

  lemma WordsFromBlanks(words: seq<string>)
    requires forall w | w in words :: IsWord(w)
    ensures Tokens(Join(words, " ")) == words
  {
    TokensOfJoinedWords(words, " ");
  }

  lemma PiecesKeepTokens(b: Block, maximum: nat)
    requires maximum > 0
    ensures var r := PiecesOf(b, maximum);
      FlatTokens(Contents(r)) == Tokens(b.content) && Fits(r, maximum)
  {
    hide Tokens, Cut;
    if |Tokens(b.content)| <= maximum {
      FlatTokensPush([], b.content);
      assert Contents([b]) == [] + [b.content];
    } else {
      TokensAreWords(b.content);
      CutKeepsTokens(b, Tokens(b.content), maximum);
    }
  }

  predicate IsSelection(part: seq<string>, tokens: seq<string>) {
    part != [] && forall t | t in part :: t in tokens
  }

  lemma {:induction false} CutIsFull(tokens: seq<string>, maximum: nat, k: nat)
    requires maximum > 0 && k < |Cut(tokens, maximum)|
    ensures IsSelection(Cut(tokens, maximum)[k], tokens)
    ensures k < |Cut(tokens, maximum)| - 1 ==> |Cut(tokens, maximum)[k]| == maximum
  {
    if |tokens| > maximum {
      var rest := tokens[maximum..];
      assert Cut(tokens, maximum) == [tokens[..maximum]] + Cut(rest, maximum);
      if k > 0 {
        CutIsFull(rest, maximum, k - 1);
        assert Cut(tokens, maximum)[k] == Cut(rest, maximum)[k - 1];
      }
    }
  }

  /** A block that is too large is cut as rarely as possible: only its last piece can be shorter than
      the maximum, and none is empty. */
  lemma PiecesAreFull(b: Block, maximum: nat, k: nat)
    requires maximum > 0 && |Tokens(b.content)| > maximum && k < |PiecesOf(b, maximum)|
    ensures var pieces := PiecesOf(b, maximum);
      && Tokens(pieces[k].content) != []
      && (k < |pieces| - 1 ==> |Tokens(pieces[k].content)| == maximum)
  {
    hide Tokens, Join, IsWord, Cut;
    var tokens := Tokens(b.content);
    TokensAreWords(b.content);
    CutIsFull(tokens, maximum, k);
    WordsFromBlanks(Cut(tokens, maximum)[k]);
  }

  lemma FitsAppend(a: seq<Block>, b: seq<Block>, maximum: nat)
    requires Fits(a, maximum) && Fits(b, maximum)
    ensures Fits(a + b, maximum)
  {
    hide Tokens;
  }

  lemma NothingToSplit(maximum: nat)
    ensures Fits([], maximum) && FlatTokens(Contents([])) == []
  {
  }

  /** Splitting loses, repeats and reorders no token, and every piece fits the maximum. */
  lemma {:induction false} SplittingKeepsTokens(blocks: seq<Block>, maximum: nat)
    requires maximum > 0
    ensures var r := AllPieces(blocks, maximum);
      FlatTokens(Contents(r)) == FlatTokens(Contents(blocks)) && Fits(r, maximum)
  {
    hide Tokens, PiecesOf, Fits, FlatTokens;
    if blocks == [] {
      NothingToSplit(maximum);
    } else {
      var front, last := blocks[..|blocks| - 1], blocks[|blocks| - 1];
      SplittingKeepsTokens(front, maximum);
      PiecesKeepTokens(last, maximum);
      var a, b := AllPieces(front, maximum), PiecesOf(last, maximum);
      FitsAppend(a, b, maximum);
      FlatTokensAppend(Contents(a), Contents(b));
      FlatTokensPush(Contents(front), last.content);
      assert Contents(a + b) == Contents(a) + Contents(b);
      assert Contents(blocks) == Contents(front) + [last.content];
    }
  }

  lemma PiecesResemble(b: Block, maximum: nat)
    requires maximum > 0
    ensures PiecesOf(b, maximum) != []
    ensures forall p | p in PiecesOf(b, maximum) :: p == b.(content := p.content)
  {
    hide Tokens, Join;
  }

  lemma {:induction false} SplittingKeepsPaths(blocks: seq<Block>, maximum: nat)
    requires maximum > 0 && PathsFollow(blocks)
    ensures PathsFollow(AllPieces(blocks, maximum))
    ensures (blocks == [] <==> AllPieces(blocks, maximum) == [])
    ensures blocks != [] ==>
      var r := AllPieces(blocks, maximum);
      r[|r| - 1].headingPath == blocks[|blocks| - 1].headingPath
  {
    hide PiecesOf;
    if blocks != [] {
      var front, last := blocks[..|blocks| - 1], blocks[|blocks| - 1];
      SplittingKeepsPaths(front, maximum);
      PiecesResemble(last, maximum);
      JoinPaths(AllPieces(front, maximum), PiecesOf(last, maximum), last);
    }
  }

  lemma JoinPaths(a: seq<Block>, b: seq<Block>, last: Block)
    requires PathsFollow(a) && forall p | p in b :: p == last.(content := p.content)
    requires a != [] && last.kind != Heading ==> a[|a| - 1].headingPath == last.headingPath
    ensures PathsFollow(a + b)
  {
    forall i, j | 0 <= i && j == i + 1 && j < |a + b| && (a + b)[j].kind != Heading
      ensures (a + b)[j].headingPath == (a + b)[i].headingPath
    {
      if i >= |a| { assert (a + b)[i] in b; }
      if j >= |a| { assert (a + b)[j] in b; }
    }
  }

  // ----- Packing -----

  function GroupTokens(group: seq<Block>): seq<string> {
    FlatTokens(Contents(group))
  }

  function Ungroup(groups: seq<seq<Block>>): seq<Block> {
    if groups == [] then [] else Ungroup(groups[..|groups| - 1]) + groups[|groups| - 1]
  }

  /** A group is never empty, a heading only opens it, and it exceeds the target only when it is
      a single block. */
  ghost predicate IsGroup(group: seq<Block>, target: nat) {
    && group != []
    && (forall k | 1 <= k < |group| :: group[k].kind != Heading)
    && (|group| > 1 ==> |GroupTokens(group)| <= target)
  }

  /** The block could not be added to the group. */
  predicate Refuses(group: seq<Block>, next: Block, target: nat) {
    next.kind == Heading || |GroupTokens(group)| + |Tokens(next.content)| > target
  }

  ghost predicate PackedAt(groups: seq<seq<Block>>, j: nat, target: nat)
    requires j < |groups|
  {
    IsGroup(groups[j], target) && (j > 0 ==> Refuses(groups[j - 1], groups[j][0], target))
  }

  /** Each group took in all it could before the next one was opened. */
  ghost predicate Packed(groups: seq<seq<Block>>, target: nat) {
    forall j | 0 <= j < |groups| :: PackedAt(groups, j, target)
  }

  lemma GroupTokensPush(group: seq<Block>, b: Block)
    ensures GroupTokens(group + [b]) == GroupTokens(group) + Tokens(b.content)
  {
    FlatTokensPush(Contents(group), b.content);
    assert Contents(group + [b]) == Contents(group) + [b.content];
  }

  lemma PackedOpen(groups: seq<seq<Block>>, b: Block, target: nat)
    requires Packed(groups, target)
    requires groups != [] ==> Refuses(groups[|groups| - 1], b, target)
    ensures Packed(groups + [[b]], target)
    ensures Ungroup(groups + [[b]]) == Ungroup(groups) + [b]
  {
    hide Refuses, IsGroup;
    var after := groups + [[b]];
    assert after[..|groups|] == groups && after[|groups|] == [b];
    SingleIsGroup(b, target);
    forall j | 0 <= j < |after| ensures PackedAt(after, j, target) {
      assert j < |groups| ==> PackedAt(groups, j, target);
    }
  }

  lemma SingleIsGroup(b: Block, target: nat)
    ensures IsGroup([b], target)
  {
  }

  lemma PackedExtend(groups: seq<seq<Block>>, current: seq<Block>, b: Block, target: nat)
    requires Packed(groups + [current], target)
    requires !Refuses(current, b, target)
    ensures Packed(groups + [current + [b]], target)
    ensures Ungroup(groups + [current + [b]]) == Ungroup(groups + [current]) + [b]
  {
    hide GroupTokens, IsGroup;
    var before, after := groups + [current], groups + [current + [b]];
    assert before[|groups|] == current && after[|groups|] == current + [b];
    assert before[..|groups|] == groups && after[..|groups|] == groups;
    assert PackedAt(before, |groups|, target);
    GroupTakes(current, b, target);
    assert (current + [b])[0] == current[0];
    forall j | 0 <= j < |after| ensures PackedAt(after, j, target) {
      assert PackedAt(before, j, target);
    }
  }

  lemma GroupTakes(group: seq<Block>, b: Block, target: nat)
    requires IsGroup(group, target) && !Refuses(group, b, target)
    ensures group != [] && IsGroup(group + [b], target)
  {
    hide GroupTokens;
    GroupTokensPush(group, b);
  }

  method PackGroups(pieces: seq<Block>, config: ChunkerConfig) returns (groups: seq<seq<Block>>)
    requires config.Valid() && Fits(pieces, config.maxTokens)
    ensures Packed(groups, config.targetTokens) && Ungroup(groups) == pieces
  {
    hide Tokens, GroupTokens, Packed, Ungroup;
    groups := [];
    var current: seq<Block> := [];
    var currentTokens := 0;
    NoGroups(config.targetTokens);
    for k := 0 to |pieces|
      invariant current == [] ==> groups == [] && k == 0
      invariant current != [] ==> Packed(groups + [current], config.targetTokens)
      invariant current != [] ==> Ungroup(groups + [current]) == pieces[..k]
      invariant currentTokens == |GroupTokens(current)|
    {
      var block := pieces[k];
      assert block in pieces && pieces[..k + 1] == pieces[..k] + [block];
      var blockTokens := |Tokens(block.content)|;
      var startsSection := block.kind == Heading && current != [];
      var exceedsTarget := current != [] && currentTokens + blockTokens > config.targetTokens;
      var exceedsMax := currentTokens + blockTokens > config.maxTokens;
      if startsSection || exceedsTarget || exceedsMax {
        groups := groups + [current];
        current := [];
        currentTokens := 0;
      }
      GroupTokensPush(current, block);
      if current == [] {
        PackedOpen(groups, block, config.targetTokens);
        assert [] + [block] == [block];
      } else {
        PackedExtend(groups, current, block, config.targetTokens);
      }
      current := current + [block];
      currentTokens := currentTokens + blockTokens;
    }
    assert pieces[..|pieces|] == pieces;
    if current != [] {
      groups := groups + [current];
    }
  }

  lemma NoGroups(target: nat)
    ensures Packed([], target) && Ungroup([]) == [] && GroupTokens([]) == []
  {
  }

  // ----- Greedy packing determines the groups -----

  lemma {:induction false} UngroupFirst(groups: seq<seq<Block>>)
    requires groups != []
    ensures Ungroup(groups) == groups[0] + Ungroup(groups[1..])
  {
    if |groups| > 1 {
      var front := groups[..|groups| - 1];
      UngroupFirst(front);
      assert front[1..] == groups[1..][..|groups| - 2];
    } else {
      assert groups[..0] == [] && groups[1..] == [];
    }
  }

  lemma PackedTail(groups: seq<seq<Block>>, target: nat)
    requires Packed(groups, target) && groups != []
    ensures Packed(groups[1..], target)
  {
    hide IsGroup, Refuses;
    forall j | 0 <= j < |groups[1..]| ensures PackedAt(groups[1..], j, target) {
      assert PackedAt(groups, j + 1, target);
    }
  }

  lemma FirstGroupIsLongest(a: seq<seq<Block>>, b: seq<seq<Block>>, target: nat)
    requires Packed(a, target) && Packed(b, target) && Ungroup(a) == Ungroup(b)
    requires a != [] && b != []
    ensures |b[0]| <= |a[0]|
  {
    hide GroupTokens, Ungroup, IsGroup, Refuses;
    UngroupFirst(a);
    UngroupFirst(b);
    var g, h, rest := a[0], b[0], a[1..];
    assert PackedAt(a, 0, target) && PackedAt(b, 0, target);
    GroupIsNotEmpty(g, target);
    if rest == [] {
      NoGroups(target);
    } else if |g| < |h| {
      UngroupFirst(rest);
      assert PackedAt(a, 1, target);
      GroupIsNotEmpty(rest[0], target);
      assert Ungroup(a)[|g|] == rest[0][0] && Ungroup(b)[|g|] == h[|g|];
      assert Ungroup(a)[..|g|] == g && Ungroup(b)[..|g|] == h[..|g|];
      PrefixTakesNext(h, |g|, target);
    }
  }

  lemma GroupIsNotEmpty(group: seq<Block>, target: nat)
    requires IsGroup(group, target)
    ensures group != []
  {
  }

  lemma PrefixTakesNext(group: seq<Block>, n: nat, target: nat)
    requires IsGroup(group, target) && 0 < n < |group|
    ensures !Refuses(group[..n], group[n], target)
  {
    hide GroupTokens;
    GroupTokensPush(group[..n], group[n]);
    PrefixHasFewerTokens(group, group[..n] + [group[n]]);
  }

  lemma PrefixHasFewerTokens(group: seq<Block>, prefix: seq<Block>)
    requires prefix <= group
    ensures |GroupTokens(prefix)| <= |GroupTokens(group)|
  {
    var rest := group[|prefix|..];
    FlatTokensAppend(Contents(prefix), Contents(rest));
    assert Contents(group) == Contents(prefix) + Contents(rest);
  }

  /** The rule of taking in as much as fits leaves no choice: the grouping is determined. */
  lemma {:induction false} PackingIsUnique(a: seq<seq<Block>>, b: seq<seq<Block>>, target: nat)
    requires Packed(a, target) && Packed(b, target) && Ungroup(a) == Ungroup(b)
    ensures a == b
  {
    hide IsGroup, Refuses, Ungroup;
    if a != [] && b != [] {
      FirstGroupIsLongest(a, b, target);
      FirstGroupIsLongest(b, a, target);
      UngroupFirst(a);
      UngroupFirst(b);
      assert Ungroup(a)[..|a[0]|] == a[0] && Ungroup(b)[..|b[0]|] == b[0];
      assert Ungroup(a)[|a[0]|..] == Ungroup(a[1..]) && Ungroup(b)[|b[0]|..] == Ungroup(b[1..]);
      PackedTail(a, target);
      PackedTail(b, target);
      PackingIsUnique(a[1..], b[1..], target);
      assert a == [a[0]] + a[1..] && b == [b[0]] + b[1..];
    } else {
      GroupsHoldBlocks(a, target);
      GroupsHoldBlocks(b, target);
    }
  }

  lemma GroupsHoldBlocks(groups: seq<seq<Block>>, target: nat)
    requires Packed(groups, target)
    ensures Ungroup(groups) == [] <==> groups == []
  {
    if groups != [] {
      UngroupFirst(groups);
      assert PackedAt(groups, 0, target);
    }
  }

  // ----- Overlap -----

  function Stripped(group: seq<Block>): seq<string> {
    if group == [] then []
    else
      var last := Strip(group[|group| - 1].content);
      Stripped(group[..|group| - 1]) + (if last != "" then [last] else [])
  }

  function Body(group: seq<Block>): string {
    Join(Stripped(group), "\n\n")
  }

  function Last(tokens: seq<string>, n: nat): seq<string> {
    if n < |tokens| then tokens[|tokens| - n..] else tokens
  }

  /** A limit of 0 would select everything, because `[-0:]` does; no caller passes it. */
  function TailTokens(content: string, limit: nat): string
    requires limit > 0
  {
    Join(Last(Tokens(content), limit), " ")
  }

  function Min(a: int, b: int): int {
    if a < b then a else b
  }

  /** The tokens a chunk repeats from its predecessor: at most the configured overlap, at most
      what the predecessor has, and never more than the maximum leaves free. */
  function Overlap(config: ChunkerConfig, previous: seq<string>, bodyTokens: nat): seq<string> {
    var n := Min(Min(config.overlapTokens, |previous|), config.maxTokens - bodyTokens);
    if n <= 0 then [] else previous[|previous| - n..]
  }

  lemma {:induction false} TokensOfStripped(group: seq<Block>)
    ensures FlatTokens(Stripped(group)) == GroupTokens(group)
  {
    hide Tokens, Strip;
    if group == [] {
      NoGroups(0);
    } else {
      var front, last := group[..|group| - 1], group[|group| - 1];
      TokensOfStripped(front);
      TokensStrip(last.content);
      NoTokensWhenBlank(last.content);
      GroupTokensPush(front, last);
      FlatTokensPush(Stripped(front), Strip(last.content));
      assert group == front + [last];
      assert Strip(last.content) == "" ==> Stripped(group) == Stripped(front);
    }
  }

  lemma TokensOfBody(group: seq<Block>)
    ensures Tokens(Body(group)) == GroupTokens(group)
  {
    TokensOfStripped(group);
    TokensJoin(Stripped(group), "\n\n");
  }

  lemma TokensOfTail(content: string, limit: nat)
    requires limit > 0
    ensures Tokens(TailTokens(content, limit)) == Last(Tokens(content), limit)
  {
    TokensAreWords(content);
    WordsFromBlanks(Last(Tokens(content), limit));
  }

  lemma TokensOfOverlapped(overlap: string, body: string)
    ensures Tokens(overlap + "\n\n" + body) == Tokens(overlap) + Tokens(body)
  {
    var gap := "\n\n";
    NoTokensWhenBlank(gap);
    TokensAcrossBreak(overlap, gap, body);
    assert overlap + gap + body == overlap + (gap + body);
  }

  // ----- The text of a chunk -----

  /** The parts are the stripped contents of the blocks that are not blank, in order: the k-th part is
      that of the block at the k-th place, and no other block has any content. */
  ghost predicate Picks(group: seq<Block>, parts: seq<string>, places: seq<nat>) {
    && |places| == |parts|
    && (forall k | 0 <= k < |places| ::
          (places[k] < |group| && parts[k] == Strip(group[places[k]].content) && parts[k] != ""))
    && (forall k, l | 0 <= k < l < |places| :: places[k] < places[l])
    && (forall i | 0 <= i < |group| :: i in places || Strip(group[i].content) == "")
  }

  /** One blank line stands between neighbouring parts, and nothing else. */
  ghost predicate IsBody(group: seq<Block>, body: string) {
    exists parts, places :: Picks(group, parts, places) && IsLaidOut(body, parts, "\n\n")
  }

  /** The repeated tokens separated by single blanks and closed by a blank line, or nothing. */
  ghost predicate IsHead(repeated: seq<string>, head: string) {
    if repeated == [] then head == ""
    else exists words :: IsLaidOut(words, repeated, " ") && head == words + "\n\n"
  }

  ghost predicate IsContent(group: seq<Block>, repeated: seq<string>, text: string) {
    exists head, body :: text == head + body && IsHead(repeated, head) && IsBody(group, body)
  }

  lemma {:induction false} StrippedArePicked(group: seq<Block>) returns (places: seq<nat>)
    ensures Picks(group, Stripped(group), places)
  {
    hide Strip;
    places := [];
    if group != [] {
      var front, last := group[..|group| - 1], group[|group| - 1];
      var before := StrippedArePicked(front);
      assert group == front + [last];
      places := if Strip(last.content) != "" then before + [|front|] else before;
      PicksPush(front, Stripped(front), before, last);
    }
  }

  lemma PicksPush(group: seq<Block>, parts: seq<string>, places: seq<nat>, last: Block)
    requires Picks(group, parts, places)
    ensures var part := Strip(last.content);
      if part != "" then Picks(group + [last], parts + [part], places + [|group|])
      else Picks(group + [last], parts, places)
  {
    hide Strip;
    var all := group + [last];
    var more := if Strip(last.content) != "" then places + [|group|] else places;
    forall i | 0 <= i < |all| ensures i in more || Strip(all[i].content) == "" {
      if i < |group| {
        assert i in places || Strip(group[i].content) == "";
      } else if Strip(last.content) != "" {
        assert more[|places|] == i;
      }
    }
  }

  lemma BodyIsBody(group: seq<Block>)
    ensures IsBody(group, Body(group))
  {
    hide Join, Stripped, Picks, IsLaidOut;
    var places := StrippedArePicked(group);
    JoinIsLaidOut(Stripped(group), "\n\n");
  }

  lemma TailIsHead(content: string, limit: nat)
    requires limit > 0 && Tokens(content) != []
    ensures IsHead(Last(Tokens(content), limit), TailTokens(content, limit) + "\n\n")
  {
    hide Tokens, Join, IsLaidOut;
    JoinIsLaidOut(Last(Tokens(content), limit), " ");
  }

  /** Every block of a group that is not blank stands in the text, unchanged but for outer whitespace. */
  lemma BlockIsVerbatim(group: seq<Block>, repeated: seq<string>, text: string, k: nat)
    requires IsContent(group, repeated, text) && k < |group|
    ensures exists lo, hi | 0 <= lo <= hi <= |text| :: text[lo..hi] == Strip(group[k].content)
  {
    hide Strip, IsHead, PartAt, Offset;
    var part := Strip(group[k].content);
    if part == "" {
      assert text[0..0] == part;
    } else {
      var head, body :| text == head + body && IsHead(repeated, head) && IsBody(group, body);
      var parts, places :| Picks(group, parts, places) && IsLaidOut(body, parts, "\n\n");
      var j :| 0 <= j < |places| && places[j] == k;
      assert PartAt(body, parts, "\n\n", j);
      PartIsInside(head, body, parts, "\n\n", j);
    }
  }

  lemma PartIsInside(head: string, body: string, parts: seq<string>, separator: string, j: nat)
    requires j < |parts| && PartAt(body, parts, separator, j)
    ensures exists lo, hi | 0 <= lo <= hi <= |head + body| :: (head + body)[lo..hi] == parts[j]
  {
    var lo := |head| + Offset(parts, separator, j);
    assert (head + body)[lo..lo + |parts[j]|] == parts[j];
  }

  method ChunkBody(config: ChunkerConfig, ordinal: nat, previousContent: string, group: seq<Block>)
    returns (body: string)
    requires config.Valid() && |GroupTokens(group)| <= config.maxTokens
    ensures Tokens(body)
      == (if ordinal == 0 then [] else Overlap(config, Tokens(previousContent), |GroupTokens(group)|))
         + GroupTokens(group)
    ensures IsContent(
              group,
              if ordinal == 0 then [] else Overlap(config, Tokens(previousContent), |GroupTokens(group)|),
              body)
  {
    hide Tokens, GroupTokens, Join, Body, IsBody, IsHead, TailTokens;
    body := Body(group);
    TokensOfBody(group);
    BodyIsBody(group);
    NoHead();
    assert "" + body == body;
    if ordinal != 0 && config.overlapTokens != 0 {
      var overlap := TailTokens(previousContent, config.overlapTokens);
      TokensOfTail(previousContent, config.overlapTokens);
      var available := config.maxTokens - |Tokens(body)|;
      NoTokensWhenBlank(overlap);
      if overlap != "" && available > 0 {
        var limit := Min(config.overlapTokens, available);
        TokensOfTail(overlap, limit);
        TailHasTokens(previousContent, config.overlapTokens);
        TailIsHead(overlap, limit);
        overlap := TailTokens(overlap, limit);
        TokensOfOverlapped(overlap, body);
        var head := overlap + "\n\n";
        assert IsHead(Tokens(overlap), head) && IsBody(group, body);
        body := head + body;
      }
    }
  }

  lemma TailHasTokens(content: string, limit: nat)
    requires limit > 0 && TailTokens(content, limit) != ""
    ensures Last(Tokens(content), limit) != []
  {
    hide Tokens;
  }

  lemma NoHead()
    ensures IsHead([], "")
  {
  }

  // ----- Chunks -----

  ghost predicate ChunkAt(
    config: ChunkerConfig, documentId: string, source: string,
    groups: seq<seq<Block>>, chunks: seq<Chunk>, i: nat)
    requires i < |groups| == |chunks|
  {
    var group, chunk := groups[i], chunks[i];
    && group != []
    && |GroupTokens(group)| <= config.maxTokens
    && chunk.documentId == documentId
    && chunk.ordinal == i
    && chunk.headingPath == group[0].headingPath
    && chunk.locator == Locator(source, group[0].startLine, group[|group| - 1].endLine)
    && chunk.tokenCount == |Tokens(chunk.content)|
    && Tokens(chunk.content) == Repeated(config, groups, chunks, i) + GroupTokens(group)
    && IsContent(group, Repeated(config, groups, chunks, i), chunk.content)
  }

  ghost function Repeated(
    config: ChunkerConfig, groups: seq<seq<Block>>, chunks: seq<Chunk>, i: nat): seq<string>
    requires i < |groups| && i <= |chunks|
  {
    if i == 0 then []
    else Overlap(config, Tokens(chunks[i - 1].content), |GroupTokens(groups[i])|)
  }

  ghost predicate ChunksOf(
    config: ChunkerConfig, documentId: string, source: string,
    groups: seq<seq<Block>>, chunks: seq<Chunk>)
  {
    && |groups| == |chunks|
    && forall i | 0 <= i < |groups| :: ChunkAt(config, documentId, source, groups, chunks, i)
  }

  lemma ChunksPush(
      config: ChunkerConfig, documentId: string, source: string,
      groups: seq<seq<Block>>, chunks: seq<Chunk>, chunk: Chunk)
    requires |chunks| < |groups|
    requires ChunksOf(config, documentId, source, groups[..|chunks|], chunks)
    requires ChunkAt(config, documentId, source, groups[..|chunks| + 1], chunks + [chunk], |chunks|)
    ensures ChunksOf(config, documentId, source, groups[..|chunks| + 1], chunks + [chunk])
  {
    hide Tokens, GroupTokens, Overlap, IsContent;
    var after := groups[..|chunks| + 1];
    forall i | 0 <= i < |after| ensures ChunkAt(config, documentId, source, after, chunks + [chunk], i) {
      assert i < |chunks| ==> ChunkAt(config, documentId, source, groups[..|chunks|], chunks, i);
    }
  }

  lemma GroupsFit(groups: seq<seq<Block>>, config: ChunkerConfig, j: nat)
    requires config.Valid() && Packed(groups, config.targetTokens) && j < |groups|
    requires Fits(Ungroup(groups), config.maxTokens)
    ensures groups[j] != [] && |GroupTokens(groups[j])| <= config.maxTokens
  {
    hide Tokens, Refuses;
    var group := groups[j];
    assert PackedAt(groups, j, config.targetTokens);
    if |group| == 1 {
      UngroupHolds(groups, j, group[0]);
      assert group == [] + [group[0]];
      GroupTokensPush([], group[0]);
      NoGroups(0);
    }
  }

  lemma {:induction false} UngroupHolds(groups: seq<seq<Block>>, j: nat, b: Block)
    requires j < |groups| && b in groups[j]
    ensures b in Ungroup(groups)
  {
    if j < |groups| - 1 {
      UngroupHolds(groups[..|groups| - 1], j, b);
    }
  }

  method ChunkDocument(config: ChunkerConfig, documentId: string, content: string, source: string)
    returns (chunks: seq<Chunk>, ghost blocks: seq<Block>, ghost groups: seq<seq<Block>>)
    requires config.Valid()
    ensures Parsed(SplitLines(content), |SplitLines(content)|, blocks)
    ensures Ungroup(groups) == AllPieces(blocks, config.maxTokens)
    ensures Packed(groups, config.targetTokens)
    ensures ChunksOf(config, documentId, source, groups, chunks)
    ensures forall i | 0 <= i < |chunks| :: IsNumbered(config, documentId, chunks, i)
  {
    hide Tokens, GroupTokens, Overlap, Parsed, Packed, Ungroup, AllPieces, Fits, IsNumbered, IsContent;
    var parsed := MarkdownBlocks(content);
    blocks := parsed;
    chunks := [];
    if parsed == [] {
      groups := [];
      NoGroups(config.targetTokens);
      NoPieces(config.maxTokens);
      return;
    }
    var pieces := SplitOversizedBlocks(parsed, config.maxTokens);
    SplittingKeepsTokens(parsed, config.maxTokens);
    var packed := PackGroups(pieces, config);
    groups := packed;
    var previousContent := "";
    for ordinal := 0 to |packed|
      invariant |chunks| == ordinal
      invariant ordinal > 0 ==> previousContent == chunks[ordinal - 1].content
      invariant ChunksOf(config, documentId, source, packed[..ordinal], chunks)
    {
      var group := packed[ordinal];
      GroupsFit(packed, config, ordinal);
      var body := ChunkBody(config, ordinal, previousContent, group);
      var chunk := Chunk(
        documentId, ordinal, body, group[0].headingPath,
        Locator(source, group[0].startLine, group[|group| - 1].endLine), |Tokens(body)|);
      ChunksPush(config, documentId, source, packed, chunks, chunk);
      chunks := chunks + [chunk];
      previousContent := body;
    }
    assert packed[..|packed|] == packed;
    forall i | 0 <= i < |chunks| ensures IsNumbered(config, documentId, chunks, i) {
      ChunkIsNumbered(config, documentId, source, groups, chunks, i);
    }
  }

  /** A chunk has the document's id, its own place as ordinal, and its true number of tokens, which
      is within the maximum. */
  predicate IsNumbered(config: ChunkerConfig, documentId: string, chunks: seq<Chunk>, i: nat)
    requires i < |chunks|
  {
    && chunks[i].documentId == documentId && chunks[i].ordinal == i
    && chunks[i].tokenCount == |Tokens(chunks[i].content)| <= config.maxTokens
  }

  lemma ChunkIsNumbered(
      config: ChunkerConfig, documentId: string, source: string,
      groups: seq<seq<Block>>, chunks: seq<Chunk>, i: nat)
    requires config.Valid() && ChunksOf(config, documentId, source, groups, chunks) && i < |chunks|
    ensures IsNumbered(config, documentId, chunks, i)
  {
    hide Tokens, GroupTokens;
    assert ChunkAt(config, documentId, source, groups, chunks, i);
  }

  lemma NoPieces(maximum: nat)
    requires maximum > 0
    ensures AllPieces([], maximum) == []
  {
  }

  // ----- What every chunking keeps -----

  /** A chunk's tokens after those repeated from its predecessor. */
  ghost function Fresh(
    config: ChunkerConfig, groups: seq<seq<Block>>, chunks: seq<Chunk>, i: nat): seq<string>
    requires i < |groups| == |chunks|
  {
    var tokens, n := Tokens(chunks[i].content), |Repeated(config, groups, chunks, i)|;
    if n <= |tokens| then tokens[n..] else []
  }

  ghost function WithoutOverlap(
    config: ChunkerConfig, groups: seq<seq<Block>>, chunks: seq<Chunk>, n: nat): seq<string>
    requires n <= |groups| == |chunks|
  {
    if n == 0 then []
    else WithoutOverlap(config, groups, chunks, n - 1) + Fresh(config, groups, chunks, n - 1)
  }

  lemma {:induction false} WithoutOverlapIsUngrouped(
      config: ChunkerConfig, documentId: string, source: string,
      groups: seq<seq<Block>>, chunks: seq<Chunk>, n: nat)
    requires ChunksOf(config, documentId, source, groups, chunks) && n <= |groups|
    ensures WithoutOverlap(config, groups, chunks, n) == GroupTokens(Ungroup(groups[..n]))
  {
    hide Tokens, GroupTokens, Repeated;
    if n == 0 {
      NoGroups(0);
    } else {
      WithoutOverlapIsUngrouped(config, documentId, source, groups, chunks, n - 1);
      assert ChunkAt(config, documentId, source, groups, chunks, n - 1);
      assert groups[..n][..n - 1] == groups[..n - 1];
      GroupTokensAppend(Ungroup(groups[..n - 1]), groups[n - 1]);
    }
  }

  lemma GroupTokensAppend(a: seq<Block>, b: seq<Block>)
    ensures GroupTokens(a + b) == GroupTokens(a) + GroupTokens(b)
  {
    FlatTokensAppend(Contents(a), Contents(b));
    assert Contents(a + b) == Contents(a) + Contents(b);
  }

  /** Chunking loses, repeats and reorders nothing: without the overlaps, the chunks give back
      the token sequence of the document. */
  lemma NothingLost(
      config: ChunkerConfig, documentId: string, source: string, content: string,
      blocks: seq<Block>, groups: seq<seq<Block>>, chunks: seq<Chunk>)
    requires config.Valid()
    requires Parsed(SplitLines(content), |SplitLines(content)|, blocks)
    requires Ungroup(groups) == AllPieces(blocks, config.maxTokens)
    requires ChunksOf(config, documentId, source, groups, chunks)
    ensures WithoutOverlap(config, groups, chunks, |chunks|) == Tokens(content)
  {
    hide Tokens, ChunkAt, Parsed, Ungroup, AllPieces, Repeated, WithoutOverlap, SplitLines;
    WithoutOverlapIsUngrouped(config, documentId, source, groups, chunks, |groups|);
    assert groups[..|groups|] == groups;
    SplittingKeepsTokens(blocks, config.maxTokens);
    TokensOfBlocks(content, blocks);
  }

  /** No chunk exceeds the maximum, and the overlap never pushes one over it. */
  lemma ChunksFit(
      config: ChunkerConfig, documentId: string, source: string,
      groups: seq<seq<Block>>, chunks: seq<Chunk>, i: nat)
    requires config.Valid() && ChunksOf(config, documentId, source, groups, chunks)
    requires Packed(groups, config.targetTokens) && i < |chunks|
    ensures chunks[i].tokenCount <= config.maxTokens
    ensures |groups[i]| > 1 ==> |GroupTokens(groups[i])| <= config.targetTokens
  {
    hide Tokens, GroupTokens, Refuses;
    assert ChunkAt(config, documentId, source, groups, chunks, i);
    assert PackedAt(groups, i, config.targetTokens);
  }

  lemma BlocksFollowPaths(lines: seq<string>, blocks: seq<Block>)
    requires Parsed(lines, |lines|, blocks)
    ensures PathsFollow(blocks)
  {
    hide Blank, HeadingText, Extends;
    forall i, j | 0 <= i && j == i + 1 && j < |blocks| && blocks[j].kind != Heading
      ensures blocks[j].headingPath == blocks[i].headingPath
    {
      assert Placed(lines, blocks, j);
      assert HeadingLevel(lines[blocks[j].startLine - 1]) == 0;
    }
  }

  lemma {:induction false} GroupInSequence(groups: seq<seq<Block>>, g: nat, k: nat)
    requires g < |groups| && k + 1 < |groups[g]|
    ensures exists i | 0 <= i < |Ungroup(groups)| - 1 ::
      Ungroup(groups)[i] == groups[g][k] && Ungroup(groups)[i + 1] == groups[g][k + 1]
  {
    var front := groups[..|groups| - 1];
    if g < |front| {
      GroupInSequence(front, g, k);
      var i :| 0 <= i < |Ungroup(front)| - 1
        && Ungroup(front)[i] == groups[g][k] && Ungroup(front)[i + 1] == groups[g][k + 1];
      assert Ungroup(groups)[i] == Ungroup(front)[i] && Ungroup(groups)[i + 1] == Ungroup(front)[i + 1];
    } else {
      var i := |Ungroup(front)| + k;
      assert Ungroup(groups)[i] == groups[g][k] && Ungroup(groups)[i + 1] == groups[g][k + 1];
    }
  }

  lemma {:induction false} GroupSharesPath(groups: seq<seq<Block>>, target: nat, g: nat, k: nat)
    requires Packed(groups, target) && PathsFollow(Ungroup(groups))
    requires g < |groups| && k < |groups[g]|
    ensures groups[g][k].headingPath == groups[g][0].headingPath
  {
    hide Refuses, GroupTokens, Ungroup;
    if k > 0 {
      GroupSharesPath(groups, target, g, k - 1);
      GroupInSequence(groups, g, k - 1);
      assert PackedAt(groups, g, target);
    }
  }

  /** Everything in a chunk lies under the chunk's heading path. */
  lemma ChunkSharesPath(
      config: ChunkerConfig, documentId: string, source: string, content: string,
      blocks: seq<Block>, groups: seq<seq<Block>>, chunks: seq<Chunk>, i: nat)
    requires config.Valid()
    requires Parsed(SplitLines(content), |SplitLines(content)|, blocks)
    requires Ungroup(groups) == AllPieces(blocks, config.maxTokens)
    requires Packed(groups, config.targetTokens)
    requires ChunksOf(config, documentId, source, groups, chunks) && i < |chunks|
    ensures forall b | b in groups[i] :: b.headingPath == chunks[i].headingPath
  {
    hide Tokens, GroupTokens, Parsed, Packed, Ungroup, AllPieces, SplitLines, PathsFollow;
    BlocksFollowPaths(SplitLines(content), blocks);
    SplittingKeepsPaths(blocks, config.maxTokens);
    assert ChunkAt(config, documentId, source, groups, chunks, i);
    forall k | 0 <= k < |groups[i]| ensures groups[i][k].headingPath == chunks[i].headingPath {
      GroupSharesPath(groups, config.targetTokens, i, k);
    }
  }

  /** Lists, tables, fences and all other blocks are kept whole whenever they fit. */
  lemma {:induction false} FittingBlocksStayWhole(blocks: seq<Block>, b: Block, maximum: nat)
    requires maximum > 0 && b in blocks && |Tokens(b.content)| <= maximum
    ensures b in AllPieces(blocks, maximum)
  {
    hide Tokens, Cut;
    if b != blocks[|blocks| - 1] {
      assert b in blocks[..|blocks| - 1];
      FittingBlocksStayWhole(blocks[..|blocks| - 1], b, maximum);
    }
  }

  // ----- What the rules mean -----

  /** A chunk repeats the last tokens of the one before it: as many as the configured overlap, the
      previous chunk and the room left by the body all allow. */
  lemma OverlapIsTail(config: ChunkerConfig, previous: seq<string>, bodyTokens: nat)
    requires bodyTokens <= config.maxTokens
    ensures var r, room := Overlap(config, previous, bodyTokens), config.maxTokens - bodyTokens;
      && |r| <= config.overlapTokens && |r| <= |previous| && |r| <= room
      && (|r| == config.overlapTokens || |r| == |previous| || |r| == room)
      && r == previous[|previous| - |r|..]
  {
  }

  /** A group ends only before a heading, or before a piece that would take it over the target. */
  lemma GroupsEndLate(groups: seq<seq<Block>>, target: nat, j: nat)
    requires Packed(groups, target) && j + 1 < |groups|
    ensures groups[j] != [] && groups[j + 1] != []
    ensures groups[j + 1][0].kind == Heading
         || |GroupTokens(groups[j])| + |Tokens(groups[j + 1][0].content)| > target
  {
    hide GroupTokens, Tokens;
    assert PackedAt(groups, j, target) && PackedAt(groups, j + 1, target);
  }

  ghost predicate Contains(text: string, part: string) {
    exists lo, hi | 0 <= lo <= hi <= |text| :: text[lo..hi] == part
  }

  lemma {:induction false} InSomeGroup(groups: seq<seq<Block>>, b: Block) returns (i: nat)
    requires b in Ungroup(groups)
    ensures i < |groups| && b in groups[i]
  {
    var last := |groups| - 1;
    if b in groups[last] {
      i := last;
    } else {
      i := InSomeGroup(groups[..last], b);
    }
  }

  /** A list, a table, a fence or any other block within the maximum stands unchanged, but for outer
      whitespace, in the text of the chunk that has it, under its own heading path. */
  lemma FittingBlockIsVerbatim(
      config: ChunkerConfig, documentId: string, source: string, content: string,
      blocks: seq<Block>, groups: seq<seq<Block>>, chunks: seq<Chunk>, b: Block)
      returns (i: nat)
    requires config.Valid()
    requires Parsed(SplitLines(content), |SplitLines(content)|, blocks)
    requires Ungroup(groups) == AllPieces(blocks, config.maxTokens)
    requires Packed(groups, config.targetTokens)
    requires ChunksOf(config, documentId, source, groups, chunks)
    requires b in blocks && |Tokens(b.content)| <= config.maxTokens
    ensures i < |chunks| && b in groups[i]
    ensures Contains(chunks[i].content, Strip(b.content)) && chunks[i].headingPath == b.headingPath
  {
    hide Tokens, GroupTokens, Parsed, Packed, Ungroup, AllPieces, SplitLines, Strip, IsContent, Repeated;
    FittingBlocksStayWhole(blocks, b, config.maxTokens);
    i := InSomeGroup(groups, b);
    ChunkSharesPath(config, documentId, source, content, blocks, groups, chunks, i);
    assert ChunkAt(config, documentId, source, groups, chunks, i);
    var k :| 0 <= k < |groups[i]| && groups[i][k] == b;
    BlockIsVerbatim(groups[i], Repeated(config, groups, chunks, i), chunks[i].content, k);
  }
}
