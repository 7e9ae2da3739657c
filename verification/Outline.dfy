/** The heading path of a block against the outline of its document. A heading of level n keeps
    the first n - 1 entries of the path before it, counting entries and not levels. */
module Outline {
  import opened Text
  import opened Markdown

  datatype HeadingLine = HeadingLine(level: nat, text: string)

  function HeadingOf(line: string): HeadingLine {
    HeadingLine(HeadingLevel(line), HeadingText(line))
  }

  /** The headings among the blocks, in order; a heading block is its line. */
  function HeadingsOf(blocks: seq<Block>): seq<HeadingLine> {
    if blocks == [] then []
    else
      var last := blocks[|blocks| - 1];
      HeadingsOf(blocks[..|blocks| - 1])
      + (if last.kind == Heading then [HeadingOf(last.content)] else [])
  }

  function Kept(path: seq<HeadingLine>, level: nat): (n: nat)
    ensures n <= |path|
  {
    if level == 0 then |path| else if level - 1 < |path| then level - 1 else |path|
  }

  /** The path that the parser keeps after reading these headings. */
  function PathAfter(headings: seq<HeadingLine>): seq<HeadingLine> {
    if headings == [] then []
    else
      var before, last := PathAfter(headings[..|headings| - 1]), headings[|headings| - 1];
      before[..Kept(before, last.level)] + [last]
  }

  function Texts(path: seq<HeadingLine>): seq<string> {
    seq(|path|, i requires 0 <= i < |path| => path[i].text)
  }

  lemma HeadingDoesNotExtend(lines: seq<string>, s: nat, j: nat)
    requires s < j < |lines| && KindAt(lines, s) == Heading
    ensures !Extends(lines, s, j)
  {
  }

  lemma HeadingIsOneLine(lines: seq<string>, b: Block, before: seq<string>)
    requires BlockAt(lines, b, before) && b.kind == Heading
    ensures b.endLine == b.startLine && b.content == lines[b.startLine - 1]
  {
    hide Extends, KindAt;
    var s, e := b.startLine - 1, b.endLine;
    if e > s + 1 {
      assert Extends(lines, s, s + 1);
      HeadingDoesNotExtend(lines, s, s + 1);
    } else {
      assert lines[s..e] == [lines[s]];
    }
  }

  lemma StepOfPath(lines: seq<string>, b: Block, before: seq<HeadingLine>)
    requires BlockAt(lines, b, Texts(before))
    ensures var heading := HeadingOf(b.content);
      b.headingPath == if b.kind == Heading
        then Texts(before[..Kept(before, heading.level)] + [heading])
        else Texts(before)
  {
    hide HeadingLevel, HeadingText, Extends;
    if b.kind == Heading {
      HeadingIsOneLine(lines, b, Texts(before));
    }
  }

  lemma PathAfterPush(headings: seq<HeadingLine>, last: HeadingLine)
    ensures var before := PathAfter(headings);
      PathAfter(headings + [last]) == before[..Kept(before, last.level)] + [last]
  {
    assert (headings + [last])[..|headings|] == headings;
  }

  lemma HeadingsPush(blocks: seq<Block>, b: Block)
    ensures HeadingsOf(blocks + [b])
      == HeadingsOf(blocks) + (if b.kind == Heading then [HeadingOf(b.content)] else [])
  {
    hide HeadingOf;
    assert (blocks + [b])[..|blocks|] == blocks;
  }

  /** Every block carries the path left by the headings up to and including itself. */
  lemma {:induction false} PathOfBlock(lines: seq<string>, blocks: seq<Block>, i: nat)
    requires Parsed(lines, |lines|, blocks) && i <= |blocks|
    ensures PathOf(blocks, i) == Texts(PathAfter(HeadingsOf(blocks[..i])))
  {
    hide BlockAt, BlankBetween, HeadingOf, HeadingsOf, PathAfter, Kept;
    if i > 0 {
      var before, b := HeadingsOf(blocks[..i - 1]), blocks[i - 1];
      PathOfBlock(lines, blocks, i - 1);
      assert Placed(lines, blocks, i - 1);
      StepOfPath(lines, b, PathAfter(before));
      assert blocks[..i] == blocks[..i - 1] + [b];
      HeadingsPush(blocks[..i - 1], b);
      PathAfterPush(before, HeadingOf(b.content));
      assert before + [] == before;
    } else {
      NoHeadings();
    }
  }

  lemma NoHeadings()
    ensures HeadingsOf([]) == [] && PathAfter([]) == [] && Texts([]) == []
  {
  }

  /** The path ends in the last heading and is never longer than that heading's level. */
  lemma PathDepth(headings: seq<HeadingLine>)
    requires headings != [] && headings[|headings| - 1].level >= 1
    ensures var last := headings[|headings| - 1];
      0 < |PathAfter(headings)| <= last.level && PathAfter(headings)[|PathAfter(headings)| - 1] == last
  {
  }

  // ----- Is the path the chain of enclosing headings? -----

  function Shallower(chain: seq<HeadingLine>, level: nat): seq<HeadingLine> {
    if chain == [] then []
    else
      var last := chain[|chain| - 1];
      Shallower(chain[..|chain| - 1], level) + (if last.level < level then [last] else [])
  }

  /** The headings whose sections are open: each heading closes those of its level and deeper. */
  function OpenChain(headings: seq<HeadingLine>): seq<HeadingLine> {
    if headings == [] then []
    else
      var last := headings[|headings| - 1];
      Shallower(OpenChain(headings[..|headings| - 1]), last.level) + [last]
  }

  /** The entry that a new heading would be filed under lies above it in level. */
  predicate FiledUnderShallower(path: seq<HeadingLine>, level: nat) {
    var n := Kept(path, level);
    n == 0 || path[n - 1].level < level
  }

  predicate Increasing(chain: seq<HeadingLine>) {
    && (forall i | 0 <= i < |chain| :: chain[i].level >= 1)
    && (forall i, j | 0 <= i < j < |chain| :: chain[i].level < chain[j].level)
  }

  lemma {:induction false} ShallowerIsPrefix(chain: seq<HeadingLine>, level: nat)
    requires Increasing(chain)
    ensures Shallower(chain, level) <= chain
    ensures Increasing(Shallower(chain, level))
    ensures forall i | 0 <= i < |chain| :: i < |Shallower(chain, level)| <==> chain[i].level < level
  {
    if chain != [] {
      var front, last := chain[..|chain| - 1], chain[|chain| - 1];
      var kept := Shallower(front, level);
      ShallowerIsPrefix(front, level);
      assert forall i | 0 <= i < |front| :: front[i] == chain[i];
      if last.level < level {
        assert front != [] ==> |front| - 1 < |kept|;
        assert Shallower(chain, level) == chain;
      } else {
        assert Shallower(chain, level) == kept;
      }
    }
  }

  lemma {:induction false} IncreasingLast(chain: seq<HeadingLine>)
    requires Increasing(chain)
    ensures forall i | 0 <= i < |chain| :: i + 1 <= chain[i].level && chain[i].level <= chain[|chain| - 1].level
  {
    if |chain| > 1 {
      var front := chain[..|chain| - 1];
      IncreasingLast(front);
      assert front[|front| - 1].level < chain[|chain| - 1].level;
      assert forall i | 0 <= i < |front| :: front[i] == chain[i];
    }
  }

  lemma NothingIncreases()
    ensures Increasing([])
  {
  }

  lemma IncreasingPush(chain: seq<HeadingLine>, last: HeadingLine)
    requires Increasing(chain) && last.level >= 1
    ensures Increasing(Shallower(chain, last.level) + [last])
  {
    ShallowerIsPrefix(chain, last.level);
    var kept := Shallower(chain, last.level);
    assert kept != [] ==> kept[|kept| - 1] == chain[|kept| - 1];
  }

  lemma {:induction false} OpenChainIncreases(headings: seq<HeadingLine>)
    requires forall h | h in headings :: h.level >= 1
    ensures Increasing(OpenChain(headings))
  {
    hide Shallower, Increasing;
    if headings == [] {
      NothingIncreases();
    } else {
      var last := headings[|headings| - 1];
      OpenChainIncreases(headings[..|headings| - 1]);
      IncreasingPush(OpenChain(headings[..|headings| - 1]), last);
    }
  }

  /** One heading: cutting by position agrees with closing by level exactly when it is filed
      under a shallower heading. */
  lemma CutAgreesIff(chain: seq<HeadingLine>, level: nat)
    requires Increasing(chain) && level >= 1
    ensures chain[..Kept(chain, level)] == Shallower(chain, level) <==> FiledUnderShallower(chain, level)
  {
    ShallowerIsPrefix(chain, level);
    IncreasingLast(chain);
    var n, kept := Kept(chain, level), Shallower(chain, level);
    assert |kept| <= n by {
      if |kept| > 0 { assert chain[|kept| - 1].level < level; }
    }
    assert kept == chain[..|kept|];
    assert FiledUnderShallower(chain, level) ==> n == |kept|;
    if |kept| < n {
      assert |chain[..n]| != |kept|;
    }
  }

  // ----- The condition on heading levels -----

  /** Before the n-th heading a section of level v is open: its heading is followed only by deeper
      ones. */
  predicate HasSection(headings: seq<HeadingLine>, n: nat, v: nat)
    requires n <= |headings|
  {
    exists m | 0 <= m < n :: headings[m].level == v && StaysOpen(headings, m, n)
  }

  predicate StaysOpen(headings: seq<HeadingLine>, m: nat, n: nat)
    requires m < n <= |headings|
  {
    forall j | m < j < n :: headings[j].level > headings[m].level
  }

  /** A heading goes deeper than the one before it, or a section of every level above it is open. */
  predicate FitsOutline(headings: seq<HeadingLine>, k: nat)
    requires k < |headings|
  {
    k == 0 || headings[k].level > headings[k - 1].level
    || forall v | 1 <= v < headings[k].level :: HasSection(headings, k, v)
  }

  /** No heading returns to a level whose enclosing levels were skipped. */
  predicate WellOutlined(headings: seq<HeadingLine>) {
    forall k | 0 <= k < |headings| :: FitsOutline(headings, k)
  }

  predicate HasLevel(chain: seq<HeadingLine>, v: nat) {
    exists i | 0 <= i < |chain| :: chain[i].level == v
  }

  lemma {:induction false} IncreasingGaps(chain: seq<HeadingLine>, i: nat, j: nat)
    requires Increasing(chain) && i <= j < |chain|
    ensures chain[i].level + (j - i) <= chain[j].level
  {
    if i < j {
      IncreasingGaps(chain, i, j - 1);
    }
  }

  /** A chain with every level up to v has them at its first v places. */
  lemma {:induction false} DenseChain(chain: seq<HeadingLine>, v: nat)
    requires Increasing(chain) && v >= 1
    requires forall u | 1 <= u <= v :: HasLevel(chain, u)
    ensures v <= |chain| && chain[v - 1].level == v
  {
    hide Increasing;
    IncreasingLast(chain);
    assert HasLevel(chain, v);
    var i :| 0 <= i < |chain| && chain[i].level == v;
    if v > 1 {
      DenseChain(chain, v - 1);
      if i <= v - 2 {
        IncreasingGaps(chain, i, v - 2);
      }
    }
  }

  /** On the open chain, a heading is filed under a shallower one exactly when it is deeper than the
      last or no level above it is missing. */
  lemma FiledIff(chain: seq<HeadingLine>, level: nat)
    requires Increasing(chain) && level >= 1 && chain != []
    ensures FiledUnderShallower(chain, level) <==>
      chain[|chain| - 1].level < level || forall v | 1 <= v < level :: HasLevel(chain, v)
  {
    hide Increasing, HasLevel;
    IncreasingLast(chain);
    if level >= 2 && forall v | 1 <= v < level :: HasLevel(chain, v) {
      DenseChain(chain, level - 1);
    }
    if chain[|chain| - 1].level >= level && FiledUnderShallower(chain, level) {
      forall v | 1 <= v < level ensures HasLevel(chain, v) {
        IncreasingGaps(chain, v - 1, level - 2);
        HasLevelAt(chain, v - 1);
      }
    }
  }

  lemma HasLevelAt(chain: seq<HeadingLine>, i: nat)
    requires i < |chain|
    ensures HasLevel(chain, chain[i].level)
  {
  }

  lemma LevelsAfterPush(chain: seq<HeadingLine>, last: HeadingLine, v: nat)
    requires Increasing(chain)
    ensures HasLevel(Shallower(chain, last.level) + [last], v) <==>
      v == last.level || (v < last.level && HasLevel(chain, v))
  {
    hide Increasing, Shallower;
    ShallowerIsPrefix(chain, last.level);
    var kept := Shallower(chain, last.level);
    assert v == last.level ==> (kept + [last])[|kept|].level == v;
    assert forall i | 0 <= i < |kept| :: (kept + [last])[i] == chain[i];
    if v < last.level && HasLevel(chain, v) {
      var i :| 0 <= i < |chain| && chain[i].level == v;
      assert (kept + [last])[i].level == v;
    }
  }

  lemma SectionsAfterPush(headings: seq<HeadingLine>, n: nat, v: nat)
    requires n < |headings|
    ensures HasSection(headings, n + 1, v) <==>
      v == headings[n].level || (v < headings[n].level && HasSection(headings, n, v))
  {
    if v == headings[n].level {
      assert StaysOpen(headings, n, n + 1);
    }
    if v < headings[n].level && HasSection(headings, n, v) {
      var m :| 0 <= m < n && headings[m].level == v && StaysOpen(headings, m, n);
      assert StaysOpen(headings, m, n + 1);
    }
    if HasSection(headings, n + 1, v) && v != headings[n].level {
      var m :| 0 <= m < n + 1 && headings[m].level == v && StaysOpen(headings, m, n + 1);
      assert StaysOpen(headings, m, n);
    }
  }

  /** The levels of the open chain are the levels at which a section is open. */
  lemma {:induction false} ChainLevels(headings: seq<HeadingLine>, n: nat, v: nat)
    requires n <= |headings| && forall h | h in headings :: h.level >= 1
    ensures HasLevel(OpenChain(headings[..n]), v) <==> HasSection(headings, n, v)
  {
    hide HasLevel, HasSection, OpenChain, Shallower, PathAfter, Kept;
    if n == 0 {
      assert headings[..0] == [];
      NothingOpen(headings, v);
    } else {
      ChainLevels(headings, n - 1, v);
      LastStep(headings, n - 1);
      OpenChainIncreases(headings[..n - 1]);
      LevelsAfterPush(OpenChain(headings[..n - 1]), headings[n - 1], v);
      SectionsAfterPush(headings, n - 1, v);
    }
  }

  lemma NothingOpen(headings: seq<HeadingLine>, v: nat)
    ensures OpenChain([]) == [] && !HasLevel([], v) && !HasSection(headings, 0, v)
  {
  }

  lemma FitsIffFiled(headings: seq<HeadingLine>, k: nat)
    requires k < |headings| && forall h | h in headings :: h.level >= 1
    ensures FitsOutline(headings, k) <==> FiledUnderShallower(OpenChain(headings[..k]), headings[k].level)
  {
    hide HasLevel, HasSection, OpenChain, Shallower, PathAfter, FiledUnderShallower, Increasing;
    var chain := OpenChain(headings[..k]);
    if k == 0 {
      assert headings[..0] == [];
      FirstFits(headings[0].level);
    } else {
      LastStep(headings, k - 1);
      assert chain != [] && chain[|chain| - 1] == headings[k - 1];
      OpenChainIncreases(headings[..k]);
      assert headings[k] in headings;
      FiledIff(chain, headings[k].level);
      forall v | 1 <= v < headings[k].level ensures HasLevel(chain, v) <==> HasSection(headings, k, v) {
        ChainLevels(headings, k, v);
      }
    }
  }

  lemma FirstFits(level: nat)
    ensures OpenChain([]) == [] && FiledUnderShallower([], level)
  {
  }

  // ----- When the path is the chain -----

  /** After the first n headings the kept path is the chain of open ones. */
  predicate Agrees(headings: seq<HeadingLine>, n: nat)
    requires n <= |headings|
  {
    PathAfter(headings[..n]) == OpenChain(headings[..n])
  }

  /** The path is the chain of enclosing headings throughout a document exactly when every heading
      that does not go deeper finds a section of every level above it open. */
  lemma PathIsOpenChainIff(headings: seq<HeadingLine>)
    requires forall h | h in headings :: h.level >= 1
    ensures WellOutlined(headings) <==> forall n | 0 <= n <= |headings| :: Agrees(headings, n)
  {
    hide FitsOutline, Agrees;
    if WellOutlined(headings) {
      forall n | 0 <= n <= |headings| ensures Agrees(headings, n) {
        FollowsOpenChain(headings, n);
      }
    } else {
      var n :| 0 <= n < |headings| && !FitsOutline(headings, n);
      Departs(headings, n);
      assert !Agrees(headings, n) || !Agrees(headings, n + 1);
    }
  }

  lemma Departs(headings: seq<HeadingLine>, n: nat)
    requires forall h | h in headings :: h.level >= 1
    requires n < |headings| && !FitsOutline(headings, n)
    ensures !Agrees(headings, n) || !Agrees(headings, n + 1)
  {
    hide FiledUnderShallower, FitsOutline, Kept, PathAfter, OpenChain, Shallower;
    var path, chain, last := PathAfter(headings[..n]), OpenChain(headings[..n]), headings[n];
    LastStep(headings, n);
    if path == chain {
      FitsIffFiled(headings, n);
      OpenChainIncreases(headings[..n]);
      CutAgreesIff(chain, last.level);
      DifferBeforeLast(path[..Kept(path, last.level)], Shallower(chain, last.level), last);
    }
  }

  lemma DifferBeforeLast(a: seq<HeadingLine>, b: seq<HeadingLine>, last: HeadingLine)
    requires a != b
    ensures a + [last] != b + [last]
  {
    assert (a + [last])[..|a|] == a && (b + [last])[..|b|] == b;
  }

  lemma LastStep(headings: seq<HeadingLine>, n: nat)
    requires n < |headings|
    ensures var before, last := PathAfter(headings[..n]), headings[n];
      PathAfter(headings[..n + 1]) == before[..Kept(before, last.level)] + [last]
    ensures OpenChain(headings[..n + 1])
      == Shallower(OpenChain(headings[..n]), headings[n].level) + [headings[n]]
  {
    assert headings[..n + 1][..n] == headings[..n];
  }

  lemma NoOpenChain()
    ensures PathAfter([]) == OpenChain([])
  {
  }

  lemma {:induction false} FollowsOpenChain(headings: seq<HeadingLine>, n: nat)
    requires forall h | h in headings :: h.level >= 1
    requires WellOutlined(headings) && n <= |headings|
    ensures Agrees(headings, n)
  {
    hide FiledUnderShallower, FitsOutline, Kept, PathAfter, OpenChain, Shallower;
    if n == 0 {
      assert headings[..0] == [];
      NoOpenChain();
    } else {
      FollowsOpenChain(headings, n - 1);
      assert FitsOutline(headings, n - 1);
      FitsIffFiled(headings, n - 1);
      LastStep(headings, n - 1);
      OpenChainIncreases(headings[..n - 1]);
      CutAgreesIff(OpenChain(headings[..n - 1]), headings[n - 1].level);
    }
  }

  /** When a document's second heading is below level 1 but no deeper than the first, it is filed
      under the first, which does not enclose it. */
  lemma SkippedLevelIsMisfiled(a: HeadingLine, b: HeadingLine)
    requires 2 <= b.level <= a.level
    ensures PathAfter([a, b]) == [a, b] && OpenChain([a, b]) == [b]
    ensures !WellOutlined([a, b])
  {
    hide WellOutlined, PathAfter, OpenChain, Shallower;
    PathOfTwo(a, b);
    PathIsOpenChainIff([a, b]);
    assert [a, b][..2] == [a, b];
    assert !Agrees([a, b], 2);
  }

  lemma PathOfTwo(a: HeadingLine, b: HeadingLine)
    requires 2 <= b.level <= a.level
    ensures PathAfter([a, b]) == [a, b] && OpenChain([a, b]) == [b]
  {
    assert [a, b][..1] == [a] && [a][..0] == [];
    assert PathAfter([a]) == [a] && OpenChain([a]) == [a];
    assert Shallower([a], b.level) == [];
  }

  // ----- Documents -----

  lemma {:induction false} HeadingsOfPrefix(blocks: seq<Block>, i: nat)
    requires i <= |blocks|
    ensures HeadingsOf(blocks[..i]) <= HeadingsOf(blocks)
    decreases |blocks| - i
  {
    hide HeadingOf;
    if i == |blocks| {
      assert blocks[..i] == blocks;
    } else {
      HeadingsOfPrefix(blocks, i + 1);
      assert blocks[..i + 1] == blocks[..i] + [blocks[i]];
      HeadingsPush(blocks[..i], blocks[i]);
    }
  }

  lemma {:induction false} HeadingsHaveLevels(lines: seq<string>, blocks: seq<Block>, i: nat)
    requires Parsed(lines, |lines|, blocks) && i <= |blocks|
    ensures forall h | h in HeadingsOf(blocks[..i]) :: 1 <= h.level <= 6
  {
    hide BlockAt, BlankBetween, HeadingOf, HeadingsOf;
    if i > 0 {
      HeadingsHaveLevels(lines, blocks, i - 1);
      assert Placed(lines, blocks, i - 1);
      assert blocks[..i] == blocks[..i - 1] + [blocks[i - 1]];
      HeadingsPush(blocks[..i - 1], blocks[i - 1]);
      if blocks[i - 1].kind == Heading {
        HeadingBlockHasLevel(lines, blocks[i - 1], PathOf(blocks, i - 1));
      }
    } else {
      NoHeadings();
    }
  }

  lemma HeadingBlockHasLevel(lines: seq<string>, b: Block, before: seq<string>)
    requires BlockAt(lines, b, before) && b.kind == Heading
    ensures 1 <= HeadingOf(b.content).level <= 6
  {
    hide HeadingLevel, HeadingText, Extends;
    HeadingIsOneLine(lines, b, before);
    LevelIsAtMostSix(lines[b.startLine - 1]);
  }

  lemma LevelIsAtMostSix(line: string)
    ensures HeadingLevel(line) <= 6
  {
  }

  /** In a document whose headings fit their outline, every block carries exactly the chain of
      headings whose sections enclose it. */
  lemma PathsEncloseBlocks(lines: seq<string>, blocks: seq<Block>, i: nat)
    requires Parsed(lines, |lines|, blocks) && i <= |blocks|
    requires WellOutlined(HeadingsOf(blocks))
    ensures PathOf(blocks, i) == Texts(OpenChain(HeadingsOf(blocks[..i])))
  {
    hide Parsed, HeadingsOf, WellOutlined, PathAfter, OpenChain;
    var all, n := HeadingsOf(blocks), |HeadingsOf(blocks[..i])|;
    PathOfBlock(lines, blocks, i);
    HeadingsOfPrefix(blocks, i);
    assert blocks[..|blocks|] == blocks;
    HeadingsHaveLevels(lines, blocks, |blocks|);
    PathIsOpenChainIff(all);
    assert HeadingsOf(blocks[..i]) == all[..n] && Agrees(all, n);
  }

  /** With or without misfiled headings, a path is no longer than the level of the last heading
      before it and ends in that heading. */
  lemma PathDepthOfBlock(lines: seq<string>, blocks: seq<Block>, i: nat)
    requires Parsed(lines, |lines|, blocks) && i <= |blocks|
    ensures var headings, path := HeadingsOf(blocks[..i]), PathOf(blocks, i);
      && (headings == [] ==> path == [])
      && (headings != [] ==>
            && 0 < |path| <= headings[|headings| - 1].level <= 6
            && path[|path| - 1] == headings[|headings| - 1].text)
  {
    hide Parsed, HeadingsOf, PathAfter;
    var headings := HeadingsOf(blocks[..i]);
    PathOfBlock(lines, blocks, i);
    HeadingsHaveLevels(lines, blocks, i);
    if headings == [] {
      NoHeadings();
    } else {
      PathDepth(headings);
    }
  }
}
