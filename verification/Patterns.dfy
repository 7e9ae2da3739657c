/** The regular expressions of the chunker as languages, and that the line predicates of the parser
    accept exactly those. */
module Patterns {
  import opened Markdown
  import opened Text
  import opened Wrappers

  /** Characters of a class, a number of times between two bounds; one after the other; one or the
      other; one or more times. */
  datatype Pattern =
    | Run(of: char -> bool, least: nat, most: Option<nat>)
    | Then(first: Pattern, second: Pattern)
    | Or(left: Pattern, right: Pattern)
    | Repeated(body: Pattern)

  ghost predicate Matches(p: Pattern, s: string)
    decreases p, |s|
  {
    match p
    case Run(of, least, most) =>
      least <= |s| && (most.Some? ==> |s| <= most.value) && forall i | 0 <= i < |s| :: of(s[i])
    case Then(a, b) => exists i | 0 <= i <= |s| :: Matches(a, s[..i]) && Matches(b, s[i..])
    case Or(a, b) => Matches(a, s) || Matches(b, s)
    case Repeated(a) =>
      Matches(a, s) || exists i | 0 < i <= |s| :: Matches(a, s[..i]) && Matches(p, s[i..])
  }

  lemma RunMatches(of: char -> bool, least: nat, most: Option<nat>, s: string)
    requires least <= |s| && (most.Some? ==> |s| <= most.value) && forall i | 0 <= i < |s| :: of(s[i])
    ensures Matches(Run(of, least, most), s)
  {
  }

  lemma JoinThen(a: Pattern, b: Pattern, x: string, y: string)
    requires Matches(a, x) && Matches(b, y)
    ensures Matches(Then(a, b), x + y)
  {
    var s := x + y;
    assert s[..|x|] == x && s[|x|..] == y;
  }

  lemma SplitThen(a: Pattern, b: Pattern, s: string) returns (x: string, y: string)
    requires Matches(Then(a, b), s)
    ensures s == x + y && Matches(a, x) && Matches(b, y)
  {
    var i :| 0 <= i <= |s| && Matches(a, s[..i]) && Matches(b, s[i..]);
    x, y := s[..i], s[i..];
  }

  lemma JoinRepeated(a: Pattern, x: string, y: string)
    requires Matches(a, x) && x != "" && (y == "" || Matches(Repeated(a), y))
    ensures Matches(Repeated(a), x + y)
  {
    var s := x + y;
    assert s[..|x|] == x && s[|x|..] == y;
    assert y == "" ==> s == x;
  }

  lemma SplitRepeated(a: Pattern, s: string) returns (x: string, y: string, more: bool)
    requires Matches(Repeated(a), s)
    ensures s == x + y && Matches(a, x) && (if more then Matches(Repeated(a), y) && |y| < |s| else y == "")
  {
    if Matches(a, s) {
      x, y, more := s, "", false;
    } else {
      var i :| 0 < i <= |s| && Matches(a, s[..i]) && Matches(Repeated(a), s[i..]);
      x, y, more := s[..i], s[i..], true;
    }
  }

  // ----- The expressions -----

  /** `.` */
  predicate IsDot(c: char) {
    c != '\n'
  }

  predicate IsDigit(c: char) {
    '0' <= c <= '9'
  }

  function Is(c: char): char -> bool {
    d => d == c
  }

  function OneOf(s: string): char -> bool {
    d => d in s
  }

  const SPACES := Run(IsSpace, 0, None)
  const SPACE := Run(IsSpace, 1, None)
  /** What `match` leaves unread. */
  const ANYTHING := Run(c => true, 0, None)

  /** `^(#{n})\s+(.+?)\s*$` */
  function HeadingPattern(n: nat): Pattern {
    Then(Run(Is('#'), n, Some(n)), Then(SPACE, Then(Run(IsDot, 1, None), SPACES)))
  }

  /** `^\s*ccc`, for a fence of the character c. */
  function FencePattern(c: char): Pattern {
    Then(SPACES, Then(Run(Is(c), 3, Some(3)), ANYTHING))
  }

  const BULLET := Run(OneOf("-+*"), 1, Some(1))
  const NUMBER := Then(Run(IsDigit, 1, None), Run(OneOf(".)"), 1, Some(1)))

  /** `^\s*(?:[-+*]|\d+[.)])\s+` */
  const LIST_PATTERN := Then(SPACES, Then(Or(BULLET, NUMBER), Then(SPACE, ANYTHING)))

  const BAR := Run(Is('|'), 1, Some(1))
  const BAR_OR_NOT := Run(Is('|'), 0, Some(1))
  const COLON_OR_NOT := Run(Is(':'), 0, Some(1))
  const DASHES := Run(Is('-'), 3, None)

  /** `:?-{3,}:?\s*` */
  const CELL := Then(COLON_OR_NOT, Then(DASHES, Then(COLON_OR_NOT, SPACES)))
  /** `\|\s*:?-{3,}:?\s*` */
  const NEXT_CELL := Then(BAR, Then(SPACES, CELL))
  /** `\|?\s*$` */
  const END := Then(BAR_OR_NOT, SPACES)

  /** `^\s*\|?\s*:?-{3,}:?\s*(?:\|\s*:?-{3,}:?\s*)+\|?\s*$` */
  const TABLE_PATTERN :=
    Then(SPACES, Then(BAR_OR_NOT, Then(SPACES, Then(CELL, Then(Repeated(NEXT_CELL), END)))))

  // ----- Leading whitespace -----

  lemma SplitLeft(s: string) returns (gap: string)
    ensures s == gap + StripLeft(s) && Blank(gap) && Matches(SPACES, gap)
    ensures StripLeft(s) != "" ==> !IsSpace(StripLeft(s)[0])
  {
    StripLeftIsSuffix(s);
    StripLeftIsTight(s);
    gap := s[..|s| - |StripLeft(s)|];
  }

  // ----- Headings -----

  lemma {:induction false} HashesIs(line: string, n: nat)
    requires n <= |line| && (forall i | 0 <= i < n :: line[i] == '#') && (n < |line| ==> line[n] != '#')
    ensures Hashes(line) == n
  {
    if n > 0 {
      HashesIs(line[1..], n - 1);
    }
  }

  lemma {:induction false} HashesAre(line: string)
    ensures forall i | 0 <= i < Hashes(line) :: line[i] == '#'
  {
    if line != "" && line[0] == '#' {
      HashesAre(line[1..]);
      assert forall i | 1 <= i < Hashes(line) :: line[i] == line[1..][i - 1];
    }
  }

  /** The lines of a text hold no line feed, so `.` matches each of their characters. */
  lemma {:induction false} LinesAreUnbroken(s: string)
    ensures forall line | line in SplitLines(s) :: forall i | 0 <= i < |line| :: line[i] != '\n'
    decreases |s|
  {
    var n := LineLength(s);
    assert forall i | 0 <= i < n :: !IsLineBreak(s[i]);
    if n < |s| {
      LinesAreUnbroken(s[n + BreakLength(s, n)..]);
    }
  }

  /** A line is a heading of level n exactly when it matches the heading pattern with n signs. */
  lemma HeadingIff(line: string, n: nat)
    requires forall i | 0 <= i < |line| :: line[i] != '\n'
    requires n >= 1
    ensures HeadingLevel(line) == n <==> n <= 6 && Matches(HeadingPattern(n), line)
  {
    hide Matches, IsSpace;
    if HeadingLevel(line) == n {
      HeadingMatches(line, n);
    }
    if n <= 6 && Matches(HeadingPattern(n), line) {
      MatchIsHeading(line, n);
    }
  }

  lemma PartsMatch(n: nat, signs: string, gap: string, text: string)
    requires |signs| == n && forall i | 0 <= i < n :: signs[i] == '#'
    requires |gap| == 1 && IsSpace(gap[0])
    requires text != "" && forall i | 0 <= i < |text| :: IsDot(text[i])
    ensures Matches(HeadingPattern(n), signs + (gap + text))
  {
    hide IsSpace, Matches;
    RunMatches(Is('#'), n, Some(n), signs);
    RunMatches(IsSpace, 1, None, gap);
    RunMatches(IsDot, 1, None, text);
    RunMatches(IsSpace, 0, None, "");
    JoinThen(Run(IsDot, 1, None), SPACES, text, "");
    assert text + "" == text;
    JoinThen(SPACE, Then(Run(IsDot, 1, None), SPACES), gap, text);
    JoinThen(Run(Is('#'), n, Some(n)), Then(SPACE, Then(Run(IsDot, 1, None), SPACES)), signs, gap + text);
  }

  lemma SplitAround(line: string, n: nat)
    requires n < |line|
    ensures line == line[..n] + (line[n..n + 1] + line[n + 1..])
  {
  }

  lemma HeadingMatches(line: string, n: nat)
    requires forall i | 0 <= i < |line| :: line[i] != '\n'
    requires HeadingLevel(line) == n >= 1
    ensures Matches(HeadingPattern(n), line)
  {
    hide IsSpace, Matches, HeadingPattern, Hashes;
    HashesAre(line);
    PartsMatch(n, line[..n], line[n..n + 1], line[n + 1..]);
    SplitAround(line, n);
  }

  lemma MatchIsHeading(line: string, n: nat)
    requires 1 <= n <= 6 && Matches(HeadingPattern(n), line)
    ensures HeadingLevel(line) == n
  {
    var signs, rest := SplitThen(Run(Is('#'), n, Some(n)), Then(SPACE, Then(Run(IsDot, 1, None), SPACES)), line);
    var gap, more := SplitThen(SPACE, Then(Run(IsDot, 1, None), SPACES), rest);
    var text, last := SplitThen(Run(IsDot, 1, None), SPACES, more);
    assert |signs| == n && |gap| >= 1 && |text| >= 1;
    assert line == signs + (gap + (text + last));
    assert forall i | 0 <= i < n :: line[i] == signs[i];
    assert line[n] == gap[0] && IsSpace(gap[0]);
    HashesIs(line, n);
  }

  /** The text of a heading is what lies between the signs and the end, without the whitespace
      around it. */
  lemma HeadingTextIs(line: string)
    requires HeadingLevel(line) > 0
    ensures exists before, after | Blank(before) && Blank(after) ::
              line == line[..HeadingLevel(line)] + before + HeadingText(line) + after
    ensures var text := HeadingText(line); text != "" ==> !IsSpace(text[0]) && !IsSpace(text[|text| - 1])
  {
    hide IsSpace, Strip, Blank;
    var n := HeadingLevel(line);
    var rest := line[n..];
    StripIsMiddle(rest);
    StripIsTight(rest);
    var lo, hi :| 0 <= lo <= hi <= |rest| && Strip(rest) == rest[lo..hi] && Blank(rest[..lo]) && Blank(rest[hi..]);
    FourParts(line, n, lo, hi);
  }

  lemma FourParts(line: string, n: nat, lo: nat, hi: nat)
    requires n <= |line| && lo <= hi <= |line| - n
    ensures var rest := line[n..]; line == line[..n] + rest[..lo] + rest[lo..hi] + rest[hi..]
  {
  }

  // ----- Fences -----

  function Marker(c: char): string {
    [c, c, c]
  }

  lemma StartsFenceIff(line: string, c: char)
    requires !IsSpace(c)
    ensures StartsWith(StripLeft(line), Marker(c)) <==> Matches(FencePattern(c), line)
  {
    hide IsSpace;
    if StartsWith(StripLeft(line), Marker(c)) {
      var s := StripLeft(line);
      var gap := SplitLeft(line);
      JoinThen(Run(Is(c), 3, Some(3)), ANYTHING, s[..3], s[3..]);
      assert s == s[..3] + s[3..];
      JoinThen(SPACES, Then(Run(Is(c), 3, Some(3)), ANYTHING), gap, s);
    }
    if Matches(FencePattern(c), line) {
      var gap, rest := SplitThen(SPACES, Then(Run(Is(c), 3, Some(3)), ANYTHING), line);
      var marker, more := SplitThen(Run(Is(c), 3, Some(3)), ANYTHING, rest);
      assert marker == Marker(c);
      assert rest[..3] == marker && rest[0] == c;
      StripLeftOf(gap, rest);
    }
  }

  /** A line opens a fence exactly when it matches one of the two fence patterns, and the marker that
      closes it is then the one it opened with. */
  lemma FenceIff(line: string)
    ensures IsFence(line) <==> Matches(FencePattern('`'), line) || Matches(FencePattern('~'), line)
    ensures FenceMarker(line) == "```" <==> Matches(FencePattern('`'), line)
    ensures IsFence(line) ==> (FenceMarker(line) == "~~~" <==> Matches(FencePattern('~'), line))
  {
    hide Matches;
    StartsFenceIff(line, '`');
    StartsFenceIff(line, '~');
    assert Marker('`') == "```" && Marker('~') == "~~~";
    OneMarker(StripLeft(line));
  }

  lemma OneMarker(s: string)
    ensures !(StartsWith(s, "```") && StartsWith(s, "~~~")) && "```" != "~~~"
  {
    assert "```"[0] == '`' && "~~~"[0] == '~';
  }

  // ----- List items -----

  lemma {:induction false} DigitsIs(s: string, n: nat)
    requires n <= |s| && (forall i | 0 <= i < n :: IsDigit(s[i])) && (n < |s| ==> !IsDigit(s[n]))
    ensures Digits(s) == n
  {
    if n > 0 {
      DigitsIs(s[1..], n - 1);
    }
  }

  lemma {:induction false} DigitsAre(s: string)
    ensures forall i | 0 <= i < Digits(s) :: IsDigit(s[i])
  {
    if s != "" && IsDigit(s[0]) {
      DigitsAre(s[1..]);
      assert forall i | 1 <= i < Digits(s) :: s[i] == s[1..][i - 1];
    }
  }

  /** A line is a list item exactly when it matches the list pattern. */
  lemma ListItemIff(line: string)
    ensures IsListItem(line) <==> Matches(LIST_PATTERN, line)
  {
    hide Matches, IsSpace;
    if IsListItem(line) {
      ListItemMatches(line);
    }
    if Matches(LIST_PATTERN, line) {
      MatchIsListItem(line);
    }
  }

  lemma ItemMatches(line: string, mark: string, gap: string, rest: string)
    requires StripLeft(line) == mark + (gap + rest)
    requires Matches(BULLET, mark) || Matches(NUMBER, mark)
    requires |gap| == 1 && IsSpace(gap[0])
    ensures Matches(LIST_PATTERN, line)
  {
    hide IsSpace;
    var indent := SplitLeft(line);
    JoinThen(SPACE, ANYTHING, gap, rest);
    JoinThen(Or(BULLET, NUMBER), Then(SPACE, ANYTHING), mark, gap + rest);
    JoinThen(SPACES, Then(Or(BULLET, NUMBER), Then(SPACE, ANYTHING)), indent, mark + (gap + rest));
  }

  lemma ListItemMatches(line: string)
    requires IsListItem(line)
    ensures Matches(LIST_PATTERN, line)
  {
    hide IsSpace;
    var s := StripLeft(line);
    var n := Digits(s);
    if |s| >= 2 && s[0] in "-+*" && IsSpace(s[1]) {
      assert s == s[..1] + (s[1..2] + s[2..]);
      assert Matches(BULLET, s[..1]);
      ItemMatches(line, s[..1], s[1..2], s[2..]);
    } else {
      DigitsAre(s);
      JoinThen(Run(IsDigit, 1, None), Run(OneOf(".)"), 1, Some(1)), s[..n], s[n..n + 1]);
      assert s == (s[..n] + s[n..n + 1]) + (s[n + 1..n + 2] + s[n + 2..]);
      ItemMatches(line, s[..n] + s[n..n + 1], s[n + 1..n + 2], s[n + 2..]);
    }
  }

  lemma MatchIsListItem(line: string)
    requires Matches(LIST_PATTERN, line)
    ensures IsListItem(line)
  {
    hide IsSpace;
    var indent, item := SplitThen(SPACES, Then(Or(BULLET, NUMBER), Then(SPACE, ANYTHING)), line);
    var mark, more := SplitThen(Or(BULLET, NUMBER), Then(SPACE, ANYTHING), item);
    var gap, rest := SplitThen(SPACE, ANYTHING, more);
    assert item == mark + (gap + rest) && IsSpace(gap[0]);
    MarksAreNoSpace();
    if Matches(BULLET, mark) {
      assert mark[0] in "-+*" && |mark| == 1;
      assert item[0] == mark[0] && item[1] == gap[0];
      StripLeftOf(indent, item);
    } else {
      assert Matches(NUMBER, mark);
      var digits, dot := SplitThen(Run(IsDigit, 1, None), Run(OneOf(".)"), 1, Some(1)), mark);
      var n := |digits|;
      assert n >= 1 && |dot| == 1 && dot[0] in ".)";
      assert forall i | 0 <= i < n :: item[i] == digits[i];
      assert item[n] == dot[0] && item[n + 1] == gap[0];
      assert IsDigit(item[0]);
      StripLeftOf(indent, item);
      DigitsIs(item, n);
    }
  }

  lemma MarksAreNoSpace()
    ensures forall c | c in "-+*" || IsDigit(c) || c in ".)" :: !IsSpace(c)
    ensures forall c | c in ".)" :: !IsDigit(c)
  {
  }

  // ----- Table separators -----

  /** A cell of the delimiter row: optional colons around at least three dashes, and whitespace. */
  predicate IsCell(left: string, dashes: string, right: string, gap: string) {
    && left in {"", ":"} && right in {"", ":"}
    && |dashes| >= 3 && (forall i | 0 <= i < |dashes| :: dashes[i] == '-')
    && Blank(gap)
  }

  lemma CellMatches(left: string, dashes: string, right: string, gap: string)
    requires IsCell(left, dashes, right, gap)
    ensures Matches(CELL, left + (dashes + (right + gap)))
  {
    hide Matches, IsSpace;
    RunMatches(Is(':'), 0, Some(1), left);
    RunMatches(Is('-'), 3, None, dashes);
    RunMatches(Is(':'), 0, Some(1), right);
    RunMatches(IsSpace, 0, None, gap);
    JoinThen(COLON_OR_NOT, SPACES, right, gap);
    JoinThen(DASHES, Then(COLON_OR_NOT, SPACES), dashes, right + gap);
    JoinThen(COLON_OR_NOT, Then(DASHES, Then(COLON_OR_NOT, SPACES)), left, dashes + (right + gap));
  }

  lemma OptionalIs(c: char, s: string)
    requires Matches(Run(Is(c), 0, Some(1)), s)
    ensures s == "" || s == [c]
  {
  }

  lemma SpacesAre(s: string)
    ensures Matches(SPACES, s) <==> Blank(s)
  {
    hide IsSpace;
  }

  lemma DashesAre(s: string)
    requires Matches(DASHES, s)
    ensures |s| >= 3 && forall i | 0 <= i < |s| :: s[i] == '-'
  {
  }

  lemma CellParts(cell: string) returns (left: string, dashes: string, right: string, gap: string)
    requires Matches(CELL, cell)
    ensures IsCell(left, dashes, right, gap) && cell == left + (dashes + (right + gap))
  {
    hide Matches, IsSpace;
    var more;
    left, more := SplitThen(COLON_OR_NOT, Then(DASHES, Then(COLON_OR_NOT, SPACES)), cell);
    var rest;
    dashes, rest := SplitThen(DASHES, Then(COLON_OR_NOT, SPACES), more);
    right, gap := SplitThen(COLON_OR_NOT, SPACES, rest);
    OptionalIs(':', left);
    OptionalIs(':', right);
    DashesAre(dashes);
    SpacesAre(gap);
  }

  lemma {:induction false} DashesIs(s: string, n: nat)
    requires n <= |s| && (forall i | 0 <= i < n :: s[i] == '-') && (n < |s| ==> s[n] != '-')
    ensures Dashes(s) == n
  {
    if n > 0 {
      DashesIs(s[1..], n - 1);
    }
  }

  lemma {:induction false} DashesCount(s: string)
    ensures forall i | 0 <= i < Dashes(s) :: s[i] == '-'
  {
    if s != "" && s[0] == '-' {
      DashesCount(s[1..]);
      assert forall i | 1 <= i < Dashes(s) :: s[i] == s[1..][i - 1];
    }
  }

  lemma SplitOptional(s: string, c: char) returns (before: string)
    ensures s == before + SkipOptional(s, c) && before in {"", [c]}
  {
    before := if s != "" && s[0] == c then [c] else "";
  }

  lemma SkipOptionalOf(before: string, c: char, rest: string)
    requires before in {"", [c]} && (before == "" ==> rest == "" || rest[0] != c)
    ensures SkipOptional(before + rest, c) == rest
  {
    assert before == "" ==> before + rest == rest;
    assert before == [c] ==> (before + rest)[1..] == rest;
  }

  /** The cell that a text begins with, if it begins with one, and what follows it. */
  lemma CellIsRead(s: string) returns (cell: string)
    requires |AfterCell(s)| < |s|
    ensures s == cell + AfterCell(s) && Matches(CELL, cell)
    ensures AfterCell(s) != "" ==> !IsSpace(AfterCell(s)[0])
  {
    hide IsSpace, StripLeft, SkipOptional, Dashes, Matches;
    var left := SplitOptional(s, ':');
    var more := SkipOptional(s, ':');
    var n := Dashes(more);
    DashesCount(more);
    var right := SplitOptional(more[n..], ':');
    var rest := SkipOptional(more[n..], ':');
    var gap := SplitLeft(rest);
    CellMatches(left, more[..n], right, gap);
    cell := left + (more[..n] + (right + gap));
    assert more == more[..n] + more[n..];
    CellAssociates(left, more[..n], right, gap, StripLeft(rest));
  }

  lemma CellAssociates(left: string, dashes: string, right: string, gap: string, rest: string)
    ensures left + (dashes + (right + gap)) + rest == left + (dashes + (right + (gap + rest)))
  {
    assert right + gap + rest == right + (gap + rest);
    assert dashes + (right + gap) + rest == dashes + (right + gap + rest);
  }

  /** Before a bar or the end, the cell that is read is the one that matches. */
  lemma CellIsForced(cell: string, rest: string)
    requires Matches(CELL, cell) && (rest == "" || rest[0] == '|')
    ensures AfterCell(cell + rest) == rest && |rest| < |cell + rest|
    ensures cell[0] in ":-"
  {
    hide IsSpace, StripLeft, SkipOptional, Dashes, Matches;
    var left, dashes, right, gap := CellParts(cell);
    SignsAreNoSpace(gap);
    var tail := right + (gap + rest);
    CellAssociates(left, dashes, right, gap, rest);
    assert (dashes + tail)[0] == dashes[0] == '-';
    SkipOptionalOf(left, ':', dashes + tail);
    assert gap + rest != "" ==> (gap + rest)[0] == if gap == "" then rest[0] else gap[0];
    assert tail != "" ==> tail[0] == if right == "" then (gap + rest)[0] else ':';
    DashesIs(dashes + tail, |dashes|);
    assert (dashes + tail)[|dashes|..] == tail;
    SkipOptionalOf(right, ':', gap + rest);
    StripLeftOf(gap, rest);
    assert cell[0] == if left == "" then dashes[0] else left[0];
  }

  lemma SignsAreNoSpace(gap: string)
    ensures !IsSpace('|') && !IsSpace(':') && !IsSpace('-')
    ensures Blank(gap) && gap != "" ==> gap[0] != '-' && gap[0] != ':' && gap[0] != '|'
  {
  }

  /** A cell takes in whitespace behind it. */
  lemma CellAbsorbs(cell: string, gap: string)
    requires Matches(CELL, cell) && Blank(gap)
    ensures Matches(CELL, cell + gap)
  {
    hide Matches, IsSpace;
    var left, dashes, right, before := CellParts(cell);
    CellMatches(left, dashes, right, before + gap);
    CellAssociates(left, dashes, right, before, gap);
  }

  /** What may follow the cells already read. */
  function TailPattern(read: nat): Pattern {
    if read == 0 then Then(Repeated(NEXT_CELL), END) else Or(END, Then(Repeated(NEXT_CELL), END))
  }

  lemma EndParts(s: string) returns (bar: string, gap: string)
    requires Matches(END, s)
    ensures s == bar + gap && bar in {"", "|"} && Blank(gap)
  {
    hide Matches, IsSpace;
    bar, gap := SplitThen(BAR_OR_NOT, SPACES, s);
    OptionalIs('|', bar);
    SpacesAre(gap);
  }

  lemma EndMatches(bar: string, gap: string)
    requires bar in {"", "|"} && Blank(gap)
    ensures Matches(END, bar + gap)
  {
    hide Matches, IsSpace;
    RunMatches(Is('|'), 0, Some(1), bar);
    SpacesAre(gap);
    JoinThen(BAR_OR_NOT, SPACES, bar, gap);
  }

  lemma NextCellParts(s: string) returns (gap: string, cell: string)
    requires Matches(NEXT_CELL, s)
    ensures s == "|" + (gap + cell) && Blank(gap) && Matches(CELL, cell)
  {
    hide Matches, IsSpace;
    var bar, more := SplitThen(BAR, Then(SPACES, CELL), s);
    assert bar == "|" by { BarIs(bar); }
    gap, cell := SplitThen(SPACES, CELL, more);
    SpacesAre(gap);
  }

  lemma BarIs(s: string)
    ensures Matches(BAR, s) <==> s == "|"
  {
  }

  lemma NextCellMatches(gap: string, cell: string)
    requires Blank(gap) && Matches(CELL, cell)
    ensures Matches(NEXT_CELL, "|" + (gap + cell))
  {
    hide Matches, IsSpace;
    BarIs("|");
    SpacesAre(gap);
    JoinThen(SPACES, CELL, gap, cell);
    JoinThen(BAR, Then(SPACES, CELL), "|", gap + cell);
  }

  lemma OrMatches(a: Pattern, b: Pattern, s: string)
    ensures Matches(Or(a, b), s) <==> Matches(a, s) || Matches(b, s)
  {
  }

  lemma {:induction false} CellsMatch(s: string, read: nat)
    requires Cells(s, read)
    ensures Matches(Then(CELL, TailPattern(read)), s)
    decreases |s|
  {
    hide Matches, IsSpace, AfterCell, StripLeft;
    var rest := AfterCell(s);
    var cell := CellIsRead(s);
    if rest == "" {
      EndMatches("", "");
      assert "" + "" == "";
      OrMatches(END, Then(Repeated(NEXT_CELL), END), "");
    } else {
      var next := StripLeft(rest[1..]);
      var gap := SplitLeft(rest[1..]);
      assert rest == "|" + (gap + next);
      if next == "" && read >= 1 {
        EndMatches("|", gap);
        assert "|" + gap == rest;
        OrMatches(END, Then(Repeated(NEXT_CELL), END), rest);
      } else {
        CellsMatch(next, read + 1);
        MoreCells(gap, next, read);
      }
    }
    JoinThen(CELL, TailPattern(read), cell, rest);
  }

  lemma MoreCells(gap: string, next: string, read: nat)
    requires Blank(gap) && Matches(Then(CELL, TailPattern(read + 1)), next)
    ensures Matches(TailPattern(read), "|" + (gap + next))
  {
    hide Matches, IsSpace;
    var all := "|" + (gap + next);
    var cell, tail := SplitThen(CELL, TailPattern(read + 1), next);
    NextCellMatches(gap, cell);
    var first := "|" + (gap + cell);
    OrMatches(END, Then(Repeated(NEXT_CELL), END), tail);
    if Matches(END, tail) {
      JoinRepeated(NEXT_CELL, first, "");
      assert first + "" == first;
      JoinThen(Repeated(NEXT_CELL), END, first, tail);
      assert first + tail == all;
    } else {
      var cells, end := SplitThen(Repeated(NEXT_CELL), END, tail);
      JoinRepeated(NEXT_CELL, first, cells);
      JoinThen(Repeated(NEXT_CELL), END, first + cells, end);
      assert first + cells + end == all;
    }
    OrMatches(END, Then(Repeated(NEXT_CELL), END), all);
  }

  lemma {:induction false} MatchesAreCells(s: string, read: nat)
    requires Matches(Then(CELL, TailPattern(read)), s)
    ensures Cells(s, read)
    decreases |s|
  {
    hide Matches, IsSpace, AfterCell, StripLeft;
    var cell, tail := SplitThen(CELL, TailPattern(read), s);
    OrMatches(END, Then(Repeated(NEXT_CELL), END), tail);
    if read > 0 && Matches(END, tail) {
      var bar, gap := EndParts(tail);
      EndIsCells(cell, bar, gap, read);
      assert s == cell + (bar + gap);
    } else {
      var cells, end := SplitThen(Repeated(NEXT_CELL), END, tail);
      var first, others, more := SplitRepeated(NEXT_CELL, cells);
      var gap, second := NextCellParts(first);
      var next := second + (others + end);
      assert tail == "|" + (gap + next);
      CellIsForced(cell, tail);
      SecondCellFollows(second, others, end, more, read);
      assert |next| < |s|;
      MatchesAreCells(next, read + 1);
      CellIsForced(second, "");
      SignsAreNoSpace(gap);
      assert next[0] == second[0];
      StripLeftOf(gap, next);
      assert tail[1..] == gap + next;
    }
  }

  lemma SecondCellFollows(second: string, others: string, end: string, more: bool, read: nat)
    requires Matches(CELL, second) && Matches(END, end)
    requires if more then Matches(Repeated(NEXT_CELL), others) else others == ""
    ensures Matches(Then(CELL, TailPattern(read + 1)), second + (others + end))
  {
    hide Matches;
    if more {
      JoinThen(Repeated(NEXT_CELL), END, others, end);
    } else {
      assert others + end == end;
    }
    OrMatches(END, Then(Repeated(NEXT_CELL), END), others + end);
    JoinThen(CELL, TailPattern(read + 1), second, others + end);
  }

  lemma EndIsCells(cell: string, bar: string, gap: string, read: nat)
    requires Matches(CELL, cell) && bar in {"", "|"} && Blank(gap) && read >= 1
    ensures Cells(cell + (bar + gap), read)
  {
    hide Matches, IsSpace, AfterCell, StripLeft;
    var s := cell + (bar + gap);
    if bar == "" {
      CellAbsorbs(cell, gap);
      CellIsForced(cell + gap, "");
      assert s == cell + gap + "";
    } else {
      CellIsForced(cell, bar + gap);
      assert (bar + gap)[1..] == gap;
      StripLeftOf(gap, "");
      assert gap + "" == gap;
    }
  }

  /** A line is the delimiter row of a table exactly when it matches the table pattern. */
  lemma TableSeparatorIff(line: string)
    ensures IsTableSeparator(line) <==> Matches(TABLE_PATTERN, line)
  {
    hide Matches, IsSpace, Cells;
    if IsTableSeparator(line) {
      SeparatorMatches(line);
    }
    if Matches(TABLE_PATTERN, line) {
      MatchIsSeparator(line);
    }
  }

  lemma SeparatorMatches(line: string)
    requires IsTableSeparator(line)
    ensures Matches(TABLE_PATTERN, line)
  {
    hide Matches, IsSpace, Cells, StripLeft, SkipOptional;
    var s := StripLeft(line);
    var t := SkipOptional(s, '|');
    var cells := StripLeft(t);
    var before := SplitLeft(line);
    var bar := SplitOptional(s, '|');
    var gap := SplitLeft(t);
    CellsMatch(cells, 0);
    var row := Then(CELL, TailPattern(0));
    RunMatches(Is('|'), 0, Some(1), bar);
    JoinThen(SPACES, row, gap, cells);
    JoinThen(BAR_OR_NOT, Then(SPACES, row), bar, gap + cells);
    JoinThen(SPACES, Then(BAR_OR_NOT, Then(SPACES, row)), before, bar + (gap + cells));
    assert line == before + (bar + (gap + cells));
  }

  lemma MatchIsSeparator(line: string)
    requires Matches(TABLE_PATTERN, line)
    ensures IsTableSeparator(line)
  {
    hide Matches, IsSpace, Cells, StripLeft, SkipOptional;
    var row := Then(CELL, TailPattern(0));
    var before, x := SplitThen(SPACES, Then(BAR_OR_NOT, Then(SPACES, row)), line);
    var bar, y := SplitThen(BAR_OR_NOT, Then(SPACES, row), x);
    var gap, cells := SplitThen(SPACES, row, y);
    SpacesAre(before);
    SpacesAre(gap);
    OptionalIs('|', bar);
    MatchesAreCells(cells, 0);
    var cell, tail := SplitThen(CELL, TailPattern(0), cells);
    CellIsForced(cell, "");
    assert cells[0] == cell[0];
    SignsAreNoSpace(gap);
    StripLeftOf(gap, cells);
    if bar == "" {
      assert Blank(before + gap);
      StripLeftOf(before + gap, cells);
      assert line == before + gap + cells;
      SkipOptionalOf("", '|', cells);
      assert "" + cells == cells;
      StripLeftOf("", cells);
    } else {
      assert x[0] == '|';
      StripLeftOf(before, x);
      SkipOptionalOf(bar, '|', y);
    }
  }
}
