/** What the text of a rendered note holds, and what can be read back from it. */
module VaultBodies {
  import opened Contracts
  import opened Text
  import opened VaultNotes

  // ----- The two ways in which text is cleaned -----

  /** The same words, with one blank between neighbours and nothing around them. */
  predicate IsSingleLineOf(s: string, line: string) {
    Tokens(line) == Tokens(s) && IsSpaced(line)
  }

  predicate IsSpaced(line: string) {
    forall i | 0 <= i < |line| && IsSpace(line[i]) ::
      line[i] == ' ' && 0 < i < |line| - 1 && !IsSpace(line[i - 1]) && !IsSpace(line[i + 1])
  }

  /** The text up to its last character that is not whitespace. */
  predicate IsTrimmedOf(s: string, t: string) {
    && t <= s && Blank(s[|t|..])
    && (t != "" ==> !IsSpace(t[|t| - 1]))
  }

  lemma {:induction false} WordsAreSpaced(words: seq<string>)
    requires forall w | w in words :: IsWord(w)
    ensures IsSpaced(Join(words, " "))
    ensures words != [] ==> Join(words, " ") != "" && !IsSpace(Join(words, " ")[0])
  {
    hide IsSpace;
    if |words| == 1 {
      assert words[0] in words;
    } else if words != [] {
      var w, rest := words[0], Join(words[1..], " ");
      assert w in words;
      WordsAreSpaced(words[1..]);
      var line := w + " " + rest;
      assert forall i | 0 <= i < |w| :: line[i] == w[i];
      forall i | 0 <= i < |line| && IsSpace(line[i])
        ensures line[i] == ' ' && 0 < i < |line| - 1 && !IsSpace(line[i - 1]) && !IsSpace(line[i + 1])
      {
        if i == |w| {
          assert line[i - 1] == w[i - 1] && line[i + 1] == rest[0];
        } else {
          var k := i - |w| - 1;
          assert line[i] == rest[k] && line[i - 1] == rest[k - 1] && line[i + 1] == rest[k + 1];
        }
      }
    }
  }

  lemma SingleLineKeepsWords(s: string)
    ensures IsSingleLineOf(s, SingleLine(s))
  {
    hide IsSpace, Tokens, Join;
    TokensAreWords(s);
    WordsAreSpaced(Tokens(s));
    assert Blank(" ") by { SpaceIsBlank(); }
    TokensOfJoinedWords(Tokens(s), " ");
  }

  lemma StripRightTrims(s: string)
    ensures IsTrimmedOf(s, StripRight(s))
  {
    StripRightIsPrefix(s);
    StripRightIsTight(s);
  }

  lemma SpacedRest(line: string, n: nat)
    requires IsSpaced(line) && n < |line| && IsSpace(line[n])
    ensures n + 1 < |line| && line[n] == ' ' && !IsSpace(line[n + 1])
    ensures IsSpaced(line[n + 1..]) && line == line[..n] + " " + line[n + 1..]
  {
    hide IsSpace;
    var rest := line[n + 1..];
    assert forall i | 0 <= i < |rest| :: rest[i] == line[n + 1 + i];
  }

  lemma {:induction false} SpacedIsJoined(line: string)
    requires IsSpaced(line)
    ensures line == Join(Tokens(line), " ")
    decreases |line|
  {
    hide IsSpace, IsSpaced;
    if line != "" {
      assert !IsSpace(line[0]) by { SpacedStart(line); }
      var n := WordLength(line);
      TokensStart(line);
      if n == |line| {
        assert line[..n] == line && Tokens(line[n..]) == [];
      } else {
        var rest := line[n + 1..];
        SpacedRest(line, n);
        assert line[n..][0] == line[n] && line[n..][1..] == rest;
        SpacedIsJoined(rest);
        TokensStart(rest);
      }
    }
  }

  lemma SpacedStart(line: string)
    requires IsSpaced(line) && line != ""
    ensures !IsSpace(line[0])
  {
    hide IsSpace;
  }

  /** There is only one such line and one such text. */
  lemma CleanTextIsUnique(s: string, line: string, t: string)
    ensures IsSingleLineOf(s, line) ==> line == SingleLine(s)
    ensures IsTrimmedOf(s, t) ==> t == StripRight(s)
  {
    if IsSingleLineOf(s, line) {
      SpacedIsJoined(line);
    }
    if IsTrimmedOf(s, t) {
      StripRightTrims(s);
      TrimmedIsLongest(s, t, StripRight(s));
      TrimmedIsLongest(s, StripRight(s), t);
    }
  }

  lemma TrimmedIsLongest(s: string, t: string, u: string)
    requires IsTrimmedOf(s, t) && IsTrimmedOf(s, u)
    ensures |u| <= |t|
  {
    hide IsSpace;
    forall i | |t| <= i < |s| ensures IsSpace(s[i]) {
      assert s[|t|..][i - |t|] == s[i];
    }
  }

  // ----- The layout of the note -----

  ghost predicate IsSection(section: (string, string), text: string) {
    exists heading, body | IsSingleLineOf(section.0, heading) && IsTrimmedOf(section.1, body) ::
      text == "## " + heading + "\n\n" + body
  }

  /** The sections in order with one blank line between neighbours, and nothing else. */
  ghost predicate IsBody(sections: seq<(string, string)>, text: string) {
    exists parts: seq<string> | |parts| == |sections| && IsLaidOut(text, parts, "\n\n") ::
      forall i | 0 <= i < |parts| :: IsSection(sections[i], parts[i])
  }

  function QuotedLine(key: string, value: string): string {
    key + ": \"" + value + "\""
  }

  /** The twelve lines of the head. */
  ghost predicate IsHead(
    runId: string, draft: DraftNote, status: DraftStatus, eligible: bool, lines: seq<string>)
  {
    && |lines| == 12
    && lines[0] == "---"
    && lines[1] == QuotedLine("schema_version", "1")
    && lines[2] == QuotedLine("note_id", draft.noteId)
    && lines[3] == QuotedLine("run_id", runId)
    && lines[4] == QuotedLine("status", StatusText(status))
    && lines[5] == QuotedLine("content_hash", draft.hash)
    && lines[6] == QuotedLine("proposed_action", ActionText(draft.action))
    && lines[7] == "promotion_eligible: " + (if eligible then "true" else "false")
    && IsClaimLine(draft.claims, lines[8])
    && lines[9] == "---" && lines[10] == ""
    && IsTitleLine(draft.title, lines[11])
  }

  ghost predicate IsTitleLine(title: string, line: string) {
    exists shown | IsSingleLineOf(title, shown) :: line == "# " + shown
  }

  ghost predicate IsClaimLine(claims: seq<string>, line: string) {
    exists list, quoted: seq<string> | |quoted| == |claims| && IsLaidOut(list, quoted, ", ") ::
      && (forall i | 0 <= i < |claims| :: quoted[i] == "\"" + claims[i] + "\"")
      && line == "source_claim_ids: [" + list + "]"
  }

  /** A rendered note is its head, a blank line, its sections and a final line feed. */
  lemma NoteIsLaidOut(runId: string, draft: DraftNote, status: DraftStatus, eligible: bool)
    requires Storable(runId, draft)
    ensures exists lines, body |
              IsHead(runId, draft, status, eligible, lines) && IsBody(draft.sections, body) ::
              Render(runId, draft, status, eligible) == Unlines(lines) + "\n" + body + "\n"
  {
    hide HeadLines, Unlines, SectionTexts, IsHead, IsBody;
    var lines, parts := HeadLines(runId, draft, status, eligible), SectionTexts(draft.sections);
    var body := Join(parts, "\n\n");
    HeadIsAsStated(runId, draft, status, eligible);
    SectionsAreLaidOut(draft.sections);
    assert Unlines(lines) + ("\n" + body + "\n") == Unlines(lines) + "\n" + body + "\n";
  }

  lemma SectionsAreLaidOut(sections: seq<(string, string)>)
    ensures IsBody(sections, Join(SectionTexts(sections), "\n\n"))
  {
    hide IsSingleLineOf, IsTrimmedOf, SingleLine, StripRight, Join, IsLaidOut;
    var parts := SectionTexts(sections);
    JoinIsLaidOut(parts, "\n\n");
    forall i | 0 <= i < |parts| ensures IsSection(sections[i], parts[i]) {
      SingleLineKeepsWords(sections[i].0);
      StripRightTrims(sections[i].1);
    }
  }

  lemma HeadIsAsStated(runId: string, draft: DraftNote, status: DraftStatus, eligible: bool)
    requires Storable(runId, draft)
    ensures IsHead(runId, draft, status, eligible, HeadLines(runId, draft, status, eligible))
  {
    hide SingleLine, IsSingleLineOf, Quote, StatusText, ActionText, AllPlain, IsSafeSegment, Join, QuoteAll,
      IsClaimLine, FieldLine, QuotedLine, IsTitleLine;
    SegmentIsPlain(draft.noteId);
    SegmentIsPlain(runId);
    TextsArePlain(status, draft.action);
    FieldIsQuoted("note_id", draft.noteId);
    FieldIsQuoted("run_id", runId);
    FieldIsQuoted("status", StatusText(status));
    FieldIsQuoted("content_hash", draft.hash);
    FieldIsQuoted("proposed_action", ActionText(draft.action));
    PlainFields(eligible);
    ClaimsAreListed(draft.claims);
    TitleIsShown(draft.title);
  }

  lemma FieldIsQuoted(key: string, value: string)
    requires AllPlain(value)
    ensures FieldLine((key, Quote(value))) == QuotedLine(key, value)
  {
    hide Quote, AllPlain;
    QuotedPlain(value);
    assert key + ": " + ("\"" + value + "\"") == key + ": \"" + value + "\"";
  }

  lemma PlainFields(eligible: bool)
    ensures FieldLine(("schema_version", "\"1\"")) == QuotedLine("schema_version", "1")
    ensures FieldLine(("promotion_eligible", if eligible then "true" else "false"))
         == "promotion_eligible: " + (if eligible then "true" else "false")
  {
  }

  lemma TitleIsShown(title: string)
    ensures IsTitleLine(title, "# " + SingleLine(title))
  {
    hide SingleLine, IsSingleLineOf;
    SingleLineKeepsWords(title);
  }

  lemma ClaimsAreListed(claims: seq<string>)
    requires forall c | c in claims :: AllPlain(c)
    ensures IsClaimLine(claims, FieldLine(("source_claim_ids", "[" + Join(QuoteAll(claims), ", ") + "]")))
  {
    hide Quote, AllPlain, Join, IsLaidOut;
    var quoted := QuoteAll(claims);
    JoinIsLaidOut(quoted, ", ");
    forall i | 0 <= i < |claims| ensures quoted[i] == "\"" + claims[i] + "\"" {
      assert claims[i] in claims;
      QuotedPlain(claims[i]);
    }
    var list := Join(quoted, ", ");
    assert FieldLine(("source_claim_ids", "[" + list + "]")) == "source_claim_ids: [" + list + "]";
  }

  /** Different states and actions are written differently. */
  lemma TextsDiffer(s: DraftStatus, t: DraftStatus, a: CurationAction, b: CurationAction)
    ensures StatusText(s) == StatusText(t) ==> s == t
    ensures ActionText(a) == ActionText(b) ==> a == b
  {
    assert StatusText(s)[0] == (match s case Ready => 'r' case PartiallyReady => 'p'
                                        case EnrichmentRequired => 'e' case Rejected => 'r');
    assert |StatusText(s)| == (match s case Ready => 5 case PartiallyReady => 15
                                       case EnrichmentRequired => 19 case Rejected => 8);
    assert |StatusText(t)| == (match t case Ready => 5 case PartiallyReady => 15
                                       case EnrichmentRequired => 19 case Rejected => 8);
    assert ActionText(a)[1] == (match a case Create => 'r' case Merge => 'e' case Defer => 'e' case Discard => 'i');
    assert ActionText(b)[1] == (match b case Create => 'r' case Merge => 'e' case Defer => 'e' case Discard => 'i');
    assert ActionText(a)[0] == (match a case Create => 'c' case Merge => 'm' case Defer => 'd' case Discard => 'd');
    assert ActionText(b)[0] == (match b case Create => 'c' case Merge => 'm' case Defer => 'd' case Discard => 'd');
  }

  // ----- Reading the sections back -----

  /** A line of the text other than its first starts a section. */
  predicate HeadingAt(s: string, i: nat) {
    i + 4 <= |s| && s[i] == '\n' && s[i + 1] == '#' && s[i + 2] == '#' && s[i + 3] == ' '
  }

  predicate NoHeading(s: string) {
    forall i | 0 <= i < |s| :: !HeadingAt(s, i)
  }

  /** What the note shows of a section. */
  function Shown(sections: seq<(string, string)>): (shown: seq<(string, string)>)
    ensures |shown| == |sections|
  {
    seq(|sections|, i requires 0 <= i < |sections| => (SingleLine(sections[i].0), StripRight(sections[i].1)))
  }

  predicate IsClear(section: (string, string)) {
    && OneLine(section.0)
    && (section.1 != "" ==> !IsSpace(section.1[|section.1| - 1]))
    && NoHeading(section.1)
  }

  function SectionText(section: (string, string)): string {
    "## " + section.0 + "\n\n" + section.1
  }

  function Texts(shown: seq<(string, string)>): seq<string> {
    seq(|shown|, i requires 0 <= i < |shown| => SectionText(shown[i]))
  }

  /** What follows a section: nothing, or the heading of the next behind a blank line. */
  predicate IsTail(s: string) {
    s == "" || (|s| >= 5 && s[..5] == "\n\n## ")
  }

  /** The first heading behind a body that holds none ends it. */
  lemma BodyIsFound(a: string, x: string, b: string, y: string)
    requires a + x == b + y && IsTail(x) && IsTail(y)
    requires NoHeading(a) && NoHeading(b)
    requires a != "" ==> !IsSpace(a[|a| - 1])
    requires b != "" ==> !IsSpace(b[|b| - 1])
    ensures a == b && x == y
  {
    if |a| < |b| {
      BodyIsNotLonger(a, x, b, y);
    } else if |b| < |a| {
      BodyIsNotLonger(b, y, a, x);
    } else {
      assert (a + x)[..|a|] == a && (b + y)[..|b|] == b;
      assert (a + x)[|a|..] == x && (b + y)[|b|..] == y;
    }
  }

  lemma BodyIsNotLonger(a: string, x: string, b: string, y: string)
    requires a + x == b + y && IsTail(x) && IsTail(y)
    requires NoHeading(b)
    requires b != "" ==> !IsSpace(b[|b| - 1])
    ensures |b| <= |a|
  {
    hide IsTail, NoHeading, HeadingAt, IsSpace;
    if x != "" {
      TailAt(a, x);
    }
    if y != "" {
      TailAt(b, y);
    }
    if |a| < |b| {
      assert x != "";
      HeadingIsLater(b, y, |a| + 1);
    }
  }

  lemma TailAt(front: string, tail: string)
    requires IsTail(tail) && tail != ""
    ensures var s, n := front + tail, |front|;
      && n + 5 <= |s| && s[n] == '\n' && s[n + 1] == '\n' && s[n + 2] == '#' && s[n + 3] == '#' && s[n + 4] == ' '
      && HeadingAt(s, n + 1)
  {
    var s, n := front + tail, |front|;
    assert s[n..] == tail;
    assert s[n..n + 5] == tail[..5];
  }

  lemma HeadingIsLater(front: string, tail: string, i: nat)
    requires NoHeading(front) && HeadingAt(front + tail, i)
    ensures |front| < i + 4
  {
    assert HeadingAt(front, i) || |front| < i + 4;
  }

  lemma HeadingIsFound(h: string, x: string, k: string, y: string)
    requires OneLine(h) && OneLine(k)
    requires h + "\n" + x == k + "\n" + y
    ensures h == k && x == y
  {
    var s := h + "\n" + x;
    assert s[|h|] == '\n' && s[|k|] == '\n';
    assert |h| < |k| ==> k[|h|] == s[|h|];
    assert |k| < |h| ==> h[|k|] == s[|k|];
    assert IsLineBreak('\n');
    assert s[..|h|] == h && s[..|k|] == k;
    assert s[|h| + 1..] == x && s[|k| + 1..] == y;
  }

  /** The text of the sections behind the first one. */
  function Rest(shown: seq<(string, string)>): string {
    if |shown| <= 1 then "" else "\n\n" + Join(Texts(shown[1..]), "\n\n")
  }

  lemma JoinUnfolds(parts: seq<string>)
    requires parts != []
    ensures Join(parts, "\n\n") == parts[0] + if |parts| == 1 then "" else "\n\n" + Join(parts[1..], "\n\n")
  {
  }

  lemma SectionTextUnfolds(heading: string, body: string, rest: string)
    ensures SectionText((heading, body)) + rest == "## " + (heading + "\n" + ("\n" + (body + rest)))
  {
  }

  lemma TailStarts(s: string)
    ensures IsTail("\n\n" + ("## " + s)) && IsTail("")
  {
  }

  lemma FirstSection(shown: seq<(string, string)>)
    requires shown != []
    ensures Join(Texts(shown), "\n\n") == "## " + (shown[0].0 + "\n" + ("\n" + (shown[0].1 + Rest(shown))))
    ensures IsTail(Rest(shown))
  {
    hide IsTail, Join, SectionText;
    var parts := Texts(shown);
    assert parts[1..] == Texts(shown[1..]);
    JoinUnfolds(parts);
    SectionTextUnfolds(shown[0].0, shown[0].1, Rest(shown));
    if |shown| == 1 {
      TailStarts("");
    } else {
      FirstSection(shown[1..]);
      TailStarts(shown[1].0 + "\n" + ("\n" + (shown[1].1 + Rest(shown[1..]))));
    }
  }

  lemma {:induction false} SectionsAreFound(a: seq<(string, string)>, b: seq<(string, string)>)
    requires forall s | s in a :: IsClear(s)
    requires forall s | s in b :: IsClear(s)
    requires Join(Texts(a), "\n\n") == Join(Texts(b), "\n\n")
    ensures a == b
  {
    hide OneLine, NoHeading, IsSpace, Join, IsTail;
    if a == [] || b == [] {
      NoSections();
      if a != [] {
        FirstSection(a);
      }
      if b != [] {
        FirstSection(b);
      }
    } else {
      FirstSection(a);
      FirstSection(b);
      assert IsClear(a[0]) && IsClear(b[0]);
      var x, y := "\n" + (a[0].1 + Rest(a)), "\n" + (b[0].1 + Rest(b));
      var text := Join(Texts(a), "\n\n");
      assert text[3..] == a[0].0 + "\n" + x && text[3..] == b[0].0 + "\n" + y;
      HeadingIsFound(a[0].0, x, b[0].0, y);
      assert x[1..] == a[0].1 + Rest(a) && y[1..] == b[0].1 + Rest(b);
      BodyIsFound(a[0].1, Rest(a), b[0].1, Rest(b));
      RestDecides(a, b);
      SectionsAreFound(a[1..], b[1..]);
      assert a == [a[0]] + a[1..] && b == [b[0]] + b[1..];
    }
  }

  lemma NoSections()
    ensures Join(Texts([]), "\n\n") == ""
  {
  }

  lemma RestDecides(a: seq<(string, string)>, b: seq<(string, string)>)
    requires a != [] && b != [] && Rest(a) == Rest(b)
    ensures Join(Texts(a[1..]), "\n\n") == Join(Texts(b[1..]), "\n\n")
  {
    hide Join;
    if |a| > 1 && |b| > 1 {
      assert Rest(a)[2..] == Join(Texts(a[1..]), "\n\n");
      assert Rest(b)[2..] == Join(Texts(b[1..]), "\n\n");
    } else {
      assert |a| > 1 ==> |Rest(a)| >= 2;
      assert |b| > 1 ==> |Rest(b)| >= 2;
    }
  }

  lemma {:induction false} LinesAreFound(a: seq<string>, x: string, b: seq<string>, y: string)
    requires |a| == |b| && Unlines(a) + x == Unlines(b) + y
    requires (forall l | l in a :: OneLine(l)) && (forall l | l in b :: OneLine(l))
    ensures a == b && x == y
  {
    hide OneLine;
    if a == [] {
      assert Unlines(a) + x == x && Unlines(b) + y == y;
    } else {
      assert a[0] in a && b[0] in b;
      assert Unlines(a) + x == a[0] + "\n" + (Unlines(a[1..]) + x);
      assert Unlines(b) + y == b[0] + "\n" + (Unlines(b[1..]) + y);
      HeadingIsFound(a[0], Unlines(a[1..]) + x, b[0], Unlines(b[1..]) + y);
      LinesAreFound(a[1..], x, b[1..], y);
      assert a == [a[0]] + a[1..] && b == [b[0]] + b[1..];
    }
  }

  lemma ShownIsClear(sections: seq<(string, string)>)
    requires forall i | 0 <= i < |sections| :: NoHeading(StripRight(sections[i].1))
    ensures forall s | s in Shown(sections) :: IsClear(s)
    ensures Texts(Shown(sections)) == SectionTexts(sections)
  {
    hide NoHeading, SingleLine, OneLine, StripRight, IsSpace;
    forall s | s in Shown(sections) ensures IsClear(s) {
      var i :| 0 <= i < |sections| && Shown(sections)[i] == s;
      SingleLineIsTight(sections[i].0);
      StripRightIsTight(sections[i].1);
    }
  }

  lemma QuotedLineDecides(key: string, a: string, b: string)
    requires QuotedLine(key, a) == QuotedLine(key, b)
    ensures a == b
  {
    var n := |key| + 3;
    assert QuotedLine(key, a)[n..n + |a|] == a;
    assert QuotedLine(key, b)[n..n + |b|] == b;
  }

  lemma HeadHasTwelveLines(
      runId: string, draft: DraftNote, status: DraftStatus, eligible: bool, lines: seq<string>)
    requires IsHead(runId, draft, status, eligible, lines)
    ensures |lines| == 12
  {
  }

  /** The head tells the identity and the state of the note. */
  lemma HeadDecides(runA: string, a: DraftNote, s: DraftStatus, e: bool,
      runB: string, b: DraftNote, t: DraftStatus, f: bool, lines: seq<string>)
    requires IsHead(runA, a, s, e, lines) && IsHead(runB, b, t, f, lines)
    ensures runA == runB && a.noteId == b.noteId && a.hash == b.hash && a.action == b.action && s == t && e == f
    ensures SingleLine(a.title) == SingleLine(b.title)
  {
    hide StatusText, ActionText, QuotedLine, IsClaimLine, SingleLine, IsSingleLineOf;
    QuotedLineDecides("note_id", a.noteId, b.noteId);
    QuotedLineDecides("run_id", runA, runB);
    QuotedLineDecides("status", StatusText(s), StatusText(t));
    QuotedLineDecides("content_hash", a.hash, b.hash);
    QuotedLineDecides("proposed_action", ActionText(a.action), ActionText(b.action));
    TextsDiffer(s, t, a.action, b.action);
    assert |lines[7]| == 20 + (if e then 4 else 5) && |lines[7]| == 20 + (if f then 4 else 5);
    var x :| IsSingleLineOf(a.title, x) && lines[11] == "# " + x;
    var y :| IsSingleLineOf(b.title, y) && lines[11] == "# " + y;
    assert lines[11][2..] == x && lines[11][2..] == y;
    CleanTextIsUnique(a.title, x, a.title);
    CleanTextIsUnique(b.title, y, b.title);
  }

  /** Nothing that a note shows is lost: notes with equal texts agree in what their heads tell, in the
      headings as single lines and in the bodies without trailing whitespace, in order, if no line of a
      body but its first starts like a heading. */
  lemma NotesAreReadable(
    runA: string, a: DraftNote, s: DraftStatus, e: bool, runB: string, b: DraftNote, t: DraftStatus, f: bool)
    requires Storable(runA, a) && Storable(runB, b)
    requires forall i | 0 <= i < |a.sections| :: NoHeading(StripRight(a.sections[i].1))
    requires forall i | 0 <= i < |b.sections| :: NoHeading(StripRight(b.sections[i].1))
    requires Render(runA, a, s, e) == Render(runB, b, t, f)
    ensures Shown(a.sections) == Shown(b.sections)
    ensures runA == runB && a.noteId == b.noteId && a.hash == b.hash && a.action == b.action && s == t && e == f
    ensures SingleLine(a.title) == SingleLine(b.title)
  {
    hide SingleLine, IsHead, HeadLines, Unlines, SectionTexts, Join, NoHeading, OneLine, Storable, Shown, IsClear;
    var x, y := Join(SectionTexts(a.sections), "\n\n"), Join(SectionTexts(b.sections), "\n\n");
    HeadLinesAreOneLine(runA, a, s, e);
    HeadLinesAreOneLine(runB, b, t, f);
    HeadIsAsStated(runA, a, s, e);
    HeadIsAsStated(runB, b, t, f);
    HeadHasTwelveLines(runA, a, s, e, HeadLines(runA, a, s, e));
    HeadHasTwelveLines(runB, b, t, f, HeadLines(runB, b, t, f));
    LinesAreFound(
      HeadLines(runA, a, s, e), "\n" + x + "\n", HeadLines(runB, b, t, f), "\n" + y + "\n");
    HeadDecides(runA, a, s, e, runB, b, t, f, HeadLines(runA, a, s, e));
    assert ("\n" + x + "\n")[1..|x| + 1] == x && ("\n" + y + "\n")[1..|y| + 1] == y;
    ShownIsClear(a.sections);
    ShownIsClear(b.sections);
    SectionsAreFound(Shown(a.sections), Shown(b.sections));
  }

  /** Without the condition it fails: a body can hold what reads as the next section. */
  lemma HeadingInBodyIsAmbiguous(h: string, x: string, k: string, y: string)
    requires k == SingleLine(k) && x == StripRight(x) && y == StripRight(y) && y != ""
    ensures Shown([(h, x + ("\n\n" + SectionText((k, y))))]) != Shown([(h, x), (k, y)])
    ensures Join(SectionTexts([(h, x + ("\n\n" + SectionText((k, y))))]), "\n\n")
         == Join(SectionTexts([(h, x), (k, y)]), "\n\n")
  {
    hide SingleLine, StripRight, Join, SectionText;
    var body := x + ("\n\n" + SectionText((k, y)));
    EndsLike(x + ("\n\n" + ("## " + k + "\n\n")), y);
    assert body == x + ("\n\n" + ("## " + k + "\n\n")) + y by { SectionTextIs(k, y); }
    var one, two := SectionTexts([(h, body)]), SectionTexts([(h, x), (k, y)]);
    JoinUnfolds(one);
    JoinUnfolds(two);
    JoinUnfolds(two[1..]);
    assert two[1] == SectionText((k, y)) by { SectionTextIs(k, y); }
    assert one[0] == two[0] + ("\n\n" + two[1]);
  }

  lemma SectionTextIs(heading: string, body: string)
    ensures SectionText((heading, body)) == "## " + heading + "\n\n" + body
  {
  }

  lemma EndsLike(front: string, s: string)
    requires s == StripRight(s) && s != ""
    ensures StripRight(front + s) == front + s
  {
    StripRightIsTight(s);
  }
}
