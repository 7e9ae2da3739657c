/** A note as the vault writer renders it and as the vault scanner reads it back. */
module VaultNotes {
  import opened Contracts
  import opened Text
  import opened Wrappers

  // ----- Characters -----

  predicate IsAlnum(c: char) {
    'a' <= c <= 'z' || 'A' <= c <= 'Z' || '0' <= c <= '9'
  }

  /** The characters of contract identifiers. */
  predicate IsPlain(c: char) {
    IsAlnum(c) || c == '.' || c == '_' || c == ':' || c == '-'
  }

  predicate AllPlain(s: string) {
    forall i | 0 <= i < |s| :: IsPlain(s[i])
  }

  /** What `SAFE_SEGMENT` accepts. */
  predicate IsSafeSegment(s: string) {
    1 <= |s| <= 128 && IsAlnum(s[0]) && forall i | 0 <= i < |s| :: IsPlain(s[i]) && s[i] != ':'
  }

  // ----- JSON strings -----

  function HexDigit(n: nat): char
    requires n < 16
  {
    if n < 10 then '0' + n as char else 'a' + (n - 10) as char
  }

  function EscapeChar(c: char): string {
    if c == '\"' then "\\\""
    else if c == '\\' then "\\\\"
    else if c == '\n' then "\\n"
    else if c == '\r' then "\\r"
    else if c == '\t' then "\\t"
    else if c == '\U{8}' then "\\b"
    else if c == '\U{C}' then "\\f"
    else if c < ' ' then "\\u00" + [HexDigit(c as int / 16), HexDigit(c as int % 16)]
    else [c]
  }

  function EscapeAll(s: string): string {
    if s == "" then "" else EscapeChar(s[0]) + EscapeAll(s[1..])
  }

  function Quote(s: string): string {
    "\"" + EscapeAll(s) + "\""
  }

  lemma {:induction false} PlainTextIsNotEscaped(s: string)
    requires AllPlain(s)
    ensures EscapeAll(s) == s
  {
    if s != "" {
      PlainTextIsNotEscaped(s[1..]);
      assert IsPlain(s[0]);
    }
  }

  // ----- Rendering -----

  function StatusText(status: DraftStatus): string {
    match status
    case Ready => "ready"
    case PartiallyReady => "partially_ready"
    case EnrichmentRequired => "enrichment_required"
    case Rejected => "rejected"
  }

  function ActionText(action: CurationAction): string {
    match action
    case Create => "create"
    case Merge => "merge"
    case Defer => "defer"
    case Discard => "discard"
  }

  function SingleLine(s: string): string {
    Join(Tokens(s), " ")
  }

  function QuoteAll(items: seq<string>): seq<string> {
    seq(|items|, i requires 0 <= i < |items| => Quote(items[i]))
  }

  /** The frontmatter fields in the order in which they are written. */
  function HeaderFields(runId: string, draft: DraftNote, status: DraftStatus, eligible: bool)
    : seq<(string, string)>
  {
    [("schema_version", "\"1\""),
     ("note_id", Quote(draft.noteId)),
     ("run_id", Quote(runId)),
     ("status", Quote(StatusText(status))),
     ("content_hash", Quote(draft.hash)),
     ("proposed_action", Quote(ActionText(draft.action))),
     ("promotion_eligible", if eligible then "true" else "false"),
     ("source_claim_ids", "[" + Join(QuoteAll(draft.claims), ", ") + "]")]
  }

  function FieldLine(field: (string, string)): string {
    field.0 + ": " + field.1
  }

  function FieldLines(fields: seq<(string, string)>): (lines: seq<string>)
    ensures |lines| == |fields|
  {
    seq(|fields|, i requires 0 <= i < |fields| => FieldLine(fields[i]))
  }

  function Unlines(lines: seq<string>): string {
    if lines == [] then "" else lines[0] + "\n" + Unlines(lines[1..])
  }

  function SectionTexts(sections: seq<(string, string)>): seq<string> {
    seq(|sections|, i requires 0 <= i < |sections| =>
      "## " + SingleLine(sections[i].0) + "\n\n" + StripRight(sections[i].1))
  }

  /** The lines up to and including the title. */
  function HeadLines(runId: string, draft: DraftNote, status: DraftStatus, eligible: bool): seq<string> {
    ["---"] + FieldLines(HeaderFields(runId, draft, status, eligible)) + ["---", "", "# " + SingleLine(draft.title)]
  }

  function Render(runId: string, draft: DraftNote, status: DraftStatus, eligible: bool): string {
    Unlines(HeadLines(runId, draft, status, eligible))
    + ("\n" + Join(SectionTexts(draft.sections), "\n\n") + "\n")
  }

  // ----- Scanning -----

  /** `read_text`: every line ending becomes a line feed. */
  function Translate(s: string): string
    decreases |s|
  {
    if s == "" then ""
    else if s[0] == '\r' then
      "\n" + Translate(if |s| > 1 && s[1] == '\n' then s[2..] else s[1..])
    else [s[0]] + Translate(s[1..])
  }

  predicate IsKeyChar(c: char) {
    IsAlnum(c) || c == '_' || c == '-'
  }

  function KeyLength(s: string): (n: nat)
    ensures n <= |s|
    ensures forall i | 0 <= i < n :: IsKeyChar(s[i])
    ensures n < |s| ==> !IsKeyChar(s[n])
  {
    if s == "" || !IsKeyChar(s[0]) then 0 else 1 + KeyLength(s[1..])
  }

  /** A `key: value` line, its value without surrounding whitespace. */
  function Field(line: string): Option<(string, string)> {
    var n := KeyLength(line);
    if n == 0 || n == |line| || line[n] != ':' then None else Some((line[..n], Strip(line[n + 1..])))
  }

  function Unquote(value: string): string {
    var s := Strip(value);
    if |s| >= 2 && s[0] == s[|s| - 1] && (s[0] == '\"' || s[0] == '\'') then s[1..|s| - 1] else s
  }

  predicate IsRule(line: string) {
    Strip(line) == "---"
  }

  /** Where the frontmatter ends: at the first rule, or with the text. */
  function HeaderEnd(lines: seq<string>): (n: nat)
    ensures n <= |lines|
    ensures forall i | 0 <= i < n :: !IsRule(lines[i])
    ensures n < |lines| ==> IsRule(lines[n])
  {
    if lines == [] || IsRule(lines[0]) then 0 else 1 + HeaderEnd(lines[1..])
  }

  /** Later fields overwrite earlier ones. */
  function Collect(lines: seq<string>): map<string, string> {
    if lines == [] then map[]
    else
      var before, field := Collect(lines[..|lines| - 1]), Field(lines[|lines| - 1]);
      if field.None? then before else before[field.value.0 := Unquote(field.value.1)]
  }

  function FrontmatterFields(content: string): map<string, string> {
    var lines := SplitLines(content);
    if lines == [] || !IsRule(lines[0]) then map[]
    else Collect(lines[1..][..HeaderEnd(lines[1..])])
  }

  /** The scanner's loop over the lines. */
  method ParseFrontmatter(content: string) returns (fields: map<string, string>)
    ensures fields == FrontmatterFields(content)
  {
    hide Field, SplitLines, IsRule, Unquote;
    var lines := SplitLines(content);
    fields := map[];
    if lines == [] || !IsRule(lines[0]) {
      return;
    }
    var rest := lines[1..];
    var i := 0;
    while i < |rest|
      invariant 0 <= i <= |rest|
      invariant forall j | 0 <= j < i :: !IsRule(rest[j])
      invariant fields == Collect(rest[..i])
    {
      if IsRule(rest[i]) {
        break;
      }
      var field := Field(rest[i]);
      assert rest[..i + 1][..i] == rest[..i];
      if field.Some? {
        fields := fields[field.value.0 := Unquote(field.value.1)];
      }
      i := i + 1;
    }
  }

  datatype VaultEntry = VaultEntry(
    noteId: Option<string>, title: Option<string>, status: Option<string>, contentHash: Option<string>)

  function Get(fields: map<string, string>, key: string): Option<string> {
    if key in fields then Some(fields[key]) else None
  }

  predicate Filled(fields: map<string, string>, key: string) {
    key in fields && fields[key] != ""
  }

  function NoteIdOf(fields: map<string, string>): Option<string> {
    if Filled(fields, "note_id") then Some(fields["note_id"])
    else if Filled(fields, "note-id") then Some(fields["note-id"])
    else if Filled(fields, "id") then Some(fields["id"])
    else None
  }

  predicate IsTitle(line: string) {
    |line| >= 2 && line[..2] == "# "
  }

  function TitleOf(lines: seq<string>): Option<string> {
    if lines == [] then None
    else if IsTitle(lines[0]) then Some(Strip(lines[0][2..]))
    else TitleOf(lines[1..])
  }

  /** What the scanner knows of a note with this stored text. */
  function ReadEntry(stored: string): VaultEntry {
    var content := Translate(stored);
    var fields := FrontmatterFields(content);
    VaultEntry(NoteIdOf(fields), TitleOf(SplitLines(content)), Get(fields, "status"), Get(fields, "content_hash"))
  }

  // ----- Lines of a rendered note -----

  predicate OneLine(s: string) {
    forall i | 0 <= i < |s| :: !IsLineBreak(s[i])
  }

  lemma StaysInLine(c: char)
    ensures !IsSpace(c) ==> !IsLineBreak(c)
    ensures IsPlain(c) ==> !IsSpace(c)
  {
  }

  lemma {:induction false} JoinedWordsAreOneLine(words: seq<string>)
    requires forall w | w in words :: IsWord(w)
    ensures OneLine(Join(words, " "))
    ensures words != [] ==> Join(words, " ") != ""
    ensures words != [] ==> var s := Join(words, " "); !IsSpace(s[0]) && !IsSpace(s[|s| - 1])
  {
    if words != [] {
      var w := words[0];
      assert w in words;
      forall i | 0 <= i < |w| ensures !IsLineBreak(w[i]) {
        StaysInLine(w[i]);
      }
      if |words| > 1 {
        JoinedWordsAreOneLine(words[1..]);
      }
    }
  }

  /** Making a title a single line keeps its words and is stable. */
  lemma SingleLineIsTight(s: string)
    ensures OneLine(SingleLine(s)) && Strip(SingleLine(s)) == SingleLine(s)
    ensures SingleLine(SingleLine(s)) == SingleLine(s)
  {
    hide IsSpace, Tokens, Strip, IsLineBreak;
    TokensAreWords(s);
    JoinedWordsAreOneLine(Tokens(s));
    StripOfTight(SingleLine(s));
    TokensOfJoinedWords(Tokens(s), " ") by { assert Blank(" ") by { SpaceIsBlank(); } }
  }

  lemma SpaceIsBlank()
    ensures Blank(" ")
  {
  }

  lemma {:induction false} SplitUnlines(lines: seq<string>, rest: string)
    requires forall l | l in lines :: OneLine(l)
    ensures SplitLines(Unlines(lines) + rest) == lines + SplitLines(rest)
  {
    hide SplitLines, IsLineBreak;
    if lines == [] {
      assert Unlines(lines) + rest == rest;
    } else {
      var tail := Unlines(lines[1..]) + rest;
      assert Unlines(lines) + rest == lines[0] + "\n" + tail;
      assert lines[0] in lines;
      SplitFirstLine(lines[0], tail);
      SplitUnlines(lines[1..], rest);
    }
  }

  predicate NoReturn(s: string) {
    forall i | 0 <= i < |s| :: s[i] != '\r'
  }

  lemma {:induction false} TranslatePrefix(p: string, rest: string)
    requires NoReturn(p)
    ensures Translate(p + rest) == p + Translate(rest)
  {
    if p == "" {
      assert p + rest == rest;
    } else {
      assert (p + rest)[1..] == p[1..] + rest;
      assert NoReturn(p[1..]);
      TranslatePrefix(p[1..], rest);
    }
  }

  lemma {:induction false} UnlinesHaveNoReturn(lines: seq<string>)
    requires forall l | l in lines :: OneLine(l)
    ensures NoReturn(Unlines(lines))
  {
    if lines != [] {
      assert lines[0] in lines;
      UnlinesHaveNoReturn(lines[1..]);
    }
  }

  // ----- Fields of a rendered note -----

  predicate IsKey(s: string) {
    s != "" && forall i | 0 <= i < |s| :: IsKeyChar(s[i])
  }

  predicate IsTight(s: string) {
    s != "" && !IsSpace(s[0]) && !IsSpace(s[|s| - 1])
  }

  lemma {:induction false} KeyLengthOf(key: string, rest: string)
    requires forall i | 0 <= i < |key| :: IsKeyChar(key[i])
    requires rest == "" || !IsKeyChar(rest[0])
    ensures KeyLength(key + rest) == |key|
  {
    if key == "" {
      assert key + rest == rest;
    } else {
      assert (key + rest)[1..] == key[1..] + rest;
      KeyLengthOf(key[1..], rest);
    }
  }

  lemma FieldOfLine(key: string, value: string)
    requires IsKey(key) && IsTight(value)
    ensures Field(FieldLine((key, value))) == Some((key, value))
  {
    hide IsSpace, Strip;
    var line := FieldLine((key, value));
    assert line == key + (": " + value);
    KeyLengthOf(key, ": " + value);
    assert line[..|key|] == key && line[|key|] == ':' && line[|key| + 1..] == " " + value;
    StripOfPadded(value);
  }

  lemma StripOfPadded(value: string)
    requires IsTight(value)
    ensures Strip(" " + value) == value
  {
    hide StripRight;
    assert (" " + value)[1..] == value;
    assert StripLeft(" " + value) == StripLeft(value) == value;
    assert StripRight(value) == value by { StripRightOfTight(value); }
  }

  lemma StripRightOfTight(value: string)
    requires IsTight(value)
    ensures StripRight(value) == value
  {
  }

  /** A field line that starts like a key is no rule. */
  lemma FieldLineIsNoRule(key: string, value: string)
    requires IsKey(key) && IsTight(value) && key[0] != '-'
    ensures !IsRule(FieldLine((key, value)))
  {
    hide Strip;
    var line := FieldLine((key, value));
    assert line[0] == key[0] && line[|line| - 1] == value[|value| - 1];
    KeyCharIsNoSpace(key[0]);
    StripOfTight(line);
  }

  lemma KeyCharIsNoSpace(c: char)
    requires IsKeyChar(c)
    ensures !IsSpace(c) && !IsLineBreak(c)
  {
  }

  function Values(fields: seq<(string, string)>): map<string, string> {
    if fields == [] then map[]
    else
      var last := fields[|fields| - 1];
      Values(fields[..|fields| - 1])[last.0 := Unquote(last.1)]
  }

  predicate GoodKey(key: string) {
    IsKey(key) && key[0] != '-' && OneLine(key)
  }

  predicate WellFormed(field: (string, string)) {
    GoodKey(field.0) && IsTight(field.1)
  }

  /** Collecting rendered fields gives their values. */
  lemma {:induction false} CollectFieldLines(fields: seq<(string, string)>)
    requires forall f | f in fields :: WellFormed(f)
    ensures Collect(FieldLines(fields)) == Values(fields)
    ensures forall i | 0 <= i < |fields| :: !IsRule(FieldLines(fields)[i])
  {
    hide Field, IsRule, Unquote, IsKey, IsTight;
    if fields != [] {
      var last := |fields| - 1;
      CollectFieldLines(fields[..last]);
      assert FieldLines(fields)[..last] == FieldLines(fields[..last]);
      assert WellFormed(fields[last]);
      var (key, value) := fields[last];
      FieldOfLine(key, value);
      FieldLineIsNoRule(key, value);
      forall i | 0 <= i < last ensures !IsRule(FieldLines(fields)[i]) {
        assert FieldLines(fields)[i] == FieldLines(fields[..last])[i];
      }
    }
  }

  lemma {:induction false} HeaderEndAt(lines: seq<string>, n: nat)
    requires n < |lines| && IsRule(lines[n]) && forall i | 0 <= i < n :: !IsRule(lines[i])
    ensures HeaderEnd(lines) == n
  {
    hide IsRule;
    if n > 0 {
      HeaderEndAt(lines[1..], n - 1);
    }
  }

  // ----- The values of the header -----

  predicate Storable(runId: string, draft: DraftNote) {
    && IsSafeSegment(draft.noteId) && IsSafeSegment(runId)
    && AllPlain(draft.hash)
    && forall c | c in draft.claims :: AllPlain(c)
  }

  lemma QuotedPlain(s: string)
    requires AllPlain(s)
    ensures Quote(s) == "\"" + s + "\"" && IsTight(Quote(s)) && OneLine(Quote(s)) && Unquote(Quote(s)) == s
  {
    hide EscapeAll, Strip;
    PlainTextIsNotEscaped(s);
    var q := "\"" + s + "\"";
    forall i | 0 <= i < |q| ensures !IsLineBreak(q[i]) {
      if 0 < i < |q| - 1 {
        StaysInLine(s[i - 1]);
      }
    }
    StripOfTight(q);
    assert q[1..|q| - 1] == s;
  }

  lemma {:induction false} JoinedQuotesAreOneLine(items: seq<string>)
    requires forall c | c in items :: AllPlain(c)
    ensures OneLine(Join(QuoteAll(items), ", "))
  {
    hide Quote, IsLineBreak, AllPlain;
    if items != [] {
      assert items[0] in items;
      QuotedPlain(items[0]);
      assert QuoteAll(items)[1..] == QuoteAll(items[1..]);
      JoinedQuotesAreOneLine(items[1..]);
      assert OneLine(", ") by { CommaIsOneLine(); }
    }
  }

  lemma CommaIsOneLine()
    ensures OneLine(", ") && OneLine("[") && OneLine("]") && OneLine(": ") && OneLine("# ") && OneLine("")
    ensures OneLine("---") && OneLine("\"1\"") && OneLine("true") && OneLine("false")
    ensures IsTight("\"1\"") && IsTight("true") && IsTight("false")
  {
  }

  lemma TextsArePlain(status: DraftStatus, action: CurationAction)
    ensures AllPlain(StatusText(status)) && AllPlain(ActionText(action))
    ensures StatusText(status) != ""
  {
  }

  lemma SegmentIsPlain(s: string)
    requires IsSafeSegment(s)
    ensures AllPlain(s) && s != ""
  {
  }

  lemma KeysAreKeys()
    ensures GoodKey("schema_version") && GoodKey("note_id") && GoodKey("run_id") && GoodKey("status")
  {
  }

  lemma MiddleKeysAreKeys()
    ensures GoodKey("content_hash") && GoodKey("proposed_action")
  {
  }

  lemma LastKeysAreKeys()
    ensures GoodKey("promotion_eligible") && GoodKey("source_claim_ids")
  {
  }

  predicate FieldOk(field: (string, string)) {
    WellFormed(field) && OneLine(field.1)
  }

  lemma ClaimListIsFine(claims: seq<string>)
    requires forall c | c in claims :: AllPlain(c)
    ensures var list := "[" + Join(QuoteAll(claims), ", ") + "]"; IsTight(list) && OneLine(list)
  {
    hide Join, QuoteAll;
    JoinedQuotesAreOneLine(claims);
  }

  lemma HeaderFieldsAreFine(runId: string, draft: DraftNote, status: DraftStatus, eligible: bool)
    requires Storable(runId, draft)
    ensures forall f | f in HeaderFields(runId, draft, status, eligible) :: FieldOk(f)
  {
    hide IsSpace, IsLineBreak, Quote, GoodKey, IsTight, OneLine, Join, QuoteAll, AllPlain,
      IsSafeSegment, StatusText, ActionText;
    SegmentIsPlain(draft.noteId);
    SegmentIsPlain(runId);
    TextsArePlain(status, draft.action);
    QuotedPlain(draft.noteId);
    QuotedPlain(runId);
    QuotedPlain(StatusText(status));
    QuotedPlain(draft.hash);
    QuotedPlain(ActionText(draft.action));
    ClaimListIsFine(draft.claims);
    CommaIsOneLine();
    KeysAreKeys();
    MiddleKeysAreKeys();
    LastKeysAreKeys();
  }

  lemma HeadLinesAreOneLine(runId: string, draft: DraftNote, status: DraftStatus, eligible: bool)
    requires Storable(runId, draft)
    ensures forall l | l in HeadLines(runId, draft, status, eligible) :: OneLine(l)
  {
    hide IsLineBreak, HeaderFields, SingleLine;
    HeaderFieldsAreFine(runId, draft, status, eligible);
    var fields := HeaderFields(runId, draft, status, eligible);
    CommaIsOneLine();
    SingleLineIsTight(draft.title);
    forall i | 0 <= i < |fields| ensures OneLine(FieldLines(fields)[i]) {
      assert fields[i] in fields && FieldOk(fields[i]);
    }
  }

  lemma HeaderValues(runId: string, draft: DraftNote, status: DraftStatus, eligible: bool)
    requires Storable(runId, draft)
    ensures var values := Values(HeaderFields(runId, draft, status, eligible));
      && NoteIdOf(values) == Some(draft.noteId)
      && Get(values, "status") == Some(StatusText(status))
      && Get(values, "content_hash") == Some(draft.hash)
  {
    hide Unquote, Quote, AllPlain, IsSafeSegment, StatusText, ActionText, Join, QuoteAll, IsTight, OneLine;
    SegmentIsPlain(draft.noteId);
    TextsArePlain(status, draft.action);
    QuotedPlain(draft.noteId);
    QuotedPlain(StatusText(status));
    QuotedPlain(draft.hash);
    var f := HeaderFields(runId, draft, status, eligible);
    ValuesPush(f[..7], f[7]);
    ValuesPush(f[..6], f[6]);
    ValuesPush(f[..5], f[5]);
    ValuesPush(f[..4], f[4]);
    ValuesPush(f[..3], f[3]);
    ValuesPush(f[..2], f[2]);
    ValuesPush(f[..1], f[1]);
    assert f[..7] + [f[7]] == f && f[..6] + [f[6]] == f[..7] && f[..5] + [f[5]] == f[..6];
    assert f[..4] + [f[4]] == f[..5] && f[..3] + [f[3]] == f[..4] && f[..2] + [f[2]] == f[..3];
    assert f[..1] + [f[1]] == f[..2];
  }

  lemma ValuesPush(fields: seq<(string, string)>, field: (string, string))
    ensures Values(fields + [field]) == Values(fields)[field.0 := Unquote(field.1)]
  {
    hide Unquote;
    assert (fields + [field])[..|fields|] == fields;
  }

  lemma {:induction false} TitleAt(lines: seq<string>, n: nat)
    requires n < |lines| && IsTitle(lines[n]) && forall i | 0 <= i < n :: !IsTitle(lines[i])
    ensures TitleOf(lines) == Some(Strip(lines[n][2..]))
  {
    hide Strip;
    if n > 0 {
      TitleAt(lines[1..], n - 1);
    }
  }

  lemma FieldLineIsNoTitle(field: (string, string))
    requires WellFormed(field)
    ensures !IsTitle(FieldLine(field))
  {
    hide IsTight;
    assert FieldLine(field)[0] == field.0[0] && IsKeyChar(field.0[0]);
  }

  lemma HeaderIsFound(fields: seq<(string, string)>, rest: seq<string>)
    requires forall f | f in fields :: WellFormed(f)
    ensures var lines := FieldLines(fields) + ["---"] + rest; lines[..HeaderEnd(lines)] == FieldLines(fields)
  {
    hide IsRule, FieldLine, WellFormed, HeaderEnd;
    var lines := FieldLines(fields) + ["---"] + rest;
    CollectFieldLines(fields);
    RuleIsRule();
    assert forall i | 0 <= i < |fields| :: lines[i] == FieldLines(fields)[i];
    HeaderEndAt(lines, |fields|);
  }

  lemma TitleIsFound(fields: seq<(string, string)>, title: string, rest: seq<string>)
    requires forall f | f in fields :: WellFormed(f)
    ensures TitleOf(["---"] + FieldLines(fields) + ["---", "", "# " + title] + rest) == Some(Strip(title))
  {
    hide IsRule, FieldLine, WellFormed, TitleOf, Strip;
    var n := |fields|;
    var lines := ["---"] + FieldLines(fields) + ["---", "", "# " + title] + rest;
    RuleIsRule();
    assert lines[0] == "---" && lines[n + 1] == "---" && lines[n + 2] == "" && lines[n + 3] == "# " + title;
    forall i | 0 <= i < n + 3 ensures !IsTitle(lines[i]) {
      if 1 <= i < 1 + n {
        assert lines[i] == FieldLine(fields[i - 1]) && fields[i - 1] in fields;
        FieldLineIsNoTitle(fields[i - 1]);
      }
    }
    assert lines[n + 3][2..] == title;
    TitleAt(lines, n + 3);
  }

  /** Whatever comes after the head, a scan of these lines finds the header's values and title. */
  lemma ReadHead(runId: string, draft: DraftNote, status: DraftStatus, eligible: bool, rest: seq<string>)
    requires Storable(runId, draft)
    ensures var lines := HeadLines(runId, draft, status, eligible) + rest;
      && |lines| > 0 && IsRule(lines[0])
      && lines[1..][..HeaderEnd(lines[1..])] == FieldLines(HeaderFields(runId, draft, status, eligible))
      && TitleOf(lines) == Some(SingleLine(draft.title))
  {
    hide HeaderFields, FieldLines, SingleLine, WellFormed, IsRule, TitleOf, HeaderEnd, Strip, Storable;
    var fields := HeaderFields(runId, draft, status, eligible);
    var title := SingleLine(draft.title);
    var lines := HeadLines(runId, draft, status, eligible) + rest;
    HeaderFieldsAreFine(runId, draft, status, eligible);
    forall f | f in fields ensures WellFormed(f) {
      assert FieldOk(f);
    }
    RuleIsRule();
    HeaderIsFound(fields, ["", "# " + title] + rest);
    assert lines[1..] == FieldLines(fields) + ["---"] + (["", "# " + title] + rest);
    TitleIsFound(fields, title, rest);
    SingleLineIsTight(draft.title);
  }

  lemma RuleIsRule()
    ensures IsRule("---") && !IsTitle("---") && !IsTitle("")
  {
    assert "---"[0] == '-';
    StripOfTight("---");
  }

  /** Rendering then scanning gives back the note id, the status, the content hash and the title as
      a single line, whatever the title and the sections contain. */
  lemma RenderThenRead(runId: string, draft: DraftNote, status: DraftStatus, eligible: bool)
    requires Storable(runId, draft)
    ensures ReadEntry(Render(runId, draft, status, eligible)) ==
            VaultEntry(Some(draft.noteId), Some(SingleLine(draft.title)), Some(StatusText(status)), Some(draft.hash))
  {
    hide HeadLines, SplitLines, Translate, TitleOf, Collect, HeaderEnd, SectionTexts, Join, SingleLine,
      StatusText, HeaderFields, IsRule, OneLine, Storable, IsSafeSegment, Strip, Get, NoteIdOf, Unlines;
    var head := HeadLines(runId, draft, status, eligible);
    var rest := "\n" + Join(SectionTexts(draft.sections), "\n\n") + "\n";
    HeadLinesAreOneLine(runId, draft, status, eligible);
    UnlinesHaveNoReturn(head);
    TranslatePrefix(Unlines(head), rest);
    SplitUnlines(head, Translate(rest));
    ReadHead(runId, draft, status, eligible, SplitLines(Translate(rest)));
    var fields := HeaderFields(runId, draft, status, eligible);
    HeaderFieldsAreFine(runId, draft, status, eligible);
    forall f | f in fields ensures WellFormed(f) {
      assert FieldOk(f);
    }
    CollectFieldLines(fields);
    HeaderValues(runId, draft, status, eligible);
  }
}
