/** What the scanner's functions find in a stored text, without saying how they look for it. */
module VaultReading {
  import opened Text
  import opened VaultNotes
  import opened Wrappers

  /** The text without the whitespace around it. */
  ghost predicate IsStrippedOf(s: string, t: string) {
    && (t != "" ==> !IsSpace(t[0]) && !IsSpace(t[|t| - 1]))
    && exists before, after | Blank(before) && Blank(after) :: s == before + t + after
  }

  lemma StripStrips(s: string)
    ensures IsStrippedOf(s, Strip(s))
  {
    hide IsSpace, Strip, Blank;
    StripIsTight(s);
    StripIsMiddle(s);
    var lo, hi :| 0 <= lo <= hi <= |s| && Strip(s) == s[lo..hi] && Blank(s[..lo]) && Blank(s[hi..]);
    ThreeParts(s, lo, hi);
  }

  lemma ThreeParts(s: string, lo: nat, hi: nat)
    requires lo <= hi <= |s|
    ensures s == s[..lo] + s[lo..hi] + s[hi..]
  {
  }

  lemma {:induction false} StripRightOf(t: string, after: string)
    requires Blank(after) && (t != "" ==> !IsSpace(t[|t| - 1]))
    ensures StripRight(t + after) == t
  {
    if after == "" {
      assert t + after == t;
    } else {
      var s := t + after;
      assert s[..|s| - 1] == t + after[..|after| - 1];
      StripRightOf(t, after[..|after| - 1]);
    }
  }

  /** There is only one such text. */
  lemma StrippedIsUnique(s: string, t: string)
    requires IsStrippedOf(s, t)
    ensures t == Strip(s)
  {
    hide IsSpace, StripLeft, StripRight;
    var before, after :| Blank(before) && Blank(after) && s == before + t + after;
    if t == "" {
      assert Blank(s);
      assert s + "" == s;
      StripLeftOf(s, "");
      StripRightOf("", "");
      assert "" + "" == "";
    } else {
      assert s == before + (t + after);
      assert (t + after)[0] == t[0];
      StripLeftOf(before, t + after);
      StripRightOf(t, after);
    }
  }

  /** `^([A-Za-z0-9_-]+):\s*(.*?)\s*$` */
  ghost predicate IsField(line: string, key: string, value: string) {
    IsKey(key) && exists rest | IsStrippedOf(rest, value) :: line == key + ":" + rest
  }

  /** A line is read as a field exactly when it is a key, a colon and the value with whitespace. */
  lemma FieldIff(line: string, key: string, value: string)
    ensures Field(line) == Some((key, value)) <==> IsField(line, key, value)
  {
    hide IsStrippedOf, Strip, KeyLength, IsKeyChar;
    var n := KeyLength(line);
    if Field(line) == Some((key, value)) {
      StripStrips(line[n + 1..]);
      assert line == line[..n] + ":" + line[n + 1..];
    }
    if IsField(line, key, value) {
      var rest :| IsStrippedOf(rest, value) && line == key + ":" + rest;
      ColonEndsKey();
      KeyLengthOf(key, ":" + rest);
      assert line == key + (":" + rest);
      assert line[..|key|] == key && line[|key|] == ':' && line[|key| + 1..] == rest;
      StrippedIsUnique(rest, value);
    }
  }

  lemma ColonEndsKey()
    ensures !IsKeyChar(':')
  {
  }

  /** A value in quotes of one kind is what they enclose; any other value is kept. */
  lemma UnquoteIs(value: string)
    ensures forall x | Strip(value) == "\"" + x + "\"" || Strip(value) == "'" + x + "'" :: Unquote(value) == x
    ensures (forall x :: Strip(value) != "\"" + x + "\"" && Strip(value) != "'" + x + "'") ==>
              Unquote(value) == Strip(value)
  {
    hide Strip;
    var s := Strip(value);
    if |s| >= 2 && s[0] == s[|s| - 1] && (s[0] == '\"' || s[0] == '\'') {
      assert s == [s[0]] + s[1..|s| - 1] + [s[0]];
    }
  }

  /** A key is found exactly when some line is a field with that key. */
  lemma {:induction false} CollectHas(lines: seq<string>, key: string)
    ensures key in Collect(lines) <==> exists i | 0 <= i < |lines| :: HasKey(lines[i], key)
  {
    hide Field, Unquote;
    if lines != [] {
      var last := |lines| - 1;
      CollectHas(lines[..last], key);
      assert (exists i | 0 <= i < |lines| :: HasKey(lines[i], key)) <==>
        HasKey(lines[last], key) || exists i | 0 <= i < last :: HasKey(lines[..last][i], key) by {
        assert forall i | 0 <= i < last :: lines[..last][i] == lines[i];
      }
    }
  }

  predicate HasKey(line: string, key: string) {
    Field(line).Some? && Field(line).value.0 == key
  }

  /** Of several fields with one key the last counts. */
  lemma {:induction false} CollectTakesLast(lines: seq<string>, i: nat)
    requires i < |lines| && Field(lines[i]).Some?
    requires forall j | i < j < |lines| :: !HasKey(lines[j], Field(lines[i]).value.0)
    ensures var (key, value) := Field(lines[i]).value;
      key in Collect(lines) && Collect(lines)[key] == Unquote(value)
  {
    hide Field, Unquote;
    var last := |lines| - 1;
    if i < last {
      CollectTakesLast(lines[..last], i);
      assert !HasKey(lines[last], Field(lines[i]).value.0);
    }
  }

  /** The title is that of the first line that starts one, if there is any. */
  lemma TitleIff(lines: seq<string>)
    ensures TitleOf(lines).None? <==> forall i | 0 <= i < |lines| :: !IsTitle(lines[i])
    ensures forall n | 0 <= n < |lines| && IsTitle(lines[n]) && (forall i | 0 <= i < n :: !IsTitle(lines[i])) ::
              TitleOf(lines).Some? && IsStrippedOf(lines[n][2..], TitleOf(lines).value)
  {
    hide Strip, IsStrippedOf;
    NoTitleIff(lines);
    forall n | 0 <= n < |lines| && IsTitle(lines[n]) && (forall i | 0 <= i < n :: !IsTitle(lines[i]))
      ensures TitleOf(lines).Some? && IsStrippedOf(lines[n][2..], TitleOf(lines).value)
    {
      TitleAt(lines, n);
      StripStrips(lines[n][2..]);
    }
  }

  lemma {:induction false} NoTitleIff(lines: seq<string>)
    ensures TitleOf(lines).None? <==> forall i | 0 <= i < |lines| :: !IsTitle(lines[i])
  {
    hide IsTitle;
    if lines != [] {
      NoTitleIff(lines[1..]);
      assert forall i | 1 <= i < |lines| :: lines[i] == lines[1..][i - 1];
    }
  }

  /** Universal newlines: the text before a carriage return is kept, and the carriage return, with a
      line feed behind it if there is one, becomes a line feed. */
  lemma TranslateIs(before: string, rest: string)
    requires NoReturn(before)
    ensures Translate(before) == before
    ensures Translate(before + ("\r\n" + rest)) == before + ("\n" + Translate(rest))
    ensures rest == "" || rest[0] != '\n' ==> Translate(before + ("\r" + rest)) == before + ("\n" + Translate(rest))
  {
    hide Translate;
    TranslatePrefix(before, "");
    assert before + "" == before;
    TranslatePrefix(before, "\r\n" + rest);
    TranslatePrefix(before, "\r" + rest);
    ReturnIsFeed(rest);
  }

  lemma ReturnIsFeed(rest: string)
    ensures Translate("") == ""
    ensures Translate("\r\n" + rest) == "\n" + Translate(rest)
    ensures rest == "" || rest[0] != '\n' ==> Translate("\r" + rest) == "\n" + Translate(rest)
  {
    assert ("\r\n" + rest)[2..] == rest;
    assert ("\r" + rest)[1..] == rest;
  }
}
