/** The text that names an indexed point before uuid5 is applied to it:
    collection, document id, generation and ordinal separated by colons. */
module PointIds {
  import opened Decimal

  const EVIDENCE_COLLECTION := "knowledge_evidence_v1"
  const DRAFT_COLLECTION := "knowledge_drafts_v1"
  const NOTE_COLLECTION := "knowledge_notes_v1"

  predicate IsCollection(c: string) {
    c in [EVIDENCE_COLLECTION, DRAFT_COLLECTION, NOTE_COLLECTION]
  }

  predicate ColonFree(s: string) {
    forall i | 0 <= i < |s| :: s[i] != ':'
  }

  function PointKey(collection: string, documentId: string, generation: string, ordinal: nat): string {
    collection + ":" + documentId + ":" + generation + ":" + Show(ordinal)
  }

  /** What follows the last colon determines the split. */
  lemma LastColon(a: string, x: string, b: string, y: string)
    requires ColonFree(x) && ColonFree(y)
    requires a + ":" + x == b + ":" + y
    ensures a == b && x == y
  {
    var s := a + ":" + x;
    assert s[|a|] == ':' && s[|b|] == ':';
    assert forall i | |a| < i < |s| :: s[i] == x[i - |a| - 1];
    assert forall i | |b| < i < |s| :: s[i] == y[i - |b| - 1];
    assert s[..|a|] == a && s[..|b|] == b;
    assert s[|a| + 1..] == x && s[|b| + 1..] == y;
  }

  /** What precedes the first colon determines the split. */
  lemma FirstColon(a: string, x: string, b: string, y: string)
    requires ColonFree(a) && ColonFree(b)
    requires a + ":" + x == b + ":" + y
    ensures a == b && x == y
  {
    var s := a + ":" + x;
    assert s[|a|] == ':' && s[|b|] == ':';
    assert forall i | 0 <= i < |a| :: s[i] == a[i];
    assert forall i | 0 <= i < |b| :: s[i] == b[i];
    assert s[..|a|] == a && s[..|b|] == b;
    assert s[|a| + 1..] == x && s[|b| + 1..] == y;
  }

  /** Two points share a key only if they agree in all four parts, although a document id may
      itself contain colons: a collection, a hexadecimal digest and a number do not. */
  lemma PointKeyIsInjective(
      c1: string, d1: string, g1: string, n1: nat,
      c2: string, d2: string, g2: string, n2: nat)
    requires IsCollection(c1) && IsCollection(c2)
    requires ColonFree(g1) && ColonFree(g2)
    requires PointKey(c1, d1, g1, n1) == PointKey(c2, d2, g2, n2)
    ensures c1 == c2 && d1 == d2 && g1 == g2 && n1 == n2
  {
    LastColon(c1 + ":" + d1 + ":" + g1, Show(n1), c2 + ":" + d2 + ":" + g2, Show(n2));
    ShowIsInjective(n1, n2);
    LastColon(c1 + ":" + d1, g1, c2 + ":" + d2, g2);
    FirstColon(c1, d1, c2, d2);
  }

  /** The ordinal and the generation could not be recovered if generations were free text:
      these two different points would be given one key. */
  lemma ColonInGenerationBreaksTheKey()
    ensures PointKey(NOTE_COLLECTION, "a", "b:c", 0) == PointKey(NOTE_COLLECTION, "a:b", "c", 0)
  {
  }
}
