/** The order in which Python compares strings and SQLite compares text: by code point, first
    difference first. `sorted` is insertion sort under this order. */
module Ordering {

  predicate Less(a: string, b: string) {
    b != "" && (a == "" || a[0] < b[0] || (a[0] == b[0] && Less(a[1..], b[1..])))
  }

  predicate AtMost(a: string, b: string) {
    !Less(b, a)
  }

  lemma {:induction false} LessIsTotal(a: string, b: string)
    ensures !(Less(a, b) && Less(b, a))
    ensures Less(a, b) || a == b || Less(b, a)
    ensures !Less(a, a)
  {
    if a != "" && b != "" && a[0] == b[0] {
      LessIsTotal(a[1..], b[1..]);
      assert a == [a[0]] + a[1..] && b == [b[0]] + b[1..];
    }
    if a != "" {
      LessIsTotal(a[1..], a[1..]);
    }
  }

  lemma {:induction false} AtMostIsTransitive(a: string, b: string, c: string)
    requires AtMost(a, b) && AtMost(b, c)
    ensures AtMost(a, c)
  {
    if c != "" && a != "" && a[0] == c[0] {
      AtMostIsTransitive(a[1..], b[1..], c[1..]);
    }
  }

  /** Texts of equal length decide the comparison before whatever follows them. */
  lemma {:induction false} LessOfConcatenation(p: string, q: string, s: string, t: string)
    requires |p| == |q|
    ensures Less(p + s, q + t) <==> Less(p, q) || (p == q && Less(s, t))
  {
    if p == "" {
      assert p + s == s && q + t == t;
    } else {
      assert (p + s)[1..] == p[1..] + s && (q + t)[1..] == q[1..] + t;
      LessOfConcatenation(p[1..], q[1..], s, t);
      assert p == [p[0]] + p[1..] && q == [q[0]] + q[1..];
    }
  }

  // ----- sorted -----

  predicate IsSorted(s: seq<string>) {
    forall i, j | 0 <= i < j < |s| :: AtMost(s[i], s[j])
  }

  function Insert(x: string, s: seq<string>): seq<string> {
    if s == [] || AtMost(x, s[0]) then [x] + s else [s[0]] + Insert(x, s[1..])
  }

  function Sort(s: seq<string>): seq<string> {
    if s == [] then [] else Insert(s[0], Sort(s[1..]))
  }

  lemma {:induction false} InsertKeeps(x: string, s: seq<string>)
    ensures multiset(Insert(x, s)) == multiset{x} + multiset(s)
    ensures IsSorted(s) ==> IsSorted(Insert(x, s))
  {
    if s != [] {
      assert s == [s[0]] + s[1..];
      if AtMost(x, s[0]) {
        forall j | 0 <= j < |s| && IsSorted(s) ensures AtMost(x, s[j]) {
          if j > 0 { AtMostIsTransitive(x, s[0], s[j]); }
        }
      } else {
        var rest := Insert(x, s[1..]);
        InsertKeeps(x, s[1..]);
        LessIsTotal(s[0], x);
        forall j | 0 <= j < |rest| && IsSorted(s) ensures AtMost(s[0], rest[j]) {
          assert rest[j] in multiset(rest);
        }
      }
    }
  }

  lemma {:induction false} SortKeeps(s: seq<string>)
    ensures multiset(Sort(s)) == multiset(s)
    ensures IsSorted(Sort(s))
  {
    if s != [] {
      SortKeeps(s[1..]);
      InsertKeeps(s[0], Sort(s[1..]));
      assert s == [s[0]] + s[1..];
    }
  }

  lemma {:induction false} SortedIsUnique(a: seq<string>, b: seq<string>)
    requires IsSorted(a) && IsSorted(b) && multiset(a) == multiset(b)
    ensures a == b
  {
    if a == [] {
      assert |multiset(b)| == 0;
    } else {
      assert a[0] in multiset(b) && |multiset(a)| == |multiset(b)|;
      assert b[0] in multiset(a);
      LessIsTotal(a[0], b[0]);
      assert a == [a[0]] + a[1..] && b == [b[0]] + b[1..];
      assert multiset(a[1..]) == multiset(a) - multiset{a[0]};
      SortedIsUnique(a[1..], b[1..]);
    }
  }

  /** `sorted` forgets the order of its argument and nothing else. */
  lemma SortEqualsIffSameItems(a: seq<string>, b: seq<string>)
    ensures Sort(a) == Sort(b) <==> multiset(a) == multiset(b)
  {
    SortKeeps(a);
    SortKeeps(b);
    if multiset(a) == multiset(b) {
      SortedIsUnique(Sort(a), Sort(b));
    }
  }

  lemma SortKeepsMembers(s: seq<string>)
    ensures forall x :: x in Sort(s) <==> x in s
  {
    hide Sort;
    SortKeeps(s);
    assert forall x :: x in Sort(s) <==> x in multiset(Sort(s));
    assert forall x :: x in s <==> x in multiset(s);
  }

  // ----- sorted(set(...)) -----

  function Items(s: seq<string>): set<string> {
    set x | x in s
  }

  function Distinct(s: seq<string>): seq<string> {
    if s == [] then []
    else if s[0] in s[1..] then Distinct(s[1..])
    else [s[0]] + Distinct(s[1..])
  }

  lemma {:induction false} DistinctKeepsItems(s: seq<string>)
    ensures forall x :: x in Distinct(s) <==> x in s
    ensures forall x :: multiset(Distinct(s))[x] == if x in s then 1 else 0
  {
    if s != [] {
      DistinctKeepsItems(s[1..]);
      assert s == [s[0]] + s[1..];
      assert multiset([s[0]] + Distinct(s[1..])) == multiset{s[0]} + multiset(Distinct(s[1..]));
    }
  }

  function SortedItems(s: seq<string>): seq<string> {
    Sort(Distinct(s))
  }

  /** `sorted(set(s))` forgets order and repetition and nothing else. */
  lemma SortedItemsEqualIffSameSet(a: seq<string>, b: seq<string>)
    ensures SortedItems(a) == SortedItems(b) <==> Items(a) == Items(b)
  {
    DistinctKeepsItems(a);
    DistinctKeepsItems(b);
    SortEqualsIffSameItems(Distinct(a), Distinct(b));
    if Items(a) == Items(b) {
      assert forall x :: x in a <==> x in Items(a);
      assert forall x :: x in b <==> x in Items(b);
      assert multiset(Distinct(a)) == multiset(Distinct(b));
    } else {
      var x :| (x in Items(a)) != (x in Items(b));
      assert multiset(Distinct(a))[x] != multiset(Distinct(b))[x];
    }
  }

  lemma SortedItemsKeeps(s: seq<string>)
    ensures forall x :: x in SortedItems(s) <==> x in s
    ensures IsSorted(SortedItems(s))
  {
    DistinctKeepsItems(s);
    SortKeeps(Distinct(s));
    SortKeepsMembers(Distinct(s));
  }
}
