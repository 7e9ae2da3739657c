/** The incremental index: scanned notes are compared with their records, changed notes get a new
    generation of points that replaces the old one only after it has been validated and recorded. */
module IndexService {
  import opened IndexState
  import opened IndexPorts
  import opened IndexTrace
  import opened Ordering
  import opened Wrappers
  import opened PointIds

  datatype IndexScan = IndexScan(sources: seq<IndexSource>, complete: bool)

  datatype SyncResult = SyncResult(
    indexedPaths: seq<string>, unchangedPaths: seq<string>, deletedPaths: seq<string>,
    failedPaths: seq<string>, repairRequired: bool)

  /** Either the call returns, or an exception reaches its caller. */
  datatype Outcome = Returned(result: SyncResult) | Raised(cause: Cause)

  /** The scan is refused, or the exception comes from reading or validating the record of a scanned
      path, from listing the records, or from queueing the repair. */
  datatype Cause = BadScan | AtRecord | AtListing | AtQueueing

  /** How a sync went: whether the collections could be ensured, the verdicts, the calls of each turn
      over the sorted scanned paths, the records listed and the calls of each turn over those. */
  datatype Course = Course(
    ensured: bool, verdicts: map<string, Verdict>, turns: seq<seq<Call>>,
    recorded: seq<string>, removals: seq<seq<Call>>)

  function ScanPaths(scan: IndexScan): seq<string> {
    seq(|scan.sources|, i requires 0 <= i < |scan.sources| => scan.sources[i].path)
  }

  predicate ValidScan(scan: IndexScan) {
    && (forall s | s in scan.sources :: IsCollection(s.collection))
    && (forall i, j | 0 <= i < j < |scan.sources| :: scan.sources[i].path != scan.sources[j].path)
  }

  function SourceAt(sources: seq<IndexSource>, path: string): (s: IndexSource)
    requires exists x :: x in sources && x.path == path
    ensures s in sources && s.path == path
  {
    if sources[0].path == path then sources[0] else SourceAt(sources[1..], path)
  }

  /** What a call promises about one path, given the verdict it reached there. */
  ghost predicate Holds(s: Snapshot, t: Snapshot, path: string, verdict: Verdict) {
    match verdict
    case Fresh => path in t.records && Complete(t.points, t.records[path])
    case Reused =>
      SameAt(s, t, path) && path in t.records && Complete(t.points, t.records[path])
    case Removed =>
      && path in s.records && path !in t.records
      && forall pt | pt in At(s.records[path].collection, s.records[path].pointIds) :: pt !in t.points
    case Kept =>
      && SameRecordAt(s, t, path)
      && (path in s.records && Complete(s.points, s.records[path]) ==> Complete(t.points, s.records[path]))
    case Spoiled => SameRecordAt(s, t, path)
  }

  ghost predicate SameRecordAt(s: Snapshot, t: Snapshot, path: string) {
    && (path in s.records <==> path in t.records)
    && (path in s.records ==> s.records[path] == t.records[path])
  }

  ghost predicate AllHold(s: Snapshot, t: Snapshot, verdicts: map<string, Verdict>) {
    && (forall p | p in verdicts :: Holds(s, t, p, verdicts[p]))
    && (forall p | p !in verdicts :: SameAt(s, t, p))
  }

  /** One more path is decided by a step that touches no other path. */
  lemma DecideOne(s: Snapshot, t: Snapshot, u: Snapshot, verdicts: map<string, Verdict>, path: string, verdict: Verdict)
    requires WellFormed(s.records) && WellFormed(t.records)
    requires AllHold(s, t, verdicts) && path !in verdicts
    requires SameElsewhere(t, u, path) && Holds(t, u, path, verdict)
    ensures AllHold(s, u, verdicts[path := verdict])
  {
    hide Complete, WellFormedRecord, SamePoints;
    forall p | p in verdicts ensures Holds(s, u, p, verdicts[p]) {
      HoldsOn(s, t, u, p, verdicts[p]);
    }
    HoldsFrom(s, t, u, path, verdict);
    forall p | p !in verdicts && p != path ensures SameAt(s, u, p) {
      SameAtIsTransitive(s, t, u, p);
    }
  }

  lemma SameAtIsReflexive(s: Snapshot)
    ensures forall p :: SameAt(s, s, p) && NoNewOrphans(s, s, p)
  {
  }

  lemma SameAtIsTransitive(s: Snapshot, t: Snapshot, u: Snapshot, path: string)
    requires SameAt(s, t, path) && SameAt(t, u, path)
    ensures SameAt(s, u, path)
  {
  }

  lemma HoldsOn(s: Snapshot, t: Snapshot, u: Snapshot, path: string, verdict: Verdict)
    requires WellFormed(s.records) && WellFormed(t.records)
    requires Holds(s, t, path, verdict) && SameAt(t, u, path)
    ensures Holds(s, u, path, verdict)
  {
    hide Complete;
    if path in t.records {
      CompleteSameAt(t, u, path);
    }
    if path in s.records {
      PointsOfRecord(path, s.records[path]);
    }
  }

  lemma HoldsFrom(s: Snapshot, t: Snapshot, u: Snapshot, path: string, verdict: Verdict)
    requires WellFormed(s.records) && SameAt(s, t, path) && Holds(t, u, path, verdict)
    ensures Holds(s, u, path, verdict)
  {
    hide Complete;
    if path in s.records {
      CompleteSameAt(s, t, path);
    }
  }

  /** Whether the record left at a scanned path describes the scanned source. */
  ghost predicate Describes(t: Snapshot, source: IndexSource, fingerprint: string, verdict: Verdict) {
    verdict in {Fresh, Reused} ==>
      source.path in t.records && Matches(t.records[source.path], source, fingerprint)
  }

  ghost predicate IsCurrent(s: Snapshot, source: IndexSource, fingerprint: string) {
    && source.path in s.records
    && Matches(s.records[source.path], source, fingerprint)
    && Complete(s.points, s.records[source.path])
  }

  /** Nothing is left to do: every scanned note has a matching, complete record, and after a
      complete scan there is no other record. */
  ghost predicate Settled(s: Snapshot, scan: IndexScan, fingerprint: string) {
    && (forall source | source in scan.sources :: IsCurrent(s, source, fingerprint))
    && (scan.complete ==> forall p | p in s.records :: p in ScanPaths(scan))
  }

  ghost predicate DescribesAll(t: Snapshot, scan: IndexScan, fingerprint: string, verdicts: map<string, Verdict>) {
    forall x | x in scan.sources && x.path in verdicts :: Describes(t, x, fingerprint, verdicts[x.path])
  }

  /** The verdicts so far account for the change from one state to the other. */
  ghost predicate Decided(
    s: Snapshot, t: Snapshot, scan: IndexScan, fingerprint: string, verdicts: map<string, Verdict>)
  {
    AllHold(s, t, verdicts) && DescribesAll(t, scan, fingerprint, verdicts)
  }

  lemma DecideNothing(s: Snapshot, scan: IndexScan, fingerprint: string)
    ensures Decided(s, s, scan, fingerprint, map[])
    ensures NoOrphans(s, s)
  {
    SameAtIsReflexive(s);
  }

  lemma DecideSource(s: Snapshot, t: Snapshot, u: Snapshot, scan: IndexScan, fingerprint: string,
      verdicts: map<string, Verdict>, source: IndexSource, verdict: Verdict)
    requires WellFormed(s.records) && WellFormed(t.records)
    requires ValidScan(scan) && source in scan.sources && source.path !in verdicts
    requires Decided(s, t, scan, fingerprint, verdicts)
    requires SameElsewhere(t, u, source.path) && Holds(t, u, source.path, verdict)
    requires Describes(u, source, fingerprint, verdict)
    ensures Decided(s, u, scan, fingerprint, verdicts[source.path := verdict])
  {
    hide IsCollection, Matches, SamePoints, Holds;
    DecideOne(s, t, u, verdicts, source.path, verdict);
    var after := verdicts[source.path := verdict];
    forall x | x in scan.sources && x.path in after ensures Describes(u, x, fingerprint, after[x.path]) {
      if x.path == source.path {
        SourceIsUnique(scan, x, source);
      } else {
        assert SameAt(t, u, x.path) && Describes(t, x, fingerprint, verdicts[x.path]);
      }
    }
  }

  lemma SourceIsUnique(scan: IndexScan, a: IndexSource, b: IndexSource)
    requires ValidScan(scan) && a in scan.sources && b in scan.sources && a.path == b.path
    ensures a == b
  {
  }

  lemma DecideOther(s: Snapshot, t: Snapshot, u: Snapshot, scan: IndexScan, fingerprint: string,
      verdicts: map<string, Verdict>, path: string, verdict: Verdict)
    requires WellFormed(s.records) && WellFormed(t.records)
    requires path !in ScanPaths(scan) && path !in verdicts
    requires Decided(s, t, scan, fingerprint, verdicts)
    requires SameElsewhere(t, u, path) && Holds(t, u, path, verdict)
    ensures Decided(s, u, scan, fingerprint, verdicts[path := verdict])
  {
    hide Matches, SamePoints, Holds;
    DecideOne(s, t, u, verdicts, path, verdict);
    var after := verdicts[path := verdict];
    forall x | x in scan.sources && x.path in after ensures Describes(u, x, fingerprint, after[x.path]) {
      ScannedPath(scan, x);
      assert SameAt(t, u, x.path) && Describes(t, x, fingerprint, verdicts[x.path]);
    }
  }

  lemma ScannedPath(scan: IndexScan, source: IndexSource)
    requires source in scan.sources
    ensures source.path in ScanPaths(scan)
  {
    var i :| 0 <= i < |scan.sources| && scan.sources[i] == source;
    assert ScanPaths(scan)[i] == source.path;
  }

  ghost predicate NoOrphans(s: Snapshot, t: Snapshot) {
    forall p :: NoNewOrphans(s, t, p)
  }

  lemma NoOrphansStep(s: Snapshot, t: Snapshot, u: Snapshot, path: string)
    requires NoOrphans(s, t)
    requires SameElsewhere(t, u, path) && NoNewOrphans(t, u, path)
    ensures NoOrphans(s, u)
  {
    hide At;
    forall p ensures NoNewOrphans(s, u, p) {
      assert NoNewOrphans(s, t, p);
      assert p != path ==> SameAt(t, u, p);
    }
  }

  // ----- The lists of a result -----

  /** The paths with the wanted verdict, in the given order. */
  function Select(order: seq<string>, verdicts: map<string, Verdict>, wanted: Verdict): seq<string> {
    if order == [] then []
    else
      var last := order[|order| - 1];
      Select(order[..|order| - 1], verdicts, wanted)
      + (if last in verdicts && verdicts[last] == wanted then [last] else [])
  }

  lemma SelectNext(order: seq<string>, k: nat, verdicts: map<string, Verdict>, wanted: Verdict)
    requires k < |order|
    ensures Select(order[..k + 1], verdicts, wanted)
      == Select(order[..k], verdicts, wanted)
         + (if order[k] in verdicts && verdicts[order[k]] == wanted then [order[k]] else [])
  {
    assert order[..k + 1][..k] == order[..k];
  }

  lemma {:induction false} SelectIgnores(
      order: seq<string>, verdicts: map<string, Verdict>, path: string, verdict: Verdict, wanted: Verdict)
    requires path !in order
    ensures Select(order, verdicts[path := verdict], wanted) == Select(order, verdicts, wanted)
  {
    if order != [] {
      SelectIgnores(order[..|order| - 1], verdicts, path, verdict, wanted);
    }
  }

  lemma SelectDecided(
      order: seq<string>, k: nat, verdicts: map<string, Verdict>, verdict: Verdict, wanted: Verdict)
    requires k < |order| && order[k] !in order[..k]
    ensures Select(order[..k + 1], verdicts[order[k] := verdict], wanted)
      == Select(order[..k], verdicts, wanted) + (if verdict == wanted then [order[k]] else [])
  {
    SelectNext(order, k, verdicts[order[k] := verdict], wanted);
    SelectIgnores(order[..k], verdicts, order[k], verdict, wanted);
  }

  lemma {:induction false} SelectMembers(order: seq<string>, verdicts: map<string, Verdict>, wanted: Verdict)
    ensures forall p :: p in Select(order, verdicts, wanted) <==> p in order && p in verdicts && verdicts[p] == wanted
  {
    if order != [] {
      var front, last := order[..|order| - 1], order[|order| - 1];
      SelectMembers(front, verdicts, wanted);
      assert order == front + [last];
    }
  }

  lemma SortedScan(scan: IndexScan)
    requires ValidScan(scan)
    ensures var order := Sort(ScanPaths(scan));
      && (forall p :: p in order <==> p in ScanPaths(scan))
      && forall i, j | 0 <= i < j < |order| :: order[i] != order[j]
  {
    hide IsCollection;
    SortKeepsMembers(ScanPaths(scan));
    SortKeepsDistinct(ScanPaths(scan));
  }

  lemma PathHasSource(scan: IndexScan, path: string)
    requires path in ScanPaths(scan)
    ensures exists x :: x in scan.sources && x.path == path
  {
    var i :| 0 <= i < |scan.sources| && ScanPaths(scan)[i] == path;
    assert scan.sources[i] in scan.sources;
  }

  /** The lists of a result are those of the verdicts: the scanned paths in sorted order, then the
      recorded paths that were not scanned, and the failures as a sorted set. */
  ghost predicate Reports(
    result: SyncResult, scan: IndexScan, recorded: seq<string>, verdicts: map<string, Verdict>)
  {
    var order := Sort(ScanPaths(scan));
    && result.indexedPaths == Select(order, verdicts, Fresh)
    && result.unchangedPaths == Select(order, verdicts, Reused)
    && result.deletedPaths == Select(recorded, verdicts, Removed)
    && IsSorted(recorded) && IsSorted(result.failedPaths)
    && (forall p :: p in result.failedPaths <==> p in verdicts && verdicts[p] in {Kept, Spoiled})
    && (result.failedPaths != [] ==> result.repairRequired)
    && (forall p | p in ScanPaths(scan) :: p in verdicts && verdicts[p] in {Fresh, Reused, Kept})
    && (forall p | p in verdicts && p !in ScanPaths(scan) :: p in recorded && verdicts[p] in {Removed, Spoiled})
  }

  lemma KeptHolds(s: Snapshot, scan: IndexScan, fingerprint: string, verdicts: map<string, Verdict>)
    requires forall p | p in verdicts :: verdicts[p] == Kept
    ensures Decided(s, s, scan, fingerprint, verdicts)
  {
    SameAtIsReflexive(s);
  }

  // ----- The calls of a sync -----

  /** The turns made so far are those of the first scanned paths in sorted order, each with the calls
      that its verdict requires. */
  ghost predicate IsPass(records: map<string, IndexRecord>, scan: IndexScan, fingerprint: string,
    chunkCount: string -> nat, verdicts: map<string, Verdict>, turns: seq<seq<Call>>)
  {
    var order := Sort(ScanPaths(scan));
    && |turns| <= |order|
    && (forall p | p in order[..|turns|] :: p in verdicts)
    && forall i, x | 0 <= i < |turns| && x in scan.sources && x.path == order[i] ::
      IsTurn(Find(records, x.path), x, fingerprint, chunkCount(x.content), turns[i], verdicts[order[i]])
  }

  /** The turns over the listed records: none for a scanned path, a removal for any other. */
  ghost predicate IsClearing(records: map<string, IndexRecord>, scan: IndexScan,
    verdicts: map<string, Verdict>, recorded: seq<string>, removals: seq<seq<Call>>)
  {
    && |removals| <= |recorded|
    && forall i | 0 <= i < |removals| ::
      if recorded[i] in ScanPaths(scan) then removals[i] == []
      else
        && recorded[i] in records && recorded[i] in verdicts
        && IsRemoval(records[recorded[i]], removals[i], verdicts[recorded[i]])
  }

  ghost predicate IsCourse(records: map<string, IndexRecord>, scan: IndexScan, fingerprint: string,
    chunkCount: string -> nat, c: Course)
  {
    && IsPass(records, scan, fingerprint, chunkCount, c.verdicts, c.turns)
    && IsClearing(records, scan, c.verdicts, c.recorded, c.removals)
    && (!c.ensured ==> c.turns == [] && c.removals == [])
  }

  ghost predicate IsFinished(scan: IndexScan, c: Course) {
    && |c.turns| == (if c.ensured then |Sort(ScanPaths(scan))| else 0)
    && |c.removals| == (if c.ensured && scan.complete then |c.recorded| else 0)
  }

  /** Some path kept its old state, or some turn could not delete the stale points. */
  ghost predicate IsMessy(verdicts: map<string, Verdict>, turns: seq<seq<Call>>) {
    || (exists i | 0 <= i < |turns| :: LastRaised(turns[i]))
    || (exists p | p in verdicts :: verdicts[p] in {Kept, Spoiled})
  }

  ghost predicate NeedsRepair(c: Course) {
    !c.ensured || IsMessy(c.verdicts, c.turns)
  }

  function ScanCalls(ensured: bool, turns: seq<seq<Call>>): seq<Call> {
    [Ensured(!ensured)] + Joined(turns)
  }

  function AllCalls(scan: IndexScan, c: Course): seq<Call> {
    ScanCalls(c.ensured, c.turns)
    + if c.ensured && scan.complete then [Listed(c.recorded, false)] + Joined(c.removals) else []
  }

  function QueueCalls(runId: Option<string>, raised: bool): seq<Call> {
    if runId.Some? then [Enqueued(runId.value, raised)] else []
  }

  /** The calls of a whole sync, whatever way it ends. */
  ghost predicate IsLog(records: map<string, IndexRecord>, scan: IndexScan, runId: Option<string>,
    fingerprint: string, c: Course, outcome: Outcome, calls: seq<Call>)
  {
    var order := Sort(ScanPaths(scan));
    match outcome
    case Raised(BadScan) => !ValidScan(scan) && calls == []
    case Raised(AtRecord) =>
      && c.ensured && |c.turns| < |order| && c.removals == []
      && exists x, broken | x in scan.sources && x.path == order[|c.turns|] ::
        calls == ScanCalls(c.ensured, c.turns) + broken && IsBreak(Find(records, x.path), x, fingerprint, broken)
    case Raised(AtListing) =>
      && scan.complete && c.ensured && |c.turns| == |order|
      && calls == ScanCalls(c.ensured, c.turns) + [Listed(c.recorded, true)]
    case Raised(AtQueueing) =>
      && runId.Some? && IsFinished(scan, c) && NeedsRepair(c)
      && calls == AllCalls(scan, c) + QueueCalls(runId, true)
    case Returned(result) =>
      && IsFinished(scan, c) && (result.repairRequired <==> NeedsRepair(c))
      && calls == AllCalls(scan, c)
        + if result.repairRequired then QueueCalls(runId, false) else []
  }

  /** The verdicts of a pass over all scanned paths. */
  ghost predicate AreScanned(scan: IndexScan, scanned: map<string, Verdict>) {
    && (forall p :: p in scanned <==> p in ScanPaths(scan))
    && forall p | p in scanned :: scanned[p] in {Fresh, Reused, Kept}
  }

  /** No scanned note loses its record. */
  ghost predicate KeepScanned(scan: IndexScan, verdicts: map<string, Verdict>) {
    forall p | p in verdicts && p in ScanPaths(scan) :: verdicts[p] in {Fresh, Reused, Kept}
  }

  /** The same verdicts and some more, on listed records. */
  ghost predicate Extends(scanned: map<string, Verdict>, verdicts: map<string, Verdict>, recorded: seq<string>) {
    && (forall p | p in scanned :: p in verdicts && verdicts[p] == scanned[p])
    && forall p | p in verdicts && p !in scanned :: p in recorded && verdicts[p] in {Removed, Spoiled}
  }

  /** No verdict that changes a record. */
  ghost predicate ChangeNothing(verdicts: map<string, Verdict>) {
    forall p | p in verdicts :: verdicts[p] in {Reused, Kept}
  }

  ghost predicate AllSeen(records: map<string, IndexRecord>, scanned: map<string, Verdict>) {
    forall p | p in records :: p in scanned
  }

  lemma SettledIsSeen(s: Snapshot, scan: IndexScan, fingerprint: string, scanned: map<string, Verdict>)
    requires Settled(s, scan, fingerprint) && scan.complete && AreScanned(scan, scanned)
    ensures AllSeen(s.records, scanned)
  {
    hide ScanPaths;
  }

  lemma ScannedIsExtended(scan: IndexScan, scanned: map<string, Verdict>, verdicts: map<string, Verdict>,
      recorded: seq<string>)
    requires AreScanned(scan, scanned)
    ensures Extends(scanned, scanned, [])
    ensures Extends(scanned, verdicts, recorded) ==> KeepScanned(scan, verdicts)
    ensures Extends(scanned, verdicts, recorded) ==> forall p | p in ScanPaths(scan) :: p in verdicts
  {
    hide ScanPaths;
  }

  /** The records listed and deleted one by one, up to the first failure. */
  ghost predicate IsForgetting(records: map<string, IndexRecord>, calls: seq<Call>) {
    && calls != []
    && calls[0].Listed?
    && (forall p :: p in calls[0].paths <==> p in records)
    && |calls| <= 1 + |calls[0].paths|
    && (forall i | 1 <= i < |calls| ::
          calls[i] == Forgot(calls[0].paths[i - 1], i == |calls| - 1 && calls[i].raised))
    && (|calls| > 1 ==> !calls[0].raised)
    && (!LastRaised(calls) ==> |calls| == 1 + |calls[0].paths|)
  }

  /** The collections recreated and all records forgotten, up to the first failure. */
  ghost predicate IsEmptying(records: map<string, IndexRecord>, calls: seq<Call>) {
    || calls == [Recreated(true)]
    || (calls != [] && calls[0] == Recreated(false) && IsForgetting(records, calls[1..]))
  }

  lemma EmptyingBy(records: map<string, IndexRecord>, forgetting: seq<Call>)
    ensures IsEmptying(records, [Recreated(true)]) && LastRaised([Recreated(true)])
    ensures IsForgetting(records, forgetting) ==>
      && IsEmptying(records, [Recreated(false)] + forgetting)
      && (LastRaised([Recreated(false)] + forgetting) <==> LastRaised(forgetting))
  {
    assert ([Recreated(false)] + forgetting)[1..] == forgetting;
  }

  lemma PassStart(records: map<string, IndexRecord>, scan: IndexScan, fingerprint: string,
      chunkCount: string -> nat)
    ensures IsPass(records, scan, fingerprint, chunkCount, map[], []) && !IsMessy(map[], [])
    ensures IsClearing(records, scan, map[], [], []) && Joined([]) == []
  {
  }

  lemma PassNext(records: map<string, IndexRecord>, scan: IndexScan, fingerprint: string,
      chunkCount: string -> nat, verdicts: map<string, Verdict>, turns: seq<seq<Call>>,
      source: IndexSource, verdict: Verdict, calls: seq<Call>)
    requires ValidScan(scan) && source in scan.sources && source.path !in verdicts
    requires IsPass(records, scan, fingerprint, chunkCount, verdicts, turns)
    requires |turns| < |Sort(ScanPaths(scan))| && source.path == Sort(ScanPaths(scan))[|turns|]
    requires IsTurn(Find(records, source.path), source, fingerprint, chunkCount(source.content), calls, verdict)
    ensures IsPass(records, scan, fingerprint, chunkCount, verdicts[source.path := verdict], turns + [calls])
  {
    hide IsTurn, Sort, ScanPaths, ValidScan;
    var order, k := Sort(ScanPaths(scan)), |turns|;
    assert order[..k + 1] == order[..k] + [order[k]];
    var after, more := verdicts[source.path := verdict], turns + [calls];
    forall i, x | 0 <= i < k + 1 && x in scan.sources && x.path == order[i]
      ensures IsTurn(Find(records, x.path), x, fingerprint, chunkCount(x.content), more[i], after[order[i]])
    {
      if i == k {
        SourceIsUnique(scan, x, source);
      } else {
        assert order[i] in order[..k];
      }
    }
  }

  lemma MessyNext(verdicts: map<string, Verdict>, turns: seq<seq<Call>>, path: string, verdict: Verdict,
      calls: seq<Call>)
    requires path !in verdicts
    ensures IsMessy(verdicts[path := verdict], turns + [calls])
      <==> IsMessy(verdicts, turns) || verdict in {Kept, Spoiled} || LastRaised(calls)
  {
    hide LastRaised;
    var after, more := verdicts[path := verdict], turns + [calls];
    assert more[|turns|] == calls && after[path] == verdict;
    assert forall i | 0 <= i < |turns| :: more[i] == turns[i];
    assert forall p | p in verdicts :: after[p] == verdicts[p];
  }

  lemma ClearingNext(records: map<string, IndexRecord>, scan: IndexScan, verdicts: map<string, Verdict>,
      recorded: seq<string>, removals: seq<seq<Call>>, verdict: Verdict, calls: seq<Call>)
    requires IsClearing(records, scan, verdicts, recorded, removals) && |removals| < |recorded|
    requires var path := recorded[|removals|];
      path !in recorded[..|removals|] && path in records && IsRemoval(records[path], calls, verdict)
      && path !in ScanPaths(scan)
    ensures IsClearing(records, scan, verdicts[recorded[|removals|] := verdict], recorded, removals + [calls])
  {
    hide IsRemoval, ScanPaths;
    var k := |removals|;
    assert forall i | 0 <= i < k :: recorded[..k][i] == recorded[i];
  }

  lemma ClearingSkip(records: map<string, IndexRecord>, scan: IndexScan, verdicts: map<string, Verdict>,
      recorded: seq<string>, removals: seq<seq<Call>>)
    requires IsClearing(records, scan, verdicts, recorded, removals) && |removals| < |recorded|
    requires recorded[|removals|] in ScanPaths(scan)
    ensures IsClearing(records, scan, verdicts, recorded, removals + [[]])
  {
    hide IsRemoval, ScanPaths;
  }

  lemma ClearingStart(records: map<string, IndexRecord>, scan: IndexScan, verdicts: map<string, Verdict>,
      recorded: seq<string>)
    ensures IsClearing(records, scan, verdicts, recorded, []) && Joined([]) == []
  {
  }

  lemma NothingFailed()
    ensures NoFailedDelete([])
  {
  }

  /** A path without a verdict still has the record it had at the start. */
  lemma UntouchedRecord(s: Snapshot, t: Snapshot, scan: IndexScan, fingerprint: string,
      verdicts: map<string, Verdict>, path: string)
    requires Decided(s, t, scan, fingerprint, verdicts) && path !in verdicts
    ensures Find(s.records, path) == Find(t.records, path)
  {
    assert SameAt(s, t, path);
  }

  lemma WritingIsSound(source: IndexSource, fingerprint: string, chunks: nat, calls: seq<Call>)
    requires IsWriting(source, fingerprint, chunks, calls)
    ensures NoFailedDelete(calls) && !LastRaised(calls) && calls != []
  {
  }

  lemma ReuseIsTurn(
      existing: Option<IndexRecord>, source: IndexSource, fingerprint: string, chunks: nat, calls: seq<Call>)
    requires IsKnown(existing, source, fingerprint)
    requires calls == [LookedUp(source.path, existing, false),
                       Validated(existing.value.collection, existing.value.pointIds, true, false)]
    ensures IsTurn(existing, source, fingerprint, chunks, calls, Reused)
    ensures NoFailedDelete(calls) && !LastRaised(calls)
  {
    assert calls[2..] == [];
  }

  lemma SwapIsTurn(existing: Option<IndexRecord>, source: IndexSource, fingerprint: string, chunks: nat,
      head: seq<Call>, swap: seq<Call>, verdict: Verdict)
    requires head == [LookedUp(source.path, existing, false)]
      + if IsKnown(existing, source, fingerprint)
        then [Validated(existing.value.collection, existing.value.pointIds, false, false)] else []
    requires if verdict == Fresh then IsSwap(existing, source, fingerprint, chunks, swap)
             else verdict == Kept && IsFailedSwap(source, fingerprint, chunks, swap)
    ensures IsTurn(existing, source, fingerprint, chunks, head + swap, verdict)
    ensures NoFailedDelete(head + swap) <==> NoFailedDelete(swap)
    ensures LastRaised(head + swap) <==> LastRaised(swap)
  {
    hide IsWriting, IsFailedWriting, IsKnown;
    assert swap != [] by {
      if swap == [] && existing.None? && verdict == Fresh {
        WritingIsSound(source, fingerprint, chunks, swap);
      }
    }
    NoFailedDeleteOfSum(head, swap);
    assert (head + swap)[|head|..] == swap;
  }

  lemma PassKeeps(records: map<string, IndexRecord>, scan: IndexScan, fingerprint: string,
      chunkCount: string -> nat, scanned: map<string, Verdict>, verdicts: map<string, Verdict>, turns: seq<seq<Call>>)
    requires IsPass(records, scan, fingerprint, chunkCount, scanned, turns)
    requires forall p | p in scanned :: p in verdicts && verdicts[p] == scanned[p]
    ensures IsPass(records, scan, fingerprint, chunkCount, verdicts, turns)
  {
    hide IsTurn;
    var order := Sort(ScanPaths(scan));
    forall i | 0 <= i < |turns| ensures order[i] in scanned {
      assert order[..|turns|][i] == order[i];
    }
  }

  lemma MessyByRemoval(scan: IndexScan, scanned: map<string, Verdict>, verdicts: map<string, Verdict>,
      turns: seq<seq<Call>>, recorded: seq<string>, spoiled: seq<string>)
    requires AreScanned(scan, scanned) && Extends(scanned, verdicts, recorded)
    requires spoiled == Select(recorded, verdicts, Spoiled)
    ensures IsMessy(verdicts, turns) <==> IsMessy(scanned, turns) || spoiled != []
  {
    hide LastRaised, Select;
    SelectMembers(recorded, verdicts, Spoiled);
    NoMembers(spoiled);
    assert forall p | p in spoiled :: verdicts[p] == Spoiled;
  }

  lemma SettledRecords(s: Snapshot, scan: IndexScan, fingerprint: string)
    requires Settled(s, scan, fingerprint) && scan.complete
    ensures forall p | p in s.records :: p in ScanPaths(scan)
  {
  }

  lemma CourseStart(records: map<string, IndexRecord>, scan: IndexScan, fingerprint: string,
      chunkCount: string -> nat, ensured: bool, verdicts: map<string, Verdict>)
    ensures var c := Course(ensured, verdicts, [], [], []);
      && IsCourse(records, scan, fingerprint, chunkCount, c)
      && NoFailedDelete(Joined(c.turns) + Joined(c.removals))
      && (verdicts == map[] ==> ChangeNothing(verdicts) && KeepScanned(scan, verdicts))
      && (!ensured ==> IsFinished(scan, c) && NeedsRepair(c) && AllCalls(scan, c) == [Ensured(true)])
  {
    hide Sort;
    assert IsPass(records, scan, fingerprint, chunkCount, verdicts, []);
  }

  /** The course of a sync that could not ensure the collections. */
  ghost function AllKept(scan: IndexScan): Course {
    Course(false, map p | p in ScanPaths(scan) :: Kept, [], [], [])
  }

  lemma CourseOfFailure(s: Snapshot, scan: IndexScan, runId: Option<string>, fingerprint: string,
      chunkCount: string -> nat, outcome: Outcome, calls: seq<Call>)
    requires outcome == Returned(SyncResult([], [], [], Sort(ScanPaths(scan)), true))
      || (outcome == Raised(AtQueueing) && runId.Some?)
    requires calls == [Ensured(true)] + QueueCalls(runId, outcome.Raised?)
    ensures var c := AllKept(scan);
      && Decided(s, s, scan, fingerprint, c.verdicts)
      && IsCourse(s.records, scan, fingerprint, chunkCount, c)
      && IsLog(s.records, scan, runId, fingerprint, c, outcome, calls)
      && NoFailedDelete(Joined(c.turns) + Joined(c.removals))
      && (outcome.Returned? ==> Reports(outcome.result, scan, c.recorded, c.verdicts))
      && (forall p | p in ScanPaths(scan) :: p in c.verdicts)
      && ChangeNothing(c.verdicts) && KeepScanned(scan, c.verdicts) && c.recorded == []
  {
    hide IsLog, IsCourse, Decided, Sort, ScanPaths, Reports, AllCalls, IsFinished, NeedsRepair, NoFailedDelete, Joined;
    var c := AllKept(scan);
    var result := SyncResult([], [], [], Sort(ScanPaths(scan)), true);
    KeptHolds(s, scan, fingerprint, c.verdicts);
    CourseStart(s.records, scan, fingerprint, chunkCount, false, c.verdicts);
    LogOfSync(s.records, scan, runId, fingerprint, c, outcome.Raised?, result, calls);
    ReportKept(scan, c.verdicts);
  }

  lemma CourseOfPass(records: map<string, IndexRecord>, scan: IndexScan, fingerprint: string,
      chunkCount: string -> nat, c: Course, broken: seq<Call>)
    requires IsPass(records, scan, fingerprint, chunkCount, c.verdicts, c.turns) && c.ensured
    requires c.recorded == [] && c.removals == []
    ensures IsCourse(records, scan, fingerprint, chunkCount, c)
    ensures Joined(c.turns) + Joined(c.removals) == Joined(c.turns)
    ensures ScanCalls(c.ensured, c.turns) + broken == [Ensured(false)] + (Joined(c.turns) + broken)
    ensures broken == [] ==> ScanCalls(c.ensured, c.turns) + broken == ScanCalls(c.ensured, c.turns)
    ensures |c.turns| == |Sort(ScanPaths(scan))| && !scan.complete ==>
      IsFinished(scan, c) && AllCalls(scan, c) == ScanCalls(c.ensured, c.turns)
    ensures NeedsRepair(c) <==> IsMessy(c.verdicts, c.turns)
  {
    hide Sort, IsPass, ScanPaths;
    ClearingStart(records, scan, c.verdicts, []);
  }

  lemma CourseOfClearing(records: map<string, IndexRecord>, scan: IndexScan, fingerprint: string,
      chunkCount: string -> nat, scanned: map<string, Verdict>, c: Course)
    requires IsPass(records, scan, fingerprint, chunkCount, scanned, c.turns) && c.ensured && scan.complete
    requires Extends(scanned, c.verdicts, c.recorded)
    requires IsClearing(records, scan, c.verdicts, c.recorded, c.removals)
    requires |c.turns| == |Sort(ScanPaths(scan))|
    ensures IsCourse(records, scan, fingerprint, chunkCount, c)
    ensures NoFailedDelete(Joined(c.turns) + Joined(c.removals))
      <==> NoFailedDelete(Joined(c.turns)) && NoFailedDelete(Joined(c.removals))
    ensures |c.removals| == |c.recorded| ==> IsFinished(scan, c)
    ensures AllCalls(scan, c) == ScanCalls(c.ensured, c.turns) + ([Listed(c.recorded, false)] + Joined(c.removals))
    ensures c.removals == [] ==> [Listed(c.recorded, true)] + Joined(c.removals) == [Listed(c.recorded, true)]
    ensures NeedsRepair(c) <==> IsMessy(c.verdicts, c.turns)
  {
    hide Sort, IsPass, ScanPaths, IsClearing;
    PassKeeps(records, scan, fingerprint, chunkCount, scanned, c.verdicts, c.turns);
    NoFailedDeleteOfSum(Joined(c.turns), Joined(c.removals));
  }

  lemma LogOfRefusal(records: map<string, IndexRecord>, scan: IndexScan, runId: Option<string>,
      fingerprint: string, c: Course)
    requires !ValidScan(scan)
    ensures IsLog(records, scan, runId, fingerprint, c, Raised(BadScan), [])
  {
  }

  lemma LogOfBreak(records: map<string, IndexRecord>, scan: IndexScan, runId: Option<string>,
      fingerprint: string, c: Course, broken: seq<Call>)
    requires c.ensured && c.removals == []
    requires var order := Sort(ScanPaths(scan));
      |c.turns| < |order| && exists x | x in scan.sources && x.path == order[|c.turns|] ::
        IsBreak(Find(records, x.path), x, fingerprint, broken)
    ensures IsLog(records, scan, runId, fingerprint, c, Raised(AtRecord), ScanCalls(c.ensured, c.turns) + broken)
  {
    hide Sort, ScanPaths, ScanCalls, IsBreak;
  }

  lemma LogOfListing(records: map<string, IndexRecord>, scan: IndexScan, runId: Option<string>,
      fingerprint: string, c: Course)
    requires c.ensured && scan.complete && |c.turns| == |Sort(ScanPaths(scan))|
    ensures IsLog(records, scan, runId, fingerprint, c, Raised(AtListing),
      ScanCalls(c.ensured, c.turns) + [Listed(c.recorded, true)])
  {
    hide Sort, ScanPaths, ScanCalls;
  }

  lemma LogOfSync(records: map<string, IndexRecord>, scan: IndexScan, runId: Option<string>,
      fingerprint: string, c: Course, raised: bool, result: SyncResult, calls: seq<Call>)
    requires IsFinished(scan, c) && (result.repairRequired <==> NeedsRepair(c))
    requires raised ==> result.repairRequired && runId.Some?
    requires calls == if result.repairRequired then AllCalls(scan, c) + QueueCalls(runId, raised)
                      else AllCalls(scan, c)
    ensures IsLog(records, scan, runId, fingerprint, c,
      if raised then Raised(AtQueueing) else Returned(result), calls)
  {
    hide AllCalls, IsFinished, NeedsRepair, Sort, ScanPaths;
  }

  lemma RemovalIsClean(r: IndexRecord, calls: seq<Call>)
    requires IsRemoval(r, calls, Removed)
    ensures NoFailedDelete(calls)
  {
  }

  class IndexService {
    const journal: Journal
    const index: VectorIndex
    const store: RecordStore
    const fingerprint: string
    /** The number of chunks the chunker makes of a text. */
    const chunkCount: string -> nat

    constructor (index: VectorIndex, store: RecordStore, fingerprint: string, chunkCount: string -> nat)
      requires index.journal == store.journal && store.Valid()
      ensures Valid() && this.index == index && this.store == store
      ensures this.fingerprint == fingerprint && this.chunkCount == chunkCount
    {
      this.index, this.store, this.journal := index, store, index.journal;
      this.fingerprint, this.chunkCount := fingerprint, chunkCount;
    }

    ghost predicate Valid()
      reads this, store
    {
      store.Valid() && index.journal == journal == store.journal
    }

    ghost function State(): Snapshot
      reads this, index, store
    {
      Snapshot(index.points, store.records)
    }

    predicate Reliable() {
      index.reliable && store.reliable
    }

    method IsUnchanged(source: IndexSource, existing: Option<IndexRecord>)
      returns (raised: bool, same: bool, ghost calls: seq<Call>)
      requires index.journal == journal
      modifies journal
      ensures journal.calls == old(journal.calls) + calls
      ensures !raised ==> (same <==> IsKnown(existing, source, fingerprint)
                                     && Complete(index.points, existing.value))
      ensures calls == if IsKnown(existing, source, fingerprint)
        then [Validated(existing.value.collection, existing.value.pointIds, same, raised)] else []
      ensures calls == [] ==> !raised
      ensures index.reliable ==> !raised
    {
      raised, same, calls := false, false, [];
      if IsKnown(existing, source, fingerprint) {
        raised, same := index.Validate(existing.value.collection, existing.value.pointIds);
        calls := [Validated(existing.value.collection, existing.value.pointIds, same, raised)];
      }
    }

    /** Write the new points, check them, record them, and only then delete the stale ones.
        A failure before the record is written leaves a complete old record complete. */
    method ReplaceGeneration(source: IndexSource, existing: Option<IndexRecord>)
      returns (success: bool, cleanupRepair: bool, ghost calls: seq<Call>)
      requires Valid() && WellFormed(store.records)
      requires existing == Find(store.records, source.path)
      requires IsKnown(existing, source, fingerprint) ==> !Complete(index.points, existing.value)
      modifies index, store, journal
      ensures Valid() && store.repairs == old(store.repairs)
      ensures journal.calls == old(journal.calls) + calls
      ensures if success then IsSwap(existing, source, fingerprint, chunkCount(source.content), calls)
              else IsFailedSwap(source, fingerprint, chunkCount(source.content), calls)
      ensures success ==> (cleanupRepair <==> LastRaised(calls))
      ensures !success ==> !cleanupRepair
      ensures success && !cleanupRepair ==> NoFailedDelete(calls)
      ensures forall p | p != source.path :: SamePoints(old(index.points), index.points, p)
      ensures store.records == if success
        then old(store.records)[source.path := RecordFor(source, fingerprint, chunkCount(source.content))]
        else old(store.records)
      ensures success ==> Complete(index.points, store.records[source.path])
      ensures !success && existing.Some? && Complete(old(index.points), existing.value)
        ==> Complete(index.points, existing.value)
      ensures NoFailedDelete(calls) ==> NoNewOrphans(old(State()), State(), source.path)
      ensures Reliable() ==> success && !cleanupRepair
    {
      hide IsFailedWriting, IsWriting, Matches, NewIds;
      var n := chunkCount(source.content);
      var pointIds := NewIds(source, fingerprint, n);
      ghost var before := State();
      ghost var added := At(source.collection, pointIds);
      NewIdsAreNew(source, fingerprint, n);
      if existing.Some? && !IsKnown(existing, source, fingerprint) {
        GenerationsAreDisjoint(source, fingerprint, n, existing.value);
      }
      var raised;
      raised, calls := WriteGeneration(source, n);
      ghost var writing := calls;
      if raised {
        var unclean := index.Delete(source.collection, pointIds);
        calls := calls + [Deleted(source.collection, pointIds, unclean)];
        assert calls[..|calls| - 1] == writing;
        assert calls[|calls| - 1] in calls;
        TouchesOnePath(before.points, index.points, added, source.path);
        return false, false, calls;
      }
      WritingIsSound(source, fingerprint, n, calls);
      cleanupRepair := false;
      if existing.Some? {
        var r := existing.value;
        PointsOfRecord(source.path, r);
        var staleIds := Without(r.pointIds, pointIds);
        cleanupRepair := index.Delete(r.collection, staleIds);
        calls := calls + [Deleted(r.collection, staleIds, cleanupRepair)];
        assert calls[..|calls| - 1] == writing;
        assert calls[|calls| - 1] in calls;
        ghost var removed := At(r.collection, staleIds);
        TouchesOnePath(before.points, index.points, added + removed, source.path);
      } else {
        TouchesOnePath(before.points, index.points, added, source.path);
      }
      success := true;
    }

    /** Write the new points, check them and record them, up to the first failure. */
    method WriteGeneration(source: IndexSource, n: nat) returns (raised: bool, ghost calls: seq<Call>)
      requires Valid()
      modifies index, store, journal
      ensures Valid() && store.repairs == old(store.repairs)
      ensures journal.calls == old(journal.calls) + calls
      ensures if raised then IsFailedWriting(source, fingerprint, n, calls)
              else IsWriting(source, fingerprint, n, calls)
      ensures var added := At(source.collection, NewIds(source, fingerprint, n));
        && old(index.points) <= index.points <= old(index.points) + added
        && (!raised ==> added <= index.points)
      ensures store.records == if raised then old(store.records)
        else old(store.records)[source.path := RecordFor(source, fingerprint, n)]
      ensures Reliable() ==> !raised
    {
      hide NewIds;
      var pointIds := NewIds(source, fingerprint, n);
      var returned, present;
      raised, returned := index.Upsert(source.collection, pointIds);
      calls := [Upserted(source.collection, pointIds, returned, raised)];
      if raised || returned != pointIds {
        return true, calls;
      }
      raised, present := index.Validate(source.collection, pointIds);
      calls := calls + [Validated(source.collection, pointIds, present, raised)];
      if raised || !present {
        return true, calls;
      }
      raised := store.SaveIndexRecord(RecordFor(source, fingerprint, n));
      calls := calls + [Saved(RecordFor(source, fingerprint, n), raised)];
    }

    /** One turn of the loop over the scanned sources. */
    method SyncSource(source: IndexSource)
      returns (raised: bool, verdict: Verdict, repair: bool, ghost calls: seq<Call>)
      requires Valid() && WellFormed(store.records)
      modifies index, store, journal
      ensures Follows(old(journal.calls), calls, journal.calls)
      ensures raised ==> IsBreak(Find(old(store.records), source.path), source, fingerprint, calls)
      ensures !raised ==>
        && IsTurn(Find(old(store.records), source.path), source, fingerprint, chunkCount(source.content),
                  calls, verdict)
        && (repair <==> verdict == Kept || LastRaised(calls))
        && (!repair ==> NoFailedDelete(calls))
        && (verdict == Reused ==> !repair)
      ensures store.reliable && raised ==> IsKnown(Find(old(store.records), source.path), source, fingerprint)
      ensures Valid() && WellFormed(store.records) && store.repairs == old(store.repairs)
      ensures raised || verdict == Reused ==> State() == old(State())
      ensures !raised ==>
        && verdict in {Fresh, Reused, Kept}
        && SameElsewhere(old(State()), State(), source.path)
        && Holds(old(State()), State(), source.path, verdict)
        && Describes(State(), source, fingerprint, verdict)
        && (verdict == Fresh ==>
              store.records[source.path] == RecordFor(source, fingerprint, chunkCount(source.content)))
        && (NoFailedDelete(calls) ==> NoNewOrphans(old(State()), State(), source.path))
      ensures !raised && IsCurrent(old(State()), source, fingerprint) ==> verdict == Reused
      ensures Reliable() ==> !raised && !repair
    {
      hide Complete, SamePoints, At, NewIds, Owned, IsSwap, IsFailedSwap, Matches, WellFormedRecord, NoFailedDelete,
        NoNewOrphans, IsTurn, LastRaised;
      verdict, repair := Reused, false;
      var existing;
      raised, existing := store.GetIndexRecord(source.path);
      calls := [LookedUp(source.path, existing, raised)];
      if raised {
        return;
      }
      var same;
      ghost var more;
      raised, same, more := IsUnchanged(source, existing);
      calls := calls + more;
      if raised || same {
        SameAtIsReflexive(State());
        if same && !raised {
          ReuseIsTurn(existing, source, fingerprint, chunkCount(source.content), calls);
        }
        return;
      }
      NewIdsAreNew(source, fingerprint, chunkCount(source.content));
      var success, cleanupRepair;
      success, cleanupRepair, more := ReplaceGeneration(source, existing);
      verdict := if success then Fresh else Kept;
      SwapIsTurn(existing, source, fingerprint, chunkCount(source.content), calls, more, verdict);
      calls := calls + more;
      repair := cleanupRepair || !success;
    }

    /** One turn of the loop over the records whose notes are gone. */
    method RemoveRecord(path: string) returns (verdict: Verdict, ghost calls: seq<Call>)
      requires Valid() && WellFormed(store.records) && path in store.records
      modifies index, store, journal
      ensures Follows(old(journal.calls), calls, journal.calls)
      ensures IsRemoval(old(store.records)[path], calls, verdict)
      ensures Valid() && WellFormed(store.records) && store.repairs == old(store.repairs)
      ensures verdict in {Removed, Spoiled}
      ensures SameElsewhere(old(State()), State(), path)
      ensures Holds(old(State()), State(), path, verdict)
      ensures NoFailedDelete(calls) ==> NoNewOrphans(old(State()), State(), path)
      ensures Reliable() ==> verdict == Removed
    {
      var existing := store.records[path];
      ghost var before := State();
      PointsOfRecord(path, existing);
      var raised := index.Delete(existing.collection, existing.pointIds);
      TouchesOnePath(before.points, index.points, At(existing.collection, existing.pointIds), path);
      calls := [Deleted(existing.collection, existing.pointIds, raised)];
      if !raised {
        raised := store.DeleteIndexRecord(path);
        calls := calls + [Forgot(path, raised)];
      }
      verdict := if raised then Spoiled else Removed;
    }

    method Repair(runId: Option<string>) returns (raised: bool)
      requires Valid()
      modifies store, journal
      ensures raised ==> runId.Some?
      ensures Follows(old(journal.calls), QueueCalls(runId, raised), journal.calls)
      ensures Valid() && store.records == old(store.records)
      ensures store.repairs == if raised || runId.None? then old(store.repairs)
                               else old(store.repairs) + {runId.value}
      ensures store.reliable ==> !raised
    {
      raised := false;
      if runId.Some? {
        raised := store.EnqueueRepair(runId.value);
      }
    }

    /** The stores could not be prepared: every scanned path is reported as failed. */
    method FailAll(scan: IndexScan, runId: Option<string>) returns (outcome: Outcome, ghost calls: seq<Call>)
      requires Valid()
      modifies store, journal
      ensures Valid() && store.records == old(store.records)
      ensures Follows(old(journal.calls), calls, journal.calls)
      ensures calls == QueueCalls(runId, outcome.Raised?)
      ensures outcome == Returned(SyncResult([], [], [], Sort(ScanPaths(scan)), true))
        || (outcome == Raised(AtQueueing) && runId.Some?)
      ensures store.repairs == old(store.repairs)
        + if outcome.Returned? && runId.Some? then {runId.value} else {}
      ensures store.reliable ==> outcome.Returned?
    {
      hide Sort, ScanPaths;
      var raised := Repair(runId);
      outcome := if raised then Raised(AtQueueing)
                 else Returned(SyncResult([], [], [], Sort(ScanPaths(scan)), true));
      calls := QueueCalls(runId, raised);
    }

    /** Whatever fails: records stay well formed, a path without a verdict is untouched, each verdict
        says exactly what became of its path, and the stores were called exactly as the outcome says. */
    method Sync(scan: IndexScan, runId: Option<string>)
      returns (outcome: Outcome, ghost c: Course, ghost calls: seq<Call>)
      requires Valid() && WellFormed(store.records)
      modifies index, store, journal
      ensures Valid() && WellFormed(store.records)
      ensures !ValidScan(scan) ==> outcome == Raised(BadScan) && State() == old(State())
      ensures Decided(old(State()), State(), scan, fingerprint, c.verdicts)
      ensures IsCourse(old(store.records), scan, fingerprint, chunkCount, c)
      ensures Follows(old(journal.calls), calls, journal.calls)
      ensures IsLog(old(store.records), scan, runId, fingerprint, c, outcome, calls)
      ensures outcome.Returned? ==> Reports(outcome.result, scan, c.recorded, c.verdicts)
      ensures store.repairs == old(store.repairs)
        + if outcome.Returned? && outcome.result.repairRequired && runId.Some? then {runId.value} else {}
      ensures !scan.complete ==> c.recorded == []
      ensures outcome == Raised(AtListing) || outcome == Raised(AtQueueing) ==>
        forall p | p in ScanPaths(scan) :: p in c.verdicts
      ensures KeepScanned(scan, c.verdicts)
      ensures Settled(old(State()), scan, fingerprint) ==>
        State() == old(State()) && ChangeNothing(c.verdicts)
      ensures store.reliable && ValidScan(scan)
        && (forall x | x in scan.sources :: !IsKnown(Find(old(store.records), x.path), x, fingerprint))
        ==> outcome.Returned?
      ensures Reliable() && ValidScan(scan) ==>
        && outcome.Returned? && outcome.result.failedPaths == [] && !outcome.result.repairRequired
        && Settled(State(), scan, fingerprint)
      ensures NoFailedDelete(Joined(c.turns) + Joined(c.removals)) ==> NoOrphans(old(State()), State())
      ensures outcome.Returned? && !outcome.result.repairRequired ==> NoOrphans(old(State()), State())
    {
      hide IsCollection, IsSorted, Sort, SortedItems, Decided, NoOrphans, Select, WellFormed, Reports, ScanPaths,
        IsPass, IsClearing, IsMessy, Joined, NoFailedDelete, IsKnown, IsBreak, Settled, ValidScan,
        IsCourse, IsLog, AllCalls, ScanCalls, NeedsRepair, IsFinished, AllKept, AreScanned, Extends, ChangeNothing,
        AllSeen, Follows, QueueCalls, KeepScanned;
      ghost var records := store.records;
      ghost var before := State();
      ghost var start := journal.calls;
      FollowsNone(start);
      c, calls := Course(true, map[], [], [], []), [];
      DecideNothing(before, scan, fingerprint);
      CourseStart(records, scan, fingerprint, chunkCount, true, map[]);
      if !ValidScan(scan) {
        outcome := Raised(BadScan);
        LogOfRefusal(records, scan, runId, fingerprint, c);
        return;
      }
      SortedScan(scan);
      var order := Sort(ScanPaths(scan));
      var raised := index.EnsureCollections();
      ghost var ensured := journal.calls;
      FollowsOne(start, Ensured(raised), ensured);
      if raised {
        c := AllKept(scan);
        outcome, calls := FailAll(scan, runId);
        FollowsBoth(start, [Ensured(true)], ensured, calls, journal.calls);
        calls := [Ensured(true)] + calls;
        CourseOfFailure(before, scan, runId, fingerprint, chunkCount, outcome, calls);
        return;
      }
      var indexed, same, failed, repairRequired;
      ghost var verdicts, turns, broken;
      raised, indexed, same, failed, repairRequired, verdicts, turns, broken := SyncSources(scan, order);
      c := Course(true, verdicts, turns, [], []);
      CourseOfPass(records, scan, fingerprint, chunkCount, c, broken);
      FollowsBoth(start, [Ensured(false)], ensured, Joined(turns) + broken, journal.calls);
      calls := ScanCalls(c.ensured, c.turns) + broken;
      if raised {
        outcome := Raised(AtRecord);
        LogOfBreak(records, scan, runId, fingerprint, c, broken);
        return;
      }
      var deleted: seq<string>, spoiled: seq<string> := [], [];
      SelectNothing(verdicts);
      NothingIsSorted();
      ghost var scanned := verdicts;
      ScannedIsExtended(scan, scanned, scanned, []);
      if scan.complete {
        if Settled(before, scan, fingerprint) {
          SettledIsSeen(before, scan, fingerprint, scanned);
        }
        ghost var scanEnd := journal.calls;
        ghost var recorded, removals;
        raised, deleted, spoiled, verdicts, recorded, removals := RemoveUnseen(scan, before, verdicts);
        c := Course(true, verdicts, turns, recorded, removals);
        ScannedIsExtended(scan, scanned, verdicts, recorded);
        CourseOfClearing(records, scan, fingerprint, chunkCount, scanned, c);
        FollowsBoth(start, calls, scanEnd, [Listed(recorded, raised)] + Joined(removals), journal.calls);
        calls := calls + ([Listed(recorded, raised)] + Joined(removals));
        if raised {
          outcome := Raised(AtListing);
          LogOfListing(records, scan, runId, fingerprint, c);
          return;
        }
        MessyByRemoval(scan, scanned, verdicts, turns, recorded, spoiled);
      }
      repairRequired := repairRequired || spoiled != [];
      ghost var queueing: seq<Call> := [];
      if repairRequired {
        ghost var workEnd := journal.calls;
        raised := Repair(runId);
        queueing := QueueCalls(runId, raised);
        FollowsBoth(start, calls, workEnd, queueing, journal.calls);
        calls := calls + queueing;
      }
      var result := SyncResult(indexed, same, deleted, SortedItems(failed + spoiled), repairRequired);
      LogOfSync(records, scan, runId, fingerprint, c, raised, result, calls);
      if raised {
        outcome := Raised(AtQueueing);
        return;
      }
      ReportAll(scan, c.recorded, scanned, c.verdicts, failed, spoiled, repairRequired);
      outcome := Returned(result);
      if Reliable() {
        SettledBy(before, State(), scan, fingerprint, scanned, c.verdicts, c.recorded);
      }
    }

    /** Start over. Only a complete scan is accepted, but it is checked for validity by `Sync`,
        when the collections have been emptied already. */
    method Rebuild(scan: IndexScan, runId: Option<string>)
      returns (outcome: Outcome, ghost emptying: seq<Call>, ghost c: Course, ghost calls: seq<Call>)
      requires Valid()
      modifies index, store, journal
      ensures Valid() && (old(WellFormed(store.records)) ==> WellFormed(store.records))
      ensures Follows(old(journal.calls), emptying + calls, journal.calls)
      ensures !scan.complete ==>
        outcome == Raised(BadScan) && State() == old(State()) && emptying == [] && calls == []
      ensures scan.complete ==> IsEmptying(old(store.records), emptying)
      ensures scan.complete && LastRaised(emptying) ==>
        && calls == QueueCalls(runId, outcome.Raised?)
        && (outcome.Returned? ==> outcome.result == SyncResult([], [], [], Sort(ScanPaths(scan)), true))
        && (outcome.Raised? ==> outcome == Raised(AtQueueing) && runId.Some?)
      ensures scan.complete && !LastRaised(emptying) ==>
        && WellFormed(store.records)
        && Decided(Snapshot({}, map[]), State(), scan, fingerprint, c.verdicts)
        && IsCourse(map[], scan, fingerprint, chunkCount, c)
        && IsLog(map[], scan, runId, fingerprint, c, outcome, calls)
        && (outcome.Returned? ==> Reports(outcome.result, scan, c.recorded, c.verdicts))
        && (store.reliable && ValidScan(scan) ==> outcome.Returned?)
      ensures Reliable() && scan.complete ==> !LastRaised(emptying)
      ensures Reliable() && scan.complete && ValidScan(scan) ==>
        && outcome.Returned? && outcome.result == SyncResult(Sort(ScanPaths(scan)), [], [], [], false)
        && Settled(State(), scan, fingerprint)
        && forall pt :: pt in index.points <==> Owned(State(), pt)
      ensures Reliable() && scan.complete && !ValidScan(scan) ==>
        outcome == Raised(BadScan) && State() == Snapshot({}, map[])
    {
      hide Settled, ValidScan, NoNewOrphans, Owned, WellFormedRecord, Decided, IsCourse, Reports, IsLog, NoFailedDelete,
        Follows, LastRaised, IsEmptying, IsForgetting, QueueCalls, Sort, ScanPaths;
      ghost var records, start := store.records, journal.calls;
      emptying, c, calls := [], Course(false, map[], [], [], []), [];
      FollowsNone(start);
      assert emptying + calls == [];
      if !scan.complete {
        outcome := Raised(BadScan);
        return;
      }
      var raised := index.RecreateCollections();
      emptying := [Recreated(raised)];
      FollowsOne(start, Recreated(raised), journal.calls);
      EmptyingBy(records, []);
      if !raised {
        ghost var more, recreated := [], journal.calls;
        raised, more := ForgetAll();
        FollowsBoth(start, emptying, recreated, more, journal.calls);
        EmptyingBy(records, more);
        emptying := emptying + more;
      }
      ghost var done := journal.calls;
      if raised {
        outcome, calls := FailAll(scan, runId);
        FollowsBoth(start, emptying, done, calls, journal.calls);
        return;
      }
      ghost var empty := State();
      outcome, c, calls := Sync(scan, runId);
      FollowsBoth(start, emptying, done, calls, journal.calls);
      if Reliable() && ValidScan(scan) {
        SettledRecords(State(), scan, fingerprint);
        NoOrphansFromNothing(empty, State(), scan, fingerprint);
        AllFresh(State(), scan, fingerprint, c, outcome.result);
      }
    }

    /** A point that no record owns is still there after another sync of a settled index. */
    method OrphanSurvives(scan: IndexScan, runId: Option<string>, ghost pt: Point)
      requires Valid() && WellFormed(store.records) && Settled(State(), scan, fingerprint)
      requires pt in index.points && !Owned(State(), pt)
      modifies index, store, journal
      ensures pt in index.points && !Owned(State(), pt)
      ensures Settled(State(), scan, fingerprint)
    {
      hide Settled, Owned, Decided, Reports;
      ghost var c, calls;
      var outcome;
      outcome, c, calls := Sync(scan, runId);
    }

    method ForgetAll() returns (raised: bool, ghost calls: seq<Call>)
      requires Valid()
      modifies store, journal
      ensures Valid() && store.repairs == old(store.repairs)
      ensures Follows(old(journal.calls), calls, journal.calls)
      ensures IsForgetting(old(store.records), calls) && (raised <==> LastRaised(calls))
      ensures old(WellFormed(store.records)) ==> WellFormed(store.records)
      ensures !raised ==> store.records == map[]
      ensures store.reliable ==> !raised
    {
      hide Follows, WellFormedRecord;
      ghost var start := journal.calls;
      var paths;
      raised, paths := store.ListIndexRecords();
      calls := [Listed(paths, raised)];
      FollowsOne(start, Listed(paths, raised), journal.calls);
      if raised {
        return;
      }
      for k := 0 to |paths|
        invariant Valid() && store.repairs == old(store.repairs)
        invariant Follows(start, calls, journal.calls)
        invariant |calls| == k + 1 && calls[0] == Listed(paths, false)
        invariant forall i | 0 <= i < k :: calls[i + 1] == Forgot(paths[i], false)
        invariant forall p :: p in store.records ==>
          p in old(store.records) && store.records[p] == old(store.records)[p]
        invariant forall p | p in paths[..k] :: p !in store.records
      {
        assert paths[..k + 1] == paths[..k] + [paths[k]];
        ghost var turnStart := journal.calls;
        raised := store.DeleteIndexRecord(paths[k]);
        FollowsOne(turnStart, Forgot(paths[k], raised), journal.calls);
        FollowsBoth(start, calls, turnStart, [Forgot(paths[k], raised)], journal.calls);
        calls := calls + [Forgot(paths[k], raised)];
        if raised {
          return;
        }
      }
      assert paths[..|paths|] == paths;
      assert store.records == map[];
    }

    /** Two syncs of one scan, when nothing fails: the second finds nothing to do. */
    method SyncTwice(scan: IndexScan, runId: Option<string>) returns (first: Outcome, second: Outcome)
      requires Valid() && WellFormed(store.records) && Reliable() && ValidScan(scan)
      modifies index, store, journal
      ensures Settled(State(), scan, fingerprint)
      ensures second.Returned?
      ensures second.result.indexedPaths == second.result.deletedPaths == second.result.failedPaths == []
      ensures second.result.unchangedPaths == Sort(ScanPaths(scan))
    {
      hide Settled, ValidScan, Reports;
      ghost var c, calls;
      first, c, calls := Sync(scan, runId);
      second, c, calls := Sync(scan, runId);
      AllReused(scan, c.verdicts, c.recorded, second.result);
    }

    method SyncSources(scan: IndexScan, order: seq<string>)
      returns (raised: bool, indexed: seq<string>, same: seq<string>, failed: seq<string>,
               repairRequired: bool, ghost verdicts: map<string, Verdict>, ghost turns: seq<seq<Call>>,
               ghost broken: seq<Call>)
      requires Valid() && WellFormed(store.records)
      requires ValidScan(scan) && order == Sort(ScanPaths(scan))
      modifies index, store, journal
      ensures Follows(old(journal.calls), Joined(turns) + broken, journal.calls)
      ensures IsPass(old(store.records), scan, fingerprint, chunkCount, verdicts, turns)
      ensures raised ==> |turns| < |order| && exists x | x in scan.sources && x.path == order[|turns|] ::
        && IsBreak(Find(old(store.records), x.path), x, fingerprint, broken)
        && (store.reliable ==> IsKnown(Find(old(store.records), x.path), x, fingerprint))
      ensures Valid() && WellFormed(store.records) && store.repairs == old(store.repairs)
      ensures Decided(old(State()), State(), scan, fingerprint, verdicts)
      ensures KeepScanned(scan, verdicts)
      ensures !raised ==>
        && |turns| == |order| && broken == []
        && (repairRequired <==> IsMessy(verdicts, turns))
        && AreScanned(scan, verdicts)
        && indexed == Select(order, verdicts, Fresh)
        && same == Select(order, verdicts, Reused)
        && failed == Select(order, verdicts, Kept)
        && (failed != [] ==> repairRequired)
      ensures Settled(old(State()), scan, fingerprint) ==>
        State() == old(State()) && ChangeNothing(verdicts)
      ensures NoFailedDelete(Joined(turns)) ==> NoOrphans(old(State()), State())
      ensures !repairRequired ==> NoFailedDelete(Joined(turns))
      ensures Reliable() ==> !raised && failed == [] && !repairRequired
    {
      hide IsCollection, Sort, Decided, NoOrphans, NoNewOrphans, WellFormed, Holds,
        SameElsewhere, Describes, Select, IsCurrent, IsTurn, IsBreak, IsPass, IsMessy, Joined, NoFailedDelete,
        Matches, Follows;
      ghost var before := State();
      SortedScan(scan);
      DecideNothing(before, scan, fingerprint);
      indexed, same, failed, repairRequired, verdicts := [], [], [], false, map[];
      ghost var start := journal.calls;
      FollowsNone(start);
      turns, broken := [], [];
      SelectNothing(verdicts);
      PassStart(before.records, scan, fingerprint, chunkCount);
      NothingFailed();
      for k := 0 to |order|
        invariant Valid() && WellFormed(store.records) && store.repairs == old(store.repairs)
        invariant Decided(before, State(), scan, fingerprint, verdicts)
        invariant forall p :: p in verdicts <==> p in order[..k]
        invariant forall p | p in verdicts :: verdicts[p] in {Fresh, Reused, Kept}
        invariant Follows(start, Joined(turns), journal.calls) && broken == []
        invariant |turns| == k && IsPass(before.records, scan, fingerprint, chunkCount, verdicts, turns)
        invariant repairRequired <==> IsMessy(verdicts, turns)
        invariant indexed == Select(order[..k], verdicts, Fresh)
        invariant same == Select(order[..k], verdicts, Reused)
        invariant failed == Select(order[..k], verdicts, Kept)
        invariant failed != [] ==> repairRequired
        invariant NoFailedDelete(Joined(turns)) ==> NoOrphans(before, State())
        invariant !repairRequired ==> NoFailedDelete(Joined(turns))
        invariant Settled(before, scan, fingerprint) ==>
          State() == before && forall p | p in verdicts :: verdicts[p] == Reused
        invariant Reliable() ==> failed == [] && !repairRequired
      {
        PathHasSource(scan, order[k]);
        var source := SourceAt(scan.sources, order[k]);
        assert order[..k + 1] == order[..k] + [order[k]];
        ghost var middle := State();
        var verdict, repair;
        ghost var calls, turnStart := [], journal.calls;
        raised, verdict, repair, calls := SyncSource(source);
        UntouchedRecord(before, middle, scan, fingerprint, verdicts, source.path);
        FollowsBoth(start, Joined(turns), turnStart, calls, journal.calls);
        if raised {
          broken := calls;
          return;
        }
        DecideSource(before, middle, State(), scan, fingerprint, verdicts, source, verdict);
        JoinedPush(turns, calls);
        NoFailedDeleteOfSum(Joined(turns), calls);
        if NoFailedDelete(Joined(turns)) && NoFailedDelete(calls) {
          NoOrphansStep(before, middle, State(), source.path);
        }
        PassNext(before.records, scan, fingerprint, chunkCount, verdicts, turns, source, verdict, calls);
        MessyNext(verdicts, turns, source.path, verdict, calls);
        turns := turns + [calls];
        SelectDecided(order, k, verdicts, verdict, Fresh);
        SelectDecided(order, k, verdicts, verdict, Reused);
        SelectDecided(order, k, verdicts, verdict, Kept);
        verdicts := verdicts[source.path := verdict];
        if verdict == Reused {
          same := same + [source.path];
          continue;
        }
        if verdict == Fresh {
          indexed := indexed + [source.path];
        } else {
          failed := failed + [source.path];
        }
        repairRequired := repairRequired || repair;
      }
      assert order[..|order|] == order;
      assert Joined(turns) + [] == Joined(turns);
      raised := false;
    }

    method RemoveUnseen(scan: IndexScan, ghost before: Snapshot, ghost scanned: map<string, Verdict>)
      returns (raised: bool, deleted: seq<string>, failed: seq<string>,
               ghost verdicts: map<string, Verdict>, ghost recorded: seq<string>, ghost removals: seq<seq<Call>>)
      requires Valid() && WellFormed(store.records) && WellFormed(before.records)
      requires Decided(before, State(), scan, fingerprint, scanned)
      requires AreScanned(scan, scanned)
      modifies index, store, journal
      ensures Follows(old(journal.calls), [Listed(recorded, raised)] + Joined(removals), journal.calls)
      ensures IsClearing(before.records, scan, verdicts, recorded, removals)
      ensures |removals| == if raised then 0 else |recorded|
      ensures raised ==> verdicts == scanned && State() == old(State())
      ensures store.reliable ==> !raised
      ensures Valid() && WellFormed(store.records) && store.repairs == old(store.repairs)
      ensures Decided(before, State(), scan, fingerprint, verdicts)
      ensures Extends(scanned, verdicts, recorded)
      ensures !raised ==>
        && IsSorted(recorded) && (forall p :: p in recorded <==> p in old(store.records))
        && (forall p | p in recorded :: p in verdicts)
        && deleted == Select(recorded, verdicts, Removed)
        && failed == Select(recorded, verdicts, Spoiled)
      ensures AllSeen(old(store.records), scanned) ==> State() == old(State()) && verdicts == scanned
      ensures Reliable() ==> !raised && failed == [] && AllSeen(store.records, scanned)
      ensures NoFailedDelete(Joined(removals)) && NoOrphans(before, old(State())) ==> NoOrphans(before, State())
      ensures failed == [] ==> NoFailedDelete(Joined(removals))
    {
      hide IsSorted, Decided, NoOrphans, NoNewOrphans, WellFormed, Holds, Select,
        SameElsewhere, ScanPaths, Sort, Removing,
        IsClearing, IsRemoval, Joined, NoFailedDelete, Follows;
      ghost var start, first := State(), journal.calls;
      deleted, failed, verdicts, recorded, removals := [], [], scanned, [], [];
      NothingFailed();
      var paths;
      raised, paths := store.ListIndexRecords();
      recorded := paths;
      FollowsOne(first, Listed(paths, raised), journal.calls);
      assert [Listed(paths, raised)] + [] == [Listed(paths, raised)];
      ClearingStart(before.records, scan, verdicts, recorded);
      if raised {
        return;
      }
      RemovingStart(start, scanned, paths);
      for k := 0 to |paths|
        invariant Valid() && WellFormed(store.records) && store.repairs == old(store.repairs)
        invariant Decided(before, State(), scan, fingerprint, verdicts)
        invariant Removing(start, State(), scanned, verdicts, paths, k, deleted, failed)
        invariant AllSeen(start.records, scanned) ==> State() == start && verdicts == scanned
        invariant Reliable() ==> failed == []
        invariant Follows(first, [Listed(recorded, false)] + Joined(removals), journal.calls)
        invariant |removals| == k && IsClearing(before.records, scan, verdicts, recorded, removals)
        invariant NoFailedDelete(Joined(removals)) && NoOrphans(before, start) ==> NoOrphans(before, State())
        invariant failed == [] ==> NoFailedDelete(Joined(removals))
      {
        var path := paths[k];
        RemovingNext(start, State(), scanned, verdicts, paths, k, deleted, failed);
        if path in ScanPaths(scan) {
          RemovingSkip(start, State(), scanned, verdicts, paths, k, deleted, failed);
          ClearingSkip(before.records, scan, verdicts, recorded, removals);
          JoinedPush(removals, []);
          assert Joined(removals) + [] == Joined(removals);
          removals := removals + [[]];
          continue;
        }
        ghost var middle := State();
        UntouchedRecord(before, middle, scan, fingerprint, verdicts, path);
        var verdict;
        ghost var calls, turnStart := [], journal.calls;
        verdict, calls := RemoveRecord(path);
        DecideOther(before, middle, State(), scan, fingerprint, verdicts, path, verdict);
        RemovingStep(start, middle, State(), scanned, verdicts, paths, k, deleted, failed, verdict);
        FollowsBoth(first, [Listed(recorded, false)] + Joined(removals), turnStart, calls, journal.calls);
        assert [Listed(recorded, false)] + Joined(removals) + calls
            == [Listed(recorded, false)] + (Joined(removals) + calls);
        JoinedPush(removals, calls);
        NoFailedDeleteOfSum(Joined(removals), calls);
        if NoFailedDelete(Joined(removals)) && NoFailedDelete(calls) && NoOrphans(before, start) {
          NoOrphansStep(before, middle, State(), path);
        }
        ClearingNext(before.records, scan, verdicts, recorded, removals, verdict, calls);
        removals := removals + [calls];
        verdicts := verdicts[path := verdict];
        if verdict == Removed {
          RemovalIsClean(middle.records[path], calls);
          deleted := deleted + [path];
        } else {
          failed := failed + [path];
        }
      }
      RemovingEnd(start, State(), scanned, verdicts, paths, deleted, failed);
    }
  }

  ghost predicate RemovedUpTo(
    start: Snapshot, now: Snapshot, scanned: map<string, Verdict>, verdicts: map<string, Verdict>,
    paths: seq<string>, k: nat)
  {
    && k <= |paths|
    && (forall p :: p in paths <==> p in start.records)
    && (forall i, j | 0 <= i < j < |paths| :: paths[i] != paths[j])
    && (forall p :: p in verdicts <==> p in scanned || p in paths[..k])
    && (forall p | p in scanned :: verdicts[p] == scanned[p] && scanned[p] in {Fresh, Reused, Kept})
    && (forall p | p in verdicts && p !in scanned :: verdicts[p] in {Removed, Spoiled})
    && (forall p :: p in now.records <==>
          p in start.records && (p in verdicts && p !in scanned ==> verdicts[p] == Spoiled))
  }

  /** The first k recorded paths have been gone through. */
  ghost predicate Removing(
    start: Snapshot, now: Snapshot, scanned: map<string, Verdict>, verdicts: map<string, Verdict>,
    paths: seq<string>, k: nat, deleted: seq<string>, failed: seq<string>)
  {
    && RemovedUpTo(start, now, scanned, verdicts, paths, k)
    && deleted == Select(paths[..k], verdicts, Removed)
    && failed == Select(paths[..k], verdicts, Spoiled)
  }

  lemma RemovingStart(start: Snapshot, scanned: map<string, Verdict>, paths: seq<string>)
    requires forall p :: p in paths <==> p in start.records
    requires forall i, j | 0 <= i < j < |paths| :: paths[i] != paths[j]
    requires forall p | p in scanned :: scanned[p] in {Fresh, Reused, Kept}
    ensures Removing(start, start, scanned, scanned, paths, 0, [], [])
  {
    SelectNothing(scanned);
    assert paths[..0] == [];
  }

  lemma RemovingNext(
      start: Snapshot, now: Snapshot, scanned: map<string, Verdict>, verdicts: map<string, Verdict>,
      paths: seq<string>, k: nat, deleted: seq<string>, failed: seq<string>)
    requires Removing(start, now, scanned, verdicts, paths, k, deleted, failed) && k < |paths|
    ensures paths[k] !in paths[..k] && (paths[k] !in scanned ==> paths[k] !in verdicts)
    ensures paths[k] !in scanned ==> paths[k] in now.records
    ensures paths[k] in start.records && k <= |paths|
  {
    hide Select;
    assert paths[k] in paths;
  }

  lemma RemovingSkip(
      start: Snapshot, now: Snapshot, scanned: map<string, Verdict>, verdicts: map<string, Verdict>,
      paths: seq<string>, k: nat, deleted: seq<string>, failed: seq<string>)
    requires Removing(start, now, scanned, verdicts, paths, k, deleted, failed)
    requires k < |paths| && paths[k] in scanned
    ensures Removing(start, now, scanned, verdicts, paths, k + 1, deleted, failed)
  {
    hide Select;
    assert paths[..k + 1] == paths[..k] + [paths[k]];
    SelectNext(paths, k, verdicts, Removed);
    SelectNext(paths, k, verdicts, Spoiled);
  }

  lemma RemovedOneMore(
      start: Snapshot, s: Snapshot, t: Snapshot, scanned: map<string, Verdict>, verdicts: map<string, Verdict>,
      paths: seq<string>, k: nat, verdict: Verdict)
    requires RemovedUpTo(start, s, scanned, verdicts, paths, k) && k < |paths|
    requires paths[k] !in scanned && paths[k] !in verdicts && verdict in {Removed, Spoiled}
    requires forall p :: p in t.records <==> p in s.records && (p == paths[k] ==> verdict == Spoiled)
    ensures RemovedUpTo(start, t, scanned, verdicts[paths[k] := verdict], paths, k + 1)
  {
    var path, after := paths[k], verdicts[paths[k] := verdict];
    OneMorePath(paths, k);
    forall p ensures p in after <==> p in scanned || p in paths[..k + 1] {
      assert p in verdicts <==> p in scanned || p in paths[..k];
    }
    assert path in start.records;
    forall p
      ensures p in t.records <==> p in start.records && (p in after && p !in scanned ==> after[p] == Spoiled)
    {
      assert p in s.records <==>
        p in start.records && (p in verdicts && p !in scanned ==> verdicts[p] == Spoiled);
    }
  }

  lemma OneMorePath(paths: seq<string>, k: nat)
    requires k < |paths|
    ensures forall p :: p in paths[..k + 1] <==> p in paths[..k] || p == paths[k]
    ensures paths[k] in paths
  {
    assert paths[..k + 1] == paths[..k] + [paths[k]];
  }

  lemma RemovingStep(
      start: Snapshot, s: Snapshot, t: Snapshot, scanned: map<string, Verdict>, verdicts: map<string, Verdict>,
      paths: seq<string>, k: nat, deleted: seq<string>, failed: seq<string>, verdict: Verdict)
    requires Removing(start, s, scanned, verdicts, paths, k, deleted, failed)
    requires k < |paths| && paths[k] !in scanned && verdict in {Removed, Spoiled}
    requires SameElsewhere(s, t, paths[k]) && Holds(s, t, paths[k], verdict)
    ensures Removing(start, t, scanned, verdicts[paths[k] := verdict], paths, k + 1,
      if verdict == Removed then deleted + [paths[k]] else deleted,
      if verdict == Removed then failed else failed + [paths[k]])
  {
    hide Select, SameElsewhere, Holds, RemovedUpTo;
    RemovingNext(start, s, scanned, verdicts, paths, k, deleted, failed);
    RecordsAfter(s, t, paths[k], verdict);
    RemovedOneMore(start, s, t, scanned, verdicts, paths, k, verdict);
    SelectDecided(paths, k, verdicts, verdict, Removed);
    SelectDecided(paths, k, verdicts, verdict, Spoiled);
  }

  lemma RemovingEnd(
      start: Snapshot, now: Snapshot, scanned: map<string, Verdict>, verdicts: map<string, Verdict>,
      paths: seq<string>, deleted: seq<string>, failed: seq<string>)
    requires Removing(start, now, scanned, verdicts, paths, |paths|, deleted, failed)
    ensures forall p :: p in verdicts <==> p in scanned || p in start.records
    ensures forall p | p in verdicts && p !in scanned :: verdicts[p] in {Removed, Spoiled}
    ensures forall p | p in scanned :: verdicts[p] == scanned[p]
    ensures deleted == Select(paths, verdicts, Removed) && failed == Select(paths, verdicts, Spoiled)
    ensures failed == [] ==> forall p | p in now.records :: p in scanned
  {
    hide Select;
    assert paths[..|paths|] == paths;
    SelectMembers(paths, verdicts, Spoiled);
  }

  lemma RecordsAfter(s: Snapshot, t: Snapshot, path: string, verdict: Verdict)
    requires SameElsewhere(s, t, path) && Holds(s, t, path, verdict) && verdict in {Removed, Spoiled}
    requires path in s.records
    ensures forall p :: p in t.records <==> p in s.records && (p == path ==> verdict == Spoiled)
  {
    hide SamePoints;
    forall p | p != path ensures p in t.records <==> p in s.records {
      assert SameAt(s, t, p);
    }
  }

  lemma SelectNothing(verdicts: map<string, Verdict>)
    ensures forall wanted :: Select([], verdicts, wanted) == []
  {
  }

  lemma NothingIsSorted()
    ensures IsSorted([])
  {
  }

  lemma ReportKept(scan: IndexScan, verdicts: map<string, Verdict>)
    requires verdicts.Keys == Items(ScanPaths(scan))
    requires forall p | p in verdicts :: verdicts[p] == Kept
    ensures Reports(SyncResult([], [], [], Sort(ScanPaths(scan)), true), scan, [], verdicts)
  {
    hide Sort, Select, IsSorted, ScanPaths;
    var order := Sort(ScanPaths(scan));
    SortKeeps(ScanPaths(scan));
    SortKeepsMembers(ScanPaths(scan));
    SelectMembers(order, verdicts, Fresh);
    SelectMembers(order, verdicts, Reused);
    SelectNothing(verdicts);
    NothingIsSorted();
    NoMembers(Select(order, verdicts, Fresh));
    NoMembers(Select(order, verdicts, Reused));
  }

  lemma NoMembers(s: seq<string>)
    ensures s == [] <==> forall p :: p !in s
  {
    assert s != [] ==> s[0] in s;
  }

  lemma ReportAll(scan: IndexScan, recorded: seq<string>, scanned: map<string, Verdict>,
      verdicts: map<string, Verdict>, failed: seq<string>, spoiled: seq<string>, repair: bool)
    requires AreScanned(scan, scanned) && Extends(scanned, verdicts, recorded)
    requires failed == Select(Sort(ScanPaths(scan)), scanned, Kept)
    requires spoiled == Select(recorded, verdicts, Spoiled)
    requires IsSorted(recorded) && (failed + spoiled != [] ==> repair)
    ensures var order := Sort(ScanPaths(scan));
      Reports(SyncResult(Select(order, scanned, Fresh), Select(order, scanned, Reused),
                         Select(recorded, verdicts, Removed), SortedItems(failed + spoiled), repair),
              scan, recorded, verdicts)
    ensures SortedItems(failed + spoiled) == [] <==> failed + spoiled == []
  {
    hide Sort, Select, IsSorted, ScanPaths, SortedItems;
    var order := Sort(ScanPaths(scan));
    SortKeepsMembers(ScanPaths(scan));
    SelectMembers(order, scanned, Kept);
    SelectMembers(recorded, verdicts, Spoiled);
    SortedItemsKeeps(failed + spoiled);
    SelectAgrees(order, scanned, verdicts, Fresh);
    SelectAgrees(order, scanned, verdicts, Reused);
    NoMembers(failed + spoiled);
    NoMembers(SortedItems(failed + spoiled));
  }

  lemma {:induction false} SelectAgrees(
      order: seq<string>, a: map<string, Verdict>, b: map<string, Verdict>, wanted: Verdict)
    requires forall p | p in order :: p in a && p in b && a[p] == b[p]
    ensures Select(order, a, wanted) == Select(order, b, wanted)
  {
    if order != [] {
      SelectAgrees(order[..|order| - 1], a, b, wanted);
    }
  }

  lemma SettledBy(s: Snapshot, t: Snapshot, scan: IndexScan, fingerprint: string,
      scanned: map<string, Verdict>, verdicts: map<string, Verdict>, recorded: seq<string>)
    requires Decided(s, t, scan, fingerprint, verdicts)
    requires AreScanned(scan, scanned) && Extends(scanned, verdicts, recorded)
    requires Select(Sort(ScanPaths(scan)), scanned, Kept) == []
    requires scan.complete ==> AllSeen(t.records, scanned)
    ensures Settled(t, scan, fingerprint)
  {
    hide Complete, Matches, Sort, Select, ScanPaths, SamePoints;
    SortKeepsMembers(ScanPaths(scan));
    SelectMembers(Sort(ScanPaths(scan)), scanned, Kept);
    forall source | source in scan.sources ensures IsCurrent(t, source, fingerprint) {
      ScannedPath(scan, source);
      assert Describes(t, source, fingerprint, verdicts[source.path]);
      assert Holds(s, t, source.path, verdicts[source.path]);
    }
  }

  // ----- What every sync keeps -----

  /** Under any pattern of failures, also when an exception ends the sync: a scanned note whose
      record was complete before has a complete record afterwards, the old one or a new one. */
  lemma ScannedNotesStayComplete(s: Snapshot, t: Snapshot, scan: IndexScan, fingerprint: string,
      verdicts: map<string, Verdict>, path: string)
    requires WellFormed(s.records) && Decided(s, t, scan, fingerprint, verdicts)
    requires KeepScanned(scan, verdicts) && path in ScanPaths(scan)
    requires path in s.records && Complete(s.points, s.records[path])
    ensures path in t.records && Complete(t.points, t.records[path])
  {
    hide Complete;
    if path !in verdicts {
      CompleteSameAt(s, t, path);
    } else {
      assert Holds(s, t, path, verdicts[path]);
    }
  }

  /** Nothing but these four calls lets an exception out of a sync. */
  predicate Escapes(call: Call) {
    call.raised && (call.LookedUp? || call.Validated? || call.Listed? || call.Enqueued?)
  }

  predicate EndsCalmly(calls: seq<Call>) {
    calls == [] || !Escapes(calls[|calls| - 1])
  }

  /** Of a valid scan, a sync raises exactly when the last call it made is a failed reading of a
      record, a failed validation of one that describes its source, a failed listing, or a failed
      queueing of the repair; any other failure is survived. */
  lemma RaisesIff(records: map<string, IndexRecord>, scan: IndexScan, runId: Option<string>,
      fingerprint: string, chunkCount: string -> nat, c: Course, outcome: Outcome, calls: seq<Call>)
    requires ValidScan(scan) && IsCourse(records, scan, fingerprint, chunkCount, c)
    requires IsLog(records, scan, runId, fingerprint, c, outcome, calls)
    ensures calls != []
    ensures outcome.Raised? <==> Escapes(calls[|calls| - 1])
  {
    hide IsTurn, IsRemoval, Sort, ScanPaths, ValidScan, NeedsRepair, Joined;
    if outcome.Returned? {
      TurnsEndCalmly(records, scan, fingerprint, chunkCount, c);
      RemovalsEndCalmly(records, scan, c);
    }
  }

  lemma TurnsEndCalmly(records: map<string, IndexRecord>, scan: IndexScan, fingerprint: string,
      chunkCount: string -> nat, c: Course)
    requires IsCourse(records, scan, fingerprint, chunkCount, c)
    ensures EndsCalmly(Joined(c.turns))
  {
    hide Sort, ScanPaths, IsTurn, IsClearing, EndsCalmly;
    SortKeepsMembers(ScanPaths(scan));
    var order := Sort(ScanPaths(scan));
    forall i | 0 <= i < |c.turns| ensures EndsCalmly(c.turns[i]) {
      assert order[i] in order;
      PathHasSource(scan, order[i]);
      var x :| x in scan.sources && x.path == order[i];
      TurnEndsCalmly(Find(records, x.path), x, fingerprint, chunkCount(x.content), c.turns[i], c.verdicts[x.path]);
    }
    JoinedEndsCalmly(c.turns);
  }

  lemma TurnEndsCalmly(existing: Option<IndexRecord>, source: IndexSource, fingerprint: string, chunks: nat,
      calls: seq<Call>, verdict: Verdict)
    requires IsTurn(existing, source, fingerprint, chunks, calls, verdict)
    ensures EndsCalmly(calls)
  {
    hide IsFailedWriting, Matches, Without;
  }

  lemma RemovalsEndCalmly(records: map<string, IndexRecord>, scan: IndexScan, c: Course)
    requires IsClearing(records, scan, c.verdicts, c.recorded, c.removals)
    ensures EndsCalmly(Joined(c.removals))
  {
    hide ScanPaths;
    JoinedEndsCalmly(c.removals);
  }

  lemma {:induction false} JoinedEndsCalmly(parts: seq<seq<Call>>)
    requires forall i | 0 <= i < |parts| :: EndsCalmly(parts[i])
    ensures EndsCalmly(Joined(parts))
  {
    if parts != [] {
      JoinedEndsCalmly(parts[..|parts| - 1]);
    }
  }

  /** What the stores answered in a turn leaves no choice of its verdict, and a turn that ends in an
      exception is none that ends in a verdict. */
  lemma AnswersDecide(existing: Option<IndexRecord>, source: IndexSource, fingerprint: string, chunks: nat,
      calls: seq<Call>, verdict: Verdict)
    requires IsTurn(existing, source, fingerprint, chunks, calls, verdict)
    ensures forall other :: IsTurn(existing, source, fingerprint, chunks, calls, other) ==> other == verdict
    ensures !IsBreak(existing, source, fingerprint, calls)
  {
    hide Matches, Without, NewIds, RecordFor;
  }

  /** Of a returned result: each scanned path is in exactly one of three lists, and no other path is
      reported as indexed or unchanged. */
  lemma ReportIsPartition(result: SyncResult, scan: IndexScan, recorded: seq<string>,
      verdicts: map<string, Verdict>, path: string)
    requires Reports(result, scan, recorded, verdicts)
    ensures path in ScanPaths(scan) ==>
      && (path in result.indexedPaths <==> path !in result.unchangedPaths && path !in result.failedPaths)
      && (path in result.unchangedPaths <==> path !in result.indexedPaths && path !in result.failedPaths)
      && path !in result.deletedPaths
    ensures path !in ScanPaths(scan) ==>
      && path !in result.indexedPaths && path !in result.unchangedPaths
      && (path in result.deletedPaths ==> path !in result.failedPaths)
  {
    hide Sort, ScanPaths, Select, IsSorted;
    var order := Sort(ScanPaths(scan));
    SortKeepsMembers(ScanPaths(scan));
    SelectMembers(order, verdicts, Fresh);
    SelectMembers(order, verdicts, Reused);
    SelectMembers(recorded, verdicts, Removed);
  }

  /** When a sync returns, a record with a missing point is one that had a point missing before,
      or its path is reported as failed. */
  lemma DamageIsReported(s: Snapshot, t: Snapshot, scan: IndexScan, fingerprint: string,
      verdicts: map<string, Verdict>, recorded: seq<string>, result: SyncResult, path: string)
    requires WellFormed(s.records) && Decided(s, t, scan, fingerprint, verdicts)
    requires Reports(result, scan, recorded, verdicts)
    requires path in t.records && !Complete(t.points, t.records[path])
    ensures path in result.failedPaths
      || (path in s.records && s.records[path] == t.records[path] && !Complete(s.points, s.records[path]))
  {
    hide Complete, Select, Sort, ScanPaths;
    if path !in verdicts {
      assert SameAt(s, t, path);
      CompleteSameAt(s, t, path);
    } else {
      assert Holds(s, t, path, verdicts[path]);
    }
  }

  /** The stores after a swap whose points and record were written and whose stale points the index
      failed to delete. */
  function WithoutCleanup(s: Snapshot, source: IndexSource, fingerprint: string, chunks: nat): Snapshot {
    Snapshot(s.points + At(source.collection, NewIds(source, fingerprint, chunks)),
             s.records[source.path := RecordFor(source, fingerprint, chunks)])
  }

  /** Such a swap makes the path current, and every stored point of the record it replaced an orphan. */
  lemma FailedCleanupLeavesOrphans(
      s: Snapshot, source: IndexSource, fingerprint: string, chunks: nat, pt: Point)
    requires source.path in s.records && WellFormedRecord(source.path, s.records[source.path])
    requires !Matches(s.records[source.path], source, fingerprint)
    requires pt in s.points
    requires pt in At(s.records[source.path].collection, s.records[source.path].pointIds)
    ensures var t := WithoutCleanup(s, source, fingerprint, chunks);
      && Owned(s, pt) && pt in t.points && !Owned(t, pt)
      && IsCurrent(t, source, fingerprint) && SameElsewhere(s, t, source.path)
  {
    hide Matches;
    var r := s.records[source.path];
    PointsOfRecord(source.path, r);
    GenerationsAreDisjoint(source, fingerprint, chunks, r);
    NewIdsAreNew(source, fingerprint, chunks);
  }

  lemma NoOrphansFromNothing(s: Snapshot, t: Snapshot, scan: IndexScan, fingerprint: string)
    requires s == Snapshot({}, map[]) && NoOrphans(s, t) && Settled(t, scan, fingerprint)
    requires WellFormed(t.records) && (forall p | p in t.records :: p in ScanPaths(scan))
    ensures forall pt :: pt in t.points <==> Owned(t, pt)
  {
    hide Matches;
    forall pt ensures pt in t.points <==> Owned(t, pt) {
      var p := pt.id.generation.path;
      assert NoNewOrphans(s, t, p);
      if p in t.records {
        PathHasSource(scan, p);
        var source :| source in scan.sources && source.path == p;
        assert IsCurrent(t, source, fingerprint);
      }
    }
  }

  lemma AllReused(scan: IndexScan, verdicts: map<string, Verdict>, recorded: seq<string>, result: SyncResult)
    requires Reports(result, scan, recorded, verdicts) && result.failedPaths == []
    requires forall p | p in verdicts :: verdicts[p] in {Reused, Kept}
    ensures result.indexedPaths == result.deletedPaths == []
    ensures result.unchangedPaths == Sort(ScanPaths(scan))
  {
    hide Sort, Select, ScanPaths, IsSorted;
    var order := Sort(ScanPaths(scan));
    SortKeepsMembers(ScanPaths(scan));
    SelectMembers(order, verdicts, Fresh);
    SelectMembers(recorded, verdicts, Removed);
    NoMembers(Select(order, verdicts, Fresh));
    NoMembers(Select(recorded, verdicts, Removed));
    NoMembers(result.failedPaths);
    SelectAll(order, verdicts, Reused);
  }

  /** Into empty stores, without failures and with nothing else recorded. */
  lemma AllFresh(t: Snapshot, scan: IndexScan, fingerprint: string, c: Course, result: SyncResult)
    requires Decided(Snapshot({}, map[]), t, scan, fingerprint, c.verdicts)
    requires Reports(result, scan, c.recorded, c.verdicts)
    requires result.failedPaths == [] && !result.repairRequired
    ensures result == SyncResult(Sort(ScanPaths(scan)), [], [], [], false)
  {
    hide Sort, Select, ScanPaths, IsSorted, Complete, SamePoints;
    var order := Sort(ScanPaths(scan));
    SortKeepsMembers(ScanPaths(scan));
    SelectMembers(order, c.verdicts, Reused);
    SelectMembers(c.recorded, c.verdicts, Removed);
    NoMembers(Select(order, c.verdicts, Reused));
    NoMembers(Select(c.recorded, c.verdicts, Removed));
    NoMembers(result.failedPaths);
    forall p | p in c.verdicts ensures c.verdicts[p] == Fresh {
      assert Holds(Snapshot({}, map[]), t, p, c.verdicts[p]);
    }
    SelectAll(order, c.verdicts, Fresh);
  }

  lemma {:induction false} SelectAll(order: seq<string>, verdicts: map<string, Verdict>, wanted: Verdict)
    requires forall p | p in order :: p in verdicts && verdicts[p] == wanted
    ensures Select(order, verdicts, wanted) == order
  {
    if order != [] {
      SelectAll(order[..|order| - 1], verdicts, wanted);
    }
  }
}
