/** The two stores that the index service keeps in step: points in the vector index, and one
    record per indexed note in the run store. */
module IndexState {
  import opened Ordering

  /** The digest of these three values; sha256 is taken to be injective. */
  datatype Generation = Generation(path: string, contentHash: string, fingerprint: string)

  /** The uuid5 of the key text; the key text determines the four parts (PointIds). */
  datatype PointId = PointId(
    collection: string, documentId: string, generation: Generation, ordinal: nat)

  datatype Point = Point(collection: string, id: PointId)

  datatype IndexStatus = Pending | Indexed | Failed

  datatype IndexRecord = IndexRecord(
    path: string, noteId: string, contentHash: string, fingerprint: string,
    collection: string, pointIds: seq<PointId>, status: IndexStatus)

  datatype IndexSource = IndexSource(
    path: string, documentId: string, noteId: string, collection: string,
    content: string, contentHash: string)

  datatype Snapshot = Snapshot(points: set<Point>, records: map<string, IndexRecord>)

  function At(collection: string, ids: seq<PointId>): set<Point> {
    set id | id in ids :: Point(collection, id)
  }

  predicate Complete(points: set<Point>, r: IndexRecord) {
    At(r.collection, r.pointIds) <= points
  }

  /** A record as the service writes it: indexed, and naming only points of its own generation. */
  ghost predicate WellFormedRecord(path: string, r: IndexRecord) {
    && r.path == path
    && r.status == Indexed
    && forall id | id in r.pointIds ::
      id.collection == r.collection && id.generation == Generation(path, r.contentHash, r.fingerprint)
  }

  ghost predicate WellFormed(records: map<string, IndexRecord>) {
    forall p | p in records :: WellFormedRecord(p, records[p])
  }

  /** The record describes this content under this fingerprint in this collection. */
  predicate Matches(r: IndexRecord, source: IndexSource, fingerprint: string) {
    && r.status == Indexed
    && r.contentHash == source.contentHash
    && r.fingerprint == fingerprint
    && r.collection == source.collection
  }

  function NewIds(source: IndexSource, fingerprint: string, chunks: nat): seq<PointId> {
    seq(chunks, k requires 0 <= k < chunks =>
      PointId(source.collection, source.documentId,
              Generation(source.path, source.contentHash, fingerprint), k))
  }

  function RecordFor(source: IndexSource, fingerprint: string, chunks: nat): IndexRecord {
    IndexRecord(source.path, source.noteId, source.contentHash, fingerprint, source.collection,
                NewIds(source, fingerprint, chunks), Indexed)
  }

  /** A new generation has one point for each chunk, numbered from zero. */
  lemma {:induction false} OnePointPerChunk(source: IndexSource, fingerprint: string, chunks: nat)
    ensures |At(source.collection, NewIds(source, fingerprint, chunks))| == chunks
    ensures forall pt | pt in At(source.collection, NewIds(source, fingerprint, chunks)) :: pt.id.ordinal < chunks
  {
    if chunks > 0 {
      OnePointPerChunk(source, fingerprint, chunks - 1);
      var ids, fewer := NewIds(source, fingerprint, chunks), NewIds(source, fingerprint, chunks - 1);
      assert ids == fewer + [ids[chunks - 1]];
      var last := Point(source.collection, ids[chunks - 1]);
      assert last !in At(source.collection, fewer);
      assert At(source.collection, ids) == At(source.collection, fewer) + {last};
    }
  }

  // ----- Change at one path only -----

  ghost predicate SamePoints(s: set<Point>, t: set<Point>, path: string) {
    forall pt: Point | pt.id.generation.path == path :: pt in s <==> pt in t
  }

  ghost predicate SameAt(s: Snapshot, t: Snapshot, path: string) {
    && (path in s.records <==> path in t.records)
    && (path in s.records ==> s.records[path] == t.records[path])
    && SamePoints(s.points, t.points, path)
  }

  ghost predicate SameElsewhere(s: Snapshot, t: Snapshot, path: string) {
    forall p | p != path :: SameAt(s, t, p)
  }

  lemma PointsOfRecord(path: string, r: IndexRecord)
    requires WellFormedRecord(path, r)
    ensures forall pt | pt in At(r.collection, r.pointIds) ::
      && pt.collection == r.collection == pt.id.collection
      && pt.id.generation == Generation(path, r.contentHash, r.fingerprint)
  {
  }

  /** A record whose points all lie at its own path is complete in both or in neither. */
  lemma CompleteSameAt(s: Snapshot, t: Snapshot, path: string)
    requires SameAt(s, t, path) && path in s.records && WellFormedRecord(path, s.records[path])
    ensures Complete(s.points, s.records[path]) <==> Complete(t.points, t.records[path])
  {
    PointsOfRecord(path, s.records[path]);
  }

  /** Points of one path lie outside every point set of another. */
  lemma TouchesOnePath(s: set<Point>, t: set<Point>, changed: set<Point>, path: string)
    requires forall pt | pt in changed :: pt.id.generation.path == path
    requires s - changed <= t <= s + changed
    ensures forall p | p != path :: SamePoints(s, t, p)
  {
  }

  lemma NewIdsAreNew(source: IndexSource, fingerprint: string, chunks: nat)
    ensures forall id | id in NewIds(source, fingerprint, chunks) ::
      id.collection == source.collection
      && id.generation == Generation(source.path, source.contentHash, fingerprint)
    ensures WellFormedRecord(source.path, RecordFor(source, fingerprint, chunks))
    ensures Matches(RecordFor(source, fingerprint, chunks), source, fingerprint)
  {
  }

  /** The ids written for a new generation are none of those of the record it replaces, unless
      the record already describes the very same content. */
  lemma GenerationsAreDisjoint(source: IndexSource, fingerprint: string, chunks: nat, r: IndexRecord)
    requires WellFormedRecord(source.path, r) && !Matches(r, source, fingerprint)
    ensures At(source.collection, NewIds(source, fingerprint, chunks)) !! At(r.collection, r.pointIds)
  {
    NewIdsAreNew(source, fingerprint, chunks);
    PointsOfRecord(source.path, r);
  }

  // ----- Orphans -----

  ghost predicate Owned(s: Snapshot, pt: Point) {
    var p := pt.id.generation.path;
    p in s.records && pt in At(s.records[p].collection, s.records[p].pointIds)
  }

  /** No point of this path is left without an owner that had one, and none appears. */
  ghost predicate NoNewOrphans(s: Snapshot, t: Snapshot, path: string) {
    forall pt: Point | pt.id.generation.path == path && pt in t.points && !Owned(t, pt) ::
      pt in s.points && !Owned(s, pt)
  }

  lemma OwnedMeansSomeRecord(s: Snapshot, pt: Point)
    requires WellFormed(s.records)
    ensures Owned(s, pt) <==>
      exists p | p in s.records :: pt in At(s.records[p].collection, s.records[p].pointIds)
  {
    forall p | p in s.records && pt in At(s.records[p].collection, s.records[p].pointIds)
      ensures p == pt.id.generation.path
    {
      PointsOfRecord(p, s.records[p]);
    }
  }
}
