/** The calls that the index service makes on its two stores, in order and with their answers, and
    which sequences of calls stand for one turn of its loops. */
module IndexTrace {
  import opened IndexState
  import opened Wrappers

  datatype Call =
    | Ensured(raised: bool)
    | Recreated(raised: bool)
    | Upserted(collection: string, ids: seq<PointId>, returned: seq<PointId>, raised: bool)
    | Validated(collection: string, ids: seq<PointId>, present: bool, raised: bool)
    | Deleted(collection: string, ids: seq<PointId>, raised: bool)
    | LookedUp(path: string, found: Option<IndexRecord>, raised: bool)
    | Saved(record: IndexRecord, raised: bool)
    | Listed(paths: seq<string>, raised: bool)
    | Forgot(path: string, raised: bool)
    | Enqueued(runId: string, raised: bool)

  /** Written by the stores themselves, whoever calls them. */
  class Journal {
    var calls: seq<Call>

    constructor ()
      ensures calls == []
    {
      calls := [];
    }

    method Add(call: Call)
      modifies this
      ensures calls == old(calls) + [call]
    {
      calls := calls + [call];
    }
  }

  predicate Follows(before: seq<Call>, calls: seq<Call>, after: seq<Call>) {
    after == before + calls
  }

  lemma FollowsBoth(a: seq<Call>, x: seq<Call>, b: seq<Call>, y: seq<Call>, c: seq<Call>)
    requires Follows(a, x, b) && Follows(b, y, c)
    ensures Follows(a, x + y, c)
  {
  }

  lemma FollowsNone(a: seq<Call>)
    ensures Follows(a, [], a)
  {
  }

  lemma FollowsOne(a: seq<Call>, call: Call, b: seq<Call>)
    requires b == a + [call]
    ensures Follows(a, [call], b)
  {
  }

  /** What became of one path: a new generation, an untouched record, a replacement that failed,
      a removed record, or a removal that failed. */
  datatype Verdict = Fresh | Reused | Kept | Removed | Spoiled

  function Find(records: map<string, IndexRecord>, path: string): Option<IndexRecord> {
    if path in records then Some(records[path]) else None
  }

  /** The ids that are not in the other sequence, in order. */
  function Without(ids: seq<PointId>, others: seq<PointId>): (r: seq<PointId>)
    ensures forall id :: id in r <==> id in ids && id !in others
  {
    if ids == [] then []
    else (if ids[0] in others then [] else [ids[0]]) + Without(ids[1..], others)
  }

  function Joined(parts: seq<seq<Call>>): seq<Call> {
    if parts == [] then [] else Joined(parts[..|parts| - 1]) + parts[|parts| - 1]
  }

  lemma JoinedPush(parts: seq<seq<Call>>, part: seq<Call>)
    ensures Joined(parts + [part]) == Joined(parts) + part
  {
    assert (parts + [part])[..|parts|] == parts;
  }


  /** The writing of a generation that was given up, at whichever call. */
  predicate IsFailedWriting(source: IndexSource, fingerprint: string, chunks: nat, calls: seq<Call>) {
    var c, ids := source.collection, NewIds(source, fingerprint, chunks);
    match |calls|
    case 1 =>
      && calls[0].Upserted? && calls[0].collection == c && calls[0].ids == ids
      && (calls[0].raised || calls[0].returned != ids)
    case 2 =>
      && calls[0] == Upserted(c, ids, ids, false)
      && calls[1].Validated? && calls[1].collection == c && calls[1].ids == ids
      && (calls[1].raised || !calls[1].present)
    case 3 =>
      && calls[0] == Upserted(c, ids, ids, false)
      && calls[1] == Validated(c, ids, true, false)
      && calls[2] == Saved(RecordFor(source, fingerprint, chunks), true)
    case _ => false
  }

  predicate IsWriting(source: IndexSource, fingerprint: string, chunks: nat, calls: seq<Call>) {
    var c, ids := source.collection, NewIds(source, fingerprint, chunks);
    calls == [Upserted(c, ids, ids, false), Validated(c, ids, true, false),
              Saved(RecordFor(source, fingerprint, chunks), false)]
  }

  predicate EndsInDelete(calls: seq<Call>, collection: string, ids: seq<PointId>) {
    && calls != []
    && var last := calls[|calls| - 1];
    last.Deleted? && last.collection == collection && last.ids == ids
  }

  predicate IsFailedSwap(source: IndexSource, fingerprint: string, chunks: nat, calls: seq<Call>) {
    && EndsInDelete(calls, source.collection, NewIds(source, fingerprint, chunks))
    && IsFailedWriting(source, fingerprint, chunks, calls[..|calls| - 1])
  }

  predicate IsSwap(
    existing: Option<IndexRecord>, source: IndexSource, fingerprint: string, chunks: nat, calls: seq<Call>)
  {
    match existing
    case None => IsWriting(source, fingerprint, chunks, calls)
    case Some(r) =>
      && EndsInDelete(calls, r.collection, Without(r.pointIds, NewIds(source, fingerprint, chunks)))
      && IsWriting(source, fingerprint, chunks, calls[..|calls| - 1])
  }

  predicate IsKnown(existing: Option<IndexRecord>, source: IndexSource, fingerprint: string) {
    existing.Some? && Matches(existing.value, source, fingerprint)
  }

  predicate IsValidation(call: Call, r: IndexRecord, present: bool) {
    call == Validated(r.collection, r.pointIds, present, false)
  }

  /** The calls made for one scanned source whose turn came to a verdict. */
  predicate IsTurn(existing: Option<IndexRecord>, source: IndexSource, fingerprint: string, chunks: nat,
    calls: seq<Call>, verdict: Verdict)
  {
    var known := IsKnown(existing, source, fingerprint);
    && |calls| >= 2
    && calls[0] == LookedUp(source.path, existing, false)
    && (known ==> IsValidation(calls[1], existing.value, verdict == Reused))
    && var swap := calls[if known then 2 else 1..];
    match verdict
    case Reused => known && swap == []
    case Fresh => IsSwap(existing, source, fingerprint, chunks, swap)
    case Kept => IsFailedSwap(source, fingerprint, chunks, swap)
    case _ => false
  }

  /** The calls of a turn that ended in an exception: the record could not be read, or the points
      of a record that describes the source could not be looked for. */
  predicate IsBreak(existing: Option<IndexRecord>, source: IndexSource, fingerprint: string, calls: seq<Call>) {
    || calls == [LookedUp(source.path, existing, true)]
    || (&& IsKnown(existing, source, fingerprint)
        && |calls| == 2 && calls[0] == LookedUp(source.path, existing, false)
        && calls[1].Validated? && calls[1].raised
        && calls[1].collection == existing.value.collection && calls[1].ids == existing.value.pointIds)
  }

  predicate IsRemoval(r: IndexRecord, calls: seq<Call>, verdict: Verdict) {
    match verdict
    case Removed => calls == [Deleted(r.collection, r.pointIds, false), Forgot(r.path, false)]
    case Spoiled =>
      || calls == [Deleted(r.collection, r.pointIds, true)]
      || calls == [Deleted(r.collection, r.pointIds, false), Forgot(r.path, true)]
    case _ => false
  }

  predicate LastRaised(calls: seq<Call>) {
    calls != [] && calls[|calls| - 1].raised
  }

  predicate NoFailedDelete(calls: seq<Call>) {
    forall call | call in calls :: call.Deleted? ==> !call.raised
  }

  lemma NoFailedDeleteOfSum(a: seq<Call>, b: seq<Call>)
    ensures NoFailedDelete(a + b) <==> NoFailedDelete(a) && NoFailedDelete(b)
  {
    if NoFailedDelete(a + b) {
      assert forall call | call in a :: call in a + b;
      assert forall call | call in b :: call in a + b;
    }
  }
}
