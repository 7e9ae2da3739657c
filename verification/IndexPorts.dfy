/** The stores behind the index service. Every call may fail; upserts and deletes may fail after
    part of their effect, record writes are atomic. A `reliable` store never fails. Both stores enter
    each call in one journal. */
module IndexPorts {
  import opened IndexState
  import opened IndexTrace
  import opened Ordering
  import opened Wrappers

  class VectorIndex {
    var points: set<Point>
    const reliable: bool
    const journal: Journal

    constructor (reliable: bool, journal: Journal)
      ensures points == {} && this.reliable == reliable && this.journal == journal
    {
      points := {};
      this.reliable, this.journal := reliable, journal;
    }

    method EnsureCollections() returns (raised: bool)
      modifies journal
      ensures journal.calls == old(journal.calls) + [Ensured(raised)]
      ensures reliable ==> !raised
    {
      raised := *;
      raised := raised && !reliable;
      journal.Add(Ensured(raised));
    }

    /** Nothing is promised about what was stored beyond the requested points, even on return. */
    method Upsert(collection: string, ids: seq<PointId>) returns (raised: bool, returned: seq<PointId>)
      modifies this, journal
      ensures journal.calls == old(journal.calls) + [Upserted(collection, ids, returned, raised)]
      ensures old(points) <= points <= old(points) + At(collection, ids)
      ensures reliable ==> !raised && returned == ids && points == old(points) + At(collection, ids)
    {
      if reliable {
        points := points + At(collection, ids);
        raised, returned := false, ids;
        journal.Add(Upserted(collection, ids, returned, raised));
        return;
      }
      var part: set<Point> := *;
      points := points + part * At(collection, ids);
      raised := *;
      returned := *;
      journal.Add(Upserted(collection, ids, returned, raised));
    }

    method Delete(collection: string, ids: seq<PointId>) returns (raised: bool)
      modifies this, journal
      ensures journal.calls == old(journal.calls) + [Deleted(collection, ids, raised)]
      ensures old(points) - At(collection, ids) <= points <= old(points)
      ensures !raised ==> points == old(points) - At(collection, ids)
      ensures reliable ==> !raised
    {
      raised := *;
      raised := raised && !reliable;
      var part: set<Point> := *;
      points := points - (if raised then part * At(collection, ids) else At(collection, ids));
      journal.Add(Deleted(collection, ids, raised));
    }

    method Validate(collection: string, ids: seq<PointId>) returns (raised: bool, present: bool)
      modifies journal
      ensures journal.calls == old(journal.calls) + [Validated(collection, ids, present, raised)]
      ensures !raised ==> (present <==> At(collection, ids) <= points)
      ensures reliable ==> !raised
    {
      raised := *;
      raised := raised && !reliable;
      present := At(collection, ids) <= points;
      journal.Add(Validated(collection, ids, present, raised));
    }

    method RecreateCollections() returns (raised: bool)
      modifies this, journal
      ensures journal.calls == old(journal.calls) + [Recreated(raised)]
      ensures points <= old(points)
      ensures !raised ==> points == {}
      ensures reliable ==> !raised
    {
      raised := *;
      raised := raised && !reliable;
      var part: set<Point> := *;
      points := if raised then points * part else {};
      journal.Add(Recreated(raised));
    }
  }

  class RecordStore {
    var records: map<string, IndexRecord>
    /** The runs for which a vector-index repair is pending. */
    var repairs: set<string>
    const reliable: bool
    const journal: Journal

    /** The path column is the key of the table. */
    ghost predicate Valid()
      reads this
    {
      forall p | p in records :: records[p].path == p
    }

    constructor (reliable: bool, journal: Journal)
      ensures Valid() && records == map[] && repairs == {}
      ensures this.reliable == reliable && this.journal == journal
    {
      records := map[];
      repairs := {};
      this.reliable, this.journal := reliable, journal;
    }

    method GetIndexRecord(path: string) returns (raised: bool, found: Option<IndexRecord>)
      modifies journal
      ensures journal.calls == old(journal.calls) + [LookedUp(path, found, raised)]
      ensures found == Find(records, path)
      ensures reliable ==> !raised
    {
      raised := *;
      raised := raised && !reliable;
      found := Find(records, path);
      journal.Add(LookedUp(path, found, raised));
    }

    /** All records by ascending path. */
    method ListIndexRecords() returns (raised: bool, paths: seq<string>)
      modifies journal
      ensures journal.calls == old(journal.calls) + [Listed(paths, raised)]
      ensures forall p :: p in paths <==> p in records
      ensures IsSorted(paths) && forall i, j | 0 <= i < j < |paths| :: paths[i] != paths[j]
      ensures reliable ==> !raised
    {
      raised := *;
      raised := raised && !reliable;
      var rest := records.Keys;
      var listed: seq<string> := [];
      while rest != {}
        invariant rest <= records.Keys
        invariant forall p :: p in listed <==> p in records.Keys - rest
        invariant forall i, j | 0 <= i < j < |listed| :: listed[i] != listed[j]
        decreases rest
      {
        var p :| p in rest;
        assert p !in listed;
        rest := rest - {p};
        listed := listed + [p];
      }
      SortKeeps(listed);
      SortKeepsDistinct(listed);
      SortKeepsMembers(listed);
      paths := Sort(listed);
      journal.Add(Listed(paths, raised));
    }

    method SaveIndexRecord(record: IndexRecord) returns (raised: bool)
      requires Valid()
      modifies this, journal
      ensures journal.calls == old(journal.calls) + [Saved(record, raised)]
      ensures Valid() && repairs == old(repairs)
      ensures records == if raised then old(records) else old(records)[record.path := record]
      ensures reliable ==> !raised
    {
      raised := *;
      raised := raised && !reliable;
      if !raised {
        records := records[record.path := record];
      }
      journal.Add(Saved(record, raised));
    }

    method DeleteIndexRecord(path: string) returns (raised: bool)
      requires Valid()
      modifies this, journal
      ensures journal.calls == old(journal.calls) + [Forgot(path, raised)]
      ensures Valid() && repairs == old(repairs)
      ensures records == if raised then old(records) else old(records) - {path}
      ensures reliable ==> !raised
    {
      raised := *;
      raised := raised && !reliable;
      if !raised {
        records := records - {path};
      }
      journal.Add(Forgot(path, raised));
    }

    method EnqueueRepair(runId: string) returns (raised: bool)
      requires Valid()
      modifies this, journal
      ensures journal.calls == old(journal.calls) + [Enqueued(runId, raised)]
      ensures Valid() && records == old(records)
      ensures repairs == if raised then old(repairs) else old(repairs) + {runId}
      ensures reliable ==> !raised
    {
      raised := *;
      raised := raised && !reliable;
      if !raised {
        repairs := repairs + {runId};
      }
      journal.Add(Enqueued(runId, raised));
    }
  }

  lemma SortKeepsDistinct(s: seq<string>)
    requires forall i, j | 0 <= i < j < |s| :: s[i] != s[j]
    ensures var r := Sort(s); forall i, j | 0 <= i < j < |r| :: r[i] != r[j]
  {
    SortKeeps(s);
    var r := Sort(s);
    forall i, j | 0 <= i < j < |r| ensures r[i] != r[j] {
      if r[i] == r[j] {
        TwiceInMultiset(r, i, j);
        OnceInMultiset(s, r[i]);
      }
    }
  }

  lemma TwiceInMultiset(r: seq<string>, i: nat, j: nat)
    requires i < j < |r| && r[i] == r[j]
    ensures multiset(r)[r[i]] >= 2
  {
    var a, b := r[..j], r[j..];
    assert r == a + b && a[i] == r[i] && b[0] == r[i];
    assert r[i] in multiset(a) && r[i] in multiset(b);
    assert multiset(r) == multiset(a) + multiset(b);
  }

  lemma {:induction false} OnceInMultiset(s: seq<string>, x: string)
    requires forall i, j | 0 <= i < j < |s| :: s[i] != s[j]
    ensures multiset(s)[x] <= 1
  {
    if s != [] {
      OnceInMultiset(s[1..], x);
      assert s == [s[0]] + s[1..];
      if x == s[0] {
        assert x !in s[1..];
        assert multiset(s[1..])[x] == 0;
      }
    }
  }
}
