/** Persisting a run's drafts into the vault: files are only ever added, and no note id ends up at
    two scanned paths, however often and wherever a persist is cut short. */
module VaultWriter {
  import opened Contracts
  import opened Curation
  import opened Decimal
  import opened Ordering
  import opened Text
  import opened VaultNotes
  import opened Wrappers

  type Files = map<string, string>

  type Hash = DraftNote -> string

  const STAGING_ROOT := "01-inbox/agent-runs"

  // ----- Paths -----

  function RunRoot(runId: string): string {
    STAGING_ROOT + "/" + runId
  }

  function DraftPath(runId: string, noteId: string): string {
    (RunRoot(runId) + "/drafts/") + (noteId + ".md")
  }

  function SummaryPath(runId: string): string {
    RunRoot(runId) + "/review-summary.md"
  }

  function ManifestPath(runId: string): string {
    RunRoot(runId) + "/manifest.json"
  }

  predicate IsMarkdown(path: string) {
    |path| > 3 && path[|path| - 3] == '.'
    && path[|path| - 2] in {'m', 'M'} && path[|path| - 1] in {'d', 'D'} && path[|path| - 4] != '/'
  }

  predicate IsUnder(root: string, path: string) {
    |root| < |path| && path[..|root|] == root && path[|root|] == '/'
  }

  /** The scanner reads the markdown files under the allowed roots and under the staging root. */
  predicate IsScanned(roots: seq<string>, path: string) {
    IsMarkdown(path) && (IsUnder(STAGING_ROOT, path) || exists root | root in roots :: IsUnder(root, path))
  }

  /** A scanned file declares this note id. */
  predicate NoteAt(files: Files, roots: seq<string>, path: string, id: string) {
    path in files && IsScanned(roots, path) && ReadEntry(files[path]).noteId == Some(id)
  }

  ghost predicate UniqueNotes(files: Files, roots: seq<string>) {
    forall p, q, id | NoteAt(files, roots, p, id) && NoteAt(files, roots, q, id) :: p == q
  }

  // ----- What one persist writes -----

  datatype Job = Job(
    package: DraftPackage, review: ReviewPackage, manifestRunId: string, manifest: string)

  datatype WriteError =
    RunIdMismatch | UnsafeRunId | UnsafeNoteId | ReviewedHashMismatch | NoteCollision
    | DraftHashMismatch | ContentConflict

  /** The rules the contracts enforce on the drafts. */
  predicate IsValid(job: Job) {
    && UniqueDrafts(job.package.drafts)
    && forall d | d in job.package.drafts :: AllPlain(d.hash) && forall c | c in d.claims :: AllPlain(c)
  }

  predicate Collides(files: Files, roots: seq<string>, id: string, target: string) {
    exists p | p in files :: p != target && NoteAt(files, roots, p, id)
  }

  /** The text of one draft's note, or None where the draft is skipped. */
  function PlanOne(files: Files, roots: seq<string>, hash: Hash, job: Job, draft: DraftNote)
    : Result<Option<string>, WriteError>
  {
    var id, runId := draft.noteId, job.package.runId;
    if !IsSafeSegment(id) then Failure(UnsafeNoteId)
    else if id !in ReviewIds(job.review.reviews) then Success(None)
    else
      var review := LastReview(job.review.reviews, id);
      if review.reviewedHash != draft.hash then Failure(ReviewedHashMismatch)
      else if review.status.Rejected? || draft.action.Discard? then Success(None)
      else if Collides(files, roots, id, DraftPath(runId, id)) then Failure(NoteCollision)
      else if hash(draft) != draft.hash then Failure(DraftHashMismatch)
      else Success(Some(Render(runId, draft, review.status, review.eligible)))
  }

  datatype Plan = Plan(documents: Files, kept: seq<string>, skipped: seq<string>)

  function AddToPlan(plan: Plan, runId: string, id: string, text: Option<string>): Plan {
    if text.None? then plan.(skipped := plan.skipped + [id])
    else Plan(plan.documents[DraftPath(runId, id) := text.value], plan.kept + [id], plan.skipped)
  }

  /** The drafts of these ids, in this order, up to the first error. */
  function PlanAll(files: Files, roots: seq<string>, hash: Hash, job: Job, ids: seq<string>)
    : Result<Plan, WriteError>
    requires forall id | id in ids :: FindDraft(job.package.drafts, id).Some?
  {
    if ids == [] then Success(Plan(map[], [], []))
    else
      var before, id := PlanAll(files, roots, hash, job, ids[..|ids| - 1]), ids[|ids| - 1];
      if before.Failure? then before
      else
        var text := PlanOne(files, roots, hash, job, FindDraft(job.package.drafts, id).value);
        if text.Failure? then Failure(text.error)
        else Success(AddToPlan(before.value, job.package.runId, id, text.value))
  }

  function SummaryRows(job: Job, kept: seq<string>): seq<string>
    requires forall id | id in kept :: id in ReviewIds(job.review.reviews)
  {
    ["| Note ID | Status | Promotion eligible |", "|---|---|---|"]
    + seq(|kept|, i requires 0 <= i < |kept| =>
        var review := LastReview(job.review.reviews, kept[i]);
        "| `" + kept[i] + "` | `" + StatusText(review.status) + "` | `"
        + (if review.eligible then "yes" else "no") + "` |")
  }

  function RecommendationText(r: Recommendation): string {
    match r
    case RecommendReady => "ready"
    case RecommendPartial => "partially_ready"
    case RecommendEnrichment => "enrichment_required"
    case RecommendRejection => "rejected"
  }

  function Ticked(ids: seq<string>): seq<string> {
    seq(|ids|, i requires 0 <= i < |ids| => "`" + ids[i] + "`")
  }

  function SummaryText(job: Job, kept: seq<string>, skipped: seq<string>): string
    requires forall id | id in kept :: id in ReviewIds(job.review.reviews)
  {
    "# Review summary" + "\n"
    + ("\n- Run ID: `" + job.package.runId + "`\n"
       + "- Recommendation: `" + RecommendationText(job.review.recommendation) + "`\n"
       + "- Persisted drafts: `" + Show(|kept|) + "`\n"
       + "- Skipped note IDs: " + (if skipped == [] then "none" else Join(Ticked(skipped), ", ")) + "\n\n"
       + "## Persisted drafts\n\n"
       + Join(SummaryRows(job, kept), "\n") + "\n")
  }

  /** The row of a kept note, with the state of its review. */
  ghost predicate IsSummaryRow(reviews: seq<NoteReview>, id: string, row: string)
    requires id in ReviewIds(reviews)
  {
    var r := LastReview(reviews, id);
    row == "| `" + id + "` | `" + StatusText(r.status) + "` | `" + (if r.eligible then "yes" else "no") + "` |"
  }

  ghost predicate IsSummary(job: Job, kept: seq<string>, list: string, table: string, text: string) {
    text
    == "# Review summary" + "\n"
       + ("\n- Run ID: `" + job.package.runId + "`\n"
          + "- Recommendation: `" + RecommendationText(job.review.recommendation) + "`\n"
          + "- Persisted drafts: `" + Show(|kept|) + "`\n"
          + "- Skipped note IDs: " + list + "\n\n"
          + "## Persisted drafts\n\n"
          + table + "\n")
  }

  lemma SummaryHolds(job: Job, kept: seq<string>, skipped: seq<string>)
    requires forall id | id in kept :: id in ReviewIds(job.review.reviews)
    ensures IsSummary(job, kept, if skipped == [] then "none" else Join(Ticked(skipped), ", "),
                      Join(SummaryRows(job, kept), "\n"), SummaryText(job, kept, skipped))
  {
    hide Show, Join, RecommendationText, SummaryRows, Ticked, ReviewIds;
  }

  /** The summary names the run and its recommendation, counts the kept notes, lists the skipped ones
      and has a row for each kept one, in order. */
  lemma SummaryIsLaidOut(job: Job, kept: seq<string>, skipped: seq<string>)
    requires forall id | id in kept :: id in ReviewIds(job.review.reviews)
    ensures exists list, table |
              IsSkippedList(skipped, list) && IsKeptTable(job.review.reviews, kept, table) ::
              IsSummary(job, kept, list, table, SummaryText(job, kept, skipped))
  {
    hide Join, IsSummary, IsSkippedList, IsKeptTable, SummaryText, SummaryRows, Ticked;
    SkippedAreListed(skipped);
    KeptAreTabled(job, kept);
    SummaryHolds(job, kept, skipped);
  }

  ghost predicate IsSkippedList(skipped: seq<string>, list: string) {
    if skipped == [] then list == "none"
    else
      exists names: seq<string> | |names| == |skipped| && IsLaidOut(list, names, ", ") ::
        forall i | 0 <= i < |names| :: names[i] == "`" + skipped[i] + "`"
  }

  ghost predicate IsKeptTable(reviews: seq<NoteReview>, kept: seq<string>, table: string)
    requires forall id | id in kept :: id in ReviewIds(reviews)
  {
    exists rows: seq<string> | |rows| == 2 + |kept| && IsLaidOut(table, rows, "\n") ::
      && rows[0] == "| Note ID | Status | Promotion eligible |" && rows[1] == "|---|---|---|"
      && forall i | 0 <= i < |kept| :: IsSummaryRow(reviews, kept[i], rows[i + 2])
  }

  lemma SkippedAreListed(skipped: seq<string>)
    ensures IsSkippedList(skipped, if skipped == [] then "none" else Join(Ticked(skipped), ", "))
  {
    hide Join, IsLaidOut;
    JoinIsLaidOut(Ticked(skipped), ", ");
  }

  lemma KeptAreTabled(job: Job, kept: seq<string>)
    requires forall id | id in kept :: id in ReviewIds(job.review.reviews)
    ensures IsKeptTable(job.review.reviews, kept, Join(SummaryRows(job, kept), "\n"))
  {
    hide Join, IsLaidOut, LastReview, StatusText;
    var rows := SummaryRows(job, kept);
    JoinIsLaidOut(rows, "\n");
    forall i | 0 <= i < |kept| ensures IsSummaryRow(job.review.reviews, kept[i], rows[i + 2]) {
      assert kept[i] in kept;
    }
  }

  function SortedDraftIds(job: Job): (ids: seq<string>)
    ensures forall id | id in ids :: FindDraft(job.package.drafts, id).Some?
  {
    var ids := Sort(DraftIds(job.package.drafts));
    assert forall id | id in ids :: FindDraft(job.package.drafts, id).Some? by {
      SortKeepsMembers(DraftIds(job.package.drafts));
      forall id | id in ids ensures FindDraft(job.package.drafts, id).Some? {
        FindDraftFinds(job.package.drafts, id);
      }
    }
    ids
  }

  /** Only reviewed notes are kept. */
  lemma {:induction false} KeptAreReviewed(
    files: Files, roots: seq<string>, hash: Hash, job: Job, ids: seq<string>)
    requires forall id | id in ids :: FindDraft(job.package.drafts, id).Some?
    ensures var plan := PlanAll(files, roots, hash, job, ids);
      plan.Success? ==> forall id | id in plan.value.kept :: id in ReviewIds(job.review.reviews)
  {
    hide Collides, Render;
    if ids != [] {
      var id := ids[|ids| - 1];
      KeptAreReviewed(files, roots, hash, job, ids[..|ids| - 1]);
      FindDraftFinds(job.package.drafts, id);
    }
  }

  function WithSummary(job: Job, plan: Plan): Files
    requires forall id | id in plan.kept :: id in ReviewIds(job.review.reviews)
  {
    var runId := job.package.runId;
    plan.documents[SummaryPath(runId) := SummaryText(job, plan.kept, plan.skipped)]
                  [ManifestPath(runId) := job.manifest]
  }

  /** The files a persist wants in the vault, or why it refuses. */
  function Documents(files: Files, roots: seq<string>, hash: Hash, job: Job): Result<Files, WriteError> {
    if job.review.runId != job.package.runId || job.manifestRunId != job.package.runId then
      Failure(RunIdMismatch)
    else if !IsSafeSegment(job.package.runId) then Failure(UnsafeRunId)
    else
      var ids := SortedDraftIds(job);
      var plan := PlanAll(files, roots, hash, job, ids);
      if plan.Failure? then Failure(plan.error)
      else
        KeptAreReviewed(files, roots, hash, job, ids);
        Success(WithSummary(job, plan.value))
  }

  predicate Conflicts(files: Files, documents: Files) {
    exists p | p in documents :: p in files && files[p] != documents[p]
  }

  /** The vault after some of the documents were added. */
  predicate Extended(before: Files, after: Files, documents: Files) {
    && (forall p | p in before :: p in after && after[p] == before[p])
    && (forall p | p in after && p !in before :: p in documents && after[p] == documents[p])
  }

  // ----- Paths of documents -----

  lemma DraftPathIsScanned(roots: seq<string>, runId: string, id: string)
    requires IsSafeSegment(id)
    ensures IsScanned(roots, DraftPath(runId, id))
  {
    var p := DraftPath(runId, id);
    assert p == STAGING_ROOT + ("/" + runId + "/drafts/" + id + ".md");
    assert p[|p| - 4] == id[|id| - 1];
  }

  lemma DraftPathIsInjective(runId: string, a: string, b: string)
    requires DraftPath(runId, a) == DraftPath(runId, b)
    ensures a == b
  {
    var n := |RunRoot(runId) + "/drafts/"|;
    assert DraftPath(runId, a)[n..] == a + ".md" && DraftPath(runId, b)[n..] == b + ".md";
    assert (a + ".md")[..|a|] == a && (b + ".md")[..|b|] == b;
  }

  lemma PathsDiffer(runId: string, id: string)
    ensures DraftPath(runId, id) != SummaryPath(runId) && DraftPath(runId, id) != ManifestPath(runId)
    ensures SummaryPath(runId) != ManifestPath(runId)
    ensures !IsMarkdown(ManifestPath(runId))
  {
    var n := |RunRoot(runId)|;
    assert DraftPath(runId, id)[n + 1] == 'd';
    assert SummaryPath(runId)[n + 1] == 'r' && ManifestPath(runId)[n + 1] == 'm';
    assert ManifestPath(runId)[|ManifestPath(runId)| - 1] == 'n';
  }

  /** The review summary declares no note id. */
  lemma SummaryHasNoNoteId(job: Job, kept: seq<string>, skipped: seq<string>)
    requires forall id | id in kept :: id in ReviewIds(job.review.reviews)
    ensures ReadEntry(SummaryText(job, kept, skipped)).noteId.None?
  {
    hide SplitLines, Translate, Collect, HeaderEnd, TitleOf, Join, SummaryRows, Ticked, Show;
    var text := SummaryText(job, kept, skipped);
    var title := "# Review summary";
    var rest := text[|title| + 1..];
    assert text == title + "\n" + rest;
    SummaryTitle();
    TranslatePrefix(title + "\n", rest);
    SplitFirstLine(title, Translate(rest));
  }

  lemma SummaryTitle()
    ensures var title := "# Review summary";
      NoReturn(title + "\n") && OneLine(title) && !IsRule(title)
  {
    var title := "# Review summary";
    StripOfTight(title);
    assert title[0] == '#';
  }

  // ----- What the documents declare -----

  /** A planned note declares its own id, at its own path, which no other scanned file declares. */
  predicate PlannedNote(files: Files, roots: seq<string>, runId: string, p: string, text: string, id: string) {
    && p == DraftPath(runId, id) && ReadEntry(text).noteId == Some(id)
    && !Collides(files, roots, id, p)
  }

  ghost predicate IsPlanned(files: Files, roots: seq<string>, runId: string, p: string, text: string) {
    exists id :: PlannedNote(files, roots, runId, p, text, id)
  }

  lemma PlanOneIsPlanned(files: Files, roots: seq<string>, hash: Hash, job: Job, draft: DraftNote)
    requires IsValid(job) && draft in job.package.drafts && IsSafeSegment(job.package.runId)
    requires PlanOne(files, roots, hash, job, draft).Success?
    requires PlanOne(files, roots, hash, job, draft).value.Some?
    ensures PlannedNote(files, roots, job.package.runId, DraftPath(job.package.runId, draft.noteId),
                        PlanOne(files, roots, hash, job, draft).value.value, draft.noteId)
  {
    hide Collides, Render, ReadEntry, LastReview, DraftPath;
    var review := LastReview(job.review.reviews, draft.noteId);
    RenderThenRead(job.package.runId, draft, review.status, review.eligible);
  }

  lemma {:induction false} PlanAllIsPlanned(
    files: Files, roots: seq<string>, hash: Hash, job: Job, ids: seq<string>)
    requires IsValid(job) && IsSafeSegment(job.package.runId)
    requires forall id | id in ids :: FindDraft(job.package.drafts, id).Some?
    ensures var plan := PlanAll(files, roots, hash, job, ids);
      plan.Success? ==> forall p | p in plan.value.documents ::
        IsPlanned(files, roots, job.package.runId, p, plan.value.documents[p])
  {
    hide PlanOne, PlannedNote, DraftPath, IsValid;
    var plan := PlanAll(files, roots, hash, job, ids);
    if ids != [] && plan.Success? {
      var id := ids[|ids| - 1];
      PlanAllIsPlanned(files, roots, hash, job, ids[..|ids| - 1]);
      FindDraftFinds(job.package.drafts, id);
      var draft := FindDraft(job.package.drafts, id).value;
      var text := PlanOne(files, roots, hash, job, draft).value;
      if text.Some? {
        PlanOneIsPlanned(files, roots, hash, job, draft);
      }
    }
  }

  /** A draft is written if it was reviewed, not rejected, and is not to be discarded. */
  predicate IsPreserved(job: Job, draft: DraftNote) {
    && draft.noteId in ReviewIds(job.review.reviews)
    && !LastReview(job.review.reviews, draft.noteId).status.Rejected?
    && !draft.action.Discard?
  }

  /** A plan without errors keeps exactly the preserved drafts and skips all others. */
  lemma {:induction false} PlanSortsDrafts(
    files: Files, roots: seq<string>, hash: Hash, job: Job, ids: seq<string>)
    requires forall id | id in ids :: FindDraft(job.package.drafts, id).Some?
    ensures PlanAll(files, roots, hash, job, ids).Success? ==>
              var plan := PlanAll(files, roots, hash, job, ids).value;
              && |plan.kept| + |plan.skipped| == |ids|
              && (forall id :: id in plan.kept <==>
                    id in ids && IsPreserved(job, FindDraft(job.package.drafts, id).value))
              && (forall id :: id in plan.skipped <==>
                    id in ids && !IsPreserved(job, FindDraft(job.package.drafts, id).value))
  {
    hide Collides, Render, DraftPath, LastReview;
    if ids != [] && PlanAll(files, roots, hash, job, ids).Success? {
      var front, id := ids[..|ids| - 1], ids[|ids| - 1];
      PlanSortsDrafts(files, roots, hash, job, front);
      FindDraftFinds(job.package.drafts, id);
      assert ids == front + [id];
    }
  }

  /** The note of a reviewed draft. */
  function NoteText(job: Job, draft: DraftNote): string
    requires draft.noteId in ReviewIds(job.review.reviews)
  {
    var review := LastReview(job.review.reviews, draft.noteId);
    Render(job.package.runId, draft, review.status, review.eligible)
  }

  predicate HoldsNote(job: Job, documents: Files, id: string) {
    var p, draft := DraftPath(job.package.runId, id), FindDraft(job.package.drafts, id);
    draft.Some? && draft.value.noteId in ReviewIds(job.review.reviews) && IsSafeSegment(draft.value.noteId)
    && p in documents && documents[p] == NoteText(job, draft.value)
  }

  ghost predicate IsDraftPath(job: Job, kept: seq<string>, p: string) {
    exists id | id in kept :: p == DraftPath(job.package.runId, id)
  }

  /** The documents of a plan are the notes of the kept drafts, each at its own path. */
  ghost predicate HoldsNotes(job: Job, plan: Plan) {
    && (forall id | id in plan.kept :: HoldsNote(job, plan.documents, id))
    && (forall p | p in plan.documents :: IsDraftPath(job, plan.kept, p))
  }

  lemma AddedNote(job: Job, plan: Plan, id: string, text: string)
    requires HoldsNotes(job, plan)
    requires FindDraft(job.package.drafts, id).Some?
    requires FindDraft(job.package.drafts, id).value.noteId in ReviewIds(job.review.reviews)
    requires IsSafeSegment(FindDraft(job.package.drafts, id).value.noteId)
    requires text == NoteText(job, FindDraft(job.package.drafts, id).value)
    ensures HoldsNotes(job, AddToPlan(plan, job.package.runId, id, Some(text)))
  {
    hide DraftPath, FindDraft, NoteText, IsSafeSegment;
    var after := AddToPlan(plan, job.package.runId, id, Some(text));
    forall other | other in after.kept ensures HoldsNote(job, after.documents, other) {
      if other != id {
        assert other in plan.kept && HoldsNote(job, plan.documents, other);
        if DraftPath(job.package.runId, other) == DraftPath(job.package.runId, id) {
          DraftPathIsInjective(job.package.runId, other, id);
        }
      }
    }
    forall p | p in after.documents ensures IsDraftPath(job, after.kept, p) {
      if p == DraftPath(job.package.runId, id) {
        assert id in after.kept;
      } else {
        assert IsDraftPath(job, plan.kept, p);
        var other :| other in plan.kept && p == DraftPath(job.package.runId, other);
        assert other in after.kept;
      }
    }
  }

  lemma PlanOneText(files: Files, roots: seq<string>, hash: Hash, job: Job, draft: DraftNote)
    ensures var text := PlanOne(files, roots, hash, job, draft);
      text.Success? && text.value.Some? ==>
        draft.noteId in ReviewIds(job.review.reviews) && IsSafeSegment(draft.noteId)
        && text.value.value == NoteText(job, draft)
  {
    hide Render, Collides, LastReview, DraftPath;
  }

  lemma {:induction false} PlanHoldsNotes(
    files: Files, roots: seq<string>, hash: Hash, job: Job, ids: seq<string>)
    requires forall id | id in ids :: FindDraft(job.package.drafts, id).Some?
    ensures PlanAll(files, roots, hash, job, ids).Success? ==>
              HoldsNotes(job, PlanAll(files, roots, hash, job, ids).value)
  {
    hide PlanOne, NoteText, DraftPath, FindDraft, IsDraftPath, HoldsNote, IsSafeSegment;
    if ids != [] && PlanAll(files, roots, hash, job, ids).Success? {
      var id, front := ids[|ids| - 1], ids[..|ids| - 1];
      PlanHoldsNotes(files, roots, hash, job, front);
      var draft := FindDraft(job.package.drafts, id).value;
      PlanOneText(files, roots, hash, job, draft);
      var plan, text := PlanAll(files, roots, hash, job, front).value, PlanOne(files, roots, hash, job, draft).value;
      if text.Some? {
        AddedNote(job, plan, id, text.value);
      }
    }
  }

  ghost predicate IsNotePath(job: Job, p: string) {
    exists d | d in job.package.drafts && IsPreserved(job, d) :: p == DraftPath(job.package.runId, d.noteId)
  }

  /** A persist that is not refused wants exactly these files: the note of every draft that was
      reviewed, is not rejected and is not to be discarded, at the draft's path, where a scan finds it
      under its note id; the review summary; and the manifest. */
  lemma DocumentsArePreservedNotes(files: Files, roots: seq<string>, hash: Hash, job: Job)
    requires IsValid(job)
    ensures Documents(files, roots, hash, job).Success? ==>
              var documents, runId := Documents(files, roots, hash, job).value, job.package.runId;
              && (forall p :: p in documents <==>
                    p == SummaryPath(runId) || p == ManifestPath(runId) || IsNotePath(job, p))
              && documents[ManifestPath(runId)] == job.manifest
              && (forall d | d in job.package.drafts && IsPreserved(job, d) ::
                    (DraftPath(runId, d.noteId) in documents
                     && documents[DraftPath(runId, d.noteId)] == NoteText(job, d)
                     && NoteAt(documents, roots, DraftPath(runId, d.noteId), d.noteId)))
  {
    hide PlanAll, Render, LastReview, DraftPath, SummaryPath, ManifestPath, SummaryText, NoteAt,
      IsValid, Sort, NoteText, IsSafeSegment, HoldsNotes, SortedDraftIds, IsNotePath;
    if Documents(files, roots, hash, job).Success? {
      var runId, ids := job.package.runId, SortedDraftIds(job);
      var plan, documents := PlanAll(files, roots, hash, job, ids).value, Documents(files, roots, hash, job).value;
      PlanHoldsNotes(files, roots, hash, job, ids);
      PlanSortsDrafts(files, roots, hash, job, ids);
      forall d | d in job.package.drafts ensures
          d.noteId in ids && FindDraft(job.package.drafts, d.noteId) == Some(d) {
        DraftIsListed(job, d);
      }
      forall p ensures p in documents <==> p == SummaryPath(runId) || p == ManifestPath(runId) || IsNotePath(job, p) {
        KeptPathIsNotePath(job, plan, ids, p);
      }
      forall d | d in job.package.drafts && IsPreserved(job, d)
        ensures DraftPath(runId, d.noteId) in documents
          && documents[DraftPath(runId, d.noteId)] == NoteText(job, d)
          && NoteAt(documents, roots, DraftPath(runId, d.noteId), d.noteId)
      {
        PathsDiffer(runId, d.noteId);
        PreservedIsHeld(job, plan, d);
        NoteIsScanned(documents, roots, job, d);
      }
    }
  }

  /** Whether a draft can be written or skipped: its id is a safe file name; a review of it has its
      hash; and if it is preserved, no other scanned file has its note id and its own hash is right. */
  predicate IsAcceptable(files: Files, roots: seq<string>, hash: Hash, job: Job, d: DraftNote) {
    && IsSafeSegment(d.noteId)
    && (d.noteId in ReviewIds(job.review.reviews) ==>
          LastReview(job.review.reviews, d.noteId).reviewedHash == d.hash)
    && (IsPreserved(job, d) ==>
          !Collides(files, roots, d.noteId, DraftPath(job.package.runId, d.noteId)) && hash(d) == d.hash)
  }

  lemma {:induction false} PlanSucceedsIff(
    files: Files, roots: seq<string>, hash: Hash, job: Job, ids: seq<string>)
    requires forall id | id in ids :: FindDraft(job.package.drafts, id).Some?
    ensures PlanAll(files, roots, hash, job, ids).Success? <==>
              forall id | id in ids :: IsAcceptable(files, roots, hash, job, FindDraft(job.package.drafts, id).value)
  {
    hide PlanOne, IsAcceptable, FindDraft, AddToPlan;
    if ids != [] {
      var front, id := ids[..|ids| - 1], ids[|ids| - 1];
      PlanSucceedsIff(files, roots, hash, job, front);
      PlanOneSucceedsIff(files, roots, hash, job, FindDraft(job.package.drafts, id).value);
      assert ids == front + [id];
    }
  }

  lemma PlanOneSucceedsIff(files: Files, roots: seq<string>, hash: Hash, job: Job, d: DraftNote)
    ensures PlanOne(files, roots, hash, job, d).Success? <==> IsAcceptable(files, roots, hash, job, d)
  {
    hide Collides, Render, DraftPath, LastReview, IsSafeSegment;
  }

  /** A persist can go ahead exactly when the three run ids agree and are a safe file name, and every
      draft is acceptable. */
  lemma PlannedIff(files: Files, roots: seq<string>, hash: Hash, job: Job)
    requires IsValid(job)
    ensures Documents(files, roots, hash, job).Success? <==>
      && job.review.runId == job.package.runId && job.manifestRunId == job.package.runId
      && IsSafeSegment(job.package.runId)
      && forall d | d in job.package.drafts :: IsAcceptable(files, roots, hash, job, d)
  {
    hide PlanAll, IsAcceptable, SortedDraftIds, IsValid, IsSafeSegment, FindDraft, WithSummary;
    var ids := SortedDraftIds(job);
    PlanSucceedsIff(files, roots, hash, job, ids);
    forall d | d in job.package.drafts ensures
        d.noteId in ids && FindDraft(job.package.drafts, d.noteId) == Some(d) {
      DraftIsListed(job, d);
    }
    forall id | id in ids ensures FindDraft(job.package.drafts, id).value in job.package.drafts {
      FindDraftFinds(job.package.drafts, id);
    }
  }

  /** What is wrong with the draft, as the first check that fails tells it. */
  predicate IsReason(files: Files, roots: seq<string>, hash: Hash, job: Job, d: DraftNote, error: WriteError) {
    var reviewed := d.noteId in ReviewIds(job.review.reviews);
    var sameHash := reviewed && LastReview(job.review.reviews, d.noteId).reviewedHash == d.hash;
    var collides := Collides(files, roots, d.noteId, DraftPath(job.package.runId, d.noteId));
    match error
    case UnsafeNoteId => !IsSafeSegment(d.noteId)
    case ReviewedHashMismatch => IsSafeSegment(d.noteId) && reviewed && !sameHash
    case NoteCollision => IsSafeSegment(d.noteId) && sameHash && IsPreserved(job, d) && collides
    case DraftHashMismatch =>
      IsSafeSegment(d.noteId) && sameHash && IsPreserved(job, d) && !collides && hash(d) != d.hash
    case _ => false
  }

  lemma PlanOneReason(files: Files, roots: seq<string>, hash: Hash, job: Job, d: DraftNote)
    ensures var plan := PlanOne(files, roots, hash, job, d);
      plan.Failure? ==> IsReason(files, roots, hash, job, d, plan.error)
  {
    hide Collides, Render, DraftPath, LastReview, IsSafeSegment;
  }

  /** The first draft that is not acceptable is the one whose error ends the loop. */
  ghost predicate IsFirstRefused(
    files: Files, roots: seq<string>, hash: Hash, job: Job, ids: seq<string>, k: nat, error: WriteError)
    requires forall id | id in ids :: FindDraft(job.package.drafts, id).Some?
  {
    && k < |ids|
    && IsReason(files, roots, hash, job, FindDraft(job.package.drafts, ids[k]).value, error)
    && forall j | 0 <= j < k ::
         IsAcceptable(files, roots, hash, job, FindDraft(job.package.drafts, ids[j]).value)
  }

  lemma {:induction false} FirstRefusedDecides(
    files: Files, roots: seq<string>, hash: Hash, job: Job, ids: seq<string>)
    requires forall id | id in ids :: FindDraft(job.package.drafts, id).Some?
    ensures PlanAll(files, roots, hash, job, ids).Failure? ==>
              exists k :: IsFirstRefused(files, roots, hash, job, ids, k, PlanAll(files, roots, hash, job, ids).error)
  {
    hide PlanOne, IsAcceptable, IsReason, FindDraft, AddToPlan;
    if ids != [] {
      var last := |ids| - 1;
      var front := ids[..last];
      FirstRefusedDecides(files, roots, hash, job, front);
      PlanOneReason(files, roots, hash, job, FindDraft(job.package.drafts, ids[last]).value);
      var before := PlanAll(files, roots, hash, job, front);
      if before.Failure? {
        var k :| IsFirstRefused(files, roots, hash, job, front, k, before.error);
        assert IsFirstRefused(files, roots, hash, job, ids, k, before.error);
      } else if PlanAll(files, roots, hash, job, ids).Failure? {
        PlanSucceedsIff(files, roots, hash, job, front);
        assert forall j | 0 <= j < last :: ids[j] in front;
        assert IsFirstRefused(files, roots, hash, job, ids, last, PlanAll(files, roots, hash, job, ids).error);
      }
    }
  }

  /** Why a persist is refused before any target is looked at: the run ids differ, or else they are no
      safe file name, or else it is the first check that fails on the first draft, in the order of the
      note ids, that is not acceptable. */
  lemma RefusalIs(files: Files, roots: seq<string>, hash: Hash, job: Job)
    ensures var documents, runId := Documents(files, roots, hash, job), job.package.runId;
      documents.Failure? ==>
        if job.review.runId != runId || job.manifestRunId != runId then documents.error == RunIdMismatch
        else if !IsSafeSegment(runId) then documents.error == UnsafeRunId
        else exists k :: IsFirstRefused(files, roots, hash, job, SortedDraftIds(job), k, documents.error)
  {
    hide PlanAll, SortedDraftIds, IsSafeSegment, FindDraft, WithSummary, IsFirstRefused;
    FirstRefusedDecides(files, roots, hash, job, SortedDraftIds(job));
  }

  lemma PreservedIsHeld(job: Job, plan: Plan, d: DraftNote)
    requires FindDraft(job.package.drafts, d.noteId) == Some(d)
    ensures HoldsNotes(job, plan) && d.noteId in plan.kept ==>
              && DraftPath(job.package.runId, d.noteId) in plan.documents && IsSafeSegment(d.noteId)
              && d.noteId in ReviewIds(job.review.reviews)
              && plan.documents[DraftPath(job.package.runId, d.noteId)] == NoteText(job, d)
  {
    hide DraftPath, FindDraft, NoteText, IsSafeSegment;
    if HoldsNotes(job, plan) && d.noteId in plan.kept {
      assert HoldsNote(job, plan.documents, d.noteId);
    }
  }

  lemma DraftIsListed(job: Job, d: DraftNote)
    requires IsValid(job) && d in job.package.drafts
    ensures d.noteId in SortedDraftIds(job) && FindDraft(job.package.drafts, d.noteId) == Some(d)
  {
    hide Sort, FindDraft;
    var drafts := job.package.drafts;
    var i :| 0 <= i < |drafts| && drafts[i] == d;
    FindDraftAt(drafts, i);
    assert DraftIds(drafts)[i] == d.noteId;
    SortKeepsMembers(DraftIds(drafts));
  }

  lemma KeptPathIsNotePath(job: Job, plan: Plan, ids: seq<string>, p: string)
    requires HoldsNotes(job, plan)
    requires forall id | id in ids :: FindDraft(job.package.drafts, id).Some?
    requires forall id :: id in plan.kept <==>
               id in ids && IsPreserved(job, FindDraft(job.package.drafts, id).value)
    requires forall d | d in job.package.drafts ::
               d.noteId in ids && FindDraft(job.package.drafts, d.noteId) == Some(d)
    ensures p in plan.documents <==> IsNotePath(job, p)
  {
    hide DraftPath, FindDraft, IsPreserved;
    if p in plan.documents {
      assert IsDraftPath(job, plan.kept, p);
      var id :| id in plan.kept && p == DraftPath(job.package.runId, id);
      FindDraftFinds(job.package.drafts, id);
      var d := FindDraft(job.package.drafts, id).value;
      assert d in job.package.drafts && IsPreserved(job, d);
    }
    if IsNotePath(job, p) {
      var d :| d in job.package.drafts && IsPreserved(job, d) && p == DraftPath(job.package.runId, d.noteId);
      assert d.noteId in plan.kept && HoldsNote(job, plan.documents, d.noteId);
    }
  }

  /** The note of a draft is found by a scan of its path, whatever the roots. */
  lemma NoteIsScanned(documents: Files, roots: seq<string>, job: Job, d: DraftNote)
    requires IsValid(job) && d in job.package.drafts && IsPreserved(job, d)
    requires IsSafeSegment(job.package.runId) && IsSafeSegment(d.noteId)
    requires DraftPath(job.package.runId, d.noteId) in documents
    requires documents[DraftPath(job.package.runId, d.noteId)] == NoteText(job, d)
    ensures NoteAt(documents, roots, DraftPath(job.package.runId, d.noteId), d.noteId)
  {
    hide DraftPath, IsScanned, Render, ReadEntry, LastReview;
    var review := LastReview(job.review.reviews, d.noteId);
    DraftPathIsScanned(roots, job.package.runId, d.noteId);
    RenderThenRead(job.package.runId, d, review.status, review.eligible);
  }

  /** A document declares a note id only at the note's own path, and no scanned file elsewhere had it. */
  lemma DocumentNotes(
    files: Files, roots: seq<string>, hash: Hash, job: Job, p: string, id: string)
    requires IsValid(job) && Documents(files, roots, hash, job).Success?
    ensures NoteAt(Documents(files, roots, hash, job).value, roots, p, id) ==>
              p == DraftPath(job.package.runId, id) && !Collides(files, roots, id, p)
  {
    hide PlanAll, DraftPath, SummaryPath, ManifestPath, SummaryText, ReadEntry, IsMarkdown, Collides;
    var runId, ids := job.package.runId, SortedDraftIds(job);
    var plan := PlanAll(files, roots, hash, job, ids).value;
    PathsDiffer(runId, id);
    PlanAllIsPlanned(files, roots, hash, job, ids);
    KeptAreReviewed(files, roots, hash, job, ids);
    SummaryHasNoNoteId(job, plan.kept, plan.skipped);
    if p in plan.documents && p != SummaryPath(runId) && p != ManifestPath(runId) {
      assert IsPlanned(files, roots, runId, p, plan.documents[p]);
    }
  }

  /** Adding any of the documents keeps every note id at one scanned path. */
  lemma AddingKeepsNotesUnique(
    before: Files, after: Files, roots: seq<string>, hash: Hash, job: Job)
    requires IsValid(job) && Documents(before, roots, hash, job).Success?
    requires Extended(before, after, Documents(before, roots, hash, job).value)
    requires UniqueNotes(before, roots)
    ensures UniqueNotes(after, roots)
  {
    hide Documents, IsScanned, ReadEntry, DraftPath, IsValid;
    var documents := Documents(before, roots, hash, job).value;
    forall p, q, id | NoteAt(after, roots, p, id) && NoteAt(after, roots, q, id) ensures p == q {
      if p !in before {
        assert NoteAt(documents, roots, p, id);
        DocumentNotes(before, roots, hash, job, p, id);
      } else {
        assert NoteAt(before, roots, p, id);
      }
      if q !in before {
        assert NoteAt(documents, roots, q, id);
        DocumentNotes(before, roots, hash, job, q, id);
      } else {
        assert NoteAt(before, roots, q, id);
      }
    }
  }

  // ----- Running again -----

  lemma PlanOneAgain(
    before: Files, after: Files, roots: seq<string>, hash: Hash, job: Job, draft: DraftNote)
    requires IsValid(job) && Documents(before, roots, hash, job).Success?
    requires Extended(before, after, Documents(before, roots, hash, job).value)
    ensures PlanOne(before, roots, hash, job, draft).Success? ==>
              PlanOne(after, roots, hash, job, draft) == PlanOne(before, roots, hash, job, draft)
  {
    hide Documents, IsScanned, ReadEntry, DraftPath, IsValid, Render, LastReview;
    var id := draft.noteId;
    var target := DraftPath(job.package.runId, id);
    forall p | NoteAt(after, roots, p, id) ensures p == target || NoteAt(before, roots, p, id) {
      if p !in before {
        assert NoteAt(Documents(before, roots, hash, job).value, roots, p, id);
        DocumentNotes(before, roots, hash, job, p, id);
      }
    }
  }

  lemma {:induction false} PlanAllAgain(
    before: Files, after: Files, roots: seq<string>, hash: Hash, job: Job, ids: seq<string>)
    requires IsValid(job) && Documents(before, roots, hash, job).Success?
    requires Extended(before, after, Documents(before, roots, hash, job).value)
    requires forall id | id in ids :: FindDraft(job.package.drafts, id).Some?
    ensures PlanAll(before, roots, hash, job, ids).Success? ==>
              PlanAll(after, roots, hash, job, ids) == PlanAll(before, roots, hash, job, ids)
  {
    hide Documents, PlanOne, IsValid, Extended;
    if ids != [] && PlanAll(before, roots, hash, job, ids).Success? {
      PlanAllAgain(before, after, roots, hash, job, ids[..|ids| - 1]);
      PlanOneAgain(before, after, roots, hash, job, FindDraft(job.package.drafts, ids[|ids| - 1]).value);
    }
  }

  /** After a persist that stopped anywhere, the same persist wants the same documents and finds no
      conflict, so it writes exactly the files that are missing. */
  lemma RerunCompletes(before: Files, after: Files, roots: seq<string>, hash: Hash, job: Job)
    requires IsValid(job) && Documents(before, roots, hash, job).Success?
    requires !Conflicts(before, Documents(before, roots, hash, job).value)
    requires Extended(before, after, Documents(before, roots, hash, job).value)
    ensures Documents(after, roots, hash, job) == Documents(before, roots, hash, job)
    ensures !Conflicts(after, Documents(before, roots, hash, job).value)
  {
    hide PlanAll, IsValid;
    PlanAllAgain(before, after, roots, hash, job, SortedDraftIds(job));
  }

  // ----- Any sequence of persists -----

  /** One persist that was refused, stopped or completed. */
  ghost predicate Attempt(before: Files, after: Files, roots: seq<string>, hash: Hash, job: Job) {
    && IsValid(job)
    && (|| after == before
        || (&& Documents(before, roots, hash, job).Success?
            && Extended(before, after, Documents(before, roots, hash, job).value)))
  }

  ghost predicate AllAttempts(states: seq<Files>, roots: seq<string>, hash: Hash, jobs: seq<Job>) {
    |states| == |jobs| + 1
    && forall i | 0 <= i < |jobs| :: Attempt(states[i], states[i + 1], roots, hash, jobs[i])
  }

  /** Over any sequence of persists note ids stay unique, and no file of any earlier state changes. */
  lemma {:induction false} PersistsKeepTheVault(
    states: seq<Files>, roots: seq<string>, hash: Hash, jobs: seq<Job>, i: nat, j: nat)
    requires AllAttempts(states, roots, hash, jobs) && i <= j < |states|
    requires UniqueNotes(states[0], roots)
    ensures UniqueNotes(states[j], roots)
    ensures forall p | p in states[i] :: p in states[j] && states[j][p] == states[i][p]
    decreases j
  {
    hide UniqueNotes, Documents, IsValid;
    if j > 0 {
      PersistsKeepTheVault(states, roots, hash, jobs, if i < j then i else i - 1, j - 1);
      assert Attempt(states[j - 1], states[j], roots, hash, jobs[j - 1]);
      if states[j] != states[j - 1] {
        AddingKeepsNotesUnique(states[j - 1], states[j], roots, hash, jobs[j - 1]);
      }
    }
  }

  // ----- The writer -----

  /** An error ends the planning. */
  lemma {:induction false} PlanFails(
    files: Files, roots: seq<string>, hash: Hash, job: Job, ids: seq<string>, n: nat)
    requires n <= |ids| && forall id | id in ids :: FindDraft(job.package.drafts, id).Some?
    requires PlanAll(files, roots, hash, job, ids[..n]).Failure?
    ensures PlanAll(files, roots, hash, job, ids) == PlanAll(files, roots, hash, job, ids[..n])
  {
    hide PlanOne, DraftPath;
    if n == |ids| {
      assert ids[..n] == ids;
    } else {
      assert ids[..|ids| - 1][..n] == ids[..n];
      PlanFails(files, roots, hash, job, ids[..|ids| - 1], n);
    }
  }

  /** The paths of the documents in the order of `sorted`. */
  method SortedPaths(documents: Files) returns (paths: seq<string>)
    ensures forall p :: p in paths <==> p in documents
    ensures |paths| == |documents| && IsSorted(paths)
  {
    var found: seq<string> := [];
    var left := documents.Keys;
    while left != {}
      invariant left <= documents.Keys && |found| + |left| == |documents|
      invariant forall p :: p in found <==> p in documents && p !in left
    {
      var p :| p in left;
      found := found + [p];
      left := left - {p};
    }
    SortKeeps(found);
    SortKeepsMembers(found);
    paths := Sort(found);
    assert |multiset(paths)| == |multiset(found)|;
  }

  /** The documents are added in the order of their paths: before a file that was added, none is
      missing. */
  predicate IsPrefix(before: Files, after: Files, documents: Files) {
    forall p, q | p in documents && q in after && q !in before && Less(p, q) :: p in after
  }

  /** The first of the paths are there, and n of them were added. */
  ghost predicate IsWritten(
    before: Files, after: Files, documents: Files, paths: seq<string>, i: nat, n: nat)
  {
    && i <= |paths| && n <= i
    && Extended(before, after, documents)
    && (forall k | 0 <= k < i :: paths[k] in after)
    && (forall p | p in after && p !in before :: p in paths[..i])
    && |after| == |before| + n
  }

  lemma OneMorePath(paths: seq<string>, i: nat)
    requires i < |paths|
    ensures forall p :: p in paths[..i + 1] <==> p in paths[..i] || p == paths[i]
  {
    assert paths[..i + 1] == paths[..i] + [paths[i]];
  }

  lemma OneMoreFile(files: Files, p: string, text: string)
    requires p !in files
    ensures |files[p := text]| == |files| + 1
  {
    assert files[p := text].Keys == files.Keys + {p};
    assert |files| == |files.Keys| && |files[p := text]| == |files[p := text].Keys|;
  }

  lemma ExtendOne(before: Files, after: Files, documents: Files, p: string)
    requires Extended(before, after, documents) && p in documents && p !in after
    ensures Extended(before, after[p := documents[p]], documents)
  {
  }

  lemma FindOne(before: Files, after: Files, documents: Files, paths: seq<string>, i: nat, n: nat)
    requires IsWritten(before, after, documents, paths, i, n)
    requires i < |paths| && paths[i] in after
    ensures IsWritten(before, after, documents, paths, i + 1, n)
  {
    hide Extended;
    OneMorePath(paths, i);
  }

  lemma WriteOne(before: Files, after: Files, documents: Files, paths: seq<string>, i: nat, n: nat)
    requires IsWritten(before, after, documents, paths, i, n)
    requires i < |paths| && paths[i] in documents && paths[i] !in after
    ensures IsWritten(before, after[paths[i] := documents[paths[i]]], documents, paths, i + 1, n + 1)
  {
    hide Extended;
    var p, text := paths[i], documents[paths[i]];
    OneMorePath(paths, i);
    OneMoreFile(after, p, text);
    ExtendOne(before, after, documents, p);
    var more := after[p := text];
    assert forall q | q in more :: q == p || q in after;
  }

  lemma NothingWritten(files: Files, documents: Files, paths: seq<string>)
    ensures IsWritten(files, files, documents, paths, 0, 0)
  {
  }

  lemma WhatIsWritten(before: Files, after: Files, documents: Files, paths: seq<string>, i: nat, n: nat)
    requires IsWritten(before, after, documents, paths, i, n)
    ensures Extended(before, after, documents) && |after| == |before| + n
    ensures i == |paths| && (forall p | p in documents :: p in paths) ==> forall p | p in documents :: p in after
  {
  }

  lemma WrittenIsPrefix(before: Files, after: Files, documents: Files, paths: seq<string>, i: nat, n: nat)
    requires IsSorted(paths) && (forall p | p in documents :: p in paths)
    requires IsWritten(before, after, documents, paths, i, n)
    ensures IsPrefix(before, after, documents)
  {
    hide Extended;
    forall p, q | p in documents && q in after && q !in before && Less(p, q) ensures p in after {
      var k :| 0 <= k < |paths| && paths[k] == p;
      var j :| 0 <= j < i && paths[j] == q;
    }
  }

  class VaultWriter {
    const roots: seq<string>
    const hash: Hash
    var files: Files

    constructor (roots: seq<string>, hash: Hash, files: Files)
      ensures this.roots == roots && this.hash == hash && this.files == files
    {
      this.roots := roots;
      this.hash := hash;
      this.files := files;
    }

    /** The loop over the drafts in the order of their ids. */
    method PlanDrafts(job: Job, ids: seq<string>) returns (plan: Result<Plan, WriteError>)
      requires forall id | id in ids :: FindDraft(job.package.drafts, id).Some?
      ensures plan == PlanAll(files, roots, hash, job, ids)
    {
      hide PlanOne, DraftPath;
      var documents: Files := map[];
      var kept: seq<string> := [];
      var skipped: seq<string> := [];
      var i := 0;
      while i < |ids|
        invariant 0 <= i <= |ids|
        invariant PlanAll(files, roots, hash, job, ids[..i]) == Success(Plan(documents, kept, skipped))
      {
        var id := ids[i];
        assert ids[..i + 1][..i] == ids[..i];
        var text := PlanOne(files, roots, hash, job, FindDraft(job.package.drafts, id).value);
        if text.Failure? {
          PlanFails(files, roots, hash, job, ids, i + 1);
          return Failure(text.error);
        }
        if text.value.None? {
          skipped := skipped + [id];
        } else {
          documents := documents[DraftPath(job.package.runId, id) := text.value.value];
          kept := kept + [id];
        }
        i := i + 1;
      }
      assert ids[..i] == ids;
      plan := Success(Plan(documents, kept, skipped));
    }

    /** Plans, checks every target and only then writes; `stopAfter` is the number of files after
        which the process dies. A refused persist writes nothing; otherwise files are only added,
        and without a stop all of them are there in the end. */
    method Persist(job: Job, stopAfter: nat) returns (result: Result<bool, WriteError>)
      requires IsValid(job)
      modifies this
      ensures Attempt(old(files), files, roots, hash, job)
      ensures var documents := Documents(old(files), roots, hash, job);
        && (documents.Failure? ==> result == Failure(documents.error))
        && (documents.Success? && Conflicts(old(files), documents.value) ==> result == Failure(ContentConflict))
        && (result.Failure? ==> files == old(files))
        && (result.Success? <==> documents.Success? && !Conflicts(old(files), documents.value))
        && (result.Success? ==>
              && Extended(old(files), files, documents.value)
              && (result.value <==> forall p | p in documents.value :: p in files)
              && (|documents.value| <= stopAfter ==> result.value)
              && IsPrefix(old(files), files, documents.value)
              && (result.value || |files| == |old(files)| + stopAfter))
    {
      hide PlanAll, IsValid, WithSummary;
      if job.review.runId != job.package.runId || job.manifestRunId != job.package.runId {
        return Failure(RunIdMismatch);
      }
      if !IsSafeSegment(job.package.runId) {
        return Failure(UnsafeRunId);
      }
      var plan := PlanDrafts(job, SortedDraftIds(job));
      if plan.Failure? {
        return Failure(plan.error);
      }
      KeptAreReviewed(files, roots, hash, job, SortedDraftIds(job));
      var documents := WithSummary(job, plan.value);
      assert Documents(files, roots, hash, job) == Success(documents);
      var clear := Preflight(documents);
      if !clear {
        return Failure(ContentConflict);
      }
      var complete := WriteAll(documents, stopAfter);
      result := Success(complete);
    }

    /** Every target that exists must already hold the wanted text. */
    method Preflight(documents: Files) returns (clear: bool)
      ensures clear <==> !Conflicts(files, documents)
    {
      var left := documents.Keys;
      while left != {}
        invariant left <= documents.Keys
        invariant forall p | p in documents && p !in left :: p !in files || files[p] == documents[p]
      {
        var p :| p in left;
        if p in files && files[p] != documents[p] {
          return false;
        }
        left := left - {p};
      }
      return true;
    }

    /** Writes the missing files in the order of their paths until the process stops. */
    method WriteAll(documents: Files, stopAfter: nat) returns (complete: bool)
      requires !Conflicts(files, documents)
      modifies this
      ensures Extended(old(files), files, documents)
      ensures complete <==> forall p | p in documents :: p in files
      ensures |documents| <= stopAfter ==> complete
      ensures IsPrefix(old(files), files, documents)
      ensures complete || |files| == |old(files)| + stopAfter
    {
      hide IsSorted, IsWritten, Extended, IsPrefix, Conflicts;
      var paths := SortedPaths(documents);
      var i, written := 0, 0;
      NothingWritten(files, documents, paths);
      while i < |paths| && (written < stopAfter || paths[i] in files)
        invariant 0 <= written <= i <= |paths| && written <= stopAfter
        invariant IsWritten(old(files), files, documents, paths, i, written)
      {
        var p := paths[i];
        assert p in documents;
        if p in files {
          FindOne(old(files), files, documents, paths, i, written);
        } else {
          WriteOne(old(files), files, documents, paths, i, written);
          files := files[p := documents[p]];
          written := written + 1;
        }
        i := i + 1;
      }
      complete := i == |paths|;
      assert complete || paths[i] in documents;
      WhatIsWritten(old(files), files, documents, paths, i, written);
      WrittenIsPrefix(old(files), files, documents, paths, i, written);
    }

    /** A persist that stopped anywhere, and the same persist run again: the vault then holds all
        documents of the first, and nothing else was added or changed. */
    method PersistAgain(job: Job, stopAfter: nat)
      requires IsValid(job)
      requires Documents(files, roots, hash, job).Success?
      requires !Conflicts(files, Documents(files, roots, hash, job).value)
      modifies this
      ensures var documents := Documents(old(files), roots, hash, job).value;
        && Extended(old(files), files, documents)
        && forall p | p in documents :: p in files && files[p] == documents[p]
    {
      hide Documents, IsValid;
      ghost var before := files;
      var documents := Documents(files, roots, hash, job).value;
      var first := Persist(job, stopAfter);
      ghost var between := files;
      RerunCompletes(before, between, roots, hash, job);
      var second := Persist(job, |documents|);
      RerunCompletes(between, files, roots, hash, job);
    }
  }
}
