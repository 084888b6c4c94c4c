/** What the ordinary synchronization makes of a migrated heading and of an original note
    that the migration could not delete. */
module AfterMigration {
  import opened Basics
  import opened Collection
  import opened Planner
  import opened PlannerSafety
  import opened PlannerQuiet
  import opened Quiescence
  import opened QuiescenceExact
  import opened Migration

  /** The heading after a migration: its new identifier and its new type. */
  function Rehomed(e: Entry, counterpart: string, o: Outcome): Entry {
    e.(noteId := o.noteId, card := e.card.(noteType := counterpart))
  }

  /** The hash tells the fields with a source link from those without. */
  ghost predicate HashTellsLink(s: Setup, e: Entry, counterpart: string, draft: Draft) {
    HashTellsFields(s, counterpart, WithSourceLink(RenderType(counterpart), e.card.orgId, draft.fields), draft.fields,
                    ResolvedDeck(e.card, s.config.defaultDeck), e.card.tags)
  }

  /** The record a migration leaves is that of its job. */
  lemma MigratedRecord(s: Setup, w: World, e: Entry, counterpart: string, draft: Draft)
    requires Filed(w) && e.noteId.Some? && e.noteId.value in w.reg
    requires Prepared(s.rules, RenderType(counterpart), e.card) == Ok(draft)
    requires MigrateOne(s, w, e, counterpart).outcome.action == Added
    ensures var step := MigrateOne(s, w, e, counterpart); var id := w.anki.nextId;
      && Filed(step.world) && step.outcome.noteId == Some(id) && id in step.world.anki.notes
      && id in step.world.reg && step.world.reg[id] == RecordOf(MigrationJob(s, e, counterpart, draft), id)
  {
    hide Replace, ResolveFields, Prepared, Owned;
    MigrateOneEffect(s, w, e, counterpart);
    var job := MigrationJob(s, e, counterpart, draft);
    ResolveFieldsUntouched(s, w, counterpart, job.fields);
    var (resolved, w1) := ResolveFields(s, w, counterpart, job.fields);
    if resolved.Ok? { ReplaceEffect(s, w1, e, job.(fields := resolved.value)); }
  }

  /** The migrated heading is up to date for the next ordinary run exactly when the sync path
      would append no source link to it: the migration hashes the fields without the link. */
  lemma UpToDateAfterMigration(s: Setup, w: World, e: Entry, counterpart: string, draft: Draft)
    requires Filed(w) && e.noteId.Some? && e.noteId.value in w.reg
    requires Prepared(s.rules, RenderType(counterpart), e.card) == Ok(draft) && HashTellsLink(s, e, counterpart, draft)
    requires MigrateOne(s, w, e, counterpart).outcome.action == Added
    ensures var step := MigrateOne(s, w, e, counterpart); var e' := Rehomed(e, counterpart, step.outcome);
      UpToDate(step.world.reg, e'.noteId, JobOf(s, e', draft)) <==>
        !Linked(RenderType(counterpart), e.card.orgId, draft.fields)
  {
    hide Linked, WithSourceLink, MigrateOne, Prepared;
    MigratedRecord(s, w, e, counterpart, draft);
    LinkChangesFields(RenderType(counterpart), e.card.orgId, draft.fields);
  }

  /** The next ordinary run updates the migrated note if a source link is appended to it, and
      leaves it alone if not, though nothing was edited in between. The rendering is taken to be
      the same under either of the two type names, and every request to be answered. */
  lemma NextSyncAfterMigration(s: Setup, w: World, e: Entry, counterpart: string, draft: Draft)
    requires Filed(w) && e.noteId.Some? && e.noteId.value in w.reg
    requires Prepared(s.rules, RenderType(counterpart), e.card) == Ok(draft) && HashTellsLink(s, e, counterpart, draft)
    requires MigrateOne(s, w, e, counterpart).outcome.action == Added
    requires var step := MigrateOne(s, w, e, counterpart); var e' := Rehomed(e, counterpart, step.outcome);
      && Prepared(s.rules, RenderType(counterpart), e'.card) == Ok(draft) && !Unmatched(s, JobOf(s, e', draft))
      && Smooth(s, step.world.(run := FRESH), Process(s, step.world.(run := FRESH), e').world)
    ensures var step := MigrateOne(s, w, e, counterpart); var w' := step.world.(run := FRESH);
      var next := Process(s, w', Rehomed(e, counterpart, step.outcome));
      if Linked(RenderType(counterpart), e.card.orgId, draft.fields) then
        next.outcome.action == Updated && |next.world.anki.log| > |w'.anki.log|
      else
        next.outcome.action == Skipped && next.world == w'
  {
    hide Linked, WithSourceLink, MigrateOne, Prepared, UpToDate, Branch, ResolveFields, Unmatched, Smooth,
      HashTellsLink;
    var step := MigrateOne(s, w, e, counterpart);
    var w', e' := step.world.(run := FRESH), Rehomed(e, counterpart, step.outcome);
    var job := JobOf(s, e', draft);
    UpToDateAfterMigration(s, w, e, counterpart, draft);
    MigratedRecord(s, w, e, counterpart, draft);
    var id := w.anki.nextId;
    SameType(w'.reg, job, id);
    if !UpToDate(w'.reg, e'.noteId, job) {
      NothingCached(s, w');
      ResolveFieldsUntouched(s, w', job.card.noteType, job.fields);
      ResolveFieldsAnswer(s, w', job);
      var (resolved, w1) := ResolveFields(s, w', job.card.noteType, job.fields);
      assert resolved.Ok?;
      var job1 := job.(fields := resolved.value);
      UpdatesRecorded(s, w1, e', job1);
      SmoothSuffix(s, w', w1, Branch(s, w1, e', job1).world);
      UpdateEffect(s, w1, job1, id);
      UpdateSends(s, w1, job1, id);
    }
  }

  lemma SameType(reg: Entries, job: Job, id: int)
    requires id in reg && reg[id].noteType == job.card.noteType
    ensures UpToDate(reg, Some(id), job) <==> reg[id].hash == job.hash
  {
  }

  /** An original that outlives its migration is recorded nowhere, so no later run deletes it,
      and it stays unrecorded as long as no heading claims it: it is never collected. */
  lemma SurvivorNeverCollected(s: Setup, w: World, e: Entry, counterpart: string, s2: Setup, req: Request)
    requires Filed(w) && e.noteId.Some? && e.noteId.value in w.reg
    requires var step := MigrateOne(s, w, e, counterpart);
               step.outcome.action == Added && e.noteId.value in step.world.anki.notes
    ensures var step := MigrateOne(s, w, e, counterpart); var after := Run(s2, req, step.world).world;
      && e.noteId.value !in step.world.reg
      && e.noteId.value in after.anki.notes
      && (e.noteId.value !in Claimed(req.entries) ==> e.noteId.value !in after.reg)
  {
    hide MigrateOne, Sweep, Run, Owned, Claimed;
    MigrateOneEffect(s, w, e, counterpart);
    UnrecordedStays(s2, req, MigrateOne(s, w, e, counterpart).world, e.noteId.value);
  }

  /** A note without a record outlives every run, and gets a record only from a heading that
      claims it. */
  lemma UnrecordedStays(s: Setup, req: Request, w: World, id: int)
    requires Filed(w) && id !in w.reg && id in w.anki.notes
    ensures var after := Run(s, req, w).world;
      id in after.anki.notes && (id !in Claimed(req.entries) ==> id !in after.reg)
  {
    hide Sweep, ConfirmAndDelete, Owned, Claimed, Relocated;
    NewcomersSurvive(s, req, w, id);
    RunFiled(s, req, w);
    SweepSafe(s, req.entries, w.(run := FRESH), |req.entries|);
    var w2 := AfterCensus(s, req, w);
    ConfirmAndDeleteSafe(s, w2, Candidates(w2.reg, req.census, s.config.excludePatterns, w.reg.Keys),
                         s.config.scanComplete);
  }
}
