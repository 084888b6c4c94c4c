/** Which branch an entry takes, which notes a run deletes and where it records them, told on
    the state before (processEntry, reconcileSourcePaths and confirmAndDelete,
    internal/anki/planner/planner.go). */
module PlannerDecisions {
  import opened Basics
  import opened Collection
  import opened Ordered
  import opened Planner
  import opened PlannerSafety
  import opened PlannerQuiet
  import opened NoteContents

  // ------------------------------------------------------------------ one entry

  /** The entry is reported and nothing is asked of the collection. */
  ghost predicate LeftAlone(e: Entry, action: Action, codes: seq<Code>, w: World, step: Step) {
    && step.world == w && step.outcome == Outcome(Some(e.key), action, e.noteId)
    && |step.issues| == |codes| && forall i :: 0 <= i < |codes| ==> step.issues[i] == Diagnostic(codes[i], Some(e.key))
  }

  /** The entry fails and neither notes nor records change. */
  ghost predicate Fails(e: Entry, code: Code, w: World, step: Step) {
    && step.outcome == Outcome(Some(e.key), Failed, e.noteId) && step.issues == [Diagnostic(code, Some(e.key))]
    && step.world.reg == w.reg && step.world.anki.notes == w.anki.notes && step.world.anki.log == w.anki.log
  }

  /** A card the gate, the renderer or the media pass refuses is left alone, and reported
      skipped, or failed where the renderer says so. */
  ghost predicate Refused(s: Setup, w: World, e: Entry, step: Step) {
    var rendered := s.rules.render(RenderType(e.card.noteType), e.card);
    if s.rules.gate(e.card).Some? then LeftAlone(e, Skipped, [Unrendered(s.rules.gate(e.card).value)], w, step)
    else if rendered.Err? then
      LeftAlone(e, if rendered.error.1 then Skipped else Failed, [Unrendered(rendered.error.0)], w, step)
    else s.rules.media(e.card.sourcePath, rendered.value).None? && LeftAlone(e, Skipped, [MediaFileNotFound], w, step)
  }

  /** The rendered fields after the media pass, with the source link. */
  ghost predicate RendersAs(s: Setup, e: Entry, linked: Fields) {
    var shape := RenderType(e.card.noteType);
    && s.rules.gate(e.card).None?
    && exists rendered, rewritten, uploads ::
         && s.rules.render(shape, e.card) == Ok(rendered)
         && s.rules.media(e.card.sourcePath, rendered) == Some((rewritten, uploads))
         && linked == WithSourceLink(shape, e.card.orgId, rewritten)
  }

  /** What becomes of a rendered entry, by what is recorded under its identifier, whether the
      note type takes the fields, and whether the note is there. */
  ghost predicate Decided(s: Setup, w: World, e: Entry, linked: Fields, step: Step) {
    var names := s.env.models(e.card.noteType);
    var recorded := if e.noteId.Some? && e.noteId.value in w.reg then Some(w.reg[e.noteId.value]) else None;
    var there := e.noteId.Some? && e.noteId.value in w.anki.notes;
    if recorded.Some? && recorded.value.noteType != e.card.noteType then
      LeftAlone(e, Skipped, [NoteTypeChangeUnsupported], w, step)
    else if recorded.Some? && recorded.value.hash == HashOf(s, e, linked) then LeftAlone(e, Skipped, [], w, step)
    else if names.None? then Fails(e, AnkiConnectError, w, step)
    else if s.rules.matching(names.value, linked).None? then Fails(e, NoteFieldMissing, w, step)
    else if recorded.Some? then
      step.outcome == Outcome(Some(e.key), if there then Updated else Failed, e.noteId)
    else if there && w.anki.notes[e.noteId.value].model == e.card.noteType then
      step.outcome == Outcome(Some(e.key), Updated, e.noteId)
    else step.outcome == Outcome(Some(e.key), Added, Some(w.anki.nextId))
  }

  /** Every request answered, an entry takes the one branch its state selects. */
  lemma ProcessDecides(s: Setup, w: World, e: Entry)
    requires Filed(w) && Remembers(s, w) && Smooth(s, w, Process(s, w, e).world)
    ensures Refused(s, w, e, Process(s, w, e))
            || exists linked :: RendersAs(s, e, linked) && Decided(s, w, e, linked, Process(s, w, e))
  {
    hide Branch, ResolveFields, WithSourceLink, Cached, Smooth, Decided, Filed;
    var prepared := Prepared(s.rules, RenderType(e.card.noteType), e.card);
    if prepared.Ok? {
      var job := JobOf(s, e, prepared.value);
      assert RendersAs(s, e, job.fields);
      if UpToDate(w.reg, e.noteId, job) {
        IdleDecided(s, w, e, job);
      } else {
        BusyDecided(s, w, e, job);
      }
    }
  }

  /** The job of an entry before its fields are matched. */
  ghost predicate Planned(s: Setup, e: Entry, job: Job) {
    && job.key == e.key && job.card == e.card && job.deck == DeckOf(s, e) && job.hash == HashOf(s, e, job.fields)
  }

  lemma IdleDecided(s: Setup, w: World, e: Entry, job: Job)
    requires Planned(s, e, job) && UpToDate(w.reg, e.noteId, job)
    ensures Decided(s, w, e, job.fields, Dispatch(s, w, e, job))
  {
    hide ResolveFields, Branch;
  }

  lemma BusyDecided(s: Setup, w: World, e: Entry, job: Job)
    requires Planned(s, e, job) && !UpToDate(w.reg, e.noteId, job) && Filed(w) && Cached(s, w)
    requires Smooth(s, w, Dispatch(s, w, e, job).world)
    ensures Decided(s, w, e, job.fields, Dispatch(s, w, e, job))
  {
    hide ResolveFields, Branch, Cached, Smooth, Filed;
    var (resolved, w1) := ResolveFields(s, w, job.card.noteType, job.fields);
    ResolveFieldsUntouched(s, w, job.card.noteType, job.fields);
    ResolveTold(s, w, job.card.noteType, job.fields);
    if resolved.Ok? {
      var job1 := job.(fields := resolved.value);
      FiledFrom(w, w1);
      BranchDecides(s, w1, e, job1);
      BranchRises(s, w1, e, job1);
      SmoothSuffix(s, w, w1, Branch(s, w1, e, job1).world);
    }
  }

  lemma FiledFrom(w: World, w': World)
    requires Filed(w) && Untouched(w, w')
    ensures Filed(w')
  {
  }

  lemma BranchRises(s: Setup, w: World, e: Entry, job: Job)
    requires Filed(w)
    ensures w.anki.clock <= Branch(s, w, e, job).world.anki.clock
  {
    hide Branch;
    BranchSafe(s, w, e, job);
  }

  lemma ResolveTold(s: Setup, w: World, noteType: string, fields: Fields)
    requires Cached(s, w)
    ensures var (resolved, w') := ResolveFields(s, w, noteType, fields); var names := s.env.models(noteType);
      && w'.anki.log == w.anki.log
      && (resolved.Ok? ==> names.Some? && s.rules.matching(names.value, fields) == Some(resolved.value))
      && (Smooth(s, w, w') && resolved.Err? ==>
            if names.None? then resolved.error == AnkiConnectError
            else s.rules.matching(names.value, fields).None? && resolved.error == NoteFieldMissing)
  {
    if noteType !in w.run.modelFields && s.env.down(w.anki.clock) {
      assert !Smooth(s, w, ResolveFields(s, w, noteType, fields).1);
    }
  }

  /** The branch of an entry that needs one. */
  lemma BranchDecides(s: Setup, w: World, e: Entry, job: Job)
    requires Filed(w) && job.key == e.key && job.card == e.card
    ensures var step := Branch(s, w, e, job);
      var there := e.noteId.Some? && e.noteId.value in w.anki.notes;
      Smooth(s, w, step.world) ==>
        step.outcome ==
          if e.noteId.Some? && e.noteId.value in w.reg then
            Outcome(Some(e.key), if there then Updated else Failed, e.noteId)
          else if there && w.anki.notes[e.noteId.value].model == e.card.noteType then
            Outcome(Some(e.key), Updated, e.noteId)
          else Outcome(Some(e.key), Added, Some(w.anki.nextId))
  {
    hide AddNew, Adopt, Update, Keeps;
    BranchRises(s, w, e, job);
    if e.noteId.None? {
      AddNewEffect(s, w, job);
      Keyed1(s, w, job);
    } else if e.noteId.value in w.reg {
      UpdateEffect(s, w, job, e.noteId.value);
      UpdateFails(s, w, job, e.noteId.value, w.reg[e.noteId.value]);
    } else if Smooth(s, w, Branch(s, w, e, job).world) {
      ReconcileDecides(s, w, job, e.noteId.value);
    }
  }

  lemma Keyed1(s: Setup, w: World, job: Job)
    ensures AddNew(s, w, job).outcome.key == Some(job.key)
  {
    hide Upload, EnsureDeck;
  }

  /** Files sent, an update whose note is gone fails. */
  lemma UpdateFails(s: Setup, w: World, job: Job, id: int, prior: Record)
    ensures var step := Update(s, w, job, id, prior);
      && step.outcome.key == Some(job.key) && step.outcome.noteId == Some(id)
      && (Smooth(s, w, step.world) && id !in w.anki.notes ==> step.outcome.action == Failed)
  {
    hide Upload, MoveDeck;
    UploadUntouched(s, w, job.uploads);
    var (sent, w1) := Upload(s, w, job.uploads);
    WriteNoteEffect(s, w1, job, id);
  }

  lemma ReconcileDecides(s: Setup, w: World, job: Job, id: int)
    requires Filed(w) && Smooth(s, w, Reconcile(s, w, job, id).world)
    ensures Reconcile(s, w, job, id).outcome ==
            if id in w.anki.notes && w.anki.notes[id].model == job.card.noteType then
              Outcome(Some(job.key), Updated, Some(id))
            else Outcome(Some(job.key), Added, Some(w.anki.nextId))
  {
    hide AddNew, Adopt, Keeps;
    var (infos, anki) := AskNotesInfo(s.env, w.anki, [id]);
    var w1 := w.(anki := anki);
    ReconcileAnswered(s, w, job, id);
    assert infos.value[0] == InfoOf(w.anki, id);
    if Adoptable(infos.value, job.card.noteType) {
      AdoptEffect(s, w1, job, id);
      AdoptKey(s, w1, job, id);
      SmoothSuffix(s, w, w1, Adopt(s, w1, job, id).world);
    } else {
      AddNewEffect(s, w1, job);
      Keyed1(s, w1, job);
      SmoothSuffix(s, w, w1, AddNew(s, w1, job).world);
    }
  }

  lemma AdoptKey(s: Setup, w: World, job: Job, id: int)
    ensures Adopt(s, w, job, id).outcome.key == Some(job.key)
  {
    hide Upload, WriteNote;
  }

  lemma ReconcileAnswered(s: Setup, w: World, job: Job, id: int)
    requires Filed(w) && Smooth(s, w, Reconcile(s, w, job, id).world)
    ensures !s.env.down(w.anki.clock)
  {
    hide AddNew, Adopt, Keeps;
    var w1 := w.(anki := AskNotesInfo(s.env, w.anki, [id]).1);
    AddNewEffect(s, w1, job);
    KeepsOn(w1, AddNew(s, w1, job).world, {});
    if id in w.anki.notes {
      AdoptEffect(s, w1, job, id);
      KeepsOn(w1, Adopt(s, w1, job, id).world, {id});
    }
    assert w.anki.clock < w1.anki.clock;
  }

  // ------------------------------------------------------------------ whole runs

  /** One outcome for each entry, in order and under its key, the deletions behind them. An
      entry whose identifier another one claims, too, is reported failed and changes nothing. */
  lemma {:induction false} OneOutcomeEach(s: Setup, entries: seq<Entry>, w: World, n: nat)
    requires n <= |entries|
    ensures var pass := Sweep(s, entries, w, n);
      && |pass.outcomes| == n
      && forall i :: 0 <= i < n ==>
           && pass.outcomes[i].key == Some(entries[i].key)
           && (ClaimedTwice(entries, i) ==>
               pass.outcomes[i] == Outcome(Some(entries[i].key), Failed, entries[i].noteId))
  {
    hide Process, Sweep;
    if n == 0 {
      SweepStart(s, entries, w);
    } else {
      OneOutcomeEach(s, entries, w, n - 1);
      SweepNext(s, entries, w, n - 1);
      ProcessKey(s, Sweep(s, entries, w, n - 1).world, entries[n - 1]);
      if ClaimedTwice(entries, n - 1) { TwiceDuplicated(entries, n - 1); }
    }
  }

  predicate ClaimedTwice(entries: seq<Entry>, i: nat)
    requires i < |entries|
  {
    entries[i].noteId.Some? && exists j :: 0 <= j < |entries| && j != i && entries[j].noteId == entries[i].noteId
  }

  /** Counting claims finds exactly the identifiers that two entries claim. */
  lemma DuplicatedExactly(entries: seq<Entry>, i: nat)
    requires i < |entries|
    ensures Duplicated(entries, entries[i]) <==> ClaimedTwice(entries, i)
  {
    if ClaimedTwice(entries, i) { TwiceDuplicated(entries, i); }
    if Duplicated(entries, entries[i]) { CountedTwice(entries, entries[i].noteId.value, i); }
  }

  lemma TwiceDuplicated(entries: seq<Entry>, i: nat)
    requires i < |entries| && ClaimedTwice(entries, i)
    ensures Duplicated(entries, entries[i])
  {
    var j :| 0 <= j < |entries| && j != i && entries[j].noteId == entries[i].noteId;
    if i < j { ClaimantsCount(entries, i, j, entries[i].noteId.value); }
    else { ClaimantsCount(entries, j, i, entries[i].noteId.value); }
  }

  lemma {:induction false} CountedTwice(entries: seq<Entry>, id: int, i: nat)
    requires i < |entries| && entries[i].noteId == Some(id) && Claimants(entries, id) > 1
    ensures exists j :: 0 <= j < |entries| && j != i && entries[j].noteId == Some(id)
  {
    var n := |entries| - 1;
    if i < n && entries[n].noteId != Some(id) {
      assert entries[..n][i] == entries[i];
      CountedTwice(entries[..n], id, i);
      var j :| 0 <= j < n && j != i && entries[..n][j].noteId == Some(id);
      assert entries[j].noteId == Some(id);
    } else if i == n {
      var j := SomeClaimant(entries[..n], id);
      assert entries[j].noteId == Some(id);
    }
  }

  lemma {:induction false} SomeClaimant(entries: seq<Entry>, id: int) returns (j: nat)
    requires Claimants(entries, id) > 0
    ensures j < |entries| && entries[j].noteId == Some(id)
  {
    var n := |entries| - 1;
    if entries[n].noteId == Some(id) { return n; }
    j := SomeClaimant(entries[..n], id);
  }

  lemma ProcessKey(s: Setup, w: World, e: Entry)
    ensures Process(s, w, e).outcome.key == Some(e.key)
  {
    hide Upload, EnsureDeck, WriteNote, MoveDeck, ResolveFields, Prepared;
  }

  /** The path the scan saw an identifier at first. */
  predicate FirstSeen(census: seq<Sighting>, id: int, path: string) {
    exists i :: 0 <= i < |census| && SeenFirstAt(census, id, i) && census[i].sourcePath == path
  }

  predicate SeenFirstAt(census: seq<Sighting>, id: int, i: nat)
    requires i < |census|
  {
    census[i].noteId == id && forall j :: 0 <= j < i ==> census[j].noteId != id
  }

  lemma {:induction false} FirstPathIs(census: seq<Sighting>, id: int)
    ensures FirstPath(census, id).Some? ==> FirstSeen(census, id, FirstPath(census, id).value)
  {
    if census != [] && census[0].noteId != id {
      FirstPathIs(census[1..], id);
      if FirstPath(census[1..], id).Some? {
        var path := FirstPath(census[1..], id).value;
        var i :| 0 <= i < |census[1..]| && SeenFirstAt(census[1..], id, i) && census[1..][i].sourcePath == path;
        forall j | 0 <= j < i + 1
          ensures census[j].noteId != id { if j > 0 { assert census[j] == census[1..][j - 1]; } }
        assert SeenFirstAt(census, id, i + 1) && census[i + 1].sourcePath == path;
      }
    } else if census != [] {
      assert SeenFirstAt(census, id, 0) && census[0].sourcePath == FirstPath(census, id).value;
    }
  }

  /** After a run every record is as the entries left it, at the path the scan saw it first. */
  lemma RecordsRelocate(s: Setup, req: Request, w: World, id: int)
    requires Filed(w) && id in Run(s, req, w).world.reg
    ensures var w1, w3 := AfterEntries(s, req, w).world, Run(s, req, w).world;
      && id in w1.reg && w3.reg[id].(sourcePath := w1.reg[id].sourcePath) == w1.reg[id]
      && (Reported(req.census, id) ==> FirstSeen(req.census, id, w3.reg[id].sourcePath))
      && (!Reported(req.census, id) ==> w3.reg[id] == w1.reg[id])
  {
    hide Sweep, ConfirmAndDelete, Owned, Excluded, FirstSeen;
    RunFiled(s, req, w);
    var w2 := AfterCensus(s, req, w);
    ConfirmAndDeleteSafe(s, w2, Candidates(w2.reg, req.census, s.config.excludePatterns, w.reg.Keys),
                         s.config.scanComplete);
    FirstPathIs(req.census, id);
  }

  /** If the orphan pass is answered, a run deletes exactly the notes it may delete: recorded
      at its start, seen nowhere by a complete scan, excluded by no pattern at their refreshed
      path, and still what their record says. */
  lemma DeletedExactly(s: Setup, req: Request, w: World, id: int)
    requires Filed(w) && id in w.anki.notes && Smooth(s, AfterCensus(s, req, w), Run(s, req, w).world)
    ensures id !in Run(s, req, w).world.anki.notes <==> MayDelete(s, req, w.reg, AfterCensus(s, req, w), id)
  {
    hide Sweep, Owned, WithCensusPaths, ConfirmAndDelete, Smooth;
    if id !in Run(s, req, w).world.anki.notes { DeletionSafety(s, req, w, id); }
    var w2 := AfterCensus(s, req, w);
    var candidates := Candidates(w2.reg, req.census, s.config.excludePatterns, w.reg.Keys);
    RunFiled(s, req, w);
    if MayDelete(s, req, w.reg, w2, id) {
      OrphansSettle(s, w2, candidates);
      ConfirmAndDeleteSafe(s, w2, candidates, true);
    }
  }

  /** The orphan pass reports one deletion for each note it removed, and no other. */
  lemma DeletionsReported(s: Setup, w: World, candidates: seq<int>, complete: bool, id: int)
    requires id in w.anki.notes
    ensures var pass := ConfirmAndDelete(s, w, candidates, complete);
      Outcome(None, Deleted, Some(id)) in pass.outcomes <==> id !in pass.world.anki.notes
    ensures forall o :: o in ConfirmAndDelete(s, w, candidates, complete).outcomes ==>
              o.action == Deleted && o.key == None && o.noteId.Some?
  {
    hide Owned, Complaints, Confirmed;
    var ids := Confirmed(s, w.reg, Infos(w.anki, candidates));
    if id in ids {
      var i :| 0 <= i < |ids| && ids[i] == id;
      assert Deletions(ids)[i] == Outcome(None, Deleted, Some(id));
    }
  }
}
