/** What a synchronization run keeps, whatever requests fail: no record is cut off from its
    note, and only confirmed orphans of the starting registry are deleted. */
module PlannerSafety {
  import opened Basics
  import opened Collection
  import opened Ordered
  import opened Planner

  /** Every record is filed under its own identifier, and no identifier still to be handed
      out is in use. A record may name a note that is gone: the user may have deleted it. */
  ghost predicate Filed(w: World) {
    && Keyed(w.reg)
    && (forall id :: id in w.reg ==> id < w.anki.nextId)
    && (forall id :: id in w.anki.notes ==> id < w.anki.nextId)
  }

  /** The records whose note is gone. */
  ghost function Dangling(w: World): set<int> {
    set id | id in w.reg && IsDangling(w, id)
  }

  /** Every record names a live note. */
  ghost predicate Anchored(w: World) {
    Filed(w) && Dangling(w) == {}
  }

  predicate IsDangling(w: World, id: int) {
    id in w.reg && id !in w.anki.notes
  }

  /** Nothing is lost between two states, and only `mine` and new identifiers differ. */
  ghost predicate Keeps(w: World, w': World, mine: set<int>) {
    && w.anki.nextId <= w'.anki.nextId
    && w.anki.clock <= w'.anki.clock
    && (forall id :: id in w.anki.notes ==> id in w'.anki.notes)
    && (forall id :: id in w.anki.notes && id !in mine ==> w'.anki.notes[id] == w.anki.notes[id])
    && (forall id :: id in w'.anki.notes && id !in w.anki.notes ==> id >= w.anki.nextId)
    && (forall id :: id in w.reg ==> id in w'.reg)
    && (forall id :: id in w.reg && id !in mine ==> w'.reg[id] == w.reg[id])
    && (forall id :: id in w'.reg && id !in w.reg ==> id in mine || id >= w.anki.nextId)
    && (forall id :: IsDangling(w', id) ==> IsDangling(w, id))
    && (forall id :: IsDangling(w, id) ==> IsDangling(w', id) && w'.reg[id] == w.reg[id])
  }

  lemma KeepsTransitive(a: World, b: World, c: World, mine: set<int>, more: set<int>)
    requires Keeps(a, b, mine) && Keeps(b, c, more)
    ensures Keeps(a, c, mine + more)
  {
  }

  /** Requests that prepare a write touch neither notes nor registry. */
  ghost predicate Untouched(w: World, w': World) {
    && w'.reg == w.reg
    && w'.anki.notes == w.anki.notes
    && w'.anki.nextId == w.anki.nextId
    && w.anki.clock <= w'.anki.clock
  }

  /** No request between two readings of the clock fails. */
  ghost predicate Smooth(s: Setup, w: World, w': World) {
    forall t: nat :: w.anki.clock <= t < w'.anki.clock ==> !s.env.down(t)
  }

  lemma {:induction false} UploadUntouched(s: Setup, w: World, uploads: seq<string>)
    ensures Untouched(w, Upload(s, w, uploads).1)
    ensures Smooth(s, w, Upload(s, w, uploads).1) ==> Upload(s, w, uploads).0
    decreases |uploads|
  {
    if uploads == [] {
    } else if uploads[0] in w.run.uploaded {
      UploadUntouched(s, w, uploads[1..]);
    } else {
      var (ok, anki) := DoStoreMedia(s.env, w.anki, uploads[0]);
      if ok {
        UploadUntouched(s, w.(anki := anki, run := w.run.(uploaded := w.run.uploaded + {uploads[0]})), uploads[1..]);
      }
    }
  }

  lemma EnsureDeckUntouched(s: Setup, w: World, deck: string)
    ensures Untouched(w, EnsureDeck(s, w, deck).1)
    ensures Smooth(s, w, EnsureDeck(s, w, deck).1) ==> EnsureDeck(s, w, deck).0
  {
  }

  lemma ResolveFieldsUntouched(s: Setup, w: World, noteType: string, fields: Fields)
    ensures Untouched(w, ResolveFields(s, w, noteType, fields).1)
    ensures ResolveFields(s, w, noteType, fields).1.anki.log == w.anki.log
  {
  }

  /** The add path ends either with exactly one new note and its record, or with neither. */
  lemma AddNewEffect(s: Setup, w: World, job: Job)
    requires Filed(w)
    ensures var step := AddNew(s, w, job); var w' := step.world; var id := w.anki.nextId;
      && Filed(w') && Keeps(w, w', {})
      && (step.outcome.action == Added ==>
            && step.outcome.noteId == Some(id)
            && w'.reg == w.reg[id := RecordOf(job, id)]
            && w'.anki.notes == w.anki.notes[id := Note(job.card.noteType, job.fields, job.card.tags, job.deck)]
            && w'.anki.nextId == id + 1)
      && (step.outcome.action != Added ==> step.outcome.noteId == None && Untouched(w, w'))
      && (Smooth(s, w, w') ==> step.outcome.action == Added)
  {
    hide Upload, EnsureDeck, Keeps;
    UploadUntouched(s, w, job.uploads);
    var (sent, w1) := Upload(s, w, job.uploads);
    if sent {
      EnsureDeckUntouched(s, w1, job.deck);
    }
    AddNewKeeps(w, AddNew(s, w, job).world, job);
  }

  lemma AddNewKeeps(w: World, w': World, job: Job)
    requires Filed(w) && w.anki.clock <= w'.anki.clock
    requires Untouched(w, w')
             || (&& w'.reg == w.reg[w.anki.nextId := RecordOf(job, w.anki.nextId)]
                 && w'.anki.notes ==
                   w.anki.notes[w.anki.nextId := Note(job.card.noteType, job.fields, job.card.tags, job.deck)]
                 && w'.anki.nextId == w.anki.nextId + 1)
    ensures Filed(w') && Keeps(w, w', {})
  {
  }

  lemma WriteNoteEffect(s: Setup, w: World, job: Job, id: int)
    ensures var w' := WriteNote(s, w, job, id).1;
      && w'.reg == w.reg && w'.anki.nextId == w.anki.nextId && w.anki.clock <= w'.anki.clock
      && w'.anki.notes.Keys == w.anki.notes.Keys
      && (forall i :: i in w.anki.notes && i != id ==> w'.anki.notes[i] == w.anki.notes[i])
      && (id in w.anki.notes ==> w'.anki.notes[id].model == w.anki.notes[id].model)
      && (WriteNote(s, w, job, id).0 ==> id in w.anki.notes)
      && (Smooth(s, w, w') && id in w.anki.notes ==> WriteNote(s, w, job, id).0)
  {
  }

  /** One note and its record may differ, and the record only if the note is there. */
  ghost predicate OnlyOne(w: World, w': World, id: int) {
    && w'.anki.nextId == w.anki.nextId && w.anki.clock <= w'.anki.clock
    && w'.anki.notes.Keys == w.anki.notes.Keys
    && (forall i :: i in w.anki.notes && i != id ==> w'.anki.notes[i] == w.anki.notes[i])
    && (w'.reg == w.reg
        || (id in w.anki.notes && id in w'.reg && w'.reg[id].id == id && w'.reg == w.reg[id := w'.reg[id]]))
  }

  lemma OneKeeps(w: World, w': World, id: int)
    requires Filed(w) && OnlyOne(w, w', id)
    ensures Filed(w') && Keeps(w, w', {id})
  {
  }

  lemma AdoptEffect(s: Setup, w: World, job: Job, id: int)
    requires Filed(w) && id in w.anki.notes
    ensures var step := Adopt(s, w, job, id); var w' := step.world;
      && Filed(w') && Keeps(w, w', {id})
      && step.outcome.noteId == Some(id) && step.outcome.action != Added
      && w'.anki.notes.Keys == w.anki.notes.Keys
      && w'.reg == (if step.outcome.action == Updated then w.reg[id := RecordOf(job, id)] else w.reg)
      && (Smooth(s, w, w') ==> step.outcome.action == Updated)
  {
    hide Upload, WriteNote, Keeps, Filed;
    UploadUntouched(s, w, job.uploads);
    var (sent, w1) := Upload(s, w, job.uploads);
    if sent {
      WriteNoteEffect(s, w1, job, id);
    }
    OneKeeps(w, Adopt(s, w, job, id).world, id);
  }

  lemma MoveDeckEffect(s: Setup, w: World, deck: string, id: int, recorded: string)
    ensures var (moved, w') := MoveDeck(s, w, deck, id, recorded);
      && w'.reg == w.reg && w'.anki.nextId == w.anki.nextId && w.anki.clock <= w'.anki.clock
      && w'.anki.notes.Keys == w.anki.notes.Keys
      && (forall i :: i in w.anki.notes && i != id ==> w'.anki.notes[i] == w.anki.notes[i])
      && (Smooth(s, w, w') ==> moved)
  {
  }

  lemma UpdateEffect(s: Setup, w: World, job: Job, id: int)
    requires Filed(w) && id in w.reg
    ensures var step := Update(s, w, job, id, w.reg[id]); var w' := step.world;
      && Filed(w') && Keeps(w, w', {id})
      && step.outcome.noteId == Some(id) && step.outcome.action != Added
      && w'.anki.notes.Keys == w.anki.notes.Keys
      && w'.reg.Keys == w.reg.Keys
      && (step.outcome.action == Updated ==>
            w'.reg[id].noteType == job.card.noteType && w'.reg[id].hash == job.hash
              && w'.reg[id].sourcePath == w.reg[id].sourcePath)
      && (step.outcome.action != Updated ==> w'.reg == w.reg)
      && (step.outcome.action == Updated ==> id in w.anki.notes)
      && (Smooth(s, w, w') && id in w.anki.notes ==> step.outcome.action == Updated)
  {
    hide Upload, WriteNote, MoveDeck, Keeps, Filed;
    UploadUntouched(s, w, job.uploads);
    var (sent, w1) := Upload(s, w, job.uploads);
    if sent {
      WriteNoteEffect(s, w1, job, id);
      var (written, w2) := WriteNote(s, w1, job, id);
      if written {
        MoveDeckEffect(s, w2, job.deck, id, w.reg[id].deck);
      }
    }
    OneKeeps(w, Update(s, w, job, id, w.reg[id]).world, id);
  }

  function Mine(e: Entry): set<int> {
    if e.noteId.Some? then {e.noteId.value} else {}
  }

  lemma ReconcileSafe(s: Setup, w: World, job: Job, stale: int)
    requires Filed(w)
    ensures var w' := Reconcile(s, w, job, stale).world; Filed(w') && Keeps(w, w', {stale})
  {
    hide AddNew, Adopt;
    var (infos, anki) := AskNotesInfo(s.env, w.anki, [stale]);
    var w1 := w.(anki := anki);
    if infos.None? || !Adoptable(infos.value, job.card.noteType) {
      AddNewEffect(s, w1, job);
    } else {
      assert infos.value[0] == InfoOf(w.anki, stale);
      AdoptEffect(s, w1, job, stale);
    }
  }

  lemma ProcessSafe(s: Setup, w: World, e: Entry)
    requires Filed(w)
    ensures var w' := Process(s, w, e).world; Filed(w') && Keeps(w, w', Mine(e))
  {
    hide AddNew, Reconcile, Update, ResolveFields, Prepared, UpToDate;
    var prepared := Prepared(s.rules, RenderType(e.card.noteType), e.card);
    if prepared.Ok? {
      var job := JobOf(s, e, prepared.value);
      if !UpToDate(w.reg, e.noteId, job) {
        ResolveFieldsUntouched(s, w, job.card.noteType, job.fields);
        var (resolved, w1) := ResolveFields(s, w, job.card.noteType, job.fields);
        if resolved.Ok? {
          BranchSafe(s, w1, e, job.(fields := resolved.value));
        }
      }
    }
  }

  lemma BranchSafe(s: Setup, w: World, e: Entry, job: Job)
    requires Filed(w)
    ensures var w' := Branch(s, w, e, job).world; Filed(w') && Keeps(w, w', Mine(e))
  {
    hide AddNew, Reconcile, Update;
    if e.noteId.None? {
      AddNewEffect(s, w, job);
    } else if e.noteId.value !in w.reg {
      ReconcileSafe(s, w, job, e.noteId.value);
    } else {
      UpdateEffect(s, w, job, e.noteId.value);
    }
  }

  /** The identifiers the entries claim. */
  function Claimed(entries: seq<Entry>): set<int> {
    set i | 0 <= i < |entries| && entries[i].noteId.Some? :: entries[i].noteId.value
  }

  lemma {:induction false} SweepSafe(s: Setup, entries: seq<Entry>, w: World, n: nat)
    requires n <= |entries| && Filed(w)
    ensures var w' := Sweep(s, entries, w, n).world; Filed(w') && Keeps(w, w', Claimed(entries))
  {
    hide Sweep, EntryStep, Keeps, Filed;
    SweepStart(s, entries, w);
    if n == 0 {
      KeepsNothing(w);
      KeepsMore(w, w, {}, Claimed(entries));
    } else {
      SweepSafe(s, entries, w, n - 1);
      SweepNext(s, entries, w, n - 1);
      var before, after := Sweep(s, entries, w, n - 1).world, Sweep(s, entries, w, n).world;
      var e := entries[n - 1];
      StepSafe(s, entries, before, e);
      assert Mine(e) <= Claimed(entries);
      KeepsMore(before, after, Mine(e), Claimed(entries));
      KeepsTransitive(w, before, after, Claimed(entries), Claimed(entries));
      assert Claimed(entries) + Claimed(entries) == Claimed(entries);
    }
  }

  lemma StepSafe(s: Setup, entries: seq<Entry>, w: World, e: Entry)
    requires Filed(w)
    ensures var w' := EntryStep(s, entries, w, e).world; Filed(w') && Keeps(w, w', Mine(e))
  {
    hide Process, Duplicated, Keeps, Filed;
    ProcessSafe(s, w, e);
    KeepsNothing(w);
    KeepsMore(w, w, {}, Mine(e));
  }

  lemma SweepStart(s: Setup, entries: seq<Entry>, w: World)
    ensures Sweep(s, entries, w, 0) == Pass([], [], w)
  {
  }

  lemma SweepNext(s: Setup, entries: seq<Entry>, w: World, n: nat)
    requires n < |entries|
    ensures var before := Sweep(s, entries, w, n);
      var step := EntryStep(s, entries, before.world, entries[n]);
      Sweep(s, entries, w, n + 1) == Pass(before.outcomes + [step.outcome], before.issues + step.issues, step.world)
  {
    hide EntryStep;
  }

  lemma KeepsNothing(w: World)
    ensures Keeps(w, w, {})
  {
  }

  lemma KeepsMore(w: World, w': World, mine: set<int>, more: set<int>)
    requires Keeps(w, w', mine) && mine <= more
    ensures Keeps(w, w', more)
  {
  }

  // ------------------------------------------------------------ the orphan pass

  /** What one deletion in the orphan pass is allowed to be. */
  ghost predicate MayDelete(s: Setup, req: Request, start: Entries, w: World, id: int) {
    && s.config.scanComplete
    && id in start && id in w.reg && id in w.anki.notes
    && !Reported(req.census, id)
    && !Excluded(w.reg[id].sourcePath, s.config.excludePatterns)
    && Owned(s, w.reg[id], w.anki.notes[id])
  }

  /** What the confirmation keeps of the candidates it asked about. */
  lemma ConfirmedAre(s: Setup, w: World, candidates: seq<int>)
    ensures forall id :: id in Confirmed(s, w.reg, Infos(w.anki, candidates)) <==>
              id in candidates && id in w.anki.notes && id in w.reg && Owned(s, w.reg[id], w.anki.notes[id])
  {
    hide Owned;
    var infos := Infos(w.anki, candidates);
    forall id | id in candidates && id in w.anki.notes && id in w.reg && Owned(s, w.reg[id], w.anki.notes[id])
      ensures id in Confirmed(s, w.reg, infos)
    {
      var i :| 0 <= i < |candidates| && candidates[i] == id;
      assert infos[i] == InfoOf(w.anki, id) && Orphan(s, w.reg, infos[i]);
    }
    forall id | id in Confirmed(s, w.reg, infos)
      ensures id in candidates && id in w.anki.notes && id in w.reg && Owned(s, w.reg[id], w.anki.notes[id])
    {
      var i :| 0 <= i < |infos| && infos[i].id == id && Orphan(s, w.reg, infos[i]);
      assert infos[i] == InfoOf(w.anki, candidates[i]);
    }
  }

  /** The orphan pass removes notes and records together, and only confirmed candidates. */
  lemma ConfirmAndDeleteSafe(s: Setup, w: World, candidates: seq<int>, complete: bool)
    requires Filed(w)
    ensures var w' := ConfirmAndDelete(s, w, candidates, complete).world;
      && Filed(w')
      && w'.anki.nextId == w.anki.nextId && w.anki.clock <= w'.anki.clock
      && (forall id :: id in w'.anki.notes ==> id in w.anki.notes && w'.anki.notes[id] == w.anki.notes[id])
      && (forall id :: id in w'.reg ==> id in w.reg && w'.reg[id] == w.reg[id])
      && (forall id :: id in w.anki.notes && id !in w'.anki.notes ==>
            complete && id in candidates && id in w.reg && id !in w'.reg && Owned(s, w.reg[id], w.anki.notes[id]))
      && (forall id :: id in w.reg && id !in w'.reg ==> id in candidates && id in w.anki.notes && id !in w'.anki.notes)
      && (forall id :: IsDangling(w', id) <==> IsDangling(w, id))
  {
    hide Owned, Confirmed, Complaints, Infos;
    ConfirmedAre(s, w, candidates);
  }

  lemma CensusPathsSafe(reg: Entries, census: seq<Sighting>)
    requires Keyed(reg)
    ensures var reg' := WithCensusPaths(reg, census);
      Keyed(reg') && reg'.Keys == reg.Keys
      && forall id :: id in reg ==> reg'[id].(sourcePath := reg[id].sourcePath) == reg[id]
  {
  }

  lemma RunFiled(s: Setup, req: Request, w: World)
    requires Filed(w)
    ensures Filed(AfterEntries(s, req, w).world) && Filed(AfterCensus(s, req, w)) && Filed(Run(s, req, w).world)
  {
    hide Sweep, ConfirmAndDelete, WithCensusPaths, Candidates;
    SweepSafe(s, req.entries, w.(run := FRESH), |req.entries|);
    CensusPathsSafe(AfterEntries(s, req, w).world.reg, req.census);
    var w2 := AfterCensus(s, req, w);
    ConfirmAndDeleteSafe(s, w2, Candidates(w2.reg, req.census, s.config.excludePatterns, w.reg.Keys),
                         s.config.scanComplete);
  }

  /** Whatever fails, no phase of a run cuts a record off from its note or drops a record
      already cut off: the records whose note is gone are those of before the run. */
  lemma RunNeverDangles(s: Setup, req: Request, w: World)
    requires Filed(w)
    ensures Dangling(AfterEntries(s, req, w).world) == Dangling(AfterCensus(s, req, w)) ==
              Dangling(Run(s, req, w).world) == Dangling(w)
    ensures Anchored(w) ==> Anchored(AfterEntries(s, req, w).world) && Anchored(AfterCensus(s, req, w))
    ensures Anchored(w) ==> Anchored(Run(s, req, w).world)
  {
    hide Sweep, ConfirmAndDelete, Relocated, Candidates, Owned, Claimed;
    RunFiled(s, req, w);
    var start, w1, w2, w3 :=
      w.(run := FRESH), AfterEntries(s, req, w).world, AfterCensus(s, req, w), Run(s, req, w).world;
    SweepSafe(s, req.entries, start, |req.entries|);
    ConfirmAndDeleteSafe(s, w2, Candidates(w2.reg, req.census, s.config.excludePatterns, w.reg.Keys),
                         s.config.scanComplete);
    assert forall id :: IsDangling(start, id) <==> IsDangling(w, id);
    assert forall id :: IsDangling(w2, id) <==> IsDangling(w1, id);
    assert Dangling(w1) == Dangling(w) && Dangling(w2) == Dangling(w1) && Dangling(w3) == Dangling(w2);
  }

  /** Whatever fails, a run deletes a note only if the starting registry recorded it, the
      scan was complete and saw it nowhere, its refreshed path matches no exclusion, and it
      still is what the registry says was last written to it. */
  lemma DeletionSafety(s: Setup, req: Request, w: World, id: int)
    requires Filed(w)
    requires id in w.anki.notes && id !in Run(s, req, w).world.anki.notes
    ensures MayDelete(s, req, w.reg, AfterCensus(s, req, w), id)
    ensures id !in Run(s, req, w).world.reg
  {
    hide Sweep, ConfirmAndDelete, Owned, WithCensusPaths;
    RunFiled(s, req, w);
    SweepSafe(s, req.entries, w.(run := FRESH), |req.entries|);
    var w2 := AfterCensus(s, req, w);
    ConfirmAndDeleteSafe(s, w2, Candidates(w2.reg, req.census, s.config.excludePatterns, w.reg.Keys),
                         s.config.scanComplete);
  }

  /** A note the starting registry did not record, found, added or adopted, is still there
      at the end, and so is its record if the entries gave it one. */
  lemma NewcomersSurvive(s: Setup, req: Request, w: World, id: int)
    requires Filed(w) && id !in w.reg
    ensures var w1 := AfterEntries(s, req, w).world; var w3 := Run(s, req, w).world;
      && (id in w1.anki.notes ==> id in w3.anki.notes && w3.anki.notes[id] == w1.anki.notes[id])
      && (id in w1.reg ==> id in w3.reg && w3.reg[id] == Relocated(w1.reg[id], req.census))
  {
    hide Sweep, ConfirmAndDelete, Owned, Relocated;
    RunFiled(s, req, w);
    SweepSafe(s, req.entries, w.(run := FRESH), |req.entries|);
    var w2 := AfterCensus(s, req, w);
    ConfirmAndDeleteSafe(s, w2, Candidates(w2.reg, req.census, s.config.excludePatterns, w.reg.Keys),
                         s.config.scanComplete);
  }

  /** A note no entry claims is either exactly as before or gone with its record. */
  lemma UnclaimedUntouched(s: Setup, req: Request, w: World, id: int)
    requires Filed(w) && id in w.anki.notes && id !in Claimed(req.entries)
    ensures var w3 := Run(s, req, w).world;
      id in w3.anki.notes ==> w3.anki.notes[id] == w.anki.notes[id]
  {
    hide Sweep, ConfirmAndDelete, Owned, WithCensusPaths, Claimed;
    RunFiled(s, req, w);
    SweepSafe(s, req.entries, w.(run := FRESH), |req.entries|);
    var w2 := AfterCensus(s, req, w);
    ConfirmAndDeleteSafe(s, w2, Candidates(w2.reg, req.census, s.config.excludePatterns, w.reg.Keys),
                         s.config.scanComplete);
  }
}
