/** A second run after one in which no request failed: nothing is sent that changes the
    collection, and the registry stays as it is. */
module PlannerQuiet {
  import opened Basics
  import opened Collection
  import opened Ordered
  import opened Planner
  import opened PlannerSafety

  /** The heading after the front end has written an added note's identifier into it. */
  function WrittenBack(e: Entry, o: Outcome): Entry {
    if o.action == Added then e.(noteId := o.noteId) else e
  }

  function WriteBack(entries: seq<Entry>, outcomes: seq<Outcome>): seq<Entry>
    requires |entries| == |outcomes|
  {
    seq(|entries|, i requires 0 <= i < |entries| => WrittenBack(entries[i], outcomes[i]))
  }

  /** The note type is unknown to the collection or lacks a rendered field. */
  predicate Unmatched(s: Setup, job: Job) {
    s.env.models(job.card.noteType).None? || s.rules.matching(s.env.models(job.card.noteType).value, job.fields).None?
  }

  /** Processing the entry would change nothing. */
  predicate Settled(s: Setup, reg: Entries, e: Entry) {
    var prepared := Prepared(s.rules, RenderType(e.card.noteType), e.card);
    prepared.Ok? ==> UpToDate(reg, e.noteId, JobOf(s, e, prepared.value)) || Unmatched(s, JobOf(s, e, prepared.value))
  }

  /** The run's cache of field names is what the collection would answer. */
  ghost predicate Cached(s: Setup, w: World) {
    forall t :: t in w.run.modelFields ==> s.env.models(t) == Some(w.run.modelFields[t])
  }

  /** Only the clock may differ. */
  ghost predicate Silent(w: World, w': World) {
    w'.reg == w.reg && w'.anki.(clock := w.anki.clock) == w.anki
  }

  // ------------------------------------------------------- the first run settles

  lemma {:induction false} UploadCached(s: Setup, w: World, uploads: seq<string>)
    requires Cached(s, w)
    ensures Cached(s, Upload(s, w, uploads).1)
    decreases |uploads|
  {
    if uploads == [] {
    } else if uploads[0] in w.run.uploaded {
      UploadCached(s, w, uploads[1..]);
    } else {
      var (ok, anki) := DoStoreMedia(s.env, w.anki, uploads[0]);
      if ok {
        UploadCached(s, w.(anki := anki, run := w.run.(uploaded := w.run.uploaded + {uploads[0]})), uploads[1..]);
      }
    }
  }

  lemma AddNewCached(s: Setup, w: World, job: Job)
    requires Cached(s, w)
    ensures Cached(s, AddNew(s, w, job).world)
  {
    hide Upload;
    UploadCached(s, w, job.uploads);
  }

  lemma BranchCached(s: Setup, w: World, e: Entry, job: Job)
    requires Cached(s, w)
    ensures Cached(s, Branch(s, w, e, job).world)
  {
    hide Upload, AddNew;
    UploadCached(s, w, job.uploads);
    AddNewCached(s, w, job);
    if e.noteId.Some? && e.noteId.value !in w.reg {
      var (infos, anki) := AskNotesInfo(s.env, w.anki, [e.noteId.value]);
      AddNewCached(s, w.(anki := anki), job);
      UploadCached(s, w.(anki := anki), job.uploads);
    }
  }

  lemma ResolveFieldsAnswer(s: Setup, w: World, job: Job)
    requires Cached(s, w)
    ensures var (resolved, w') := ResolveFields(s, w, job.card.noteType, job.fields);
      && Cached(s, w') && Silent(w, w')
      && (Unmatched(s, job) ==> resolved.Err?)
      && (resolved.Err? && Smooth(s, w, w') ==> Unmatched(s, job))
  {
    assert s.env.down(w.anki.clock) || Smooth(s, w, w.(anki := Tick(w.anki)));
    if job.card.noteType !in w.run.modelFields && s.env.down(w.anki.clock) {
      assert !Smooth(s, w, ResolveFields(s, w, job.card.noteType, job.fields).1);
    }
  }

  /** What the branches that write leave behind: the record of an added or updated entry. */
  lemma BranchSettles(s: Setup, w: World, e: Entry, job: Job)
    requires Filed(w)
    requires e.noteId.Some? && e.noteId.value in w.reg ==>
               w.reg[e.noteId.value].noteType == job.card.noteType && e.noteId.value in w.anki.notes
    requires Smooth(s, w, Branch(s, w, e, job).world)
    ensures var step := Branch(s, w, e, job); var id := step.outcome.noteId;
      && (step.outcome.action == Added || step.outcome.action == Updated)
      && UpToDate(step.world.reg, id, job)
      && (step.outcome.action == Updated ==> id == e.noteId)
      && (step.outcome.action == Added ==>
            && id.value >= w.anki.nextId
            && step.world.reg == w.reg[id.value := RecordOf(job, id.value)]
            && id.value < step.world.anki.nextId)
      && (step.outcome.action == Updated ==> step.world.reg.Keys <= w.reg.Keys + {id.value})
  {
    hide AddNew, Adopt, Update, Keeps;
    if e.noteId.None? {
      AddNewEffect(s, w, job);
    } else if e.noteId.value !in w.reg {
      var (infos, anki) := AskNotesInfo(s.env, w.anki, [e.noteId.value]);
      var w1 := w.(anki := anki);
      if infos.None? || !Adoptable(infos.value, job.card.noteType) {
        AddNewEffect(s, w1, job);
        SmoothSuffix(s, w, w1, AddNew(s, w1, job).world);
      } else {
        assert infos.value[0] == InfoOf(w.anki, e.noteId.value);
        AdoptEffect(s, w1, job, e.noteId.value);
        SmoothSuffix(s, w, w1, Adopt(s, w1, job, e.noteId.value).world);
      }
    } else {
      UpdateEffect(s, w, job, e.noteId.value);
    }
  }

  lemma SmoothSuffix(s: Setup, a: World, b: World, c: World)
    requires Smooth(s, a, c) && a.anki.clock <= b.anki.clock
    ensures Smooth(s, b, c)
  {
  }

  lemma SmoothPrefix(s: Setup, a: World, b: World, c: World)
    requires Smooth(s, a, c) && b.anki.clock <= c.anki.clock
    ensures Smooth(s, a, b)
  {
  }

  /** What processing one entry leaves of it. */
  ghost predicate Leaves(s: Setup, w: World, e: Entry, o: Outcome, w': World) {
    && Settled(s, w'.reg, WrittenBack(e, o))
    && (o.action == Added ==>
          && o.noteId.Some? && w.anki.nextId <= o.noteId.value < w'.anki.nextId
          && o.noteId.value in w'.reg && w'.reg[o.noteId.value].sourcePath == e.card.sourcePath)
    && (forall id :: id in w'.reg && id !in w.reg ==> id in Mine(e) || (o.action == Added && o.noteId == Some(id)))
  }

  /** The entry's note, if it has a record, is there to be updated, or needs no update. */
  ghost predicate Reachable(s: Setup, w: World, e: Entry) {
    e.noteId.Some? && IsDangling(w, e.noteId.value) ==> Settled(s, w.reg, e)
  }

  lemma ProcessSettles(s: Setup, w: World, e: Entry)
    requires Filed(w) && Cached(s, w) && Smooth(s, w, Process(s, w, e).world) && Reachable(s, w, e)
    ensures Cached(s, Process(s, w, e).world)
    ensures Leaves(s, w, e, Process(s, w, e).outcome, Process(s, w, e).world)
  {
    hide Branch, ResolveFields, Prepared, WithSourceLink, Cached, Unmatched, Smooth;
    var prepared := Prepared(s.rules, RenderType(e.card.noteType), e.card);
    if prepared.Ok? {
      var job := JobOf(s, e, prepared.value);
      if !UpToDate(w.reg, e.noteId, job) {
        ResolveFieldsUntouched(s, w, job.card.noteType, job.fields);
        ResolveFieldsAnswer(s, w, job);
        var (resolved, w1) := ResolveFields(s, w, job.card.noteType, job.fields);
        if resolved.Ok? {
          var job1 := job.(fields := resolved.value);
          var step := Branch(s, w1, e, job1);
          BranchCached(s, w1, e, job1);
          SmoothSuffix(s, w, w1, step.world);
          BranchSettles(s, w1, e, job1);
          var e' := WrittenBack(e, step.outcome);
          assert e'.noteId == step.outcome.noteId;
          assert JobOf(s, e', prepared.value) == job;
        }
      }
    }
  }

  // ------------------------------------------------------------- duplicate claims

  lemma {:induction false} ClaimantsCount(entries: seq<Entry>, i: nat, j: nat, id: int)
    requires i < j < |entries| && entries[i].noteId == Some(id) && entries[j].noteId == Some(id)
    ensures Claimants(entries, id) > 1
  {
    var n := |entries| - 1;
    if j < n {
      ClaimantsCount(entries[..n], i, j, id);
    } else {
      ClaimantsOnce(entries[..n], i, id);
    }
  }

  lemma {:induction false} ClaimantsOnce(entries: seq<Entry>, i: nat, id: int)
    requires i < |entries| && entries[i].noteId == Some(id)
    ensures Claimants(entries, id) > 0
  {
    var n := |entries| - 1;
    if i < n {
      ClaimantsOnce(entries[..n], i, id);
    }
  }

  /** Claims that survive the write-back are as many as before. */
  lemma {:induction false} ClaimantsKept(before: seq<Entry>, after: seq<Entry>, id: int)
    requires |before| == |after|
    requires forall i :: 0 <= i < |before| && before[i].noteId == Some(id) ==> after[i].noteId == Some(id)
    ensures Claimants(after, id) >= Claimants(before, id)
  {
    if before == [] {
    } else {
      var n := |before| - 1;
      assert forall i :: 0 <= i < n ==> before[..n][i] == before[i] && after[..n][i] == after[i];
      ClaimantsKept(before[..n], after[..n], id);
    }
  }

  // ----------------------------------------------------------- the whole first run

  lemma SettledKept(s: Setup, w: World, w': World, mine: set<int>, e: Entry)
    requires Settled(s, w.reg, e) && Keeps(w, w', mine)
    requires e.noteId.Some? ==> e.noteId.value !in mine
    ensures Settled(s, w'.reg, e)
  {
    hide Prepared, JobOf, Unmatched;
    if e.noteId.Some? {
      var id: int := e.noteId.value;
      assert id in w.reg ==> id in w'.reg && w'.reg[id] == w.reg[id];
    }
  }

  /** Every identifier the entries claim was handed out earlier. */
  ghost predicate HandedOut(entries: seq<Entry>, w: World) {
    forall i :: 0 <= i < |entries| && entries[i].noteId.Some? ==> entries[i].noteId.value < w.anki.nextId
  }

  /** What a prefix of the entries leaves behind. */
  ghost predicate Swept(s: Setup, entries: seq<Entry>, w: World, n: nat)
    requires n <= |entries|
  {
    var pass := Sweep(s, entries, w, n);
    && (forall i :: 0 <= i < n && !Duplicated(entries, entries[i]) ==>
        Settled(s, pass.world.reg, WrittenBack(entries[i], pass.outcomes[i])))
    && (forall i :: 0 <= i < n && Duplicated(entries, entries[i]) ==> pass.outcomes[i].action == Failed)
    && (forall i :: 0 <= i < n && pass.outcomes[i].action == Added ==>
        FreshRecord(entries[i], pass.outcomes[i], w, pass.world))
    && (forall id :: id in pass.world.reg && id !in w.reg ==> id in Claimed(entries) || IsAdded(pass.outcomes, id))
  }

  ghost predicate FreshRecord(e: Entry, o: Outcome, w: World, w': World) {
    && o.noteId.Some? && w.anki.nextId <= o.noteId.value < w'.anki.nextId
    && o.noteId.value in w'.reg && w'.reg[o.noteId.value].sourcePath == e.card.sourcePath
  }

  predicate IsAdded(outcomes: seq<Outcome>, id: int) {
    exists i :: 0 <= i < |outcomes| && outcomes[i].action == Added && outcomes[i].noteId == Some(id)
  }

  lemma DuplicateStep(s: Setup, entries: seq<Entry>, w: World, e: Entry)
    ensures Duplicated(entries, e) ==>
              EntryStep(s, entries, w, e).world == w && EntryStep(s, entries, w, e).outcome.action == Failed
    ensures !Duplicated(entries, e) ==>
              EntryStep(s, entries, w, e).world == Process(s, w, e).world
                && EntryStep(s, entries, w, e).outcome == Process(s, w, e).outcome
  {
  }

  lemma {:induction false} SweepSettles(s: Setup, entries: seq<Entry>, w: World, n: nat)
    requires n <= |entries| && Filed(w) && Cached(s, w) && HandedOut(entries, w)
    requires AllReachable(s, entries, w)
    requires Smooth(s, w, Sweep(s, entries, w, n).world)
    ensures Cached(s, Sweep(s, entries, w, n).world)
    ensures Swept(s, entries, w, n)
  {
    hide Sweep, EntryStep, Process, Duplicated, Cached, Settled, Filed, Claimed, Smooth, Reachable, Keeps, Swept,
      Leaves;
    SweepStart(s, entries, w);
    if n == 0 {
      NothingSwept(s, entries, w);
    } else {
      var before, after := Sweep(s, entries, w, n - 1).world, Sweep(s, entries, w, n).world;
      var e := entries[n - 1];
      SweepSafe(s, entries, w, n - 1);
      SweepNext(s, entries, w, n - 1);
      StepSafe(s, entries, before, e);
      KeepsOn(before, after, Mine(e));
      KeepsOn(w, before, Claimed(entries));
      DuplicateStep(s, entries, before, e);
      SmoothPrefix(s, w, before, after);
      SweepSettles(s, entries, w, n - 1);
      SmoothSuffix(s, w, before, after);
      if Duplicated(entries, e) {
        SweepGrowsIdle(s, entries, w, n);
      } else {
        ReachableKept(s, w, before, Claimed(entries), e);
        ProcessSettles(s, before, e);
        SweepGrows(s, entries, w, n);
      }
    }
  }

  lemma NothingSwept(s: Setup, entries: seq<Entry>, w: World)
    ensures Swept(s, entries, w, 0)
  {
    hide Settled, Duplicated, FreshRecord, Claimed;
    SweepStart(s, entries, w);
  }

  lemma KeepsOn(w: World, w': World, mine: set<int>)
    requires Keeps(w, w', mine)
    ensures w.anki.clock <= w'.anki.clock && w.anki.nextId <= w'.anki.nextId
  {
  }

  lemma ReachableKept(s: Setup, w: World, w': World, mine: set<int>, e: Entry)
    requires Keeps(w, w', mine) && Reachable(s, w, e)
    ensures Reachable(s, w', e)
  {
    hide Prepared, JobOf, Unmatched;
  }

  lemma SweepGrowsIdle(s: Setup, entries: seq<Entry>, w: World, n: nat)
    requires 0 < n <= |entries| && Swept(s, entries, w, n - 1)
    requires Duplicated(entries, entries[n - 1])
    ensures Swept(s, entries, w, n)
  {
    hide Process, Duplicated, Settled, FreshRecord, Claimed;
    var pass0 := Sweep(s, entries, w, n - 1);
    var pass := Sweep(s, entries, w, n);
    DuplicateStep(s, entries, pass0.world, entries[n - 1]);
    AddedKept(pass0.outcomes, pass.outcomes);
  }

  lemma AddedKept(before: seq<Outcome>, after: seq<Outcome>)
    requires before <= after
    ensures forall id :: IsAdded(before, id) ==> IsAdded(after, id)
  {
  }

  lemma SweepGrows(s: Setup, entries: seq<Entry>, w: World, n: nat)
    requires 0 < n <= |entries| && Swept(s, entries, w, n - 1) && HandedOut(entries, w)
    requires Keeps(w, Sweep(s, entries, w, n - 1).world, Claimed(entries))
    requires Keeps(Sweep(s, entries, w, n - 1).world, Sweep(s, entries, w, n).world, Mine(entries[n - 1]))
    requires !Duplicated(entries, entries[n - 1])
    requires Leaves(s, Sweep(s, entries, w, n - 1).world, entries[n - 1], Sweep(s, entries, w, n).outcomes[n - 1],
                    Sweep(s, entries, w, n).world)
    ensures Swept(s, entries, w, n)
  {
    hide Process, Settled, Duplicated;
    var e := entries[n - 1];
    var pass0 := Sweep(s, entries, w, n - 1);
    var pass := Sweep(s, entries, w, n);
    DuplicateStep(s, entries, pass0.world, e);
    assert forall i :: 0 <= i < n - 1 ==> pass.outcomes[i] == pass0.outcomes[i];
    forall i | 0 <= i < n - 1 && pass.outcomes[i].action == Added
      ensures FreshRecord(entries[i], pass.outcomes[i], w, pass.world)
    {
      assert FreshRecord(entries[i], pass0.outcomes[i], w, pass0.world);
    }
    forall i | 0 <= i < n - 1 && !Duplicated(entries, entries[i])
      ensures Settled(s, pass.world.reg, WrittenBack(entries[i], pass.outcomes[i]))
    {
      if pass0.outcomes[i].action == Added {
        assert FreshRecord(entries[i], pass0.outcomes[i], w, pass0.world);
      } else if entries[i].noteId.Some? && entries[i].noteId == e.noteId {
        DistinctClaims(entries, i, n - 1);
      }
      SettledKept(s, pass0.world, pass.world, Mine(e), WrittenBack(entries[i], pass0.outcomes[i]));
    }
    AddedKept(pass0.outcomes, pass.outcomes);
    forall id | id in pass.world.reg && id !in w.reg
      ensures id in Claimed(entries) || IsAdded(pass.outcomes, id)
    {
      if id !in pass0.world.reg && id !in Mine(e) {
        assert pass.outcomes[n - 1].action == Added && pass.outcomes[n - 1].noteId == Some(id);
      }
    }
  }

  lemma DistinctClaims(entries: seq<Entry>, i: nat, j: nat)
    requires i < j < |entries| && entries[i].noteId.Some? && !Duplicated(entries, entries[j])
    ensures entries[i].noteId != entries[j].noteId
  {
    if entries[i].noteId == entries[j].noteId {
      ClaimantsCount(entries, i, j, entries[i].noteId.value);
    }
  }

  // ------------------------------------------------------------- the second run

  /** Every identifier an entry claims was seen by the scan that produced the entries. */
  ghost predicate ClaimsScanned(req: Request) {
    forall i :: 0 <= i < |req.entries| && req.entries[i].noteId.Some? ==>
      Reported(req.census, req.entries[i].noteId.value)
  }

  /** The next scan sees what this one saw, plus the new identifiers at their headings. */
  ghost predicate Rescanned(req: Request, outcomes: seq<Outcome>, reg: Entries, census: seq<Sighting>)
    requires |outcomes| >= |req.entries|
  {
    && (forall id :: id in reg && Reported(req.census, id) ==> FirstPath(census, id) == FirstPath(req.census, id))
    && (forall i :: 0 <= i < |req.entries| && outcomes[i].action == Added && outcomes[i].noteId.Some? ==>
          FirstPath(census, outcomes[i].noteId.value) == Some(req.entries[i].card.sourcePath))
    && (forall id :: id in reg && Reported(census, id) ==> Reported(req.census, id) || IsAdded(outcomes, id))
  }

  lemma SettledSilent(s: Setup, w: World, e: Entry)
    requires Cached(s, w) && Settled(s, w.reg, e)
    ensures Silent(w, Process(s, w, e).world) && Cached(s, Process(s, w, e).world)
    ensures Process(s, w, e).outcome.action == Skipped || Process(s, w, e).outcome.action == Failed
  {
    hide Branch, ResolveFields, Prepared, WithSourceLink, Cached, Unmatched, UpToDate;
    var prepared := Prepared(s.rules, RenderType(e.card.noteType), e.card);
    if prepared.Ok? {
      ResolveFieldsAnswer(s, w, JobOf(s, e, prepared.value));
    }
  }

  lemma {:induction false} SweepSilent(s: Setup, entries: seq<Entry>, w: World, n: nat)
    requires n <= |entries| && Cached(s, w)
    requires forall i :: 0 <= i < |entries| ==> Duplicated(entries, entries[i]) || Settled(s, w.reg, entries[i])
    ensures var pass := Sweep(s, entries, w, n);
      Silent(w, pass.world) && Cached(s, pass.world)
      && forall i :: 0 <= i < n ==> pass.outcomes[i].action == Skipped || pass.outcomes[i].action == Failed
  {
    hide Sweep, EntryStep, Process, Duplicated, Settled, Cached, Silent;
    SweepStart(s, entries, w);
    if n == 0 {
      NothingSilent(w);
    } else {
      SweepSilent(s, entries, w, n - 1);
      SweepNext(s, entries, w, n - 1);
      var before, after := Sweep(s, entries, w, n - 1).world, Sweep(s, entries, w, n).world;
      SilentReg(w, before);
      DuplicateStep(s, entries, before, entries[n - 1]);
      if Duplicated(entries, entries[n - 1]) {
        NothingSilent(before);
      } else {
        SettledSilent(s, before, entries[n - 1]);
      }
      SilentTransitive(w, before, after);
    }
  }

  lemma NothingSilent(w: World)
    ensures Silent(w, w)
  {
  }

  lemma SilentReg(w: World, w': World)
    requires Silent(w, w')
    ensures w'.reg == w.reg
  {
  }

  lemma SilentTransitive(a: World, b: World, c: World)
    requires Silent(a, b) && Silent(b, c)
    ensures Silent(a, c)
  {
  }

  lemma CensusSilent(reg: Entries, census: seq<Sighting>)
    requires Keyed(reg)
    requires forall id :: id in reg && Reported(census, id) ==> FirstPath(census, id) == Some(reg[id].sourcePath)
    ensures WithCensusPaths(reg, census) == reg
  {
    forall id | id in reg
      ensures Relocated(reg[id], census) == reg[id]
    {
      assert reg[id].id == id;
    }
  }

  /** Candidates that are not confirmed orphans provoke a question and nothing else. */
  lemma OrphansSilent(s: Setup, w: World, candidates: seq<int>, complete: bool)
    requires complete ==> forall id :: id in candidates && id in w.reg && id in w.anki.notes ==>
              !Owned(s, w.reg[id], w.anki.notes[id])
    ensures Silent(w, ConfirmAndDelete(s, w, candidates, complete).world)
    ensures ConfirmAndDelete(s, w, candidates, complete).outcomes == []
  {
    hide Owned, Confirmed, Complaints, Infos;
    ConfirmedAre(s, w, candidates);
    var ids := Confirmed(s, w.reg, Infos(w.anki, candidates));
    assert ids == [] || ids[0] in ids;
  }

  /** With every request answered, the candidates whose records stay are exactly those that
      are gone or unowned. */
  lemma OrphansSettle(s: Setup, w: World, candidates: seq<int>)
    requires Filed(w) && Smooth(s, w, ConfirmAndDelete(s, w, candidates, true).world)
    ensures var w' := ConfirmAndDelete(s, w, candidates, true).world;
      forall id :: id in candidates && id in w.reg ==>
        (id in w'.reg <==> !(id in w.anki.notes && Owned(s, w.reg[id], w.anki.notes[id])))
  {
    hide Owned, Confirmed, Complaints, Infos;
    ConfirmedAre(s, w, candidates);
    if candidates != [] {
      assert !s.env.down(w.anki.clock);
      var w1 := w.(anki := Tick(w.anki));
      var ids := Confirmed(s, w.reg, Infos(w.anki, candidates));
      assert ids != [] ==> !s.env.down(w1.anki.clock);
    }
  }

  // ------------------------------------------------------------------ quiescence

  /** What the entries look like when the run after `first` reads them. */
  function NextEntries(s: Setup, req: Request, w: World): seq<Entry> {
    WriteBack(req.entries, Sweep(s, req.entries, w.(run := FRESH), |req.entries|).outcomes)
  }

  /** Every request of the run was answered, and the scan saw what the entries claim. */
  ghost predicate Answered(s: Setup, req: Request, w: World) {
    Filed(w) && HandedOut(req.entries, w) && ClaimsScanned(req) && Smooth(s, w, Run(s, req, w).world)
  }

  ghost predicate AllReachable(s: Setup, entries: seq<Entry>, w: World) {
    forall i :: 0 <= i < |entries| && !Duplicated(entries, entries[i]) ==> Reachable(s, w, entries[i])
  }

  /** A run in which no request failed: none was left unanswered, and no note the entries
      would update was gone. */
  ghost predicate Calm(s: Setup, req: Request, w: World) {
    Answered(s, req, w) && AllReachable(s, req.entries, w)
  }

  /** The registry after the census and orphan passes still settles what the entries left settled. */
  lemma SettledAfterwards(s: Setup, reg: Entries, reg': Entries, e: Entry)
    requires Settled(s, reg, e)
    requires e.noteId.Some? && e.noteId.value in reg ==>
               e.noteId.value in reg' && reg'[e.noteId.value].noteType == reg[e.noteId.value].noteType
                 && reg'[e.noteId.value].hash == reg[e.noteId.value].hash
    ensures Settled(s, reg', e)
  {
    hide Prepared, JobOf, Unmatched;
  }
}
