/** When exactly a repeated run stays silent: an entry whose record names a note the user
    deleted, and which is not up to date, sends its update again on every run. */
module QuiescenceExact {
  import opened Basics
  import opened Collection
  import opened Ordered
  import opened Planner
  import opened PlannerSafety
  import opened PlannerQuiet
  import opened Quiescence

  // ------------------------------------------------------ the log of mutations grows

  lemma {:induction false} UploadLogs(s: Setup, w: World, uploads: seq<string>)
    ensures |Upload(s, w, uploads).1.anki.log| >= |w.anki.log|
    decreases |uploads|
  {
    if uploads == [] {
    } else if uploads[0] in w.run.uploaded {
      UploadLogs(s, w, uploads[1..]);
    } else {
      var (ok, anki) := DoStoreMedia(s.env, w.anki, uploads[0]);
      if ok {
        UploadLogs(s, w.(anki := anki, run := w.run.(uploaded := w.run.uploaded + {uploads[0]})), uploads[1..]);
      }
    }
  }

  lemma AddNewLogs(s: Setup, w: World, job: Job)
    ensures |AddNew(s, w, job).world.anki.log| >= |w.anki.log|
  {
    hide Upload;
    UploadLogs(s, w, job.uploads);
  }

  lemma ReconcileLogs(s: Setup, w: World, job: Job, stale: int)
    ensures |Reconcile(s, w, job, stale).world.anki.log| >= |w.anki.log|
  {
    hide Upload, AddNew;
    var w1 := w.(anki := Tick(w.anki));
    AddNewLogs(s, w1, job);
    UploadLogs(s, w1, job.uploads);
  }

  lemma UpdateLogs(s: Setup, w: World, job: Job, id: int, prior: Record)
    ensures |Update(s, w, job, id, prior).world.anki.log| >= |w.anki.log|
  {
    hide Upload;
    UploadLogs(s, w, job.uploads);
  }

  lemma BranchLogs(s: Setup, w: World, e: Entry, job: Job)
    ensures |Branch(s, w, e, job).world.anki.log| >= |w.anki.log|
  {
    hide AddNew, Reconcile, Update;
    AddNewLogs(s, w, job);
    if e.noteId.Some? {
      ReconcileLogs(s, w, job, e.noteId.value);
      if e.noteId.value in w.reg { UpdateLogs(s, w, job, e.noteId.value, w.reg[e.noteId.value]); }
    }
  }

  lemma ProcessLogs(s: Setup, w: World, e: Entry)
    ensures |Process(s, w, e).world.anki.log| >= |w.anki.log|
  {
    hide Branch, ResolveFields, Prepared, WithSourceLink, UpToDate;
    var prepared := Prepared(s.rules, RenderType(e.card.noteType), e.card);
    if prepared.Ok? {
      var job := JobOf(s, e, prepared.value);
      ResolveFieldsUntouched(s, w, job.card.noteType, job.fields);
      var (resolved, w1) := ResolveFields(s, w, job.card.noteType, job.fields);
      if resolved.Ok? {
        BranchLogs(s, w1, e, job.(fields := resolved.value));
      }
    }
  }

  lemma StepLogs(s: Setup, entries: seq<Entry>, w: World, e: Entry)
    ensures |EntryStep(s, entries, w, e).world.anki.log| >= |w.anki.log|
  {
    hide Process, Duplicated;
    DuplicateStep(s, entries, w, e);
    ProcessLogs(s, w, e);
  }

  lemma {:induction false} SweepLogs(s: Setup, entries: seq<Entry>, w: World, n: nat, m: nat)
    requires n <= m <= |entries|
    ensures |Sweep(s, entries, w, m).world.anki.log| >= |Sweep(s, entries, w, n).world.anki.log|
    decreases m
  {
    hide Sweep, EntryStep;
    if n < m {
      SweepLogs(s, entries, w, n, m - 1);
      SweepNext(s, entries, w, m - 1);
      StepLogs(s, entries, Sweep(s, entries, w, m - 1).world, entries[m - 1]);
    }
  }

  lemma OrphansLog(s: Setup, w: World, candidates: seq<int>, complete: bool)
    ensures |ConfirmAndDelete(s, w, candidates, complete).world.anki.log| >= |w.anki.log|
  {
    hide Confirmed, Complaints, Infos;
  }

  // ------------------------------------------------------------- one refused update

  lemma ProcessCached(s: Setup, w: World, e: Entry)
    requires Cached(s, w)
    ensures Cached(s, Process(s, w, e).world)
  {
    hide Branch, ResolveFields, Prepared, WithSourceLink, UpToDate, Cached, Unmatched, Smooth;
    var prepared := Prepared(s.rules, RenderType(e.card.noteType), e.card);
    if prepared.Ok? {
      var job := JobOf(s, e, prepared.value);
      ResolveFieldsAnswer(s, w, job);
      var (resolved, w1) := ResolveFields(s, w, job.card.noteType, job.fields);
      if resolved.Ok? {
        BranchCached(s, w1, e, job.(fields := resolved.value));
      }
    }
  }

  lemma {:induction false} SweepCached(s: Setup, entries: seq<Entry>, w: World, n: nat)
    requires n <= |entries| && Cached(s, w)
    ensures Cached(s, Sweep(s, entries, w, n).world)
  {
    hide Sweep, EntryStep, Process, Duplicated, Cached;
    SweepStart(s, entries, w);
    if n > 0 {
      SweepCached(s, entries, w, n - 1);
      SweepNext(s, entries, w, n - 1);
      var before := Sweep(s, entries, w, n - 1).world;
      DuplicateStep(s, entries, before, entries[n - 1]);
      ProcessCached(s, before, entries[n - 1]);
    }
  }

  /** With every request answered, an unsettled entry whose note is gone still sends something. */
  lemma UnreachableSends(s: Setup, w: World, e: Entry)
    requires Filed(w) && Cached(s, w) && !Reachable(s, w, e)
    requires Smooth(s, w, Process(s, w, e).world)
    ensures |Process(s, w, e).world.anki.log| > |w.anki.log|
  {
    hide Branch, ResolveFields, Prepared, WithSourceLink, Cached, Unmatched, Smooth;
    var prepared := Prepared(s.rules, RenderType(e.card.noteType), e.card);
    var job := JobOf(s, e, prepared.value);
    ResolveFieldsUntouched(s, w, job.card.noteType, job.fields);
    ResolveFieldsAnswer(s, w, job);
    var (resolved, w1) := ResolveFields(s, w, job.card.noteType, job.fields);
    var id: int := e.noteId.value;
    assert resolved.Ok?;
    var job1 := job.(fields := resolved.value);
    assert Branch(s, w1, e, job1) == Update(s, w1, job1, id, w1.reg[id]) by { UpdatesRecorded(s, w1, e, job1); }
    SmoothSuffix(s, w, w1, Branch(s, w1, e, job1).world);
    UpdateSends(s, w1, job1, id);
  }

  lemma UpdatesRecorded(s: Setup, w: World, e: Entry, job: Job)
    requires e.noteId.Some? && e.noteId.value in w.reg
    ensures Branch(s, w, e, job) == Update(s, w, job, e.noteId.value, w.reg[e.noteId.value])
  {
  }

  lemma UpdateSends(s: Setup, w: World, job: Job, id: int)
    requires id in w.reg && Smooth(s, w, Update(s, w, job, id, w.reg[id]).world)
    ensures |Update(s, w, job, id, w.reg[id]).world.anki.log| > |w.anki.log|
  {
    hide Upload, Smooth;
    UploadLogs(s, w, job.uploads);
    UploadUntouched(s, w, job.uploads);
  }

  /** An entry with a record is never added anew. */
  lemma RecordedNotAdded(s: Setup, w: World, e: Entry)
    requires Filed(w) && e.noteId.Some? && e.noteId.value in w.reg
    ensures Process(s, w, e).outcome.action != Added
  {
    hide Update, ResolveFields, Prepared, WithSourceLink, UpToDate;
    var prepared := Prepared(s.rules, RenderType(e.card.noteType), e.card);
    if prepared.Ok? {
      var job := JobOf(s, e, prepared.value);
      ResolveFieldsUntouched(s, w, job.card.noteType, job.fields);
      var (resolved, w1) := ResolveFields(s, w, job.card.noteType, job.fields);
      if resolved.Ok? {
        UpdateEffect(s, w1, job.(fields := resolved.value), e.noteId.value);
      }
    }
  }

  /** Identifiers of added notes are new. */
  lemma AddedNew(s: Setup, w: World, e: Entry)
    requires Filed(w)
    ensures var o := Process(s, w, e).outcome; o.action == Added ==> o.noteId.Some? && o.noteId.value >= w.anki.nextId
  {
    hide AddNew, Adopt, Update, ResolveFields, Prepared, WithSourceLink, UpToDate, Keeps;
    var prepared := Prepared(s.rules, RenderType(e.card.noteType), e.card);
    if prepared.Ok? {
      var job := JobOf(s, e, prepared.value);
      ResolveFieldsUntouched(s, w, job.card.noteType, job.fields);
      var (resolved, w1) := ResolveFields(s, w, job.card.noteType, job.fields);
      if resolved.Ok? {
        BranchAddsNew(s, w1, e, job.(fields := resolved.value));
      }
    }
  }

  lemma BranchAddsNew(s: Setup, w: World, e: Entry, job: Job)
    requires Filed(w)
    ensures var o := Branch(s, w, e, job).outcome;
              o.action == Added ==> o.noteId.Some? && o.noteId.value >= w.anki.nextId
  {
    hide AddNew, Adopt, Update, Keeps;
    AddNewEffect(s, w, job);
    if e.noteId.Some? {
      AddNewEffect(s, w.(anki := Tick(w.anki)), job);
      if e.noteId.value in w.reg {
        UpdateEffect(s, w, job, e.noteId.value);
      } else {
        var w1 := w.(anki := Tick(w.anki));
        var infos := Infos(w.anki, [e.noteId.value]);
        if Adoptable(infos, job.card.noteType) {
          assert infos[0] == InfoOf(w.anki, e.noteId.value);
          AdoptEffect(s, w1, job, e.noteId.value);
        }
      }
    }
  }

  lemma {:induction false} SweepAddsNew(s: Setup, entries: seq<Entry>, w: World, n: nat)
    requires n <= |entries| && Filed(w)
    ensures var pass := Sweep(s, entries, w, n);
      forall i :: 0 <= i < n && pass.outcomes[i].action == Added ==>
        pass.outcomes[i].noteId.Some? && pass.outcomes[i].noteId.value >= w.anki.nextId
  {
    hide Sweep, EntryStep, Process, Duplicated, Filed, Keeps, Claimed;
    SweepStart(s, entries, w);
    if n > 0 {
      SweepAddsNew(s, entries, w, n - 1);
      SweepNext(s, entries, w, n - 1);
      SweepSafe(s, entries, w, n - 1);
      var before := Sweep(s, entries, w, n - 1).world;
      KeepsOn(w, before, Claimed(entries));
      DuplicateStep(s, entries, before, entries[n - 1]);
      AddedNew(s, before, entries[n - 1]);
    }
  }

  // ------------------------------------------------------------------ the next run

  /** A fresh memory of the run changes none of these. */
  lemma FreshStart(s: Setup, w: World, w': World, e: Entry)
    ensures var start := w.(run := FRESH);
      && (Filed(w) ==> Filed(start))
      && (Reachable(s, start, e) <==> Reachable(s, w, e))
      && (Smooth(s, w, w') ==> Smooth(s, start, w'))
  {
    hide Settled;
  }

  /** What keeps an entry from being settled outlives the run. */
  lemma StaysUnreachable(s: Setup, req: Request, w: World, i: nat)
    requires Filed(w) && i < |req.entries| && !Reachable(s, w, req.entries[i])
    ensures !Reachable(s, Run(s, req, w).world, req.entries[i])
  {
    hide Sweep, ConfirmAndDelete, Settled, Owned, FirstPath, Candidates;
    RunFiled(s, req, w);
    var w1, w2 := AfterEntries(s, req, w).world, AfterCensus(s, req, w);
    SweepSafe(s, req.entries, w.(run := FRESH), |req.entries|);
    ConfirmAndDeleteSafe(s, w2, Candidates(w2.reg, req.census, s.config.excludePatterns, w.reg.Keys),
                         s.config.scanComplete);
    var w3 := Run(s, req, w).world;
    var e := req.entries[i];
    var id: int := e.noteId.value;
    assert IsDangling(w.(run := FRESH), id);
    assert w1.reg[id] == w.reg[id];
    assert IsDangling(w2, id);
    assert w3.reg[id] == w2.reg[id];
    if Settled(s, w3.reg, e) { SettledAfterwards(s, w3.reg, w.reg, e); }
  }

  /** The heading of a recorded note is not rewritten, and no second one comes to claim it. */
  lemma StaysClaimedOnce(s: Setup, req: Request, w: World, i: nat)
    requires Filed(w) && i < |req.entries| && !Duplicated(req.entries, req.entries[i])
    requires req.entries[i].noteId.Some? && req.entries[i].noteId.value in w.reg
    ensures NextEntries(s, req, w)[i] == req.entries[i]
    ensures !Duplicated(NextEntries(s, req, w), NextEntries(s, req, w)[i])
  {
    hide Process, Duplicated, Filed;
    var entries, start, next := req.entries, w.(run := FRESH), NextEntries(s, req, w);
    var id: int := entries[i].noteId.value;
    FreshStart(s, w, w, entries[i]);
    assert id < w.anki.nextId by { IdentifierUsed(w, id); }
    OutcomeAt(s, entries, start, |entries|, i);
    SweepSafe(s, entries, start, i);
    var before := Sweep(s, entries, start, i).world;
    DuplicateStep(s, entries, before, entries[i]);
    assert id in before.reg;
    RecordedNotAdded(s, before, entries[i]);
    SweepAddsNew(s, entries, start, |entries|);
    forall j | 0 <= j < |entries| && next[j].noteId == Some(id)
      ensures entries[j].noteId == Some(id)
    {
    }
    ClaimantsKept(next, entries, id);
    NotDuplicated(entries, next, entries[i]);
  }

  lemma IdentifierUsed(w: World, id: int)
    requires Filed(w) && id in w.reg
    ensures id < w.anki.nextId
  {
  }

  lemma NotDuplicated(entries: seq<Entry>, next: seq<Entry>, e: Entry)
    requires !Duplicated(entries, e) && e.noteId.Some?
    requires Claimants(next, e.noteId.value) <= Claimants(entries, e.noteId.value)
    ensures !Duplicated(next, e)
  {
  }

  lemma {:induction false} OutcomeAt(s: Setup, entries: seq<Entry>, w: World, n: nat, i: nat)
    requires i < n <= |entries|
    ensures Sweep(s, entries, w, n).outcomes[i] ==
              EntryStep(s, entries, Sweep(s, entries, w, i).world, entries[i]).outcome
  {
    hide EntryStep;
    if i < n - 1 { OutcomeAt(s, entries, w, n - 1, i); }
  }

  /** A run with every request answered sends something if some entry is unsettled and its
      recorded note is gone. */
  lemma UnreachableRunSends(s: Setup, req: Request, w: World, i: nat)
    requires Filed(w) && i < |req.entries| && !Duplicated(req.entries, req.entries[i])
    requires !Reachable(s, w, req.entries[i]) && Smooth(s, w, Run(s, req, w).world)
    ensures |Run(s, req, w).world.anki.log| > |w.anki.log|
  {
    hide Sweep, Process, ConfirmAndDelete, Duplicated, Filed, Reachable, Smooth, Cached, Candidates, WithCensusPaths;
    var entries, start := req.entries, w.(run := FRESH);
    var before := Sweep(s, entries, start, i).world;
    var after := Sweep(s, entries, start, i + 1).world;
    var done := AfterEntries(s, req, w).world;
    FreshStart(s, w, Run(s, req, w).world, entries[i]);
    NothingCached(s, start);
    SweepCached(s, entries, start, i);
    SweepSafe(s, entries, start, i);
    UnreachableKept(s, start, before, entries, entries[i]);
    SweepNext(s, entries, start, i);
    DuplicateStep(s, entries, before, entries[i]);
    Phases(s, req, w);
    ClocksRun(s, entries, start, i);
    SmoothPrefix(s, start, done, Run(s, req, w).world);
    SmoothPrefix(s, start, after, done);
    SmoothSuffix(s, start, before, after);
    UnreachableSends(s, before, entries[i]);
    SweepLogs(s, entries, start, 0, i);
    SweepLogs(s, entries, start, i + 1, |entries|);
    SweepStart(s, entries, start);
    var w2 := AfterCensus(s, req, w);
    OrphansLog(s, w2, Candidates(w2.reg, req.census, s.config.excludePatterns, w.reg.Keys), s.config.scanComplete);
  }

  lemma UnreachableKept(s: Setup, w: World, w': World, entries: seq<Entry>, e: Entry)
    requires Keeps(w, w', Claimed(entries)) && !Reachable(s, w, e)
    ensures !Reachable(s, w', e)
  {
    hide Settled, Claimed;
    if Settled(s, w'.reg, e) { SettledAfterwards(s, w'.reg, w.reg, e); }
  }

  lemma ClocksRun(s: Setup, entries: seq<Entry>, w: World, i: nat)
    requires i < |entries| && Filed(w)
    ensures w.anki.clock <= Sweep(s, entries, w, i).world.anki.clock <= Sweep(s, entries, w, i + 1).world.anki.clock
    ensures Sweep(s, entries, w, i + 1).world.anki.clock <= Sweep(s, entries, w, |entries|).world.anki.clock
  {
    hide Sweep, EntryStep;
    SweepSafe(s, entries, w, i);
    SweepNext(s, entries, w, i);
    StepSafe(s, entries, Sweep(s, entries, w, i).world, entries[i]);
    SweepClocks(s, entries, w, i + 1, |entries|);
  }

  lemma {:induction false} SweepClocks(s: Setup, entries: seq<Entry>, w: World, n: nat, m: nat)
    requires n <= m <= |entries| && Filed(w)
    ensures Sweep(s, entries, w, n).world.anki.clock <= Sweep(s, entries, w, m).world.anki.clock
    decreases m
  {
    hide Sweep, EntryStep, Filed, Keeps;
    if n < m {
      SweepClocks(s, entries, w, n, m - 1);
      SweepSafe(s, entries, w, m - 1);
      SweepNext(s, entries, w, m - 1);
      var before := Sweep(s, entries, w, m - 1).world;
      StepSafe(s, entries, before, entries[m - 1]);
      KeepsOn(before, EntryStep(s, entries, before, entries[m - 1]).world, Mine(entries[m - 1]));
    }
  }

  /** With every request of both runs answered, the second run changes nothing exactly when
      every entry that alone claims a recorded note found it there or needed no update. */
  lemma SecondRunSilentIff(s: Setup, req: Request, w: World, down: nat -> bool, census: seq<Sighting>)
    requires Answered(s, req, w)
    requires Rescanned(req, AfterEntries(s, req, w).outcomes, Run(s, req, w).world.reg, census)
    requires var s2 := s.(env := s.env.(down := down)); var w3 := Run(s, req, w).world;
      Smooth(s2, w3, Run(s2, Request(census, NextEntries(s, req, w)), w3).world)
    ensures var w3 := Run(s, req, w).world;
      var again := Run(s.(env := s.env.(down := down)), Request(census, NextEntries(s, req, w)), w3);
      Silent(w3, again.world) <==> AllReachable(s, req.entries, w)
  {
    hide Sweep, Run, Settled, Duplicated, Reported, Owned, Rescanned, Cached, Filed, Smooth, Reachable,
      WithCensusPaths, Candidates;
    var s2, w3, next := s.(env := s.env.(down := down)), Run(s, req, w).world, NextEntries(s, req, w);
    if AllReachable(s, req.entries, w) {
      SecondRunSilent(s, req, w, down, census);
    } else {
      var i :| 0 <= i < |req.entries| && !Duplicated(req.entries, req.entries[i]) && !Reachable(s, w, req.entries[i]);
      RunFiled(s, req, w);
      UnreachableNamesRecord(s, w, req.entries[i]);
      StaysUnreachable(s, req, w, i);
      StaysClaimedOnce(s, req, w, i);
      ReachableWhateverFails(s, s2, w3, req.entries[i]);
      UnreachableRunSends(s2, Request(census, next), w3, i);
    }
  }

  lemma UnreachableNamesRecord(s: Setup, w: World, e: Entry)
    requires !Reachable(s, w, e)
    ensures e.noteId.Some? && e.noteId.value in w.reg
  {
  }

  lemma ReachableWhateverFails(s: Setup, s2: Setup, w: World, e: Entry)
    requires s2 == s.(env := s.env.(down := s2.env.down)) && !Reachable(s, w, e)
    ensures !Reachable(s2, w, e)
  {
    hide Settled;
    if Settled(s2, w.reg, e) { SettledWhateverFails(s2, s, w.reg, e); }
  }
}
