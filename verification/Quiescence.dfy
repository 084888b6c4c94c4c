/** After a run in which no request failed, the next run on what the front end then sends
    asks nothing that changes the collection and leaves the registry as it is. */
module Quiescence {
  import opened Basics
  import opened Collection
  import opened Ordered
  import opened Planner
  import opened PlannerSafety
  import opened PlannerQuiet

  /** The clock runs forward through the three phases. */
  lemma Phases(s: Setup, req: Request, w: World)
    requires Filed(w)
    ensures w.anki.clock <= AfterEntries(s, req, w).world.anki.clock <= Run(s, req, w).world.anki.clock
    ensures AfterCensus(s, req, w).anki == AfterEntries(s, req, w).world.anki
  {
    hide Sweep, ConfirmAndDelete, WithCensusPaths, Candidates;
    RunFiled(s, req, w);
    SweepSafe(s, req.entries, w.(run := FRESH), |req.entries|);
    var w2 := AfterCensus(s, req, w);
    ConfirmAndDeleteSafe(s, w2, Candidates(w2.reg, req.census, s.config.excludePatterns, w.reg.Keys),
                         s.config.scanComplete);
  }

  lemma FirstRunSwept(s: Setup, req: Request, w: World)
    requires Calm(s, req, w)
    ensures Swept(s, req.entries, w.(run := FRESH), |req.entries|)
    ensures Smooth(s, AfterCensus(s, req, w), Run(s, req, w).world)
  {
    hide Sweep, ConfirmAndDelete, WithCensusPaths, Swept, Run, AfterCensus;
    Phases(s, req, w);
    var start := w.(run := FRESH);
    SmoothPrefix(s, start, AfterEntries(s, req, w).world, Run(s, req, w).world);
    SweepSettles(s, req.entries, start, |req.entries|);
    SmoothSuffix(s, start, AfterCensus(s, req, w), Run(s, req, w).world);
  }

  /** Records made or kept by the entries reach the end of the run unless they are orphans. */
  lemma RecordSurvives(s: Setup, req: Request, w: World, id: int)
    requires Filed(w) && id in AfterEntries(s, req, w).world.reg
    requires id in w.reg ==> Reported(req.census, id)
    ensures id in Run(s, req, w).world.reg
  {
    hide Sweep, ConfirmAndDelete, Owned, Relocated;
    RunFiled(s, req, w);
    var w2 := AfterCensus(s, req, w);
    ConfirmAndDeleteSafe(s, w2, Candidates(w2.reg, req.census, s.config.excludePatterns, w.reg.Keys),
                         s.config.scanComplete);
  }

  /** A record at the end is the one the entries left, at its refreshed path. */
  lemma RecordAtEnd(s: Setup, req: Request, w: World, id: int)
    requires Filed(w) && id in Run(s, req, w).world.reg
    ensures var w1 := AfterEntries(s, req, w).world; var w2 := AfterCensus(s, req, w); var w3 := Run(s, req, w).world;
      && id in w1.reg && w1.reg[id].id == id && w3.reg[id] == Relocated(w1.reg[id], req.census)
      && id in w2.reg && w3.reg[id] == w2.reg[id]
      && (id in w3.anki.notes <==> id in w2.anki.notes)
      && (id in w3.anki.notes ==> w3.anki.notes[id] == w2.anki.notes[id])
  {
    hide Sweep, ConfirmAndDelete, Owned, Relocated;
    RunFiled(s, req, w);
    var w2 := AfterCensus(s, req, w);
    ConfirmAndDeleteSafe(s, w2, Candidates(w2.reg, req.census, s.config.excludePatterns, w.reg.Keys),
                         s.config.scanComplete);
  }

  /** Claimants of one identifier all stay as they were when they collide. */
  lemma StillDuplicated(s: Setup, req: Request, w: World, i: nat)
    requires Calm(s, req, w) && i < |req.entries| && Duplicated(req.entries, req.entries[i])
    ensures Duplicated(NextEntries(s, req, w), NextEntries(s, req, w)[i])
  {
    hide Sweep, Run, Settled, FreshRecord;
    FirstRunSwept(s, req, w);
    var next := NextEntries(s, req, w);
    var id := req.entries[i].noteId.value;
    forall j | 0 <= j < |req.entries| && req.entries[j].noteId == Some(id)
      ensures next[j] == req.entries[j]
    {
      assert Duplicated(req.entries, req.entries[j]);
    }
    ClaimantsKept(req.entries, next, id);
  }

  lemma NextSettled(s: Setup, req: Request, w: World, i: nat)
    requires Calm(s, req, w) && i < |req.entries| && !Duplicated(req.entries, req.entries[i])
    ensures Settled(s, Run(s, req, w).world.reg, NextEntries(s, req, w)[i])
  {
    hide Sweep, Run, Settled, Duplicated, AfterCensus;
    FirstRunSwept(s, req, w);
    var e := NextEntries(s, req, w)[i];
    var outcome := AfterEntries(s, req, w).outcomes[i];
    assert outcome.action == Added ==>
      FreshRecord(req.entries[i], outcome, w.(run := FRESH), AfterEntries(s, req, w).world);
    var reg := AfterEntries(s, req, w).world.reg;
    if e.noteId.Some? {
      var id: int := e.noteId.value;
      if id in reg {
        RecordSurvives(s, req, w, id);
        RecordAtEnd(s, req, w, id);
      }
    }
    SettledAfterwards(s, reg, Run(s, req, w).world.reg, e);
  }

  /** The refreshed paths are those the next scan reports. */
  lemma PathsAgree(s: Setup, req: Request, w: World, census: seq<Sighting>, id: int)
    requires Calm(s, req, w)
    requires Rescanned(req, AfterEntries(s, req, w).outcomes, Run(s, req, w).world.reg, census)
    requires id in Run(s, req, w).world.reg && Reported(census, id)
    ensures FirstPath(census, id) == Some(Run(s, req, w).world.reg[id].sourcePath)
  {
    hide Sweep, Run, Settled, Duplicated, Reported, AfterCensus;
    FirstRunSwept(s, req, w);
    RecordAtEnd(s, req, w, id);
    if !Reported(req.census, id) {
      var outcomes := AfterEntries(s, req, w).outcomes;
      var i :| 0 <= i < |outcomes| && outcomes[i].action == Added && outcomes[i].noteId == Some(id);
      assert FreshRecord(req.entries[i], outcomes[i], w.(run := FRESH), AfterEntries(s, req, w).world);
    }
  }

  /** What the next run would ask about was asked about before, and found not to be owned. */
  lemma CandidatesUnowned(s: Setup, req: Request, w: World, census: seq<Sighting>, id: int)
    requires Calm(s, req, w) && s.config.scanComplete
    requires Rescanned(req, AfterEntries(s, req, w).outcomes, Run(s, req, w).world.reg, census)
    requires IsCandidate(Run(s, req, w).world.reg, census, s.config.excludePatterns, Run(s, req, w).world.reg.Keys, id)
    ensures var w3 := Run(s, req, w).world; id in w3.anki.notes ==> !Owned(s, w3.reg[id], w3.anki.notes[id])
  {
    hide Sweep, ConfirmAndDelete, Settled, Duplicated, Reported, Owned, Excluded, WithCensusPaths;
    FirstRunSwept(s, req, w);
    RecordAtEnd(s, req, w, id);
    RunFiled(s, req, w);
    SinceBefore(s, req, w, census, id);
    var w2 := AfterCensus(s, req, w);
    var candidates := Candidates(w2.reg, req.census, s.config.excludePatterns, w.reg.Keys);
    assert IsCandidate(w2.reg, req.census, s.config.excludePatterns, w.reg.Keys, id);
    OrphansSettle(s, w2, candidates);
  }

  /** A record the next scan does not see is older than the first run, which did not see it either. */
  lemma SinceBefore(s: Setup, req: Request, w: World, census: seq<Sighting>, id: int)
    requires Calm(s, req, w)
    requires Rescanned(req, AfterEntries(s, req, w).outcomes, Run(s, req, w).world.reg, census)
    requires id in Run(s, req, w).world.reg && !Reported(census, id)
    ensures id in w.reg && !Reported(req.census, id)
  {
    hide Sweep, Run, Settled, Duplicated, Reported, AfterCensus;
    FirstRunSwept(s, req, w);
    RecordAtEnd(s, req, w, id);
    AddedReported(s, req, w, census, id);
  }

  lemma AddedReported(s: Setup, req: Request, w: World, census: seq<Sighting>, id: int)
    requires Rescanned(req, AfterEntries(s, req, w).outcomes, Run(s, req, w).world.reg, census)
    ensures IsAdded(AfterEntries(s, req, w).outcomes, id) ==> Reported(census, id)
  {
    hide Sweep, Run, Reported;
    var outcomes := AfterEntries(s, req, w).outcomes;
    if IsAdded(outcomes, id) {
      var i :| 0 <= i < |outcomes| && outcomes[i].action == Added && outcomes[i].noteId == Some(id);
      assert FirstPath(census, id).Some?;
    }
  }

  /** The next run, whatever fails in it. */
  lemma SecondRunSilent(s: Setup, req: Request, w: World, down: nat -> bool, census: seq<Sighting>)
    requires Calm(s, req, w)
    requires Rescanned(req, AfterEntries(s, req, w).outcomes, Run(s, req, w).world.reg, census)
    ensures var w3 := Run(s, req, w).world;
      var again := Run(s.(env := s.env.(down := down)), Request(census, NextEntries(s, req, w)), w3);
      && again.world.reg == w3.reg
      && again.world.anki.(clock := w3.anki.clock) == w3.anki
      && forall i :: 0 <= i < |again.outcomes| ==>
        again.outcomes[i].action == Skipped || again.outcomes[i].action == Failed
  {
    hide Sweep, ConfirmAndDelete, Settled, Duplicated, Reported, Owned, Rescanned, Calm, Cached;
    var s2 := s.(env := s.env.(down := down));
    var w3 := Run(s, req, w).world;
    var next := NextEntries(s, req, w);
    var start := w3.(run := FRESH);
    forall i | 0 <= i < |next|
      ensures Duplicated(next, next[i]) || Settled(s2, start.reg, next[i])
    {
      if Duplicated(req.entries, req.entries[i]) {
        StillDuplicated(s, req, w, i);
      } else {
        NextSettled(s, req, w, i);
        SettledWhateverFails(s, s2, start.reg, next[i]);
      }
    }
    NothingCached(s2, start);
    SweepSilent(s2, next, start, |next|);
    CalmFiled(s, req, w);
    RunFiled(s, req, w);
    forall id | id in w3.reg && Reported(census, id)
      ensures FirstPath(census, id) == Some(w3.reg[id].sourcePath)
    {
      PathsAgree(s, req, w, census, id);
    }
    CensusSilent(w3.reg, census);
    var w2 := Sweep(s2, next, start, |next|).world;
    var candidates := Candidates(w3.reg, census, s.config.excludePatterns, w3.reg.Keys);
    forall id | s.config.scanComplete && id in candidates && id in w3.reg && id in w3.anki.notes
      ensures !Owned(s2, w3.reg[id], w3.anki.notes[id])
    {
      CandidatesUnowned(s, req, w, census, id);
      OwnedWhateverFails(s, s2, w3.reg[id], w3.anki.notes[id]);
    }
    OrphansSilent(s2, w2, candidates, s.config.scanComplete);
  }

  lemma CalmFiled(s: Setup, req: Request, w: World)
    requires Calm(s, req, w)
    ensures Filed(w)
  {
  }

  lemma NothingCached(s: Setup, w: World)
    requires w.run == FRESH
    ensures Cached(s, w)
  {
  }

  lemma SettledWhateverFails(s: Setup, s2: Setup, reg: Entries, e: Entry)
    requires Settled(s, reg, e) && s2 == s.(env := s.env.(down := s2.env.down))
    ensures Settled(s2, reg, e)
  {
  }

  lemma OwnedWhateverFails(s: Setup, s2: Setup, record: Record, note: Note)
    requires s2.rules == s.rules
    ensures Owned(s, record, note) == Owned(s2, record, note)
  {
  }
}
