/** The planner as the program runs it: loops of requests over one client, one registry and
    the memory of one run. Each method is proved to do what the functions of Planner and
    Migration say. */
module Sync {
  import opened Basics
  import opened Collection
  import opened Ordered
  import opened Planner
  import opened PlannerSafety
  import opened Migration

  class Runner {
    const setup: Setup
    const client: Client
    const reg: Registry
    var decksLoaded: bool
    var knownDecks: set<string>
    var modelFields: map<string, seq<string>>
    var uploaded: set<string>

    ghost predicate Valid() {
      client.env == setup.env
    }

    ghost function Now(): World
      reads this, client, reg
    {
      World(client.State(), reg.entries, Session(decksLoaded, knownDecks, modelFields, uploaded))
    }

    constructor (setup: Setup, client: Client, reg: Registry)
      requires client.env == setup.env
      ensures Valid() && this.setup == setup && this.client == client && this.reg == reg
      ensures Now() == World(client.State(), reg.entries, FRESH)
    {
      this.setup, this.client, this.reg := setup, client, reg;
      decksLoaded, knownDecks, modelFields, uploaded := false, {}, map[], {};
    }

    method ResolveFields(noteType: string, fields: Fields) returns (r: Result<Fields, Code>)
      requires Valid()
      modifies this, client
      ensures (r, Now()) == Planner.ResolveFields(setup, old(Now()), noteType, fields)
    {
      var names: seq<string>;
      if noteType in modelFields {
        names := modelFields[noteType];
      } else {
        var fetched := client.ModelFieldNames(noteType);
        if fetched.None? { return Err(AnkiConnectError); }
        modelFields := modelFields[noteType := fetched.value];
        names := fetched.value;
      }
      r := Matched(setup, names, fields);
    }

    method UploadMedia(uploads: seq<string>) returns (ok: bool)
      requires Valid()
      modifies this, client
      ensures (ok, Now()) == Upload(setup, old(Now()), uploads)
    {
      ghost var start := Now();
      for i := 0 to |uploads|
        invariant Upload(setup, Now(), uploads[i..]) == Upload(setup, start, uploads)
      {
        ghost var w := Now();
        assert uploads[i..][0] == uploads[i] && uploads[i..][1..] == uploads[i + 1..];
        if uploads[i] !in uploaded {
          var sent := client.StoreMediaFile(uploads[i]);
          if !sent { return false; }
          uploaded := uploaded + {uploads[i]};
        }
        assert Upload(setup, w, uploads[i..]) == Upload(setup, Now(), uploads[i + 1..]);
      }
      ok := true;
    }

    method EnsureDeck(deck: string) returns (ok: bool)
      requires Valid()
      modifies this, client
      ensures (ok, Now()) == Planner.EnsureDeck(setup, old(Now()), deck)
    {
      if !decksLoaded {
        var names := client.DeckNames();
        knownDecks := if names.Some? then names.value else {};
        decksLoaded := true;
      }
      if deck in knownDecks { return true; }
      ok := client.CreateDeck(deck);
      if ok { knownDecks := knownDecks + {deck}; }
    }

    method AddNewNote(job: Job) returns (o: Outcome, issues: seq<Diagnostic>)
      requires Valid()
      modifies this, client, reg
      ensures Step(o, issues, Now()) == AddNew(setup, old(Now()), job)
    {
      hide Upload, Planner.EnsureDeck;
      var sent := UploadMedia(job.uploads);
      if !sent { return Outcome(Some(job.key), Skipped, None), [Diagnostic(MediaUploadFailed, Some(job.key))]; }
      var ready := EnsureDeck(job.deck);
      if !ready { return Outcome(Some(job.key), Failed, None), [Diagnostic(DeckCreateFailed, Some(job.key))]; }
      var id := client.AddNote(job.deck, job.card.noteType, job.fields, job.card.tags);
      if id.None? { return Outcome(Some(job.key), Failed, None), [Diagnostic(AnkiConnectError, Some(job.key))]; }
      reg.Put(RecordOf(job, id.value));
      o, issues := Outcome(Some(job.key), Added, id), [];
    }

    method Write(job: Job, id: int) returns (ok: bool)
      requires Valid()
      modifies client
      ensures (ok, Now()) == WriteNote(setup, old(Now()), job, id)
    {
      ok := client.UpdateNoteFields(id, job.fields);
      if ok { ok := client.UpdateNoteTags(id, job.card.tags); }
    }

    method Reconcile(job: Job, stale: int) returns (o: Outcome, issues: seq<Diagnostic>)
      requires Valid()
      modifies this, client, reg
      ensures Step(o, issues, Now()) == Planner.Reconcile(setup, old(Now()), job, stale)
    {
      hide Upload, WriteNote, AddNew;
      var infos := client.NotesInfo([stale]);
      if infos.None? || !Adoptable(infos.value, job.card.noteType) {
        o, issues := AddNewNote(job);
        return;
      }
      var sent := UploadMedia(job.uploads);
      if !sent { return Outcome(Some(job.key), Skipped, Some(stale)), [Diagnostic(MediaUploadFailed, Some(job.key))]; }
      var written := Write(job, stale);
      if !written { return Outcome(Some(job.key), Failed, Some(stale)), [Diagnostic(AnkiConnectError, Some(job.key))]; }
      var moved := client.ChangeDeck(stale, job.deck);
      issues := if moved then [] else [Diagnostic(DeckMoveFailed, Some(job.key))];
      reg.Put(RecordOf(job, stale));
      o := Outcome(Some(job.key), Updated, Some(stale));
    }

    method UpdateNote(job: Job, id: int, prior: Record) returns (o: Outcome, issues: seq<Diagnostic>)
      requires Valid()
      modifies this, client, reg
      ensures Step(o, issues, Now()) == Update(setup, old(Now()), job, id, prior)
    {
      hide Upload, WriteNote;
      var sent := UploadMedia(job.uploads);
      if !sent { return Outcome(Some(job.key), Skipped, Some(id)), [Diagnostic(MediaUploadFailed, Some(job.key))]; }
      var written := Write(job, id);
      if !written { return Outcome(Some(job.key), Failed, Some(id)), [Diagnostic(AnkiConnectError, Some(job.key))]; }
      var newDeck := prior.deck;
      issues := [];
      if job.deck != prior.deck {
        var infos := client.NotesInfo([id]);
        if infos.None? {
          issues := [Diagnostic(DeckMoveFailed, Some(job.key))];
        } else {
          var moved := client.ChangeDeck(id, job.deck);
          if moved { newDeck := job.deck; } else { issues := [Diagnostic(DeckMoveFailed, Some(job.key))]; }
        }
      }
      reg.Put(Record(id, prior.sourcePath, job.card.noteType, newDeck, job.hash));
      o := Outcome(Some(job.key), Updated, Some(id));
    }

    method ProcessEntry(e: Entry) returns (o: Outcome, issues: seq<Diagnostic>)
      requires Valid()
      modifies this, client, reg
      ensures Step(o, issues, Now()) == Process(setup, old(Now()), e)
    {
      hide AddNew, Planner.Reconcile, Update, Planner.ResolveFields, Prepared, WithSourceLink;
      var prepared := Prepared(setup.rules, RenderType(e.card.noteType), e.card);
      if prepared.Err? {
        return Outcome(Some(e.key), prepared.error.action, e.noteId), [Diagnostic(prepared.error.code, Some(e.key))];
      }
      var job := JobOf(setup, e, prepared.value);
      if e.noteId.Some? {
        var known := reg.Lookup(e.noteId.value);
        if known.Some? && known.value.noteType != job.card.noteType {
          return Outcome(Some(e.key), Skipped, e.noteId), [Diagnostic(NoteTypeChangeUnsupported, Some(e.key))];
        }
        if known.Some? && known.value.hash == job.hash {
          return Outcome(Some(e.key), Skipped, e.noteId), [];
        }
      }
      var resolved := ResolveFields(job.card.noteType, job.fields);
      if resolved.Err? {
        return Outcome(Some(e.key), Failed, e.noteId), [Diagnostic(resolved.error, Some(e.key))];
      }
      job := job.(fields := resolved.value);
      if e.noteId.None? {
        o, issues := AddNewNote(job);
      } else {
        var known := reg.Lookup(e.noteId.value);
        if known.None? {
          o, issues := Reconcile(job, e.noteId.value);
        } else {
          o, issues := UpdateNote(job, e.noteId.value, known.value);
        }
      }
    }

    method ConfirmAndDelete(candidates: seq<int>, scanComplete: bool)
      returns (outcomes: seq<Outcome>, issues: seq<Diagnostic>)
      requires Valid()
      modifies client, reg
      ensures Pass(outcomes, issues, Now()) == Planner.ConfirmAndDelete(setup, old(Now()), candidates, scanComplete)
    {
      hide Confirmed, Complaints;
      outcomes, issues := [], [];
      if !scanComplete { return [], [Diagnostic(DeleteSuppressed, None)]; }
      if candidates == [] { return; }
      var answer := client.NotesInfo(candidates);
      if answer.None? { return [], [Diagnostic(DeleteSuppressed, None)]; }
      var confirmed;
      confirmed, issues := Confirm(answer.value);
      if confirmed == [] { return; }
      var ok := client.DeleteNotes(confirmed);
      if !ok { return [], issues + [Diagnostic(AnkiConnectError, None)]; }
      outcomes := Forget(confirmed);
    }

    /** Sorts the answers into confirmed orphans and complaints about notes not owned. */
    method Confirm(infos: seq<Info>) returns (confirmed: seq<int>, issues: seq<Diagnostic>)
      ensures confirmed == Confirmed(setup, reg.entries, infos)
      ensures issues == Complaints(setup, reg.entries, infos)
    {
      hide Owned;
      confirmed, issues := [], [];
      for i := 0 to |infos|
        invariant confirmed == Confirmed(setup, reg.entries, infos[..i])
        invariant issues == Complaints(setup, reg.entries, infos[..i])
      {
        assert infos[..i + 1][..i] == infos[..i];
        var info := infos[i];
        if info.note.Some? {
          var e := reg.Lookup(info.id);
          if e.Some? {
            if !Owned(setup, e.value, info.note.value) {
              issues := issues + [Diagnostic(DeleteCandidateUnowned, None)];
            } else {
              confirmed := confirmed + [info.id];
            }
          }
        }
      }
      assert infos[..|infos|] == infos;
    }

    method Forget(confirmed: seq<int>) returns (outcomes: seq<Outcome>)
      modifies reg
      ensures reg.entries == old(reg.entries) - (set id | id in confirmed)
      ensures outcomes == Deletions(confirmed)
    {
      outcomes := [];
      for i := 0 to |confirmed|
        invariant reg.entries == old(reg.entries) - (set id | id in confirmed[..i])
        invariant outcomes == Deletions(confirmed[..i])
      {
        assert confirmed[..i + 1] == confirmed[..i] + [confirmed[i]];
        reg.Remove(confirmed[i]);
        outcomes := outcomes + [Outcome(None, Deleted, Some(confirmed[i]))];
      }
      assert confirmed[..|confirmed|] == confirmed;
    }

    /** Refreshes the recorded path of every identifier the census reports, first sighting first. */
    method ReconcileSourcePaths(census: seq<Sighting>)
      requires Keyed(reg.entries)
      modifies reg
      ensures reg.entries == WithCensusPaths(old(reg.entries), census)
    {
      hide WithCensusPaths, Reported;
      ghost var before := reg.entries;
      var seen: set<int> := {};
      PathsAtFirst(before);
      assert census[..0] == [];
      for i := 0 to |census|
        invariant forall id :: id in seen <==> Reported(census[..i], id)
        invariant reg.entries == WithCensusPaths(before, census[..i])
      {
        var c := census[i];
        PathExtended(census, i);
        PathsExtended(before, census, i);
        if c.noteId !in seen {
          seen := seen + {c.noteId};
          var e := reg.Lookup(c.noteId);
          if e.Some? { reg.Put(e.value.(sourcePath := c.sourcePath)); }
        }
      }
      assert census[..|census|] == census;
    }

    method ComputeCandidates(census: seq<Sighting>, eligible: set<int>) returns (candidates: seq<int>)
      requires Keyed(reg.entries)
      ensures candidates == Candidates(reg.entries, census, setup.config.excludePatterns, eligible)
    {
      hide Excluded, Reported, CandidatesAmong, Sorted;
      var inCensus := Seen(census);
      candidates := [];
      var all := reg.All();
      ghost var ids := Sorted(reg.entries.Keys);
      assert ids[..0] == [];
      NoneAmong(reg.entries, census, setup.config.excludePatterns, eligible);
      for i := 0 to |all|
        invariant candidates == CandidatesAmong(ids[..i], reg.entries, census, setup.config.excludePatterns, eligible)
      {
        AmongExtended(ids, i, reg.entries, census, setup.config.excludePatterns, eligible);
        var e := all[i];
        assert e.id == ids[i];
        if e.id in eligible && e.id !in inCensus {
          var excluded := MatchesAnyExclusion(e.sourcePath, setup.config.excludePatterns);
          if !excluded { candidates := candidates + [e.id]; }
        }
      }
      assert ids[..|ids|] == ids;
    }

    /** How often the first n entries claim each identifier. */
    static method CountClaimants(entries: seq<Entry>) returns (claimants: map<int, nat>)
      ensures forall id :: (if id in claimants then claimants[id] else 0) == Claimants(entries, id)
    {
      claimants := map[];
      for i := 0 to |entries|
        invariant forall id :: (if id in claimants then claimants[id] else 0) == Claimants(entries[..i], id)
      {
        assert entries[..i + 1][..i] == entries[..i];
        if entries[i].noteId.Some? {
          var id: int := entries[i].noteId.value;
          claimants := claimants[id := (if id in claimants then claimants[id] else 0) + 1];
        }
      }
      assert entries[..|entries|] == entries;
    }

    method RunEntries(entries: seq<Entry>) returns (results: seq<Outcome>, errs: seq<Diagnostic>)
      requires Valid()
      modifies this, client, reg
      ensures Pass(results, errs, Now()) == Sweep(setup, entries, old(Now()), |entries|)
    {
      hide Process;
      var claimants := CountClaimants(entries);
      ghost var start := Now();
      results, errs := [], [];
      for i := 0 to |entries|
        invariant Pass(results, errs, Now()) == Sweep(setup, entries, start, i)
      {
        var entry := entries[i];
        if entry.noteId.Some? && entry.noteId.value in claimants && claimants[entry.noteId.value] > 1 {
          results := results + [Outcome(Some(entry.key), Failed, entry.noteId)];
          errs := errs + [Diagnostic(NoteIdDuplicated, Some(entry.key))];
        } else {
          var res, entryErrs := ProcessEntry(entry);
          if entry.card.orgId != "" && !ValidOrgId(entry.card.orgId) {
            entryErrs := entryErrs + [Diagnostic(OrgIdInvalid, Some(entry.key))];
          }
          results, errs := results + [res], errs + entryErrs;
        }
      }
    }

    /** A whole synchronization run. */
    method Run(req: Request) returns (results: seq<Outcome>, errs: seq<Diagnostic>)
      requires Valid() && Filed(Now()) && Now().run == FRESH
      modifies this, client, reg
      ensures Pass(results, errs, Now()) == Planner.Run(setup, req, old(Now()))
      ensures Filed(Now()) && Dangling(Now()) == Dangling(old(Now()))
    {
      hide Sweep, Planner.ConfirmAndDelete, WithCensusPaths, Candidates;
      ghost var start := Now();
      RunFiled(setup, req, start);
      RunNeverDangles(setup, req, start);
      var preRunIds := reg.entries.Keys;
      results, errs := RunEntries(req.entries);
      ReconcileSourcePaths(req.census);
      var candidates := ComputeCandidates(req.census, preRunIds);
      var delResults, delErrs := ConfirmAndDelete(candidates, setup.config.scanComplete);
      results, errs := results + delResults, errs + delErrs;
    }

    method MigrateOne(e: Entry, counterpart: string) returns (o: Outcome, issues: seq<Diagnostic>)
      requires Valid() && e.noteId.Some?
      modifies this, client, reg
      ensures Step(o, issues, Now()) == Migration.MigrateOne(setup, old(Now()), e, counterpart)
    {
      hide Upload, Planner.EnsureDeck, Planner.ConfirmAndDelete, Planner.ResolveFields, Prepared;
      var skipped := Outcome(Some(e.key), Skipped, e.noteId);
      var prepared := Prepared(setup.rules, RenderType(counterpart), e.card);
      if prepared.Err? { return skipped, [Diagnostic(prepared.error.code, Some(e.key))]; }
      var job := MigrationJob(setup, e, counterpart, prepared.value);
      var resolved := ResolveFields(counterpart, job.fields);
      if resolved.Err? { return skipped, [Diagnostic(resolved.error, Some(e.key))]; }
      job := job.(fields := resolved.value);
      var sent := UploadMedia(job.uploads);
      if !sent { return skipped, [Diagnostic(MediaUploadFailed, Some(e.key))]; }
      var ready := EnsureDeck(job.deck);
      if !ready { return skipped, [Diagnostic(DeckCreateFailed, Some(e.key))]; }
      var newId := client.AddNote(job.deck, counterpart, job.fields, job.card.tags);
      if newId.None? { return skipped, [Diagnostic(MigrationAddFailed, Some(e.key))]; }
      var dropped, delErrs := ConfirmAndDelete([e.noteId.value], true);
      issues := KeyAll(delErrs, e.key);
      reg.Remove(e.noteId.value);
      reg.Put(RecordOf(job, newId.value));
      o := Outcome(Some(e.key), Added, newId);
    }

    static method KeyAll(errs: seq<Diagnostic>, key: string) returns (keyed: seq<Diagnostic>)
      ensures keyed == seq(|errs|, i requires 0 <= i < |errs| => errs[i].(key := Some(key)))
    {
      keyed := [];
      for i := 0 to |errs|
        invariant |keyed| == i && forall j :: 0 <= j < i ==> keyed[j] == errs[j].(key := Some(key))
      {
        keyed := keyed + [errs[i].(key := Some(key))];
      }
    }

    /** A whole migration; a dry run only counts. */
    method Migrate(entries: seq<Entry>, dryRun: bool) returns (results: seq<Outcome>, errs: seq<Diagnostic>)
      requires Valid() && Filed(Now()) && Now().run == FRESH
      modifies this, client, reg
      ensures Pass(results, errs, Now()) == Migrated(setup, entries, old(Now()), dryRun)
      ensures Filed(Now()) && Dangling(Now()) <= Dangling(old(Now()))
    {
      hide Migration.MigrateOne, MigrateSweep, Filed, Dangling, Carries;
      ghost var start := Now();
      NothingMigrated(setup, entries, start, dryRun);
      MigrateNeverDangles(setup, entries, start, dryRun, |entries|);
      results, errs := [], [];
      for i := 0 to |entries|
        invariant Pass(results, errs, Now()) == MigrateSweep(setup, entries, start, dryRun, i)
      {
        MigrateSweepNext(setup, entries, start, dryRun, i);
        var entry := entries[i];
        var target := MigrationTarget(reg.entries, entry);
        if target.None? {
          if Mismatched(reg.entries, entry) {
            results := results + [Outcome(Some(entry.key), Skipped, entry.noteId)];
            errs := errs + [Diagnostic(NoteTypeChangeUnsupported, Some(entry.key))];
          }
        } else if dryRun {
          results := results + [Outcome(Some(entry.key), MigrateCandidate, entry.noteId)];
        } else {
          var res, entryErrs := MigrateOne(entry, target.value);
          results, errs := results + [res], errs + entryErrs;
        }
      }
    }
  }

  method Seen(census: seq<Sighting>) returns (ids: set<int>)
    ensures forall id :: id in ids <==> Reported(census, id)
  {
    ids := {};
    for i := 0 to |census|
      invariant forall id :: id in ids <==> Reported(census[..i], id)
    {
      PathExtended(census, i);
      ids := ids + {census[i].noteId};
    }
    assert census[..|census|] == census;
  }

  lemma PathsAtFirst(reg: Entries)
    ensures WithCensusPaths(reg, []) == reg
    ensures forall id :: !Reported([], id)
  {
    forall id | id in reg
      ensures WithCensusPaths(reg, [])[id] == reg[id]
    {
      assert FirstPath([], reg[id].id) == None;
    }
  }

  lemma NoneAmong(reg: Entries, census: seq<Sighting>, patterns: seq<string>, eligible: set<int>)
    ensures CandidatesAmong([], reg, census, patterns, eligible) == []
  {
  }

  lemma AmongExtended(ids: seq<int>, i: nat, reg: Entries, census: seq<Sighting>, patterns: seq<string>,
                      eligible: set<int>)
    requires i < |ids|
    ensures CandidatesAmong(ids[..i + 1], reg, census, patterns, eligible) ==
              CandidatesAmong(ids[..i], reg, census, patterns, eligible)
              + if IsCandidate(reg, census, patterns, eligible, ids[i]) then [ids[i]] else []
  {
    hide IsCandidate;
    assert ids[..i + 1][..i] == ids[..i];
  }

  /** What one more sighting does to the refreshed records. */
  lemma PathsExtended(reg: Entries, census: seq<Sighting>, i: nat)
    requires i < |census| && Keyed(reg)
    ensures var before := WithCensusPaths(reg, census[..i]); var c := census[i];
      && before.Keys == reg.Keys
      && WithCensusPaths(reg, census[..i + 1]) ==
           (if c.noteId in reg && !Reported(census[..i], c.noteId) then
            before[c.noteId := before[c.noteId].(sourcePath := c.sourcePath)]
            else before)
      && forall id :: id in before ==> before[id].id == id
  {
    hide Reported;
    PathExtended(census, i);
    var after := WithCensusPaths(reg, census[..i + 1]);
    var before := WithCensusPaths(reg, census[..i]);
    forall id | id in reg
      ensures before[id].id == id
      ensures after[id] ==
              if census[i].noteId == id && !Reported(census[..i], id) then
                before[id].(sourcePath := census[i].sourcePath)
              else before[id]
    {
      assert reg[id].id == id;
      assert before[id] == Relocated(reg[id], census[..i]) && after[id] == Relocated(reg[id], census[..i + 1]);
    }
    var c := census[i];
    var want := if c.noteId in reg && !Reported(census[..i], c.noteId) then
      before[c.noteId := before[c.noteId].(sourcePath := c.sourcePath)] else before;
    assert after.Keys == reg.Keys && want.Keys == reg.Keys;
    forall id | id in reg
      ensures after[id] == want[id]
    {
    }
    assert after == want;
  }

  /** One more sighting: only an identifier not seen before gets a first path from it. */
  lemma PathExtended(census: seq<Sighting>, i: nat)
    requires i < |census|
    ensures forall id :: FirstPath(census[..i + 1], id) ==
              if Reported(census[..i], id) then FirstPath(census[..i], id)
              else if census[i].noteId == id then Some(census[i].sourcePath) else None
    ensures forall id :: Reported(census[..i + 1], id) <==> Reported(census[..i], id) || census[i].noteId == id
  {
    forall id: int
      ensures FirstPath(census[..i + 1], id) ==
                if Reported(census[..i], id) then FirstPath(census[..i], id)
                else if census[i].noteId == id then Some(census[i].sourcePath) else None
      ensures Reported(census[..i + 1], id) <==> Reported(census[..i], id) || census[i].noteId == id
    {
      assert census[..i + 1] == census[..i] + [census[i]];
      PathAppended(census[..i], census[i], id);
    }
  }

  lemma {:induction false} PathAppended(census: seq<Sighting>, last: Sighting, id: int)
    ensures FirstPath(census + [last], id) ==
              if Reported(census, id) then FirstPath(census, id)
              else if last.noteId == id then Some(last.sourcePath) else None
    ensures Reported(census + [last], id) <==> Reported(census, id) || last.noteId == id
    decreases |census|
  {
    if census == [] {
      assert census + [last] == [last];
    } else {
      assert (census + [last])[1..] == census[1..] + [last];
      PathAppended(census[1..], last, id);
    }
  }

  method ContainsSubstring(text: string, part: string) returns (found: bool)
    ensures found == Occurs(part, text)
  {
    if |part| == 0 {
      assert OccursAt(part, text, 0);
      return true;
    }
    if |part| > |text| { return false; }
    for i := 0 to |text| - |part| + 1
      invariant forall j :: 0 <= j < i ==> !OccursAt(part, text, j)
    {
      if text[i..i + |part|] == part {
        assert OccursAt(part, text, i);
        return true;
      }
    }
    found := false;
  }

  method MatchesAnyExclusion(path: string, patterns: seq<string>) returns (found: bool)
    ensures found == Excluded(path, patterns)
  {
    for k := 0 to |patterns|
      invariant forall j :: 0 <= j < k ==> patterns[j] == "" || !Occurs(patterns[j], path)
    {
      if patterns[k] == "" { continue; }
      var found1 := ContainsSubstring(path, patterns[k]);
      if found1 { return true; }
    }
    found := false;
  }
}
