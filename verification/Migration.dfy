/** Re-homing notes of the stock types onto the program's own types: add first, delete
    the confirmed original afterwards, then swap the registry record. */
module Migration {
  import opened Basics
  import opened Collection
  import opened Ordered
  import opened Planner
  import opened PlannerSafety

  function StockCounterpart(recorded: string): Option<string> {
    if recorded == BASIC then Some(OWN_BASIC) else if recorded == CLOZE then Some(OWN_CLOZE) else None
  }

  /** The type a recorded stock entry moves to, if its declared type agrees. */
  function MigrationTarget(reg: Entries, e: Entry): Option<string> {
    if e.noteId.None? || e.noteId.value !in reg then None
    else
      var recorded := reg[e.noteId.value].noteType;
      var counterpart := StockCounterpart(recorded);
      if counterpart.None? || (e.card.noteType != recorded && e.card.noteType != counterpart.value) then None
      else counterpart
  }

  /** What an entry that is no candidate is reported as: a type mismatch, or nothing. */
  predicate Mismatched(reg: Entries, e: Entry) {
    e.noteId.Some? && e.noteId.value in reg && reg[e.noteId.value].noteType != e.card.noteType
  }

  function Skip(e: Entry, codes: seq<Diagnostic>, w: World): Step {
    Step(Outcome(Some(e.key), Skipped, e.noteId), codes, w)
  }

  function SkipFor(e: Entry, code: Code, w: World): Step {
    Skip(e, [Diagnostic(code, Some(e.key))], w)
  }

  /** The replacement, under the counterpart type. No source link is appended here. */
  function MigrationJob(s: Setup, e: Entry, counterpart: string, draft: Draft): Job {
    var deck := ResolvedDeck(e.card, s.config.defaultDeck);
    var card := e.card.(noteType := counterpart);
    Job(e.key, card, draft.fields, deck, s.rules.hash(counterpart, draft.fields, deck, card.tags), draft.uploads)
  }

  function MigrateOne(s: Setup, w: World, e: Entry, counterpart: string): Step
    requires e.noteId.Some?
  {
    match Prepared(s.rules, RenderType(counterpart), e.card)
    case Err(refusal) => SkipFor(e, refusal.code, w)
    case Ok(draft) =>
      var job := MigrationJob(s, e, counterpart, draft);
      var (resolved, w1) := ResolveFields(s, w, counterpart, job.fields);
      if resolved.Err? then SkipFor(e, resolved.error, w1)
      else Replace(s, w1, e, job.(fields := resolved.value))
  }

  function Replace(s: Setup, w: World, e: Entry, job: Job): Step
    requires e.noteId.Some?
  {
    var (sent, w1) := Upload(s, w, job.uploads);
    if !sent then SkipFor(e, MediaUploadFailed, w1)
    else
      var (ready, w2) := EnsureDeck(s, w1, job.deck);
      if !ready then SkipFor(e, DeckCreateFailed, w2)
      else
        var (id, anki) := DoAddNote(s.env, w2.anki, job.deck, job.card.noteType, job.fields, job.card.tags);
        var w3 := w2.(anki := anki);
        if id.None? then SkipFor(e, MigrationAddFailed, w3)
        else Retire(s, w3, e, job, e.noteId.value, id.value)
  }

  /** The original leaves through the confirmed-delete path; the swap happens either way. */
  function Retire(s: Setup, w: World, e: Entry, job: Job, original: int, id: int): Step {
    var retired := ConfirmAndDelete(s, w, [original], true);
    Step(Outcome(Some(e.key), Added, Some(id)),
         seq(|retired.issues|, i requires 0 <= i < |retired.issues| => retired.issues[i].(key := Some(e.key))),
         Swapped(retired.world, original, RecordOf(job, id)))
  }

  /** The record of the original makes room for that of its replacement. */
  function Swapped(w: World, original: int, record: Record): World {
    w.(reg := (w.reg - {original})[record.id := record])
  }

  /** The outcomes here may be fewer than the entries: an entry with nothing to migrate
      and nothing to complain about is not reported. */
  function MigrateSweep(s: Setup, entries: seq<Entry>, w: World, dryRun: bool, n: nat): Pass
    requires n <= |entries|
  {
    if n == 0 then Pass([], [], w)
    else
      var before := MigrateSweep(s, entries, w, dryRun, n - 1);
      var e := entries[n - 1];
      var step := MigrateStep(s, before.world, e, dryRun);
      if step.None? then before
      else Pass(before.outcomes + [step.value.outcome], before.issues + step.value.issues, step.value.world)
  }

  function MigrateStep(s: Setup, w: World, e: Entry, dryRun: bool): Option<Step> {
    var target := MigrationTarget(w.reg, e);
    if target.None? then
      if Mismatched(w.reg, e) then Some(SkipFor(e, NoteTypeChangeUnsupported, w)) else None
    else if dryRun then Some(Step(Outcome(Some(e.key), MigrateCandidate, e.noteId), [], w))
    else Some(MigrateOne(s, w, e, target.value))
  }

  function Migrated(s: Setup, entries: seq<Entry>, w: World, dryRun: bool): Pass {
    MigrateSweep(s, entries, w.(run := FRESH), dryRun, |entries|)
  }

  // --------------------------------------------------------- one migrated note

  /** One migration either changes nothing that is stored, or adds exactly one note, moves
      the record to it, and removes at most the original, when it is confirmed as owned. */
  ghost predicate Replaced(s: Setup, w: World, original: int, step: Step) {
    if step.outcome.action == Added then
      && step.outcome.noteId == Some(w.anki.nextId)
      && step.world.anki.nextId == w.anki.nextId + 1
      && RecordMoved(w.reg, step.world.reg, original, w.anki.nextId)
      && NoteReplaced(s, w, step.world, original)
    else
      Untouched(w, step.world)
  }

  ghost predicate RecordMoved(reg: Entries, reg': Entries, original: int, id: int) {
    && reg'.Keys == reg.Keys - {original} + {id}
    && forall i :: i in reg && i != original && i != id ==> reg'[i] == reg[i]
  }

  ghost predicate NoteReplaced(s: Setup, w: World, w': World, original: int) {
    var id := w.anki.nextId;
    && id in w'.anki.notes
    && (forall i :: i in w.anki.notes && i != original ==> i in w'.anki.notes && w'.anki.notes[i] == w.anki.notes[i])
    && (forall i :: i in w'.anki.notes && i != id ==> i in w.anki.notes && w'.anki.notes[i] == w.anki.notes[i])
    && (original in w.anki.notes && original !in w'.anki.notes ==>
          original in w.reg && Owned(s, w.reg[original], w.anki.notes[original]))
  }

  lemma RetireEffect(s: Setup, w: World, added: World, e: Entry, job: Job, original: int)
    requires Filed(w) && original in w.reg
    requires added.reg == w.reg && added.anki.nextId == w.anki.nextId + 1
    requires added.anki.notes ==
               w.anki.notes[w.anki.nextId := Note(job.card.noteType, job.fields, job.card.tags, job.deck)]
    ensures var step := Retire(s, added, e, job, original, w.anki.nextId);
      && Filed(step.world)
      && step.outcome.action == Added
      && Replaced(s, w, original, step)
      && step.world.reg[w.anki.nextId] == RecordOf(job, w.anki.nextId)
  {
    hide ConfirmAndDelete, Owned, NoteReplaced, RecordMoved;
    var id := w.anki.nextId;
    assert original != id;
    ConfirmAndDeleteSafe(s, added, [original], true);
    var retired := ConfirmAndDelete(s, added, [original], true).world;
    RetiredRecords(w.reg, retired.reg, original, RecordOf(job, id));
    RetiredNotes(s, w, added, retired, original);
    NoteReplacedAgain(s, w, retired, Swapped(retired, original, RecordOf(job, id)), original);
  }

  lemma RetiredRecords(reg: Entries, retired: Entries, original: int, record: Record)
    requires forall i :: i in retired ==> i in reg && retired[i] == reg[i]
    requires forall i :: i in reg && i != original ==> i in retired
    ensures RecordMoved(reg, (retired - {original})[record.id := record], original, record.id)
  {
    var left := retired - {original};
    forall i: int
      ensures i in left.Keys <==> i in reg.Keys - {original}
    {
      assert i in reg && i != original ==> i in retired;
    }
    assert left.Keys == reg.Keys - {original};
  }

  lemma RetiredNotes(s: Setup, w: World, added: World, retired: World, original: int)
    requires Filed(w) && original in w.reg && added.reg == w.reg
    requires added.anki.notes.Keys == w.anki.notes.Keys + {w.anki.nextId}
    requires forall i :: i in w.anki.notes ==> added.anki.notes[i] == w.anki.notes[i]
    requires forall i :: i in retired.anki.notes ==>
              i in added.anki.notes && retired.anki.notes[i] == added.anki.notes[i]
    requires forall i :: i in added.anki.notes && i !in retired.anki.notes ==>
               i == original && i in added.reg && Owned(s, added.reg[i], added.anki.notes[i])
    ensures NoteReplaced(s, w, retired, original)
  {
    hide Owned;
  }

  lemma NoteReplacedAgain(s: Setup, w: World, w1: World, w2: World, original: int)
    requires NoteReplaced(s, w, w1, original) && w2.anki == w1.anki
    ensures NoteReplaced(s, w, w2, original)
  {
    hide Owned;
  }

  lemma ReplaceEffect(s: Setup, w: World, e: Entry, job: Job)
    requires Filed(w) && e.noteId.Some? && e.noteId.value in w.reg
    ensures var step := Replace(s, w, e, job);
      && Filed(step.world)
      && Replaced(s, w, e.noteId.value, step)
      && (step.outcome.action == Added ==> step.world.reg[w.anki.nextId] == RecordOf(job, w.anki.nextId))
      && (step.outcome.action == Added || step.outcome.action == Skipped)
  {
    hide Upload, EnsureDeck, Retire, Owned;
    UploadUntouched(s, w, job.uploads);
    var (sent, w1) := Upload(s, w, job.uploads);
    if sent {
      EnsureDeckUntouched(s, w1, job.deck);
      var (ready, w2) := EnsureDeck(s, w1, job.deck);
      if ready && !s.env.down(w2.anki.clock) {
        var (id, anki) := DoAddNote(s.env, w2.anki, job.deck, job.card.noteType, job.fields, job.card.tags);
        RetireEffect(s, w, w2.(anki := anki), e, job, e.noteId.value);
      }
    }
  }

  lemma MigrateOneEffect(s: Setup, w: World, e: Entry, counterpart: string)
    requires Filed(w) && e.noteId.Some? && e.noteId.value in w.reg
    ensures var step := MigrateOne(s, w, e, counterpart);
      && Filed(step.world)
      && Replaced(s, w, e.noteId.value, step)
      && (step.outcome.action == Added || step.outcome.action == Skipped)
      && (step.outcome.action == Added ==> step.world.reg[w.anki.nextId].noteType == counterpart)
  {
    hide Replace, ResolveFields, Prepared, Owned;
    var prepared := Prepared(s.rules, RenderType(counterpart), e.card);
    if prepared.Ok? {
      var job := MigrationJob(s, e, counterpart, prepared.value);
      ResolveFieldsUntouched(s, w, counterpart, job.fields);
      var (resolved, w1) := ResolveFields(s, w, counterpart, job.fields);
      if resolved.Ok? {
        ReplaceEffect(s, w1, e, job.(fields := resolved.value));
      }
    }
  }

  // --------------------------------------------------------------- the whole run

  /** No note is lost without a replacement. */
  lemma ReplacedNotFewer(s: Setup, w: World, original: int, step: Step)
    requires Filed(w) && Replaced(s, w, original, step)
    ensures |step.world.anki.notes| >= |w.anki.notes|
  {
    hide Owned;
    if step.outcome.action == Added {
      var id := w.anki.nextId;
      var kept := step.world.anki.notes.Keys - {id};
      forall i | i in w.anki.notes.Keys && i != original
        ensures i in kept
      {
      }
      NoMoreThan(w.anki.notes.Keys, kept + {original});
    }
  }

  lemma NoMoreThan(a: set<int>, b: set<int>)
    requires a <= b
    ensures |a| <= |b|
  {
    assert b == a + (b - a);
  }

  /** What migration, one step or many, keeps. */
  ghost predicate Carries(w: World, w': World) {
    && w'.anki.nextId >= w.anki.nextId
    && |w'.anki.notes| >= |w.anki.notes|
    && |w'.reg| == |w.reg|
    && (forall id :: id in w'.reg ==> id in w.reg || id >= w.anki.nextId)
    && (forall id :: id in w.anki.notes && id !in w.reg ==>
        id in w'.anki.notes && w'.anki.notes[id] == w.anki.notes[id])
    && (forall id :: IsDangling(w', id) ==> IsDangling(w, id))
  }

  lemma StepCarries(s: Setup, w: World, e: Entry, dryRun: bool)
    requires Filed(w)
    ensures var step := MigrateStep(s, w, e, dryRun);
      step.Some? ==> Filed(step.value.world) && Carries(w, step.value.world)
  {
    hide MigrateOne, Owned, Replaced, Carries, Filed;
    CarriesNothing(w);
    var target := MigrationTarget(w.reg, e);
    if target.Some? && !dryRun {
      var original: int := e.noteId.value;
      var step := MigrateOne(s, w, e, target.value);
      MigrateOneEffect(s, w, e, target.value);
      OneCarries(s, w, original, step);
    }
  }

  lemma OneCarries(s: Setup, w: World, original: int, step: Step)
    requires Filed(w) && original in w.reg && Replaced(s, w, original, step)
    ensures Carries(w, step.world)
  {
    hide Owned, Replaced, NoteReplaced, RecordMoved;
    ReplacedNotFewer(s, w, original, step);
    RecordsSwapped(s, w, original, step);
    OneCarriesMaps(s, w, original, step);
  }

  /** What one migration does to single records and notes. */
  lemma OneCarriesMaps(s: Setup, w: World, original: int, step: Step)
    requires Filed(w) && original in w.reg && Replaced(s, w, original, step)
    ensures var w' := step.world;
      && w'.anki.nextId >= w.anki.nextId
      && (forall id :: id in w'.reg ==> id in w.reg || id >= w.anki.nextId)
      && (forall id :: id in w.anki.notes && id !in w.reg ==>
          id in w'.anki.notes && w'.anki.notes[id] == w.anki.notes[id])
      && (forall id :: IsDangling(w', id) ==> IsDangling(w, id))
  {
    hide Owned;
  }

  lemma CarriesTransitive(a: World, b: World, c: World)
    requires Filed(a) && Carries(a, b) && Carries(b, c)
    ensures Carries(a, c)
  {
    assert forall id :: id in a.anki.notes && id !in a.reg ==> id !in b.reg;
  }

  lemma CarriesNothing(w: World)
    ensures Carries(w, w)
  {
  }

  lemma NothingMigrated(s: Setup, entries: seq<Entry>, w: World, dryRun: bool)
    ensures MigrateSweep(s, entries, w, dryRun, 0) == Pass([], [], w)
  {
  }

  lemma MigrateSweepNext(s: Setup, entries: seq<Entry>, w: World, dryRun: bool, n: nat)
    requires n < |entries|
    ensures var before := MigrateSweep(s, entries, w, dryRun, n);
      MigrateSweep(s, entries, w, dryRun, n + 1) ==
        match MigrateStep(s, before.world, entries[n], dryRun)
        case None => before
        case Some(step) => Pass(before.outcomes + [step.outcome], before.issues + step.issues, step.world)
  {
    hide MigrateStep;
  }

  lemma SweepWorld(s: Setup, entries: seq<Entry>, w: World, dryRun: bool, n: nat)
    requires n <= |entries|
    ensures n == 0 ==> MigrateSweep(s, entries, w, dryRun, n).world == w
    ensures n > 0 ==>
              var before := MigrateSweep(s, entries, w, dryRun, n - 1).world;
              var step := MigrateStep(s, before, entries[n - 1], dryRun);
              MigrateSweep(s, entries, w, dryRun, n).world == if step.None? then before else step.value.world
  {
    hide MigrateStep;
  }

  /** Whatever fails, migration cuts no record off from its note, never shrinks the
      collection or the registry, and leaves every unrecorded note exactly as it was. */
  lemma {:induction false} MigrateNeverDangles(s: Setup, entries: seq<Entry>, w: World, dryRun: bool, n: nat)
    requires n <= |entries| && Filed(w)
    ensures var w' := MigrateSweep(s, entries, w, dryRun, n).world;
      Filed(w') && Carries(w, w') && Dangling(w') <= Dangling(w) && (Anchored(w) ==> Anchored(w'))
  {
    hide MigrateSweep, MigrateStep, Filed, Carries;
    SweepWorld(s, entries, w, dryRun, n);
    if n == 0 {
      CarriesNothing(w);
    } else {
      MigrateNeverDangles(s, entries, w, dryRun, n - 1);
      var before := MigrateSweep(s, entries, w, dryRun, n - 1).world;
      StepCarries(s, before, entries[n - 1], dryRun);
      var step := MigrateStep(s, before, entries[n - 1], dryRun);
      if step.Some? {
        CarriesTransitive(w, before, step.value.world);
      }
    }
    CarriesDangling(w, MigrateSweep(s, entries, w, dryRun, n).world);
  }

  lemma CarriesDangling(w: World, w': World)
    requires Carries(w, w')
    ensures Dangling(w') <= Dangling(w)
  {
  }

  lemma RecordsSwapped(s: Setup, w: World, original: int, step: Step)
    requires Filed(w) && original in w.reg && Replaced(s, w, original, step)
    ensures |step.world.reg| == |w.reg|
  {
    hide Owned;
    if step.outcome.action == Added {
      assert w.anki.nextId !in w.reg;
    }
  }

  /** A dry run asks nothing, changes nothing, and reports no new identifier. */
  lemma {:induction false} DryRunTouchesNothing(s: Setup, entries: seq<Entry>, w: World, n: nat)
    requires n <= |entries|
    ensures var pass := MigrateSweep(s, entries, w, true, n);
      && pass.world == w
      && forall i :: 0 <= i < |pass.outcomes| ==>
        pass.outcomes[i].action == MigrateCandidate || pass.outcomes[i].action == Skipped
  {
    if n == 0 {
    } else {
      DryRunTouchesNothing(s, entries, w, n - 1);
    }
  }

  ghost predicate DistinctClaims(entries: seq<Entry>) {
    forall i, j :: 0 <= i < j < |entries| && entries[i].noteId.Some? ==> entries[i].noteId != entries[j].noteId
  }

  /** A step for one entry leaves the records of all other claimed identifiers alone. */
  lemma TargetKept(s: Setup, w: World, e: Entry, other: Entry)
    requires Filed(w)
    requires other.noteId.Some? ==> other.noteId != e.noteId && other.noteId.value < w.anki.nextId
    ensures var step := MigrateStep(s, w, e, false);
      step.Some? ==> MigrationTarget(step.value.world.reg, other) == MigrationTarget(w.reg, other)
  {
    hide MigrateOne, Owned, StockCounterpart;
    var target := MigrationTarget(w.reg, e);
    if target.Some? {
      MigrateOneEffect(s, w, e, target.value);
      if other.noteId.Some? {
        var claimed: int := other.noteId.value;
        var original: int := e.noteId.value;
        assert claimed != original;
      }
    }
  }

  /** The dry run names exactly the entries the real run will try, however the real run goes. */
  lemma {:induction false} DryRunForetells(s: Setup, entries: seq<Entry>, w: World, n: nat, i: nat)
    requires n <= i < |entries| && Filed(w) && DistinctClaims(entries)
    requires entries[i].noteId.Some? ==> entries[i].noteId.value < w.anki.nextId
    ensures var w' := MigrateSweep(s, entries, w, false, n).world;
      MigrationTarget(w'.reg, entries[i]) == MigrationTarget(w.reg, entries[i])
  {
    hide MigrateSweep, MigrateStep, MigrationTarget, Filed;
    SweepWorld(s, entries, w, false, n);
    if n == 0 {
    } else {
      DryRunForetells(s, entries, w, n - 1, i);
      MigrateNeverDangles(s, entries, w, false, n - 1);
      TargetKept(s, MigrateSweep(s, entries, w, false, n - 1).world, entries[n - 1], entries[i]);
    }
  }

  /** Once migrated, an entry is no candidate again, whichever of the two types it declares. */
  lemma MigrationConverges(s: Setup, w: World, e: Entry, e': Entry)
    requires Filed(w) && MigrationTarget(w.reg, e).Some?
    requires MigrateOne(s, w, e, MigrationTarget(w.reg, e).value).outcome.action == Added
    requires e'.noteId == MigrateOne(s, w, e, MigrationTarget(w.reg, e).value).outcome.noteId
    ensures MigrationTarget(MigrateOne(s, w, e, MigrationTarget(w.reg, e).value).world.reg, e') == None
  {
    hide MigrateOne, Owned;
    MigrateOneEffect(s, w, e, MigrationTarget(w.reg, e).value);
  }

  // -------------------------------------------------- the sync after a migration

  /** Equal hashes of two field maps of one note mean equal fields. */
  ghost predicate HashTellsFields(s: Setup, noteType: string, a: Fields, b: Fields, deck: string, tags: seq<string>) {
    s.rules.hash(noteType, a, deck, tags) == s.rules.hash(noteType, b, deck, tags) ==> a == b
  }

  lemma LinkChangesFields(shape: string, orgId: string, fields: Fields)
    ensures WithSourceLink(shape, orgId, fields) == fields <==> !Linked(shape, orgId, fields)
  {
    if Linked(shape, orgId, fields) {
      var name := BackField(shape).value;
      assert |LINK_OPEN| > 0;
      assert |WithSourceLink(shape, orgId, fields)[name]| > |fields[name]|;
    }
  }
}
