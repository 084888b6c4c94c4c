/** What a migration puts in place of a note, and which notes it takes up (migrationTarget and
    migrateOne, internal/anki/planner/migrate.go). */
module MigrationContents {
  import opened Basics
  import opened Collection
  import opened Ordered
  import opened Planner
  import opened PlannerSafety
  import opened PlannerQuiet
  import opened NoteContents
  import opened Migration

  /** A note is taken up exactly when it is recorded under a stock type and its heading declares
      that type or the program's own one, which it is moved to. */
  lemma TargetExactly(reg: Entries, e: Entry, target: string)
    ensures MigrationTarget(reg, e) == Some(target) <==>
              && e.noteId.Some? && e.noteId.value in reg
              && var recorded := reg[e.noteId.value].noteType;
                 && (e.card.noteType == recorded || e.card.noteType == target)
                 && ((recorded == "Basic" && target == "imoogi-Basic")
                     || (recorded == "Cloze" && target == "imoogi-Cloze"))
  {
  }

  /** The fields of the replacement: rendered and through the media pass, without a source
      link, under the names its note type has. */
  ghost predicate ReplacesWith(s: Setup, e: Entry, target: string, plain: Fields, fields: Fields,
                               uploads: seq<string>) {
    && s.rules.gate(e.card).None?
    && (exists rendered ::
          && s.rules.render(RenderType(target), e.card) == Ok(rendered)
          && s.rules.media(e.card.sourcePath, rendered) == Some((plain, uploads)))
    && s.env.models(target).Some?
    && s.rules.matching(s.env.models(target).value, plain) == Some(fields)
  }

  /** The replacement as a note of the new type with its media, and its record. */
  ghost predicate ReplacedBy(s: Setup, e: Entry, target: string, plain: Fields, fields: Fields, uploads: seq<string>,
                             id: int, w: World)
  {
    && ReplacesWith(s, e, target, plain, fields, uploads)
    && id in w.anki.notes && w.anki.notes[id] == Note(target, fields, e.card.tags, DeckOf(s, e))
    && DeckOf(s, e) in w.anki.decks && (forall u :: u in uploads ==> u in w.anki.media)
    && id in w.reg
    && w.reg[id] == Record(id, e.card.sourcePath, target, DeckOf(s, e),
                           s.rules.hash(target, plain, DeckOf(s, e), e.card.tags))
  }

  /** Whatever fails, a migration reported done left the replacement in place. */
  lemma MigratesAs(s: Setup, w: World, e: Entry, target: string)
    requires Filed(w) && Remembers(s, w) && e.noteId.Some? && e.noteId.value in w.reg
    ensures var step := MigrateOne(s, w, e, target);
      step.outcome.action == Added ==>
        exists plain, fields, uploads :: ReplacedBy(s, e, target, plain, fields, uploads, w.anki.nextId, step.world)
  {
    hide Replace, ResolveFields, Remembers, Filed;
    var prepared := Prepared(s.rules, RenderType(target), e.card);
    if prepared.Ok? {
      var job := MigrationJob(s, e, target, prepared.value);
      ResolveFieldsUntouched(s, w, target, job.fields);
      ResolveMatches(s, w, target, job.fields);
      var (resolved, w1) := ResolveFields(s, w, target, job.fields);
      if resolved.Ok? && Replace(s, w1, e, job.(fields := resolved.value)).outcome.action == Added {
        FiledAs(w, w1);
        ReplacePuts(s, w1, e, job.(fields := resolved.value));
        assert ReplacesWith(s, e, target, job.fields, resolved.value, job.uploads);
        assert ReplacedBy(s, e, target, job.fields, resolved.value, job.uploads, w.anki.nextId,
                          MigrateOne(s, w, e, target).world);
      }
    }
  }

  lemma FiledAs(w: World, w': World)
    requires Filed(w) && Untouched(w, w')
    ensures Filed(w')
  {
  }

  lemma ReplacePuts(s: Setup, w: World, e: Entry, job: Job)
    requires Filed(w) && Remembers(s, w) && e.noteId.Some? && e.noteId.value in w.reg
    requires Replace(s, w, e, job).outcome.action == Added
    ensures var w', id := Replace(s, w, e, job).world, w.anki.nextId;
      && id in w'.anki.notes && w'.anki.notes[id] == Note(job.card.noteType, job.fields, job.card.tags, job.deck)
      && job.deck in w'.anki.decks && (forall u :: u in job.uploads ==> u in w'.anki.media)
      && id in w'.reg && w'.reg[id] == RecordOf(job, id)
  {
    hide Upload, EnsureDeck, Owned, Remembers, ConfirmAndDelete;
    UploadSends(s, w, job.uploads);
    UploadUntouched(s, w, job.uploads);
    var (sent, w1) := Upload(s, w, job.uploads);
    EnsureDeckMakes(s, w1, job.deck);
    EnsureDeckUntouched(s, w1, job.deck);
    var (ready, w2) := EnsureDeck(s, w1, job.deck);
    var (id, anki) := DoAddNote(s.env, w2.anki, job.deck, job.card.noteType, job.fields, job.card.tags);
    var added := w2.(anki := anki);
    AddedFiled(w, added);
    ConfirmAndDeleteSafe(s, added, [e.noteId.value], true);
    ConfirmKeepsRest(s, added, [e.noteId.value]);
  }

  lemma AddedFiled(w: World, added: World)
    requires Filed(w) && added.reg == w.reg && added.anki.nextId == w.anki.nextId + 1
    requires added.anki.notes.Keys == w.anki.notes.Keys + {w.anki.nextId}
    ensures Filed(added)
  {
  }

  lemma ConfirmKeepsRest(s: Setup, w: World, candidates: seq<int>)
    ensures var w' := ConfirmAndDelete(s, w, candidates, true).world;
      w'.anki.decks == w.anki.decks && w'.anki.media == w.anki.media
  {
    hide Confirmed, Complaints, Infos;
  }

  /** Every request answered, a note that is taken up is replaced exactly when its card can be
      rendered under the new type, and the original goes exactly when it still is what its
      record says. */
  lemma MigrateDecides(s: Setup, w: World, e: Entry, target: string)
    requires Filed(w) && Remembers(s, w) && e.noteId.Some? && e.noteId.value in w.reg
    requires Smooth(s, w, MigrateOne(s, w, e, target).world)
    ensures var step, original := MigrateOne(s, w, e, target), e.noteId.value;
      if exists plain, fields, uploads :: ReplacesWith(s, e, target, plain, fields, uploads) then
        && step.outcome == Outcome(Some(e.key), Added, Some(w.anki.nextId))
        && (original in step.world.anki.notes <==>
            original in w.anki.notes && !Owned(s, w.reg[original], w.anki.notes[original]))
      else step.outcome == Outcome(Some(e.key), Skipped, e.noteId) && Untouched(w, step.world)
  {
    hide Replace, ResolveFields, Cached, Filed, Smooth, Owned;
    var prepared := Prepared(s.rules, RenderType(target), e.card);
    MigrateOneEffect(s, w, e, target);
    if prepared.Ok? {
      var job := MigrationJob(s, e, target, prepared.value);
      ResolveFieldsUntouched(s, w, target, job.fields);
      ResolveMatches(s, w, target, job.fields);
      ResolveAnswers(s, w, target, job.fields);
      var (resolved, w1) := ResolveFields(s, w, target, job.fields);
      if resolved.Ok? {
        FiledAs(w, w1);
        assert ReplacesWith(s, e, target, job.fields, resolved.value, job.uploads);
        ReplaceDecides(s, w1, e, job.(fields := resolved.value));
        ReplaceRises(s, w1, e, job.(fields := resolved.value));
        SmoothSuffix(s, w, w1, Replace(s, w1, e, job.(fields := resolved.value)).world);
      }
    }
    if exists plain, fields, uploads :: ReplacesWith(s, e, target, plain, fields, uploads) {
      var plain, fields, uploads :| ReplacesWith(s, e, target, plain, fields, uploads);
      assert prepared.Ok? && prepared.value.fields == plain;
    }
  }

  lemma ResolveAnswers(s: Setup, w: World, noteType: string, fields: Fields)
    requires Cached(s, w)
    ensures var (resolved, w') := ResolveFields(s, w, noteType, fields); var names := s.env.models(noteType);
      Smooth(s, w, w') && resolved.Err? ==> names.None? || s.rules.matching(names.value, fields).None?
  {
    if noteType !in w.run.modelFields && s.env.down(w.anki.clock) {
      assert !Smooth(s, w, ResolveFields(s, w, noteType, fields).1);
    }
  }

  lemma ReplaceRises(s: Setup, w: World, e: Entry, job: Job)
    requires Filed(w) && e.noteId.Some? && e.noteId.value in w.reg
    ensures w.anki.clock <= Replace(s, w, e, job).world.anki.clock
  {
    hide Upload, EnsureDeck, Owned, Confirmed, Complaints, Infos;
    UploadUntouched(s, w, job.uploads);
    var (sent, w1) := Upload(s, w, job.uploads);
    EnsureDeckUntouched(s, w1, job.deck);
  }

  lemma ReplaceDecides(s: Setup, w: World, e: Entry, job: Job)
    requires Filed(w) && e.noteId.Some? && e.noteId.value in w.reg
    ensures var step, original := Replace(s, w, e, job), e.noteId.value;
      Smooth(s, w, step.world) ==>
        && step.outcome == Outcome(Some(e.key), Added, Some(w.anki.nextId))
        && (original in step.world.anki.notes <==>
            original in w.anki.notes && !Owned(s, w.reg[original], w.anki.notes[original]))
  {
    hide Upload, EnsureDeck, Owned, ConfirmAndDelete;
    UploadUntouched(s, w, job.uploads);
    var (sent, w1) := Upload(s, w, job.uploads);
    EnsureDeckUntouched(s, w1, job.deck);
    var (ready, w2) := EnsureDeck(s, w1, job.deck);
    ReplaceRises(s, w, e, job);
    if Smooth(s, w, Replace(s, w, e, job).world) {
      AllSteps(s, w, e, job);
      var (id, anki) := DoAddNote(s.env, w2.anki, job.deck, job.card.noteType, job.fields, job.card.tags);
      var added := w2.(anki := anki);
      AddedFiled(w, added);
      RetireSettles(s, w, added, e, job);
    }
  }

  /** With every request answered no step stops the replacement. */
  lemma AllSteps(s: Setup, w: World, e: Entry, job: Job)
    requires Filed(w) && e.noteId.Some? && e.noteId.value in w.reg && Smooth(s, w, Replace(s, w, e, job).world)
    ensures var (sent, w1) := Upload(s, w, job.uploads); var (ready, w2) := EnsureDeck(s, w1, job.deck);
      && sent && ready && !s.env.down(w2.anki.clock)
      && Smooth(s, w2.(anki := Tick(w2.anki)), Replace(s, w, e, job).world)
  {
    hide Upload, EnsureDeck, Owned, ConfirmAndDelete, Filed;
    UploadUntouched(s, w, job.uploads);
    var (sent, w1) := Upload(s, w, job.uploads);
    EnsureDeckUntouched(s, w1, job.deck);
    var (ready, w2) := EnsureDeck(s, w1, job.deck);
    RetireRises(s, w2, e, job);
  }

  lemma RetireRises(s: Setup, w: World, e: Entry, job: Job)
    requires e.noteId.Some?
    ensures var (id, anki) := DoAddNote(s.env, w.anki, job.deck, job.card.noteType, job.fields, job.card.tags);
      id.Some? ==> anki.clock <= Retire(s, w.(anki := anki), e, job, e.noteId.value, id.value).world.anki.clock
  {
    hide Owned, Confirmed, Complaints, Infos;
  }

  lemma RetireSettles(s: Setup, w: World, added: World, e: Entry, job: Job)
    requires Filed(w) && Filed(added) && e.noteId.Some? && e.noteId.value in w.reg && added.reg == w.reg
    requires added.anki.notes.Keys == w.anki.notes.Keys + {w.anki.nextId}
    requires forall id :: id in w.anki.notes ==> added.anki.notes[id] == w.anki.notes[id]
    requires Smooth(s, added, Retire(s, added, e, job, e.noteId.value, w.anki.nextId).world)
    ensures var w', original := Retire(s, added, e, job, e.noteId.value, w.anki.nextId).world, e.noteId.value;
      original in w'.anki.notes <==> original in w.anki.notes && !Owned(s, w.reg[original], w.anki.notes[original])
  {
    hide ConfirmAndDelete, Owned;
    var candidates := [e.noteId.value];
    ConfirmAndDeleteSafe(s, added, candidates, true);
    OrphansSettle(s, added, candidates);
    assert e.noteId.value in candidates;
  }
}
