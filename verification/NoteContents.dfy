/** What the notes hold after a synchronization: the fields, tags, deck and media of every
    entry reported added or updated (addNewNote, reconcile and updateNote,
    internal/anki/planner/planner.go). */
module NoteContents {
  import opened Basics
  import opened Collection
  import opened Planner
  import opened PlannerSafety
  import opened PlannerQuiet

  /** A note rewritten with these fields and tags: fields it has besides keep their values,
      and its type and deck stay. */
  ghost predicate Rewritten(before: Note, after: Note, fields: Fields, tags: seq<string>) {
    && after.model == before.model && after.tags == tags
    && (forall name :: name in fields ==> name in after.fields && after.fields[name] == fields[name])
    && (forall name :: name in before.fields && name !in fields ==>
          name in after.fields && after.fields[name] == before.fields[name])
    && (forall name :: name in after.fields ==> name in fields || name in before.fields)
  }

  /** What a run remembers is so: files it sent and decks it knows are in the collection, and
      field names are those the collection answers. */
  ghost predicate Remembers(s: Setup, w: World) {
    Cached(s, w) && w.run.uploaded <= w.anki.media && w.run.knownDecks <= w.anki.decks
  }

  /** Decks and files stay. */
  ghost predicate Larger(w: World, w': World) {
    w.anki.media <= w'.anki.media && w.anki.decks <= w'.anki.decks
  }

  lemma FreshRemembers(s: Setup, w: World)
    ensures Remembers(s, w.(run := FRESH))
  {
  }

  // ------------------------------------------------------------- requests before a write

  /** What an upload pass may change. */
  ghost predicate OnlyMedia(w: World, w': World) {
    && w'.reg == w.reg && w'.anki.notes == w.anki.notes && w'.anki.nextId == w.anki.nextId
    && w'.anki.decks == w.anki.decks && w'.run.(uploaded := w.run.uploaded) == w.run
    && w.anki.media <= w'.anki.media && w.run.uploaded <= w'.run.uploaded
  }

  /** Every file is in the collection once the pass succeeds. */
  lemma {:induction false} UploadSends(s: Setup, w: World, uploads: seq<string>)
    requires Remembers(s, w)
    ensures var (sent, w') := Upload(s, w, uploads);
      && Remembers(s, w') && OnlyMedia(w, w')
      && (sent ==> forall u :: u in uploads ==> u in w'.anki.media)
    decreases |uploads|
  {
    if uploads != [] {
      assert forall u :: u in uploads ==> u == uploads[0] || u in uploads[1..];
      if uploads[0] in w.run.uploaded {
        UploadSends(s, w, uploads[1..]);
      } else {
        var (ok, anki) := DoStoreMedia(s.env, w.anki, uploads[0]);
        if ok {
          UploadSends(s, w.(anki := anki, run := w.run.(uploaded := w.run.uploaded + {uploads[0]})), uploads[1..]);
        }
      }
    }
  }

  /** The requests issued between two states. */
  ghost predicate Sent(w: World, w': World, sent: seq<Mutation>) {
    w'.anki.log == w.anki.log + sent
  }

  /** Each file of the list that this run has not sent is sent once, no other is sent, and
      the first failure ends the pass. */
  lemma {:induction false} UploadsOnce(s: Setup, w: World, uploads: seq<string>) returns (sent: seq<Mutation>)
    ensures Sent(w, Upload(s, w, uploads).1, sent)
    ensures forall i :: 0 <= i < |sent| ==>
              sent[i].StoreMedia? && sent[i].name in uploads && sent[i].name !in w.run.uploaded
    ensures forall i, j :: 0 <= i < j < |sent| ==> sent[i] != sent[j]
    ensures Upload(s, w, uploads).0 ==> forall u :: u in uploads ==> u in w.run.uploaded || StoreMedia(u) in sent
    decreases |uploads|
  {
    sent := [];
    if uploads != [] {
      assert forall u :: u in uploads ==> u == uploads[0] || u in uploads[1..];
      if uploads[0] in w.run.uploaded {
        sent := UploadsOnce(s, w, uploads[1..]);
      } else {
        var (ok, anki) := DoStoreMedia(s.env, w.anki, uploads[0]);
        sent := [StoreMedia(uploads[0])];
        if ok {
          var w1 := w.(anki := anki, run := w.run.(uploaded := w.run.uploaded + {uploads[0]}));
          var rest := UploadsOnce(s, w1, uploads[1..]);
          sent := sent + rest;
          assert sent[0] == StoreMedia(uploads[0]) && forall i :: 1 <= i < |sent| ==> sent[i] == rest[i - 1];
        }
      }
    }
  }

  ghost predicate OnlyDecks(w: World, w': World) {
    && w'.reg == w.reg && w'.anki.notes == w.anki.notes && w'.anki.nextId == w.anki.nextId
    && w'.anki.media == w.anki.media && w'.run.modelFields == w.run.modelFields && w'.run.uploaded == w.run.uploaded
    && w.anki.decks <= w'.anki.decks
  }

  /** The deck is there once the step succeeds, and it is created only when a listing of this
      run did not name it. */
  lemma EnsureDeckMakes(s: Setup, w: World, deck: string)
    requires Remembers(s, w)
    ensures var (ready, w') := EnsureDeck(s, w, deck);
      && Remembers(s, w') && OnlyDecks(w, w')
      && (ready ==> deck in w'.anki.decks)
      && (Smooth(s, w, w') && !w.run.decksLoaded ==>
            w'.anki.log == w.anki.log + if deck in w.anki.decks then [] else [CreateDeck(deck)])
  {
    if !w.run.decksLoaded && s.env.down(w.anki.clock) {
      assert !Smooth(s, w, EnsureDeck(s, w, deck).1);
    }
  }

  // --------------------------------------------------------------------- the writes

  lemma WriteNoteWrites(s: Setup, w: World, job: Job, id: int)
    requires Remembers(s, w)
    ensures var (written, w') := WriteNote(s, w, job, id);
      && w'.run == w.run && w'.reg == w.reg && w'.anki.media == w.anki.media && w'.anki.decks == w.anki.decks
      && w'.anki.notes.Keys == w.anki.notes.Keys
      && (id in w.anki.notes ==> w'.anki.notes[id].deck == w.anki.notes[id].deck)
      && (written ==> id in w.anki.notes && Rewritten(w.anki.notes[id], w'.anki.notes[id], job.fields, job.card.tags))
  {
  }

  /** Where the note ends up: in the job's deck if it was moved there, and else where it was. */
  ghost predicate Moved(before: Note, after: Note, deck: string, moved: bool) {
    after.deck == if moved then deck else before.deck
  }

  /** An update that is reported done wrote every field and the tags. It moves the note only if
      the recorded deck is another, and records the deck the note was moved to. */
  lemma UpdateWrites(s: Setup, w: World, job: Job, id: int)
    requires Remembers(s, w) && id in w.reg
    ensures var step := Update(s, w, job, id, w.reg[id]); var w' := step.world;
      step.outcome.action == Updated ==>
        && id in w.anki.notes && id in w'.anki.notes
        && Rewritten(w.anki.notes[id], w'.anki.notes[id], job.fields, job.card.tags)
        && (forall u :: u in job.uploads ==> u in w'.anki.media)
        && (step.issues == [] || step.issues == [Diagnostic(DeckMoveFailed, Some(job.key))])
        && (step.issues != [] ==> job.deck != w.reg[id].deck)
        && Moved(w.anki.notes[id], w'.anki.notes[id], job.deck, job.deck != w.reg[id].deck && step.issues == [])
        && w'.reg == w.reg[id := Record(id, w.reg[id].sourcePath, job.card.noteType,
                                        if step.issues == [] then job.deck else w.reg[id].deck, job.hash)]
    ensures Remembers(s, Update(s, w, job, id, w.reg[id]).world) && Larger(w, Update(s, w, job, id, w.reg[id]).world)
  {
    hide Upload, WriteNote, Remembers, Rewritten;
    UploadSends(s, w, job.uploads);
    var (sent, w1) := Upload(s, w, job.uploads);
    if sent {
      WriteNoteWrites(s, w1, job, id);
      var (written, w2) := WriteNote(s, w1, job, id);
      RemembersOn(s, w1, w2);
      if written {
        MoveDeckMoves(s, w2, job.deck, id, w.reg[id].deck);
        RewrittenDeck(w.anki.notes[id], w2.anki.notes[id],
                      MoveDeck(s, w2, job.deck, id, w.reg[id].deck).1.anki.notes[id],
                      job.fields, job.card.tags);
        RemembersOn(s, w2, Update(s, w, job, id, w.reg[id]).world);
      }
    }
  }

  lemma RemembersOn(s: Setup, w: World, w': World)
    requires Remembers(s, w) && w'.run == w.run && w.anki.media <= w'.anki.media && w.anki.decks <= w'.anki.decks
    ensures Remembers(s, w')
  {
  }

  lemma RewrittenDeck(a: Note, b: Note, c: Note, fields: Fields, tags: seq<string>)
    requires Rewritten(a, b, fields, tags) && c == b.(deck := c.deck)
    ensures Rewritten(a, c, fields, tags)
  {
  }

  lemma MoveDeckMoves(s: Setup, w: World, deck: string, id: int, recorded: string)
    requires id in w.anki.notes
    ensures var (moved, w') := MoveDeck(s, w, deck, id, recorded);
      && w'.run == w.run && w'.reg == w.reg && w'.anki.media == w.anki.media && w.anki.decks <= w'.anki.decks
      && id in w'.anki.notes && w'.anki.notes[id] == w.anki.notes[id].(deck := w'.anki.notes[id].deck)
      && Moved(w.anki.notes[id], w'.anki.notes[id], deck, moved && deck != recorded)
      && (!moved ==> deck != recorded)
  {
  }

  /** So does an adoption, which always moves the note and records the entry's own path. */
  lemma AdoptWrites(s: Setup, w: World, job: Job, id: int)
    requires Remembers(s, w) && id in w.anki.notes
    ensures var step := Adopt(s, w, job, id); var w' := step.world;
      step.outcome.action == Updated ==>
        && id in w'.anki.notes
        && Rewritten(w.anki.notes[id], w'.anki.notes[id], job.fields, job.card.tags)
        && (forall u :: u in job.uploads ==> u in w'.anki.media)
        && (step.issues == [] || step.issues == [Diagnostic(DeckMoveFailed, Some(job.key))])
        && Moved(w.anki.notes[id], w'.anki.notes[id], job.deck, step.issues == [])
        && w'.reg == w.reg[id := Record(id, job.card.sourcePath, job.card.noteType, job.deck, job.hash)]
    ensures Remembers(s, Adopt(s, w, job, id).world) && Larger(w, Adopt(s, w, job, id).world)
  {
    hide Upload, WriteNote, Remembers, Rewritten;
    UploadSends(s, w, job.uploads);
    var (sent, w1) := Upload(s, w, job.uploads);
    if sent {
      WriteNoteWrites(s, w1, job, id);
      var (written, w2) := WriteNote(s, w1, job, id);
      RemembersOn(s, w1, w2);
      if written {
        var w3 := Adopt(s, w, job, id).world;
        RewrittenDeck(w.anki.notes[id], w2.anki.notes[id], w3.anki.notes[id], job.fields, job.card.tags);
        RemembersOn(s, w2, w3);
      }
    }
  }

  /** And an addition writes a whole note, into a deck that is there. */
  lemma AddWrites(s: Setup, w: World, job: Job)
    requires Remembers(s, w)
    ensures var step := AddNew(s, w, job); var w' := step.world; var id := w.anki.nextId;
      step.outcome.action == Added ==>
        && step.outcome.noteId == Some(id) && id in w'.anki.notes
        && w'.anki.notes[id] == Note(job.card.noteType, job.fields, job.card.tags, job.deck)
        && job.deck in w'.anki.decks && (forall u :: u in job.uploads ==> u in w'.anki.media)
        && w'.reg == w.reg[id := Record(id, job.card.sourcePath, job.card.noteType, job.deck, job.hash)]
        && step.issues == []
    ensures Remembers(s, AddNew(s, w, job).world) && Larger(w, AddNew(s, w, job).world)
  {
    hide Upload, EnsureDeck, Remembers;
    UploadSends(s, w, job.uploads);
    var (sent, w1) := Upload(s, w, job.uploads);
    if sent {
      EnsureDeckMakes(s, w1, job.deck);
      var (ready, w2) := EnsureDeck(s, w1, job.deck);
      if ready { RemembersOn(s, w2, AddNew(s, w, job).world); }
    }
  }

  // ------------------------------------------------------------------ one entry

  /** What an entry asks to be stored: the rendered fields after the media pass with the source
      link, under the names its note type has, and the files they refer to. */
  ghost predicate Asks(s: Setup, e: Entry, linked: Fields, fields: Fields, uploads: seq<string>) {
    var shape := RenderType(e.card.noteType);
    && s.rules.gate(e.card).None?
    && (exists rendered, rewritten ::
          && s.rules.render(shape, e.card) == Ok(rendered)
          && s.rules.media(e.card.sourcePath, rendered) == Some((rewritten, uploads))
          && linked == WithSourceLink(shape, e.card.orgId, rewritten))
    && s.env.models(e.card.noteType).Some?
    && s.rules.matching(s.env.models(e.card.noteType).value, linked) == Some(fields)
  }

  function DeckOf(s: Setup, e: Entry): string {
    if e.card.deck == None || e.card.deck == Some("") then s.config.defaultDeck else e.card.deck.value
  }

  function HashOf(s: Setup, e: Entry, linked: Fields): string {
    s.rules.hash(e.card.noteType, linked, DeckOf(s, e), e.card.tags)
  }

  /** The new note is what the entry asks for, and its record says so. */
  ghost predicate AddedAs(s: Setup, e: Entry, linked: Fields, fields: Fields, id: int, w: World) {
    && id in w.anki.notes && id in w.reg
    && w.anki.notes[id] == Note(e.card.noteType, fields, e.card.tags, DeckOf(s, e))
    && DeckOf(s, e) in w.anki.decks
    && w.reg[id] == Record(id, e.card.sourcePath, e.card.noteType, DeckOf(s, e), HashOf(s, e, linked))
  }

  /** The note holds what the entry asks for, in the deck it asks for unless the move failed or
      the record said it was there already. */
  ghost predicate UpdatedAs(s: Setup, e: Entry, linked: Fields, fields: Fields, clean: bool, before: World, w: World)
    requires e.noteId.Some?
  {
    var id := e.noteId.value;
    && id in before.anki.notes && id in w.anki.notes && id in w.reg
    && Rewritten(before.anki.notes[id], w.anki.notes[id], fields, e.card.tags)
    && (id in before.reg ==>
          && Moved(before.anki.notes[id], w.anki.notes[id], DeckOf(s, e), DeckOf(s, e) != before.reg[id].deck && clean)
          && w.reg[id] == Record(id, before.reg[id].sourcePath, e.card.noteType,
                                 if clean then DeckOf(s, e) else before.reg[id].deck, HashOf(s, e, linked)))
    && (id !in before.reg ==>
          && Moved(before.anki.notes[id], w.anki.notes[id], DeckOf(s, e), clean)
          && before.anki.notes[id].model == e.card.noteType
          && w.reg[id] == Record(id, e.card.sourcePath, e.card.noteType, DeckOf(s, e), HashOf(s, e, linked)))
  }

  /** An entry reported added or updated is in the collection as it asks, media included. */
  ghost predicate Stored(s: Setup, e: Entry, before: World, step: Step) {
    && (step.outcome.action == Added || step.outcome.action == Updated ==>
          exists linked, fields, uploads :: StoredAs(s, e, linked, fields, uploads, before, step))
    && (step.outcome.action == Added ==> step.outcome.noteId == Some(before.anki.nextId))
    && (step.outcome.action == Updated ==> step.outcome.noteId == e.noteId)
  }

  ghost predicate StoredAs(s: Setup, e: Entry, linked: Fields, fields: Fields, uploads: seq<string>, before: World,
                           step: Step)
  {
    && Asks(s, e, linked, fields, uploads)
    && (forall u :: u in uploads ==> u in step.world.anki.media)
    && (step.outcome.action == Added ==>
          step.outcome.noteId.Some? && AddedAs(s, e, linked, fields, step.outcome.noteId.value, step.world))
    && (step.outcome.action == Updated ==>
          && e.noteId.Some?
          && (step.issues == [] || step.issues == [Diagnostic(DeckMoveFailed, Some(e.key))])
          && UpdatedAs(s, e, linked, fields, step.issues == [], before, step.world))
  }

  /** The job of an entry whose fields are matched. */
  ghost predicate JobFor(s: Setup, e: Entry, linked: Fields, fields: Fields, uploads: seq<string>, job: Job) {
    && Asks(s, e, linked, fields, uploads)
    && job == Job(e.key, e.card, fields, DeckOf(s, e), HashOf(s, e, linked), uploads)
  }

  lemma BranchStores(s: Setup, w: World, e: Entry, linked: Fields, fields: Fields, uploads: seq<string>, job: Job)
    requires Remembers(s, w) && JobFor(s, e, linked, fields, uploads, job)
    requires e.noteId.Some? && e.noteId.value in w.reg ==> w.reg[e.noteId.value].id == e.noteId.value
    ensures Stored(s, e, w, Branch(s, w, e, job))
    ensures Remembers(s, Branch(s, w, e, job).world) && Larger(w, Branch(s, w, e, job).world)
  {
    hide AddNew, Adopt, Update, Asks, Remembers, Rewritten;
    var step := Branch(s, w, e, job);
    if e.noteId.None? {
      AddWrites(s, w, job);
      AddReports(s, w, job);
    } else if e.noteId.value in w.reg {
      UpdateWrites(s, w, job, e.noteId.value);
      UpdateReports(s, w, job, e.noteId.value, w.reg[e.noteId.value]);
    } else {
      var (infos, anki) := AskNotesInfo(s.env, w.anki, [e.noteId.value]);
      var w1 := w.(anki := anki);
      RemembersOn(s, w, w1);
      if infos.None? || !Adoptable(infos.value, job.card.noteType) {
        AddWrites(s, w1, job);
        AddReports(s, w1, job);
      } else {
        assert infos.value[0] == InfoOf(w.anki, e.noteId.value);
        AdoptWrites(s, w1, job, e.noteId.value);
        AdoptReports(s, w1, job, e.noteId.value);
      }
    }
    if step.outcome.action == Added || step.outcome.action == Updated {
      assert StoredAs(s, e, linked, fields, uploads, w, step);
    }
  }

  lemma AddReports(s: Setup, w: World, job: Job)
    ensures AddNew(s, w, job).outcome.action != Updated
  {
    hide Upload, EnsureDeck;
  }

  lemma StoredFrom(s: Setup, e: Entry, w: World, w1: World, step: Step)
    requires Stored(s, e, w1, step) && w1.reg == w.reg && w1.anki.notes == w.anki.notes
    requires w1.anki.nextId == w.anki.nextId
    ensures Stored(s, e, w, step)
  {
    hide Asks, Rewritten;
    if step.outcome.action == Added || step.outcome.action == Updated {
      var linked, fields, uploads :| StoredAs(s, e, linked, fields, uploads, w1, step);
      assert StoredAs(s, e, linked, fields, uploads, w, step);
    }
  }

  lemma UpdateReports(s: Setup, w: World, job: Job, id: int, prior: Record)
    ensures var o := Update(s, w, job, id, prior).outcome; o.noteId == Some(id) && o.action != Added
  {
    hide Upload, WriteNote, MoveDeck;
  }

  lemma AdoptReports(s: Setup, w: World, job: Job, id: int)
    ensures var o := Adopt(s, w, job, id).outcome; o.noteId == Some(id) && o.action != Added
  {
    hide Upload, WriteNote;
  }

  /** Whatever fails, an entry reported added or updated is in the collection as it asks. */
  lemma ProcessStores(s: Setup, w: World, e: Entry)
    requires Remembers(s, w) && Keyed(w.reg)
    ensures Stored(s, e, w, Process(s, w, e))
    ensures Remembers(s, Process(s, w, e).world) && Larger(w, Process(s, w, e).world)
  {
    hide Branch, Remembers, WithSourceLink, StoredAs;
    var prepared := Prepared(s.rules, RenderType(e.card.noteType), e.card);
    if prepared.Ok? {
      var job := JobOf(s, e, prepared.value);
      if !UpToDate(w.reg, e.noteId, job) {
        ResolveMatches(s, w, job.card.noteType, job.fields);
        var (resolved, w1) := ResolveFields(s, w, job.card.noteType, job.fields);
        if resolved.Ok? {
          assert JobFor(s, e, job.fields, resolved.value, job.uploads, job.(fields := resolved.value));
          BranchStores(s, w1, e, job.fields, resolved.value, job.uploads, job.(fields := resolved.value));
          StoredFrom(s, e, w, w1, Branch(s, w1, e, job.(fields := resolved.value)));
        }
      }
    }
  }

  lemma ResolveMatches(s: Setup, w: World, noteType: string, fields: Fields)
    requires Remembers(s, w)
    ensures var (resolved, w') := ResolveFields(s, w, noteType, fields);
      && Remembers(s, w') && Larger(w, w')
      && w'.reg == w.reg && w'.anki.notes == w.anki.notes && w'.anki.nextId == w.anki.nextId
      && (resolved.Ok? ==>
            && s.env.models(noteType).Some?
            && s.rules.matching(s.env.models(noteType).value, fields) == Some(resolved.value))
  {
  }

  // ------------------------------------------------------------------ all entries

  /** What an entry is reported to be stored as, it is stored as. */
  ghost predicate Held(s: Setup, e: Entry, o: Outcome, start: World, w: World) {
    o.action == Added || o.action == Updated ==>
      exists linked, fields, uploads, clean :: HeldAs(s, e, o, linked, fields, uploads, clean, start, w)
  }

  ghost predicate HeldAs(s: Setup, e: Entry, o: Outcome, linked: Fields, fields: Fields, uploads: seq<string>,
                         clean: bool, start: World, w: World)
  {
    && Asks(s, e, linked, fields, uploads)
    && (forall u :: u in uploads ==> u in w.anki.media)
    && (o.action == Added ==>
          && o.noteId.Some? && start.anki.nextId <= o.noteId.value < w.anki.nextId
          && AddedAs(s, e, linked, fields, o.noteId.value, w))
    && (o.action == Updated ==>
          e.noteId.Some? && o.noteId == e.noteId && UpdatedAs(s, e, linked, fields, clean, start, w))
  }

  /** A note and a record no entry so far claims are as they were. */
  lemma {:induction false} NotYetTouched(s: Setup, entries: seq<Entry>, w: World, n: nat, id: int)
    requires n <= |entries| && Filed(w) && id < w.anki.nextId
    requires forall j :: 0 <= j < n ==> entries[j].noteId != Some(id)
    ensures var w' := Sweep(s, entries, w, n).world;
      && Filed(w') && w.anki.nextId <= w'.anki.nextId
      && (id in w'.anki.notes <==> id in w.anki.notes) && (id in w'.reg <==> id in w.reg)
      && (id in w.anki.notes ==> w'.anki.notes[id] == w.anki.notes[id])
      && (id in w.reg ==> w'.reg[id] == w.reg[id])
    decreases n
  {
    hide EntryStep, Sweep;
    if n == 0 {
      SweepStart(s, entries, w);
    } else {
      NotYetTouched(s, entries, w, n - 1, id);
      SweepNext(s, entries, w, n - 1);
      StepSafe(s, entries, Sweep(s, entries, w, n - 1).world, entries[n - 1]);
    }
  }

  lemma HeldKept(s: Setup, e: Entry, o: Outcome, start: World, w: World, w': World, mine: set<int>)
    requires Held(s, e, o, start, w) && Keeps(w, w', mine) && Larger(w, w')
    requires (o.action == Added || o.action == Updated) && o.noteId.Some? ==> o.noteId.value !in mine
    ensures Held(s, e, o, start, w')
  {
    hide Asks, Rewritten;
    if o.action == Added || o.action == Updated {
      var linked, fields, uploads, clean :| HeldAs(s, e, o, linked, fields, uploads, clean, start, w);
      var id: int := o.noteId.value;
      assert id in w'.anki.notes && w'.anki.notes[id] == w.anki.notes[id] && id in w'.reg && w'.reg[id] == w.reg[id];
      assert HeldAs(s, e, o, linked, fields, uploads, clean, start, w');
    }
  }

  /** The step of an entry no other claims, seen from the start of the sweep. */
  lemma StepHeld(s: Setup, entries: seq<Entry>, w: World, n: nat)
    requires n < |entries| && Filed(w) && HandedOut(entries, w) && !Duplicated(entries, entries[n])
    requires Remembers(s, Sweep(s, entries, w, n).world)
    ensures var before := Sweep(s, entries, w, n).world; var step := EntryStep(s, entries, before, entries[n]);
      Held(s, entries[n], step.outcome, w, step.world)
  {
    hide Process, Asks, Rewritten, Remembers;
    var e, before := entries[n], Sweep(s, entries, w, n).world;
    SweepSafe(s, entries, w, n);
    SweepRises(s, entries, w, n);
    DuplicateStep(s, entries, before, e);
    ProcessStores(s, before, e);
    ProcessSafe(s, before, e);
    var step := Process(s, before, e);
    if e.noteId.Some? {
      forall j | 0 <= j < n ensures entries[j].noteId != e.noteId {
        if entries[j].noteId.Some? { DistinctClaims(entries, j, n); }
      }
      NotYetTouched(s, entries, w, n, e.noteId.value);
    }
    if step.outcome.action == Added || step.outcome.action == Updated {
      var linked, fields, uploads :| StoredAs(s, e, linked, fields, uploads, before, step);
      AddedBelow(s, before, e);
      assert HeldAs(s, e, step.outcome, linked, fields, uploads, step.issues == [], w, step.world);
    }
  }

  lemma SweepRises(s: Setup, entries: seq<Entry>, w: World, n: nat)
    requires n <= |entries| && Filed(w)
    ensures w.anki.nextId <= Sweep(s, entries, w, n).world.anki.nextId
  {
    hide Sweep;
    SweepSafe(s, entries, w, n);
  }

  lemma AddedBelow(s: Setup, w: World, e: Entry)
    requires Filed(w)
    ensures var step := Process(s, w, e);
      step.outcome.noteId.Some? && step.outcome.noteId.value in step.world.anki.notes ==>
        step.outcome.noteId.value < step.world.anki.nextId
  {
    hide Process;
    ProcessSafe(s, w, e);
  }

  /** After all entries, whatever failed, each that no other claims is stored as reported. */
  lemma {:induction false} SweepHolds(s: Setup, entries: seq<Entry>, w: World, n: nat)
    requires n <= |entries| && Filed(w) && HandedOut(entries, w) && Remembers(s, w)
    ensures var pass := Sweep(s, entries, w, n);
      && Remembers(s, pass.world) && Larger(w, pass.world)
      && forall i :: 0 <= i < n && !Duplicated(entries, entries[i]) ==>
           Held(s, entries[i], pass.outcomes[i], w, pass.world)
    decreases n
  {
    hide EntryStep, Process, Sweep, Held, Remembers, Duplicated, Larger, HandedOut;
    if n == 0 {
      SweepStart(s, entries, w);
      LargerSelf(w);
    } else {
      SweepHolds(s, entries, w, n - 1);
      var before, after := Sweep(s, entries, w, n - 1), Sweep(s, entries, w, n);
      var e := entries[n - 1];
      SweepNext(s, entries, w, n - 1);
      SweepSafe(s, entries, w, n - 1);
      StepSafe(s, entries, before.world, e);
      DuplicateStep(s, entries, before.world, e);
      ProcessStores(s, before.world, e);
      LargerSelf(before.world);
      LargerTransitive(w, before.world, after.world);
      forall i | 0 <= i < n && !Duplicated(entries, entries[i])
        ensures Held(s, entries[i], after.outcomes[i], w, after.world)
      {
        if i == n - 1 {
          StepHeld(s, entries, w, n - 1);
        } else {
          Apart(s, entries, w, before.world, before.outcomes[i], i, n - 1);
          HeldKept(s, entries[i], before.outcomes[i], w, before.world, after.world, Mine(e));
        }
      }
    }
  }

  lemma LargerSelf(w: World)
    ensures Larger(w, w)
  {
  }

  lemma LargerTransitive(a: World, b: World, c: World)
    requires Larger(a, b) && Larger(b, c)
    ensures Larger(a, c)
  {
  }

  /** What a later entry claims is not what this one was stored as. */
  lemma Apart(s: Setup, entries: seq<Entry>, w: World, w': World, o: Outcome, i: nat, k: nat)
    requires i < k < |entries| && HandedOut(entries, w) && !Duplicated(entries, entries[i])
    requires Held(s, entries[i], o, w, w')
    ensures (o.action == Added || o.action == Updated) && o.noteId.Some? ==> o.noteId.value !in Mine(entries[k])
  {
    hide HeldAs, Asks;
    if (o.action == Added || o.action == Updated) && o.noteId.Some? && o.noteId == entries[k].noteId {
      var linked, fields, uploads, clean :| HeldAs(s, entries[i], o, linked, fields, uploads, clean, w, w');
      HeldWhere(s, entries[i], o, linked, fields, uploads, clean, w, w');
      if o.action == Updated { ClaimantsCount(entries, i, k, o.noteId.value); }
    }
  }

  lemma HeldWhere(s: Setup, e: Entry, o: Outcome, linked: Fields, fields: Fields, uploads: seq<string>, clean: bool,
                  start: World, w: World)
    requires HeldAs(s, e, o, linked, fields, uploads, clean, start, w)
    ensures o.action == Added ==> o.noteId.Some? && start.anki.nextId <= o.noteId.value
    ensures o.action == Updated ==> e.noteId.Some? && o.noteId == e.noteId
  {
  }

  /** The orphan pass leaves alone what the run recorded or the scan saw. */
  lemma StoredSurvives(s: Setup, req: Request, w: World, id: int)
    requires Filed(w) && (id !in w.reg || Reported(req.census, id))
    ensures var w1, w3 := AfterEntries(s, req, w).world, Run(s, req, w).world;
      && (id in w1.anki.notes ==> id in w3.anki.notes && w3.anki.notes[id] == w1.anki.notes[id])
      && (id in w1.reg ==> id in w3.reg && w3.reg[id] == Relocated(w1.reg[id], req.census))
  {
    hide Sweep, ConfirmAndDelete, Owned, Relocated, Excluded;
    var w1, w2 := AfterEntries(s, req, w).world, AfterCensus(s, req, w);
    RunFiled(s, req, w);
    ConfirmAndDeleteSafe(s, w2, Candidates(w2.reg, req.census, s.config.excludePatterns, w.reg.Keys),
                         s.config.scanComplete);
  }

  /** After a whole run, whatever failed, every entry that no other claims and that is reported
      added or updated is in the collection as the entries left it, and that is as it asks. */
  lemma RunHolds(s: Setup, req: Request, w: World, i: nat)
    requires Filed(w) && HandedOut(req.entries, w) && ClaimsScanned(req)
    requires i < |req.entries| && !Duplicated(req.entries, req.entries[i])
    ensures var w0, w1, w3 := w.(run := FRESH), AfterEntries(s, req, w).world, Run(s, req, w).world;
      var o := Run(s, req, w).outcomes[i];
      && o == AfterEntries(s, req, w).outcomes[i] && Held(s, req.entries[i], o, w0, w1)
      && (o.action == Added || o.action == Updated ==>
            && o.noteId.Some? && o.noteId.value in w1.anki.notes && o.noteId.value in w3.anki.notes
            && w3.anki.notes[o.noteId.value] == w1.anki.notes[o.noteId.value])
  {
    hide Sweep, OrphanPass, HeldAs, Remembers, Duplicated, HandedOut;
    var w0, w1 := w.(run := FRESH), AfterEntries(s, req, w).world;
    FreshRemembers(s, w);
    assert HandedOut(req.entries, w0) by { HandedOutFresh(req.entries, w); }
    SweepHolds(s, req.entries, w0, |req.entries|);
    var o := AfterEntries(s, req, w).outcomes[i];
    if o.action == Added || o.action == Updated {
      var linked, fields, uploads, clean :| HeldAs(s, req.entries[i], o, linked, fields, uploads, clean, w0, w1);
      HeldThere(s, req.entries[i], o, linked, fields, uploads, clean, w0, w1);
      StoredSurvives(s, req, w, o.noteId.value);
    }
  }

  lemma HandedOutFresh(entries: seq<Entry>, w: World)
    requires HandedOut(entries, w)
    ensures HandedOut(entries, w.(run := FRESH))
  {
  }

  lemma HeldThere(s: Setup, e: Entry, o: Outcome, linked: Fields, fields: Fields, uploads: seq<string>, clean: bool,
                  start: World, w: World)
    requires HeldAs(s, e, o, linked, fields, uploads, clean, start, w) && (o.action == Added || o.action == Updated)
    requires Filed(start)
    ensures o.noteId.Some? && o.noteId.value in w.anki.notes
    ensures o.noteId.value in start.reg ==> e.noteId == o.noteId
  {
  }

  // ------------------------------------------------------------- what was written is owned

  /** A note that was added is what its record says was last written, so a later run may take
      it for its own, if the note type has the rendered names. */
  lemma AddedIsOwned(s: Setup, e: Entry, linked: Fields, fields: Fields, id: int, w: World)
    requires AddedAs(s, e, linked, fields, id, w) && fields == linked
    ensures Owned(s, w.reg[id], w.anki.notes[id])
  {
  }

  /** So is one that was updated and, if need be, moved, if it has no other fields. */
  lemma UpdatedIsOwned(s: Setup, e: Entry, linked: Fields, fields: Fields, before: World, w: World)
    requires e.noteId.Some? && UpdatedAs(s, e, linked, fields, true, before, w) && fields == linked
    requires var note := before.anki.notes[e.noteId.value];
               note.model == e.card.noteType && note.fields.Keys <= fields.Keys
    ensures Owned(s, w.reg[e.noteId.value], w.anki.notes[e.noteId.value])
  {
    var note := w.anki.notes[e.noteId.value];
    assert note.fields == fields;
  }
}
