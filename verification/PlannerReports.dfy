/** What a run tells its caller, and what it asks the collection: diagnostics, the requests
    that stopped an entry, questions asked once, and the source link (internal/anki/planner). */
module PlannerReports {
  import opened Basics
  import opened Collection
  import opened Ordered
  import opened Planner
  import opened PlannerSafety
  import opened PlannerQuiet
  import opened NoteContents
  import opened PlannerDecisions
  import opened Migration
  import opened MigrationContents

  // ------------------------------------------------------------------ questions asked once

  /** The decks are listed at most once in a run, and not at all once they were. */
  lemma DecksListedOnce(s: Setup, w: World, deck: string)
    ensures var w' := EnsureDeck(s, w, deck).1;
      && w'.run.decksLoaded
      && (w.run.decksLoaded ==> w'.anki.clock == w.anki.clock + |w'.anki.log| - |w.anki.log|)
  {
  }

  /** The field names of a note type are asked for at most once in a run that gets them. */
  lemma FieldsAskedOnce(s: Setup, w: World, noteType: string, fields: Fields)
    ensures var (resolved, w') := ResolveFields(s, w, noteType, fields);
      && (resolved.Ok? ==> noteType in w'.run.modelFields)
      && (noteType in w.run.modelFields ==> w' == w)
  {
  }

  // ------------------------------------------------------------------ the source link

  /** The program's own types are rendered like the stock ones they replace, any other as itself;
      so a note that is migrated keeps the form it is rendered in. */
  lemma RenderedLike(reg: Entries, e: Entry)
    ensures RenderType("imoogi-Basic") == "Basic" && RenderType("imoogi-Cloze") == "Cloze"
    ensures forall t :: t != "imoogi-Basic" && t != "imoogi-Cloze" ==> RenderType(t) == t
    ensures MigrationTarget(reg, e).Some? ==>
              RenderType(MigrationTarget(reg, e).value) == RenderType(reg[e.noteId.value].noteType)
  {
  }

  /** An Org ID may enter a link if it has 1 to 128 characters, letters, digits and five signs. */
  lemma OrgIdsExactly(id: string)
    ensures ValidOrgId(id) <==>
            && 0 < |id| < 129
            && forall c :: c in id ==>
                 IsDigit(c) || 'a' <= c <= 'z' || 'A' <= c <= 'Z' || c in {'.', '_', ':', '@', '-'}
  {
    assert forall i :: 0 <= i < |id| ==> id[i] in id;
    assert forall c :: OrgIdChar(c) <==>
        IsDigit(c) || 'a' <= c <= 'z' || 'A' <= c <= 'Z' || c in {'.', '_', ':', '@', '-'};
  }

  function HexDigit(c: char): Option<nat> {
    if '0' <= c <= '9' then Some(c as int - '0' as int) else if 'A' <= c <= 'F' then Some(c as int - 'A' as int + 10)
    else None
  }

  /** Percent-decoding. */
  function Unescaped(s: string): string {
    if s == "" then ""
    else if |s| >= 3 && s[0] == '%' && HexDigit(s[1]).Some? && HexDigit(s[2]).Some? then
      [(16 * HexDigit(s[1]).value + HexDigit(s[2]).value) as char] + Unescaped(s[3..])
    else [s[0]] + Unescaped(s[1..])
  }

  /** Nothing in the written identifier could end the link. */
  lemma {:induction false} LinkPlain(id: string)
    requires forall c :: c in id ==> OrgIdChar(c)
    ensures forall c :: c in QueryEscape(id) ==>
              c == '%' || c in "._-" || IsDigit(c) || 'A' <= c <= 'Z' || 'a' <= c <= 'z'
  {
    if id != "" {
      LinkPlain(id[1..]);
      assert id[0] in id;
    }
  }

  /** The identifier in a link is read back as it was. */
  lemma {:induction false} LinkReadsBack(id: string)
    requires forall c :: c in id ==> OrgIdChar(c)
    ensures Unescaped(QueryEscape(id)) == id
  {
    if id != "" {
      LinkReadsBack(id[1..]);
      var rest := QueryEscape(id[1..]);
      assert id[0] in id;
      if id[0] == ':' {
        assert ("%3A" + rest)[3..] == rest;
        assert (0x3A as char) == ':';
      } else if id[0] == '@' {
        assert ("%40" + rest)[3..] == rest;
        assert (0x40 as char) == '@';
      } else {
        assert ([id[0]] + rest)[1..] == rest;
      }
    }
  }

  /** The link is appended to the back field and to nothing else. */
  lemma LinkAppended(shape: string, orgId: string, fields: Fields)
    ensures var linked := WithSourceLink(shape, orgId, fields);
      && linked.Keys == fields.Keys
      && forall name :: name in fields ==>
           if ValidOrgId(orgId)
             && ((shape == "Basic" && name == "Back") || (shape == "Cloze" && name == "Back Extra")) then
             linked[name] == fields[name]
               + ("<div class=\"imoogi-src\"><a href=\"imoogi-anki://open?id=" + QueryEscape(orgId)
                  + "\">Emacs에서 원본 열기</a></div>")
           else linked[name] == fields[name]
  {
    hide ValidOrgId, QueryEscape;
  }

  // ---------------------------------------------------------------- what stopped an entry

  ghost predicate Says(step: Step, job: Job, action: Action, code: Code) {
    step.outcome.action == action && step.issues == [Diagnostic(code, Some(job.key))]
  }

  /** A branch that stops short reports the request it stopped at: a file as a skip, a deck or
      a write as a failure. */
  ghost predicate Blames(w: World, job: Job, id: Option<int>, step: Step) {
    var log := step.world.anki.log;
    && |log| > |w.anki.log| && step.outcome.key == Some(job.key) && step.outcome.noteId == id
    && match log[|log| - 1]
       case StoreMedia(_) => Says(step, job, Skipped, MediaUploadFailed)
       case CreateDeck(_) => Says(step, job, Failed, DeckCreateFailed)
       case AddNote(_, _) => Says(step, job, Failed, AnkiConnectError)
       case UpdateFields(_) => Says(step, job, Failed, AnkiConnectError)
       case UpdateTags(_) => Says(step, job, Failed, AnkiConnectError)
       case _ => false
  }

  lemma {:induction false} UploadStops(s: Setup, w: World, uploads: seq<string>)
    ensures var (sent, w') := Upload(s, w, uploads);
      && w.anki.log <= w'.anki.log
      && (!sent ==> |w'.anki.log| > |w.anki.log| && w'.anki.log[|w'.anki.log| - 1].StoreMedia?)
    decreases |uploads|
  {
    if uploads != [] {
      if uploads[0] in w.run.uploaded {
        UploadStops(s, w, uploads[1..]);
      } else {
        var (ok, anki) := DoStoreMedia(s.env, w.anki, uploads[0]);
        if ok {
          UploadStops(s, w.(anki := anki, run := w.run.(uploaded := w.run.uploaded + {uploads[0]})), uploads[1..]);
        }
      }
    }
  }

  lemma DeckStops(s: Setup, w: World, deck: string)
    ensures var (ready, w') := EnsureDeck(s, w, deck);
      && w.anki.log <= w'.anki.log
      && (!ready ==> |w'.anki.log| > |w.anki.log| && w'.anki.log[|w'.anki.log| - 1] == CreateDeck(deck))
  {
  }

  lemma AddBlames(s: Setup, w: World, job: Job)
    ensures AddNew(s, w, job).outcome.action == Added || Blames(w, job, None, AddNew(s, w, job))
  {
    hide Upload, EnsureDeck;
    UploadStops(s, w, job.uploads);
    var (sent, w1) := Upload(s, w, job.uploads);
    DeckStops(s, w1, job.deck);
  }

  lemma AdoptBlames(s: Setup, w: World, job: Job, id: int)
    ensures Adopt(s, w, job, id).outcome.action == Updated || Blames(w, job, Some(id), Adopt(s, w, job, id))
  {
    hide Upload;
    UploadStops(s, w, job.uploads);
  }

  lemma UpdateBlames(s: Setup, w: World, job: Job, id: int, prior: Record)
    ensures Update(s, w, job, id, prior).outcome.action == Updated
            || Blames(w, job, Some(id), Update(s, w, job, id, prior))
  {
    hide Upload, MoveDeck;
    UploadStops(s, w, job.uploads);
  }

  // ------------------------------------------------------------------ all entries

  /** What is said of one entry: a claim that others make, too, is a failure of its own; an Org
      ID no link can carry is remarked on whatever becomes of the entry. */
  lemma EntryReports(s: Setup, entries: seq<Entry>, w: World, i: nat)
    requires i < |entries|
    ensures var e := entries[i]; var step := EntryStep(s, entries, w, e);
      if ClaimedTwice(entries, i) then LeftAlone(e, Failed, [NoteIdDuplicated], w, step)
      else
        && step.outcome == Process(s, w, e).outcome && step.world == Process(s, w, e).world
        && step.issues == Process(s, w, e).issues
             + if e.card.orgId == "" || ValidOrgId(e.card.orgId) then [] else [Diagnostic(OrgIdInvalid, Some(e.key))]
  {
    hide Process, ValidOrgId;
    DuplicatedExactly(entries, i);
  }

  // ------------------------------------------------------------------ the orphan pass

  /** A pattern holds for a path if it is not empty and the path has it in it somewhere. */
  lemma ExcludedExactly(path: string, patterns: seq<string>)
    ensures Excluded(path, patterns) <==>
            exists k, before, after :: 0 <= k < |patterns| && patterns[k] != "" && path == before + patterns[k] + after
  {
    if Excluded(path, patterns) {
      var k :| 0 <= k < |patterns| && patterns[k] != "" && Occurs(patterns[k], path);
      var i :| 0 <= i <= |path| - |patterns[k]| && OccursAt(patterns[k], path, i);
      assert path == path[..i] + patterns[k] + path[i + |patterns[k]|..];
    }
    if k, before, after :| 0 <= k < |patterns| && patterns[k] != "" && path == before + patterns[k] + after {
      assert OccursAt(patterns[k], path, |before|);
      assert Occurs(patterns[k], path);
    }
  }

  /** A note is as recorded: of the recorded type, and with the recorded hash as it is there,
      in the recorded deck. */
  ghost predicate AsRecorded(s: Setup, w: World, id: int) {
    && id in w.reg && id in w.anki.notes && w.anki.notes[id].model == w.reg[id].noteType
    && s.rules.hash(w.anki.notes[id].model, w.anki.notes[id].fields, w.reg[id].deck, w.anki.notes[id].tags) ==
      w.reg[id].hash
  }

  /** With the orphan pass answered the notes deleted are exactly those recorded at the start of
      the run and as recorded at its end that a complete scan saw nowhere and no pattern keeps. */
  lemma OrphansExactly(s: Setup, req: Request, w: World, id: int)
    requires Filed(w) && id in w.anki.notes && Smooth(s, AfterCensus(s, req, w), Run(s, req, w).world)
    ensures var w2 := AfterCensus(s, req, w);
      id !in Run(s, req, w).world.anki.notes <==>
        && s.config.scanComplete && id in w.reg && AsRecorded(s, w2, id)
        && (forall i :: 0 <= i < |req.census| ==> req.census[i].noteId != id)
        && forall k, before, after ::
             0 <= k < |s.config.excludePatterns| && s.config.excludePatterns[k] != "" ==>
               w2.reg[id].sourcePath != before + s.config.excludePatterns[k] + after
  {
    hide Sweep, WithCensusPaths, ConfirmAndDelete, Smooth, Excluded;
    DeletedExactly(s, req, w, id);
    var w2 := AfterCensus(s, req, w);
    if id in w2.reg { ExcludedExactly(w2.reg[id].sourcePath, s.config.excludePatterns); }
  }

  predicate IsUnowned(s: Setup, w: World, id: int) {
    id in w.reg && id in w.anki.notes && !Owned(s, w.reg[id], w.anki.notes[id])
  }

  function UnownedCount(s: Setup, w: World, candidates: seq<int>): nat {
    if candidates == [] then 0
    else UnownedCount(s, w, candidates[..|candidates| - 1])
         + if IsUnowned(s, w, candidates[|candidates| - 1]) then 1 else 0
  }

  /** One complaint for each candidate that is there and is not as recorded. */
  lemma {:induction false} ComplaintsCount(s: Setup, w: World, candidates: seq<int>)
    ensures var issues := Complaints(s, w.reg, Infos(w.anki, candidates));
      && |issues| == UnownedCount(s, w, candidates)
      && forall i :: 0 <= i < |issues| ==> issues[i] == Diagnostic(DeleteCandidateUnowned, None)
  {
    hide Owned;
    if candidates != [] {
      var before := candidates[..|candidates| - 1];
      ComplaintsCount(s, w, before);
      var infos := Infos(w.anki, candidates);
      assert infos[..|infos| - 1] == Infos(w.anki, before);
    }
  }

  /** The orphan pass says that it was suppressed, or complains of each candidate that is not as
      recorded and of a refused deletion. */
  lemma OrphanIssues(s: Setup, w: World, candidates: seq<int>, complete: bool)
    ensures var issues := ConfirmAndDelete(s, w, candidates, complete).issues;
      if !complete || (candidates != [] && s.env.down(w.anki.clock)) then issues == [Diagnostic(DeleteSuppressed, None)]
      else
        var n := UnownedCount(s, w, candidates);
        && n <= |issues| && (forall i :: 0 <= i < n ==> issues[i] == Diagnostic(DeleteCandidateUnowned, None))
        && (issues[n..] == [] || issues[n..] == [Diagnostic(AnkiConnectError, None)])
        && (Smooth(s, w, ConfirmAndDelete(s, w, candidates, complete).world) ==> |issues| == n)
  {
    hide Owned, Complaints, Confirmed, UnownedCount;
    ComplaintsCount(s, w, candidates);
    if candidates == [] { NoneUnowned(s, w); }
  }

  lemma NoneUnowned(s: Setup, w: World)
    ensures UnownedCount(s, w, []) == 0
  {
  }

  /** A run reports its entries first, in order, and then one deletion for each note it deleted;
      its diagnostics are those of the entries and those of the orphan pass. */
  lemma RunReports(s: Setup, req: Request, w: World, id: int)
    requires Filed(w) && id in AfterEntries(s, req, w).world.anki.notes
    ensures var pass, entries := Run(s, req, w), AfterEntries(s, req, w); var n := |req.entries|;
      && |pass.outcomes| >= n && pass.outcomes[..n] == entries.outcomes
      && (Outcome(None, Deleted, Some(id)) in pass.outcomes[n..] <==> id !in pass.world.anki.notes)
      && (forall o :: o in pass.outcomes[n..] ==> o.action == Deleted)
      && entries.issues <= pass.issues && pass.issues[|entries.issues|..] == OrphanPass(s, req, w).issues
  {
    hide Sweep, ConfirmAndDelete, WithCensusPaths, Candidates;
    var w2 := AfterCensus(s, req, w);
    DeletionsReported(s, w2, Candidates(w2.reg, req.census, s.config.excludePatterns, w.reg.Keys),
                      s.config.scanComplete, id);
  }

  // ------------------------------------------------------------------ migration

  /** What a migration says of one entry: nothing of one it has no business with, a complaint
      about a type that cannot be moved, a count in a dry run, and else the outcome of its move. */
  lemma MigrationReports(s: Setup, w: World, e: Entry, dryRun: bool)
    ensures var recorded := if e.noteId.Some? && e.noteId.value in w.reg then Some(w.reg[e.noteId.value].noteType)
              else None;
      var target := MigrationTarget(w.reg, e); var step := MigrateStep(s, w, e, dryRun);
      if target.None? then
        if recorded.Some? && recorded.value != e.card.noteType then
          step.Some? && LeftAlone(e, Skipped, [NoteTypeChangeUnsupported], w, step.value)
        else step.None?
      else
        && step.Some?
        && step.value == if dryRun then Step(Outcome(Some(e.key), MigrateCandidate, e.noteId), [], w)
                         else MigrateOne(s, w, e, target.value)
  {
    hide MigrateOne;
  }

  /** A move that was made complains under the entry's key if the original could not go. */
  lemma MoveReports(s: Setup, w: World, e: Entry, target: string)
    requires Filed(w) && Remembers(s, w) && e.noteId.Some? && e.noteId.value in w.reg
    requires Smooth(s, w, MigrateOne(s, w, e, target).world) && MigrateOne(s, w, e, target).outcome.action == Added
    ensures MigrateOne(s, w, e, target).issues ==
            if e.noteId.value in MigrateOne(s, w, e, target).world.anki.notes then
              [Diagnostic(DeleteCandidateUnowned, Some(e.key))]
            else []
  {
    hide Replace, ResolveFields, Cached, Filed, Smooth, Owned;
    var job := MigrationJob(s, e, target, Prepared(s.rules, RenderType(target), e.card).value);
    ResolveFieldsUntouched(s, w, target, job.fields);
    var (resolved, w1) := ResolveFields(s, w, target, job.fields);
    FiledAs(w, w1);
    ReplaceRises(s, w1, e, job.(fields := resolved.value));
    SmoothSuffix(s, w, w1, Replace(s, w1, e, job.(fields := resolved.value)).world);
    ReplaceReports(s, w1, e, job.(fields := resolved.value));
  }

  lemma ReplaceReports(s: Setup, w: World, e: Entry, job: Job)
    requires Filed(w) && e.noteId.Some? && e.noteId.value in w.reg && Smooth(s, w, Replace(s, w, e, job).world)
    ensures Replace(s, w, e, job).issues ==
            if e.noteId.value in Replace(s, w, e, job).world.anki.notes then
              [Diagnostic(DeleteCandidateUnowned, Some(e.key))]
            else []
  {
    hide Upload, EnsureDeck, Owned, ConfirmAndDelete;
    UploadUntouched(s, w, job.uploads);
    var (sent, w1) := Upload(s, w, job.uploads);
    EnsureDeckUntouched(s, w1, job.deck);
    var (ready, w2) := EnsureDeck(s, w1, job.deck);
    AllSteps(s, w, e, job);
    var (id, anki) := DoAddNote(s.env, w2.anki, job.deck, job.card.noteType, job.fields, job.card.tags);
    var added := w2.(anki := anki);
    AddedFiled(w, added);
    var candidates := [e.noteId.value];
    var retired := ConfirmAndDelete(s, added, candidates, true);
    assert Smooth(s, added, retired.world);
    QuestionAnswered(s, added, candidates);
    OrphanIssues(s, added, candidates, true);
    OneUnowned(s, added, e.noteId.value);
    RetireSettles(s, w, added, e, job);
    assert |retired.issues| == if IsUnowned(s, added, e.noteId.value) then 1 else 0;
  }

  lemma QuestionAnswered(s: Setup, w: World, candidates: seq<int>)
    requires candidates != [] && Smooth(s, w, ConfirmAndDelete(s, w, candidates, true).world)
    ensures !s.env.down(w.anki.clock)
  {
    hide Owned, Confirmed, Complaints, Infos;
  }

  lemma OneUnowned(s: Setup, w: World, id: int)
    ensures UnownedCount(s, w, [id]) == if IsUnowned(s, w, id) then 1 else 0
  {
    hide Owned;
    assert [id][..0] == [];
    NoneUnowned(s, w);
  }
}
