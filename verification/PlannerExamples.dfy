/** Two synchronizations that are not silent though nothing was edited: small worlds in which
    every request is answered. */
module PlannerExamples {
  import opened Basics
  import opened Collection
  import opened Planner
  import opened PlannerSafety
  import opened PlannerQuiet
  import opened Quiescence
  import opened QuiescenceExact
  import opened Migration
  import opened AfterMigration

  /** One field, which the hash repeats; no request fails. */
  const RULES := Rules(
    (card: Card) => None,
    (shape: string, card: Card) => Ok(map["Back" := card.body]),
    (path: string, fields: Fields) => Some((fields, [])),
    (names: seq<string>, fields: Fields) => Some(fields),
    (noteType: string, fields: Fields, deck: string, tags: seq<string>) => if "Back" in fields then fields["Back"]
      else "")

  const SETUP := Setup(Env((t: nat) => false, (model: string) => Some([])), RULES, Config("D", [], true))

  function BasicCard(body: string, orgId: string): Card {
    Card(BASIC, "", body, "f.org", None, [], orgId, None, None, None)
  }

  function Alone(notes: map<int, Note>, hash: string): World {
    World(Anki(notes, {}, {}, 2, 0, []), map[1 := Record(1, "f.org", BASIC, "D", hash)], FRESH)
  }

  // ------------------------------------------- a note the user deleted in Anki

  const EDITED := Entry("k", Some(1), BasicCard("new", ""))

  const SEEN := Request([Sighting(1, "f.org")], [EDITED])

  lemma EditedAlone()
    ensures !Duplicated(SEEN.entries, EDITED)
    ensures SEEN.entries[0] == EDITED
  {
    assert SEEN.entries[..0] == [];
    assert Claimants([], 1) == 0;
  }

  lemma EditedDangles()
    ensures var w := Alone(map[], "old"); Filed(w) && !Reachable(SETUP, w, EDITED)
  {
    var w := Alone(map[], "old");
    var fields: Fields := map["Back" := "new"];
    assert Prepared(RULES, BASIC, EDITED.card) == Ok(Draft(fields, []));
    assert !Linked(BASIC, "", fields);
    assert JobOf(SETUP, EDITED, Draft(fields, [])).hash == "new";
    assert IsDangling(w, 1);
  }

  lemma NoFailure(w: World, w': World)
    ensures Smooth(SETUP, w, w')
  {
  }

  /** One edited entry whose recorded note is gone: the second run, on the same scan, is not silent. */
  lemma DeletedNoteResent()
    ensures var w := Alone(map[], "old"); var w3 := Run(SETUP, SEEN, w).world;
      && Answered(SETUP, SEEN, w)
      && !Silent(w3, Run(SETUP, Request(SEEN.census, NextEntries(SETUP, SEEN, w)), w3).world)
  {
    hide Run, Reachable, Duplicated, Filed, Smooth, Sweep, Process;
    var w := Alone(map[], "old");
    EditedAlone();
    EditedDangles();
    var w3 := Run(SETUP, SEEN, w).world;
    NoFailure(w, w3);
    assert SEEN.census[0].noteId == 1;
    UnreachableNamesRecord(SETUP, w, EDITED);
    StaysClaimedOnce(SETUP, SEEN, w, 0);
    SameScan(w);
    var next := Request(SEEN.census, NextEntries(SETUP, SEEN, w));
    NoFailure(w3, Run(SETUP, next, w3).world);
    assert !AllReachable(SETUP, SEEN.entries, w);
    assert SETUP.(env := SETUP.env.(down := SETUP.env.down)) == SETUP;
    SecondRunSilentIff(SETUP, SEEN, w, SETUP.env.down, SEEN.census);
  }

  lemma SameScan(w: World)
    requires Filed(w) && !Duplicated(SEEN.entries, EDITED) && 1 in w.reg
    ensures Rescanned(SEEN, AfterEntries(SETUP, SEEN, w).outcomes, Run(SETUP, SEEN, w).world.reg, SEEN.census)
  {
    hide Run, Process, Duplicated, Filed;
    var start := w.(run := FRESH);
    FreshStart(SETUP, w, w, EDITED);
    EditedAlone();
    OutcomeAt(SETUP, SEEN.entries, start, 1, 0);
    SweepStart(SETUP, SEEN.entries, start);
    DuplicateStep(SETUP, SEEN.entries, start, EDITED);
    RecordedNotAdded(SETUP, start, EDITED);
  }

  // ---------------------------------------------- a migrated heading with a link

  const HEADING := Entry("k", Some(1), BasicCard("text", "a"))

  const RENDERED := Draft(map["Back" := "text"], [])

  lemma HeadingLinked()
    ensures Linked(BASIC, "a", RENDERED.fields)
    ensures HashTellsLink(SETUP, HEADING, OWN_BASIC, RENDERED)
    ensures Prepared(RULES, BASIC, HEADING.card) == Ok(RENDERED)
    ensures Prepared(RULES, BASIC, HEADING.card.(noteType := OWN_BASIC)) == Ok(RENDERED)
  {
    assert ValidOrgId("a");
    LinkChangesFields(BASIC, "a", RENDERED.fields);
    var f := WithSourceLink(BASIC, "a", RENDERED.fields);
    assert f["Back"] == RENDERED.fields["Back"] + (LINK_OPEN + QueryEscape("a") + LINK_CLOSE);
    assert |f["Back"]| > |RENDERED.fields["Back"]|;
  }

  /** With every request answered the heading is migrated. */
  lemma HeadingMigrates(w: World)
    requires w.run == FRESH && !("D" in w.anki.decks)
    ensures MigrateOne(SETUP, w, HEADING, OWN_BASIC).outcome.action == Added
  {
    hide Retire, MigrationJob, Prepared;
    HeadingLinked();
    var job := MigrationJob(SETUP, HEADING, OWN_BASIC, RENDERED);
    assert job.fields == RENDERED.fields && job.uploads == [] by { JobParts(); }
    var w1 := ResolveFields(SETUP, w, OWN_BASIC, job.fields).1;
    assert ResolveFields(SETUP, w, OWN_BASIC, job.fields).0 == Ok(job.fields);
    assert Upload(SETUP, w1, job.uploads) == (true, w1);
    assert EnsureDeck(SETUP, w1, job.deck).0;
    var w2 := EnsureDeck(SETUP, w1, job.deck).1;
    var (id, anki) := DoAddNote(SETUP.env, w2.anki, job.deck, job.card.noteType, job.fields, job.card.tags);
    RetireAdds(w2.(anki := anki), job, id.value);
  }

  lemma JobParts()
    ensures MigrationJob(SETUP, HEADING, OWN_BASIC, RENDERED).fields == RENDERED.fields
    ensures MigrationJob(SETUP, HEADING, OWN_BASIC, RENDERED).uploads == []
  {
  }

  lemma RetireAdds(w: World, job: Job, id: int)
    ensures Retire(SETUP, w, HEADING, job, 1, id).outcome.action == Added
  {
  }

  /** A heading with an Org identifier, migrated and synchronized without an edit in between,
      is updated. */
  lemma MigratedHeadingResent()
    ensures var w := Alone(map[1 := Note(BASIC, RENDERED.fields, [], "D")], "text");
      var step := MigrateOne(SETUP, w, HEADING, OWN_BASIC);
      && MigrationTarget(w.reg, HEADING) == Some(OWN_BASIC) && step.outcome.action == Added
      && Process(SETUP, step.world.(run := FRESH), Rehomed(HEADING, OWN_BASIC, step.outcome)).outcome.action == Updated
  {
    hide MigrateOne, Process, Prepared, Linked, HashTellsLink, JobOf, Smooth;
    var w := Alone(map[1 := Note(BASIC, RENDERED.fields, [], "D")], "text");
    HeadingLinked();
    HeadingMigrates(w);
    var step := MigrateOne(SETUP, w, HEADING, OWN_BASIC);
    var w' := step.world.(run := FRESH);
    NoFailure(w', Process(SETUP, w', Rehomed(HEADING, OWN_BASIC, step.outcome)).world);
    assert RenderType(OWN_BASIC) == BASIC;
    NextSyncAfterMigration(SETUP, w, HEADING, OWN_BASIC, RENDERED);
  }
}
