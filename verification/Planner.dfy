/** One synchronization run: what each entry, the census and the orphan pass do to the
    collection and the registry, as functions of the state before. */
module Planner {
  import opened Basics
  import opened Collection
  import opened Ordered

  /** What a heading says, without its identifier. */
  datatype Card = Card(
    noteType: string, title: string, body: string, sourcePath: string, deck: Option<string>,
    tags: seq<string>, orgId: string, direction: Option<string>, incremental: Option<string>, swift: Option<string>)

  datatype Entry = Entry(key: string, noteId: Option<int>, card: Card)

  /** One place where the scan saw an identifier. */
  datatype Sighting = Sighting(noteId: int, sourcePath: string)

  datatype Config = Config(defaultDeck: string, excludePatterns: seq<string>, scanComplete: bool)

  datatype Request = Request(census: seq<Sighting>, entries: seq<Entry>)

  datatype Action = Added | Updated | Skipped | Failed | Deleted | MigrateCandidate

  datatype Code =
    | NoteIdDuplicated | OrgIdInvalid | NoteTypeChangeUnsupported | NoteFieldMissing | AnkiConnectError
    | DeckCreateFailed | DeckMoveFailed | MediaUploadFailed | MediaFileNotFound
    | DeleteSuppressed | DeleteCandidateUnowned | MigrationAddFailed
    | Unrendered(name: string)

  datatype Outcome = Outcome(key: Option<string>, action: Action, noteId: Option<int>)

  datatype Diagnostic = Diagnostic(code: Code, key: Option<string>)

  /** The deterministic parts of the program this model leaves uninterpreted: the option
      gate, the renderer (with its skip-or-fail verdict), the media pass, the matching of
      rendered with real field names, and the content hash. */
  datatype Rules = Rules(
    gate: Card -> Option<string>,
    render: (string, Card) -> Result<Fields, (string, bool)>,
    media: (string, Fields) -> Option<(Fields, seq<string>)>,
    matching: (seq<string>, Fields) -> Option<Fields>,
    hash: (string, Fields, string, seq<string>) -> string)

  datatype Setup = Setup(env: Env, rules: Rules, config: Config)

  /** What one run remembers of the collection. */
  datatype Session = Session(decksLoaded: bool, knownDecks: set<string>, modelFields: map<string, seq<string>>,
                             uploaded: set<string>)

  const FRESH := Session(false, {}, map[], {})

  datatype World = World(anki: Anki, reg: Entries, run: Session)

  datatype Step = Step(outcome: Outcome, issues: seq<Diagnostic>, world: World)

  datatype Pass = Pass(outcomes: seq<Outcome>, issues: seq<Diagnostic>, world: World)

  // ------------------------------------------------------------ rendering

  const BASIC := "Basic"
  const CLOZE := "Cloze"
  const OWN_BASIC := "imoogi-Basic"
  const OWN_CLOZE := "imoogi-Cloze"

  function RenderType(noteType: string): string {
    if noteType == OWN_BASIC then BASIC else if noteType == OWN_CLOZE then CLOZE else noteType
  }

  function BackField(shape: string): Option<string> {
    if shape == BASIC then Some("Back") else if shape == CLOZE then Some("Back Extra") else None
  }

  predicate OrgIdChar(c: char) {
    'A' <= c <= 'Z' || 'a' <= c <= 'z' || '0' <= c <= '9' || c in "._:@-"
  }

  predicate ValidOrgId(id: string) {
    1 <= |id| <= 128 && forall i :: 0 <= i < |id| ==> OrgIdChar(id[i])
  }

  /** Percent-encoding as it falls out on the characters a valid Org ID has. */
  function QueryEscape(id: string): string {
    if id == "" then ""
    else (if id[0] == ':' then "%3A" else if id[0] == '@' then "%40" else [id[0]]) + QueryEscape(id[1..])
  }

  const LINK_OPEN := "<div class=\"imoogi-src\"><a href=\"imoogi-anki://open?id="
  const LINK_CLOSE := "\">Emacs에서 원본 열기</a></div>"

  predicate Linked(shape: string, orgId: string, fields: Fields) {
    BackField(shape).Some? && ValidOrgId(orgId) && BackField(shape).value in fields
  }

  function WithSourceLink(shape: string, orgId: string, fields: Fields): Fields {
    if Linked(shape, orgId, fields) then
      var name := BackField(shape).value;
      fields[name := fields[name] + (LINK_OPEN + QueryEscape(orgId) + LINK_CLOSE)]
    else fields
  }

  datatype Draft = Draft(fields: Fields, uploads: seq<string>)

  datatype Refusal = Refusal(code: Code, action: Action)

  /** Gate, then render, then media: the part both runs share. */
  function Prepared(rules: Rules, shape: string, card: Card): (r: Result<Draft, Refusal>)
    ensures r.Err? ==> r.error.action == Skipped || r.error.action == Failed
  {
    if rules.gate(card).Some? then Err(Refusal(Unrendered(rules.gate(card).value), Skipped))
    else
      match rules.render(shape, card)
      case Err(why) => Err(Refusal(Unrendered(why.0), if why.1 then Skipped else Failed))
      case Ok(fields) =>
        match rules.media(card.sourcePath, fields)
        case None => Err(Refusal(MediaFileNotFound, Skipped))
        case Some(rewritten) => Ok(Draft(rewritten.0, rewritten.1))
  }

  function ResolvedDeck(card: Card, defaultDeck: string): string {
    if card.deck.Some? && card.deck.value != "" then card.deck.value else defaultDeck
  }

  /** What one entry would write, once its fields are known by their real names. */
  datatype Job = Job(key: string, card: Card, fields: Fields, deck: string, hash: string, uploads: seq<string>)

  function RecordOf(job: Job, id: int): Record {
    Record(id, job.card.sourcePath, job.card.noteType, job.deck, job.hash)
  }

  // ------------------------------------------------------ requests of a run

  function ResolveFields(s: Setup, w: World, noteType: string, fields: Fields): (Result<Fields, Code>, World) {
    if noteType in w.run.modelFields then
      (Matched(s, w.run.modelFields[noteType], fields), w)
    else
      var (names, anki) := AskModelFields(s.env, w.anki, noteType);
      if names.None? then (Err(AnkiConnectError), w.(anki := anki))
      else (Matched(s, names.value, fields),
            w.(anki := anki, run := w.run.(modelFields := w.run.modelFields[noteType := names.value])))
  }

  function Matched(s: Setup, names: seq<string>, fields: Fields): Result<Fields, Code> {
    match s.rules.matching(names, fields)
    case None => Err(NoteFieldMissing)
    case Some(resolved) => Ok(resolved)
  }

  function Upload(s: Setup, w: World, uploads: seq<string>): (bool, World)
    decreases |uploads|
  {
    if uploads == [] then (true, w)
    else if uploads[0] in w.run.uploaded then Upload(s, w, uploads[1..])
    else
      var (ok, anki) := DoStoreMedia(s.env, w.anki, uploads[0]);
      if !ok then (false, w.(anki := anki))
      else Upload(s, w.(anki := anki, run := w.run.(uploaded := w.run.uploaded + {uploads[0]})), uploads[1..])
  }

  function LoadDecks(s: Setup, w: World): World {
    if w.run.decksLoaded then w
    else
      var (names, anki) := AskDeckNames(s.env, w.anki);
      w.(anki := anki, run := w.run.(decksLoaded := true, knownDecks := if names.Some? then names.value else {}))
  }

  function EnsureDeck(s: Setup, w: World, deck: string): (bool, World) {
    var w1 := LoadDecks(s, w);
    if deck in w1.run.knownDecks then (true, w1)
    else
      var (ok, anki) := DoCreateDeck(s.env, w1.anki, deck);
      (ok, w1.(anki := anki, run := if ok then w1.run.(knownDecks := w1.run.knownDecks + {deck}) else w1.run))
  }

  // --------------------------------------------------------- the branches

  function Report(job: Job, action: Action, id: Option<int>, codes: seq<Code>, w: World): Step {
    Step(Outcome(Some(job.key), action, id),
         seq(|codes|, i requires 0 <= i < |codes| => Diagnostic(codes[i], Some(job.key))), w)
  }

  function AddNew(s: Setup, w: World, job: Job): Step {
    var (sent, w1) := Upload(s, w, job.uploads);
    if !sent then Report(job, Skipped, None, [MediaUploadFailed], w1)
    else
      var (ready, w2) := EnsureDeck(s, w1, job.deck);
      if !ready then Report(job, Failed, None, [DeckCreateFailed], w2)
      else
        var (id, anki) := DoAddNote(s.env, w2.anki, job.deck, job.card.noteType, job.fields, job.card.tags);
        if id.None? then Report(job, Failed, None, [AnkiConnectError], w2.(anki := anki))
        else Report(job, Added, id, [], w2.(anki := anki, reg := w2.reg[id.value := RecordOf(job, id.value)]))
  }

  /** An identifier the registry does not hold: adopt the note it names, or add a new one. */
  function Reconcile(s: Setup, w: World, job: Job, stale: int): Step {
    var (infos, anki) := AskNotesInfo(s.env, w.anki, [stale]);
    var w1 := w.(anki := anki);
    if infos.None? || !Adoptable(infos.value, job.card.noteType) then AddNew(s, w1, job)
    else Adopt(s, w1, job, stale)
  }

  predicate Adoptable(infos: seq<Info>, noteType: string) {
    infos != [] && infos[0].note.Some? && infos[0].note.value.model == noteType
  }

  function Adopt(s: Setup, w: World, job: Job, id: int): Step {
    var (sent, w1) := Upload(s, w, job.uploads);
    if !sent then Report(job, Skipped, Some(id), [MediaUploadFailed], w1)
    else
      var (written, w2) := WriteNote(s, w1, job, id);
      if !written then Report(job, Failed, Some(id), [AnkiConnectError], w2)
      else
        var (moved, anki) := DoChangeDeck(s.env, w2.anki, id, job.deck);
        Report(job, Updated, Some(id), if moved then [] else [DeckMoveFailed],
               w2.(anki := anki, reg := w2.reg[id := RecordOf(job, id)]))
  }

  /** Fields first, then tags; a failure of either stops there. */
  function WriteNote(s: Setup, w: World, job: Job, id: int): (bool, World) {
    var (fieldsSet, anki) := DoUpdateFields(s.env, w.anki, id, job.fields);
    if !fieldsSet then (false, w.(anki := anki))
    else
      var (tagsSet, anki2) := DoUpdateTags(s.env, anki, id, job.card.tags);
      (tagsSet, w.(anki := anki2))
  }

  function Update(s: Setup, w: World, job: Job, id: int, prior: Record): Step {
    var (sent, w1) := Upload(s, w, job.uploads);
    if !sent then Report(job, Skipped, Some(id), [MediaUploadFailed], w1)
    else
      var (written, w2) := WriteNote(s, w1, job, id);
      if !written then Report(job, Failed, Some(id), [AnkiConnectError], w2)
      else
        var (moved, w3) := MoveDeck(s, w2, job.deck, id, prior.deck);
        var deck := if moved then job.deck else prior.deck;
        Report(job, Updated, Some(id), if moved then [] else [DeckMoveFailed],
               w3.(reg := w3.reg[id := RecordOf(job, id).(sourcePath := prior.sourcePath, deck := deck)]))
  }

  function MoveDeck(s: Setup, w: World, deck: string, id: int, recorded: string): (bool, World) {
    if deck == recorded then (true, w)
    else
      var (infos, anki) := AskNotesInfo(s.env, w.anki, [id]);
      if infos.None? then (false, w.(anki := anki))
      else
        var (moved, anki2) := DoChangeDeck(s.env, anki, id, deck);
        (moved, w.(anki := anki2))
  }

  /** What the sync path would store for one entry: its linked fields, uploads, deck and hash. */
  function JobOf(s: Setup, e: Entry, draft: Draft): Job {
    var fields := WithSourceLink(RenderType(e.card.noteType), e.card.orgId, draft.fields);
    var deck := ResolvedDeck(e.card, s.config.defaultDeck);
    Job(e.key, e.card, fields, deck, s.rules.hash(e.card.noteType, fields, deck, e.card.tags), draft.uploads)
  }

  function Process(s: Setup, w: World, e: Entry): Step {
    match Prepared(s.rules, RenderType(e.card.noteType), e.card)
    case Err(refusal) => Step(Outcome(Some(e.key), refusal.action, e.noteId),
                              [Diagnostic(refusal.code, Some(e.key))], w)
    case Ok(draft) => Dispatch(s, w, e, JobOf(s, e, draft))
  }

  predicate UpToDate(reg: Entries, id: Option<int>, job: Job) {
    id.Some? && id.value in reg && (reg[id.value].noteType != job.card.noteType || reg[id.value].hash == job.hash)
  }

  /** Entries that need no request leave at once; the others get their real field names first. */
  function Dispatch(s: Setup, w: World, e: Entry, job: Job): Step {
    if UpToDate(w.reg, e.noteId, job) then
      Report(job, Skipped, e.noteId, if w.reg[e.noteId.value].noteType != job.card.noteType then
             [NoteTypeChangeUnsupported] else [], w)
    else
      var (resolved, w1) := ResolveFields(s, w, job.card.noteType, job.fields);
      if resolved.Err? then Report(job, Failed, e.noteId, [resolved.error], w1)
      else Branch(s, w1, e, job.(fields := resolved.value))
  }

  function Branch(s: Setup, w: World, e: Entry, job: Job): Step {
    if e.noteId.None? then AddNew(s, w, job)
    else if e.noteId.value !in w.reg then Reconcile(s, w, job, e.noteId.value)
    else Update(s, w, job, e.noteId.value, w.reg[e.noteId.value])
  }

  // ------------------------------------------------------------- the entries

  function Claimants(entries: seq<Entry>, id: int): nat {
    if entries == [] then 0
    else Claimants(entries[..|entries| - 1], id) + if entries[|entries| - 1].noteId == Some(id) then 1 else 0
  }

  predicate Duplicated(entries: seq<Entry>, e: Entry) {
    e.noteId.Some? && Claimants(entries, e.noteId.value) > 1
  }

  function EntryStep(s: Setup, entries: seq<Entry>, w: World, e: Entry): Step {
    if Duplicated(entries, e) then
      Step(Outcome(Some(e.key), Failed, e.noteId), [Diagnostic(NoteIdDuplicated, Some(e.key))], w)
    else
      var step := Process(s, w, e);
      if e.card.orgId != "" && !ValidOrgId(e.card.orgId) then
        step.(issues := step.issues + [Diagnostic(OrgIdInvalid, Some(e.key))])
      else step
  }

  /** After the first n entries. */
  function Sweep(s: Setup, entries: seq<Entry>, w: World, n: nat): (pass: Pass)
    requires n <= |entries|
    ensures |pass.outcomes| == n
  {
    if n == 0 then Pass([], [], w)
    else
      var before := Sweep(s, entries, w, n - 1);
      var step := EntryStep(s, entries, before.world, entries[n - 1]);
      Pass(before.outcomes + [step.outcome], before.issues + step.issues, step.world)
  }

  // ------------------------------------------------------ census and orphans

  predicate Reported(census: seq<Sighting>, id: int) {
    exists i :: 0 <= i < |census| && census[i].noteId == id
  }

  /** Where the scan first saw an identifier. */
  function FirstPath(census: seq<Sighting>, id: int): (p: Option<string>)
    ensures p.Some? <==> Reported(census, id)
  {
    if census == [] then None
    else if census[0].noteId == id then Some(census[0].sourcePath)
    else
      assert forall i :: 0 < i < |census| ==> census[i] == census[1..][i - 1];
      assert forall i :: 0 <= i < |census| - 1 ==> census[1..][i] == census[i + 1];
      FirstPath(census[1..], id)
  }

  function Relocated(record: Record, census: seq<Sighting>): Record {
    var path := FirstPath(census, record.id);
    if path.Some? then record.(sourcePath := path.value) else record
  }

  function WithCensusPaths(reg: Entries, census: seq<Sighting>): Entries {
    map id | id in reg :: Relocated(reg[id], census)
  }

  predicate Excluded(path: string, patterns: seq<string>) {
    exists k :: 0 <= k < |patterns| && patterns[k] != "" && Occurs(patterns[k], path)
  }

  predicate IsCandidate(reg: Entries, census: seq<Sighting>, patterns: seq<string>, eligible: set<int>, id: int) {
    id in reg && id in eligible && !Reported(census, id) && !Excluded(reg[id].sourcePath, patterns)
  }

  function CandidatesAmong(ids: seq<int>, reg: Entries, census: seq<Sighting>, patterns: seq<string>,
                           eligible: set<int>): (c: seq<int>)
    ensures forall id :: id in c <==> id in ids && IsCandidate(reg, census, patterns, eligible, id)
  {
    if ids == [] then []
    else
      var last := ids[|ids| - 1];
      CandidatesAmong(ids[..|ids| - 1], reg, census, patterns, eligible)
      + if IsCandidate(reg, census, patterns, eligible, last) then [last] else []
  }

  function Candidates(reg: Entries, census: seq<Sighting>, patterns: seq<string>, eligible: set<int>): (c: seq<int>)
    ensures forall id :: id in c <==> IsCandidate(reg, census, patterns, eligible, id)
  {
    CandidatesAmong(Sorted(reg.Keys), reg, census, patterns, eligible)
  }

  /** The note is still what the registry says was last written to it. */
  predicate Owned(s: Setup, record: Record, note: Note) {
    note.model == record.noteType && s.rules.hash(note.model, note.fields, record.deck, note.tags) == record.hash
  }

  predicate Orphan(s: Setup, reg: Entries, info: Info) {
    info.note.Some? && info.id in reg && Owned(s, reg[info.id], info.note.value)
  }

  predicate Unowned(s: Setup, reg: Entries, info: Info) {
    info.note.Some? && info.id in reg && !Owned(s, reg[info.id], info.note.value)
  }

  function Confirmed(s: Setup, reg: Entries, infos: seq<Info>): (ids: seq<int>)
    ensures forall id :: id in ids <==> exists i :: 0 <= i < |infos| && infos[i].id == id && Orphan(s, reg, infos[i])
  {
    if infos == [] then []
    else
      var last := infos[|infos| - 1];
      var rest := infos[..|infos| - 1];
      assert forall i :: 0 <= i < |infos| ==> infos[i] == last || (i < |rest| && infos[i] == rest[i]);
      assert forall i :: 0 <= i < |rest| ==> infos[i] == rest[i];
      Confirmed(s, reg, rest) + if Orphan(s, reg, last) then [last.id] else []
  }

  function Complaints(s: Setup, reg: Entries, infos: seq<Info>): seq<Diagnostic> {
    if infos == [] then []
    else Complaints(s, reg, infos[..|infos| - 1])
         + if Unowned(s, reg, infos[|infos| - 1]) then [Diagnostic(DeleteCandidateUnowned, None)] else []
  }

  function Deletions(ids: seq<int>): seq<Outcome> {
    seq(|ids|, i requires 0 <= i < |ids| => Outcome(None, Deleted, Some(ids[i])))
  }

  function ConfirmAndDelete(s: Setup, w: World, candidates: seq<int>, scanComplete: bool): Pass {
    if !scanComplete then Pass([], [Diagnostic(DeleteSuppressed, None)], w)
    else if candidates == [] then Pass([], [], w)
    else
      var (infos, anki) := AskNotesInfo(s.env, w.anki, candidates);
      if infos.None? then Pass([], [Diagnostic(DeleteSuppressed, None)], w.(anki := anki))
      else DeleteConfirmed(s, w.(anki := anki), infos.value)
  }

  function DeleteConfirmed(s: Setup, w: World, infos: seq<Info>): Pass {
    var ids := Confirmed(s, w.reg, infos);
    var complaints := Complaints(s, w.reg, infos);
    if ids == [] then Pass([], complaints, w)
    else
      var (ok, anki) := DoDeleteNotes(s.env, w.anki, ids);
      if !ok then Pass([], complaints + [Diagnostic(AnkiConnectError, None)], w.(anki := anki))
      else Pass(Deletions(ids), complaints, w.(anki := anki, reg := w.reg - (set id | id in ids)))
  }

  // ------------------------------------------------------------ the whole run

  function AfterEntries(s: Setup, req: Request, w: World): Pass {
    Sweep(s, req.entries, w.(run := FRESH), |req.entries|)
  }

  function AfterCensus(s: Setup, req: Request, w: World): World {
    var w1 := AfterEntries(s, req, w).world;
    w1.(reg := WithCensusPaths(w1.reg, req.census))
  }

  function OrphanPass(s: Setup, req: Request, w: World): Pass {
    var w2 := AfterCensus(s, req, w);
    ConfirmAndDelete(s, w2, Candidates(w2.reg, req.census, s.config.excludePatterns, w.reg.Keys), s.config.scanComplete)
  }

  function Run(s: Setup, req: Request, w: World): Pass {
    var entries := AfterEntries(s, req, w);
    var orphans := OrphanPass(s, req, w);
    Pass(entries.outcomes + orphans.outcomes, entries.issues + orphans.issues, orphans.world)
  }
}
