/** The persistent note cache: three tables and a version stamp, what a run reads from
    them, and what it writes back. */
module NoteCache {
  import opened Basics
  import opened Sorting

  datatype Document = Document(file: string, id: string, title: string, kind: string, identityError: string)

  datatype Occurrence = Occurrence(id: string, file: string, position: int)

  datatype Link = Link(file: string, sourceId: string, targetId: string, kind: string, position: int)

  datatype Parsed = Parsed(document: Option<Document>, occurrences: seq<Occurrence>, links: seq<Link>)

  /** A parsed file as the service hands it around. */
  datatype Row = Row(path: string, hash: string, document: Option<Document>, occurrences: seq<Occurrence>,
                     links: seq<Link>)

  datatype FileRow = FileRow(hash: string, isDocument: bool, documentId: string, title: string, kind: string,
                             identityError: string)

  /** One scope's database. */
  datatype Tables = Tables(version: Option<nat>, files: map<string, FileRow>, ids: set<Occurrence>, links: set<Link>)

  datatype Source = Source(path: string, text: string)

  /** One scope: its tasks file, the content hash with the text each hash stands for, and
      the parser of every version. A parser sees path, text and two flags. */
  datatype Site = Site(
    tasksFile: string,
    hash: string -> string,
    textOf: string -> string,
    parser: (nat, string, string, bool, bool) -> Parsed)

  /** Hashes do not collide. */
  ghost predicate Faithful(site: Site) {
    forall text :: site.textOf(site.hash(text)) == text
  }

  predicate OccurrenceBefore(a: Occurrence, b: Occurrence) {
    Below(a.id, b.id) || (a.id == b.id && a.position < b.position)
  }

  predicate LinkBefore(a: Link, b: Link) {
    Below(a.file, b.file) || (a.file == b.file && a.position < b.position)
  }

  lemma Orders()
    ensures Asymmetric(OccurrenceBefore) && Transitive(OccurrenceBefore)
    ensures Asymmetric(LinkBefore) && Transitive(LinkBefore)
  {
    forall x, y | OccurrenceBefore(x, y) ensures !OccurrenceBefore(y, x) {
      if Below(x.id, y.id) { BelowAsymmetric(x.id, y.id); }
      if Below(y.id, x.id) { BelowAsymmetric(y.id, x.id); }
    }
    forall x, y, z | OccurrenceBefore(x, y) && OccurrenceBefore(y, z) ensures OccurrenceBefore(x, z) {
      if Below(x.id, y.id) && Below(y.id, z.id) { BelowTransitive(x.id, y.id, z.id); }
    }
    forall x, y | LinkBefore(x, y) ensures !LinkBefore(y, x) {
      if Below(x.file, y.file) { BelowAsymmetric(x.file, y.file); }
      if Below(y.file, x.file) { BelowAsymmetric(y.file, x.file); }
    }
    forall x, y, z | LinkBefore(x, y) && LinkBefore(y, z) ensures LinkBefore(x, z) {
      if Below(x.file, y.file) && Below(y.file, z.file) { BelowTransitive(x.file, y.file, z.file); }
    }
  }

  /** What a parser may return for a path: rows of that path only, no two occurrences of one
      identifier and no two links at one position. */
  ghost predicate Proper(parsed: Parsed, path: string) {
    && (parsed.document.Some? ==> parsed.document.value.file == path)
    && (forall i :: 0 <= i < |parsed.occurrences| ==> parsed.occurrences[i].file == path)
    && (forall i, j :: 0 <= i < j < |parsed.occurrences| ==>
          parsed.occurrences[i].id != parsed.occurrences[j].id
            || parsed.occurrences[i].position != parsed.occurrences[j].position)
    && (forall i :: 0 <= i < |parsed.links| ==> parsed.links[i].file == path)
    && (forall i, j :: 0 <= i < j < |parsed.links| ==> parsed.links[i].position != parsed.links[j].position)
  }

  ghost predicate ProperParsers(site: Site) {
    forall v, path, text, doc, tasks :: Proper(site.parser(v, path, text, doc, tasks), path)
  }

  function RowFromParsed(path: string, hash: string, parsed: Parsed): Row {
    Row(path, hash, parsed.document, Sort(parsed.occurrences, OccurrenceBefore), Sort(parsed.links, LinkBefore))
  }

  /** Parsing one text from scratch. */
  function FreshRow(site: Site, v: nat, path: string, text: string): Row {
    RowFromParsed(path, site.hash(text), site.parser(v, path, text, path != site.tasksFile, path == site.tasksFile))
  }

  /** A row tells what the parser of a version makes of a text: its document, each of its
      occurrences and links as often as it gives them, in the order of the queries. Only the
      tasks file is read as tasks, and every other file as a document. */
  ghost predicate Tells(site: Site, v: nat, path: string, text: string, row: Row) {
    var parsed := site.parser(v, path, text, path != site.tasksFile, path == site.tasksFile);
    && row.path == path && row.hash == site.hash(text) && row.document == parsed.document
    && multiset(row.occurrences) == multiset(parsed.occurrences) && Ascending(row.occurrences, OccurrenceBefore)
    && multiset(row.links) == multiset(parsed.links) && Ascending(row.links, LinkBefore)
  }

  lemma FreshRowTells(site: Site, v: nat, path: string, text: string)
    requires ProperParsers(site)
    ensures Tells(site, v, path, text, FreshRow(site, v, path, text))
  {
    FreshRowNormal(site, v, path, text);
    var parsed := site.parser(v, path, text, path != site.tasksFile, path == site.tasksFile);
    SortKeeps(parsed.occurrences, OccurrenceBefore);
    SortKeeps(parsed.links, LinkBefore);
  }

  /** A row in the form the tables give it back. */
  ghost predicate Normal(row: Row) {
    && (row.document.Some? ==> row.document.value.file == row.path)
    && (forall o :: o in row.occurrences ==> o.file == row.path)
    && (forall l :: l in row.links ==> l.file == row.path)
    && Ascending(row.occurrences, OccurrenceBefore)
    && Ascending(row.links, LinkBefore)
  }

  lemma FreshRowNormal(site: Site, v: nat, path: string, text: string)
    requires ProperParsers(site)
    ensures Normal(FreshRow(site, v, path, text))
  {
    var parsed := site.parser(v, path, text, path != site.tasksFile, path == site.tasksFile);
    assert Proper(parsed, path);
    Orders();
    forall i, j | 0 <= i < j < |parsed.occurrences|
      ensures OccurrenceBefore(parsed.occurrences[i], parsed.occurrences[j])
                || OccurrenceBefore(parsed.occurrences[j], parsed.occurrences[i])
    {
      BelowTotal(parsed.occurrences[i].id, parsed.occurrences[j].id);
    }
    SortAscending(parsed.occurrences, OccurrenceBefore);
    SortAscending(parsed.links, LinkBefore);
  }

  // ----------------------------------------------------------------- the tables

  function FileRowOf(row: Row): FileRow {
    match row.document
    case None => FileRow(row.hash, false, "", "", "", "")
    case Some(d) => FileRow(row.hash, true, d.id, d.title, d.kind, d.identityError)
  }

  function DeletePaths(t: Tables, paths: set<string>): Tables {
    Tables(t.version, t.files - paths, set o | o in t.ids && o.file !in paths, set l | l in t.links && l.file !in paths)
  }

  function Upsert(t: Tables, row: Row): Tables {
    var cleared := DeletePaths(t, {row.path});
    Tables(t.version, t.files[row.path := FileRowOf(row)],
           cleared.ids + (set o | o in row.occurrences), cleared.links + (set l | l in row.links))
  }

  function UpsertAll(t: Tables, rows: seq<Row>): Tables {
    if rows == [] then t else Upsert(UpsertAll(t, rows[..|rows| - 1]), rows[|rows| - 1])
  }

  /** What the queries of `load` give back for a path, if the hash is the recorded one. */
  ghost function Load(t: Tables, path: string, hash: string): Option<Row> {
    if path !in t.files || t.files[path].hash != hash then None
    else Some(StoredRow(t, path))
  }

  function IdsOf(t: Tables, path: string): set<Occurrence> {
    set o | o in t.ids && o.file == path
  }

  function LinksOf(t: Tables, path: string): set<Link> {
    set l | l in t.links && l.file == path
  }

  ghost function StoredRow(t: Tables, path: string): Row
    requires path in t.files
  {
    var f := t.files[path];
    Row(path, f.hash,
        if f.isDocument then Some(Document(path, f.documentId, f.title, f.kind, f.identityError)) else None,
        Listing(IdsOf(t, path), OccurrenceBefore),
        Listing(LinksOf(t, path), LinkBefore))
  }

  /** What was stored comes back, field by field and in the same order. */
  lemma LoadAfterUpsert(t: Tables, row: Row)
    requires Normal(row)
    ensures row.path in Upsert(t, row).files && StoredRow(Upsert(t, row), row.path) == row
    ensures Load(Upsert(t, row), row.path, row.hash) == Some(row)
  {
    var t' := Upsert(t, row);
    Orders();
    var ids := IdsOf(t', row.path);
    assert forall o :: o in row.occurrences <==> o in ids;
    ListingIs(ids, OccurrenceBefore, row.occurrences);
    var links := LinksOf(t', row.path);
    assert forall l :: l in row.links <==> l in links;
    ListingIs(links, LinkBefore, row.links);
  }

  lemma UpsertElsewhere(t: Tables, row: Row, path: string)
    requires Normal(row) && path != row.path
    ensures path in Upsert(t, row).files <==> path in t.files
    ensures path in t.files ==> StoredRow(Upsert(t, row), path) == StoredRow(t, path)
  {
    var t' := Upsert(t, row);
    assert IdsOf(t', path) == IdsOf(t, path);
    assert LinksOf(t', path) == LinksOf(t, path);
  }

  lemma DeleteElsewhere(t: Tables, paths: set<string>, path: string)
    requires path !in paths
    ensures path in DeletePaths(t, paths).files <==> path in t.files
    ensures path in t.files ==> StoredRow(DeletePaths(t, paths), path) == StoredRow(t, path)
  {
    var t' := DeletePaths(t, paths);
    assert IdsOf(t', path) == IdsOf(t, path);
    assert LinksOf(t', path) == LinksOf(t, path);
  }

  /** After writing a list of rows, a path holds one of the rows written for it, or what it held. */
  lemma {:induction false} UpsertAllAt(t: Tables, rows: seq<Row>, path: string)
    requires forall r :: r in rows ==> Normal(r)
    ensures var t' := UpsertAll(t, rows);
      if exists i :: 0 <= i < |rows| && rows[i].path == path
      then path in t'.files && exists i :: 0 <= i < |rows| && rows[i].path == path && StoredRow(t', path) == rows[i]
      else (path in t'.files <==> path in t.files) && (path in t.files ==> StoredRow(t', path) == StoredRow(t, path))
  {
    hide Normal, StoredRow, Upsert;
    if rows != [] {
      var n := |rows| - 1;
      assert rows[n] in rows && forall i :: 0 <= i < n ==> rows[..n][i] == rows[i];
      UpsertAllAt(t, rows[..n], path);
      var t1 := UpsertAll(t, rows[..n]);
      if rows[n].path == path {
        LoadAfterUpsert(t1, rows[n]);
      } else {
        UpsertElsewhere(t1, rows[n], path);
      }
    }
  }

  predicate SaveChanges(t: Tables, v: nat, scanned: set<string>, rows: seq<Row>, invalidated: set<string>) {
    t.version != Some(v) || invalidated != {} || (DeletePaths(t, invalidated).files.Keys - scanned) != {} || rows != []
  }

  /** One successful save: stale and vanished paths go, new rows come, the stamp is set. */
  function Save(t: Tables, v: nat, scanned: set<string>, rows: seq<Row>, invalidated: set<string>): Tables {
    var kept := DeletePaths(t, invalidated);
    var present := DeletePaths(kept, kept.files.Keys - scanned);
    var written := UpsertAll(present, rows);
    if SaveChanges(t, v, scanned, rows, invalidated) then written.(version := Some(v)) else written
  }

  // ------------------------------------------------------------------- one run

  datatype Progress = Progress(rows: seq<Row>, changed: seq<Row>, invalidated: set<string>, hits: nat, parsed: nat)

  /** What the loop over the scanned files does with one of them. */
  ghost function Visit(site: Site, v: nat, t: Tables, overlays: map<string, string>, file: Source,
                       p: Progress): Progress {
    if file.path in overlays then
      p.(rows := p.rows + [FreshRow(site, v, file.path, overlays[file.path])], parsed := p.parsed + 1,
         invalidated := if t.version != Some(v) then p.invalidated + {file.path} else p.invalidated)
    else if t.version == Some(v) && Load(t, file.path, site.hash(file.text)).Some? then
      p.(rows := p.rows + [Load(t, file.path, site.hash(file.text)).value], hits := p.hits + 1)
    else
      var row := FreshRow(site, v, file.path, file.text);
      p.(rows := p.rows + [row], changed := p.changed + [row], parsed := p.parsed + 1)
  }

  ghost function Scan(site: Site, v: nat, t: Tables, overlays: map<string, string>, files: seq<Source>): Progress {
    if files == [] then Progress([], [], {}, 0, 0)
    else
      Visit(site, v, t, overlays, files[|files| - 1], Scan(site, v, t, overlays, files[..|files| - 1]))
  }

  function Paths(files: seq<Source>): set<string> {
    set i | 0 <= i < |files| :: files[i].path
  }

  ghost function Saved(site: Site, v: nat, t: Tables, overlays: map<string, string>, files: seq<Source>): Tables {
    var p := Scan(site, v, t, overlays, files);
    Save(t, v, Paths(files), p.changed, p.invalidated)
  }

  // ------------------------------------------------------------------ coherence

  function CurrentText(file: Source, overlays: map<string, string>): string {
    if file.path in overlays then overlays[file.path] else file.text
  }

  /** Every scanned file parsed from scratch, unsaved text in place of the text on disk. */
  function Scratch(site: Site, v: nat, overlays: map<string, string>, files: seq<Source>): (rows: seq<Row>)
    ensures |rows| == |files|
    ensures forall i :: 0 <= i < |files| ==>
              rows[i] == FreshRow(site, v, files[i].path, CurrentText(files[i], overlays))
  {
    seq(|files|, i requires 0 <= i < |files| => FreshRow(site, v, files[i].path, CurrentText(files[i], overlays)))
  }

  lemma ScratchTells(site: Site, v: nat, overlays: map<string, string>, files: seq<Source>)
    requires ProperParsers(site)
    ensures forall i :: 0 <= i < |files| ==>
              Tells(site, v, files[i].path, CurrentText(files[i], overlays), Scratch(site, v, overlays, files)[i])
  {
    hide FreshRow, Tells;
    forall i | 0 <= i < |files|
      ensures Tells(site, v, files[i].path, CurrentText(files[i], overlays), Scratch(site, v, overlays, files)[i])
    {
      FreshRowTells(site, v, files[i].path, CurrentText(files[i], overlays));
    }
  }

  /** Every stored row is what the stamped parser makes of the text its hash stands for. */
  ghost predicate Valid(site: Site, t: Tables) {
    t.version.Some? ==> forall path :: path in t.files ==> ValidAt(site, t.version.value, t, path)
  }

  ghost predicate ValidAt(site: Site, v: nat, t: Tables, path: string)
    requires path in t.files
  {
    exists text :: StoredRow(t, path) == FreshRow(site, v, path, text)
  }

  lemma HitIsFresh(site: Site, v: nat, t: Tables, path: string, text: string)
    requires Faithful(site) && Valid(site, t) && t.version == Some(v)
    ensures Load(t, path, site.hash(text)).Some? ==>
              Load(t, path, site.hash(text)).value == FreshRow(site, v, path, text)
  {
    if Load(t, path, site.hash(text)).Some? {
      assert ValidAt(site, v, t, path);
      var stored :| StoredRow(t, path) == FreshRow(site, v, path, stored);
      assert site.hash(stored) == site.hash(text);
      assert site.textOf(site.hash(stored)) == stored && site.textOf(site.hash(text)) == text;
    }
  }

  /** A run over a valid cache answers as if it had parsed every file from scratch. */
  lemma {:induction false} ScanCoherent(site: Site, v: nat, t: Tables, overlays: map<string, string>,
                                        files: seq<Source>)
    requires Faithful(site) && Valid(site, t)
    ensures Scan(site, v, t, overlays, files).rows == Scratch(site, v, overlays, files)
  {
    hide Load, FreshRow, Valid, Faithful;
    if files != [] {
      var n := |files| - 1;
      ScanCoherent(site, v, t, overlays, files[..n]);
      assert forall i :: 0 <= i < n ==> files[..n][i] == files[i];
      if t.version == Some(v) {
        HitIsFresh(site, v, t, files[n].path, files[n].text);
      }
      assert Scratch(site, v, overlays, files) ==
             Scratch(site, v, overlays, files[..n])
               + [FreshRow(site, v, files[n].path, CurrentText(files[n], overlays))];
    }
  }

  ghost predicate FromDisk(site: Site, v: nat, overlays: map<string, string>, files: seq<Source>, r: Row) {
    exists i :: 0 <= i < |files| && files[i].path !in overlays && r == FreshRow(site, v, files[i].path, files[i].text)
  }

  ghost predicate Written(rows: seq<Row>, path: string) {
    exists i :: 0 <= i < |rows| && rows[i].path == path
  }

  ghost predicate Hit(site: Site, v: nat, t: Tables, file: Source) {
    t.version == Some(v) && Load(t, file.path, site.hash(file.text)).Some?
  }

  /** Only rows parsed from text on disk are written, never those of unsaved text. */
  lemma {:induction false} ScanWritesDisk(site: Site, v: nat, t: Tables, overlays: map<string, string>,
                                          files: seq<Source>)
    ensures forall r :: r in Scan(site, v, t, overlays, files).changed ==> FromDisk(site, v, overlays, files, r)
  {
    hide Load, FreshRow;
    if files != [] {
      var n := |files| - 1;
      var before := Scan(site, v, t, overlays, files[..n]);
      ScanWritesDisk(site, v, t, overlays, files[..n]);
      forall r | r in Scan(site, v, t, overlays, files).changed ensures FromDisk(site, v, overlays, files, r) {
        if r in before.changed {
          assert FromDisk(site, v, overlays, files[..n], r);
          var i :| 0 <= i < n && files[..n][i].path !in overlays
            && r == FreshRow(site, v, files[..n][i].path, files[..n][i].text);
          assert files[i] == files[..n][i];
        } else {
          assert r == FreshRow(site, v, files[n].path, files[n].text);
        }
      }
    }
  }

  /** Under an old stamp exactly the scanned files with unsaved text are invalidated. */
  lemma {:induction false} ScanInvalidates(site: Site, v: nat, t: Tables, overlays: map<string, string>,
                                           files: seq<Source>)
    ensures Scan(site, v, t, overlays, files).invalidated ==
              if t.version == Some(v) then {} else set path | path in Paths(files) && path in overlays
  {
    hide Load, FreshRow;
    if files != [] {
      var n := |files| - 1;
      ScanInvalidates(site, v, t, overlays, files[..n]);
      assert Paths(files) == Paths(files[..n]) + {files[n].path} by { PathsExtended(files, n); }
    }
  }

  lemma PathsExtended(files: seq<Source>, n: nat)
    requires n < |files|
    ensures Paths(files[..n + 1]) == Paths(files[..n]) + {files[n].path}
    ensures n + 1 == |files| ==> files[..n + 1] == files
  {
    assert forall i :: 0 <= i < n ==> files[..n][i] == files[..n + 1][i];
    assert files[..n + 1][n] == files[n];
  }

  /** A file without unsaved text is written unless it was a hit. */
  lemma {:induction false} ScanWritesMisses(site: Site, v: nat, t: Tables, overlays: map<string, string>,
                                            files: seq<Source>, i: nat)
    requires i < |files| && files[i].path !in overlays && !Hit(site, v, t, files[i])
    ensures Written(Scan(site, v, t, overlays, files).changed, files[i].path)
  {
    hide Load;
    var n := |files| - 1;
    var before := Scan(site, v, t, overlays, files[..n]).changed;
    var after := Scan(site, v, t, overlays, files).changed;
    if i < n {
      ScanWritesMisses(site, v, t, overlays, files[..n], i);
      var k :| 0 <= k < |before| && before[k].path == files[i].path;
      assert after[k] == before[k];
    } else {
      assert after[|before|].path == files[n].path;
    }
  }

  lemma {:induction false} ScanCounts(site: Site, v: nat, t: Tables, overlays: map<string, string>, files: seq<Source>)
    ensures var p := Scan(site, v, t, overlays, files); p.hits + p.parsed == |files|
  {
    hide Load, FreshRow;
    if files != [] {
      ScanCounts(site, v, t, overlays, files[..|files| - 1]);
    }
  }

  lemma FreshRowPath(site: Site, v: nat, path: string, text: string)
    ensures FreshRow(site, v, path, text).path == path && FreshRow(site, v, path, text).hash == site.hash(text)
  {
  }

  // -------------------------------------------------------- what a save leaves

  lemma ChangedNormal(site: Site, v: nat, t: Tables, overlays: map<string, string>, files: seq<Source>)
    requires ProperParsers(site)
    ensures forall r :: r in Scan(site, v, t, overlays, files).changed ==> Normal(r)
  {
    hide Scan, FreshRow, Normal;
    ScanWritesDisk(site, v, t, overlays, files);
    forall r | r in Scan(site, v, t, overlays, files).changed ensures Normal(r) {
      var k :| 0 <= k < |files| && files[k].path !in overlays && r == FreshRow(site, v, files[k].path, files[k].text);
      FreshRowNormal(site, v, files[k].path, files[k].text);
    }
  }

  /** What a run leaves stored for a path: the fresh row of the text on disk, or the row that
      was there, under the same stamp, for a path still scanned. */
  ghost predicate Retained(site: Site, v: nat, t: Tables, t': Tables, overlays: map<string, string>,
                           files: seq<Source>, path: string)
    requires path in t'.files
  {
    || FromDisk(site, v, overlays, files, StoredRow(t', path))
    || (t.version == Some(v) && path in Paths(files) && path in t.files && StoredRow(t', path) == StoredRow(t, path))
  }

  lemma SavedAt(site: Site, v: nat, t: Tables, overlays: map<string, string>, files: seq<Source>, path: string)
    requires ProperParsers(site) && path in Saved(site, v, t, overlays, files).files
    ensures Retained(site, v, t, Saved(site, v, t, overlays, files), overlays, files, path)
  {
    hide FreshRow, Normal, StoredRow, DeletePaths, UpsertAll, Paths, Visit;
    var p := Scan(site, v, t, overlays, files);
    ChangedNormal(site, v, t, overlays, files);
    ScanWritesDisk(site, v, t, overlays, files);
    var kept := DeletePaths(t, p.invalidated);
    var present := DeletePaths(kept, kept.files.Keys - Paths(files));
    var written := UpsertAll(present, p.changed);
    StampOnly(written, v, path);
    UpsertAllAt(present, p.changed, path);
    if !Written(p.changed, path) {
      SurvivesDelete(t, p.invalidated, Paths(files), path);
      ScanInvalidates(site, v, t, overlays, files);
      assert path in present.files;
      assert t.version != Some(v) ==> path !in overlays;
      OldStampRewritten(site, v, t, overlays, files, path);
    }
  }

  lemma StampOnly(t: Tables, v: nat, path: string)
    requires path in t.files
    ensures StoredRow(t.(version := Some(v)), path) == StoredRow(t, path)
  {
    assert IdsOf(t.(version := Some(v)), path) == IdsOf(t, path);
    assert LinksOf(t.(version := Some(v)), path) == LinksOf(t, path);
  }

  /** A path left by the two deletions was stored before, still scanned and not invalidated. */
  lemma SurvivesDelete(t: Tables, invalidated: set<string>, scanned: set<string>, path: string)
    ensures var kept := DeletePaths(t, invalidated); var present := DeletePaths(kept, kept.files.Keys - scanned);
      && (path in present.files <==> path in t.files && path in scanned && path !in invalidated)
      && (path in present.files ==> StoredRow(present, path) == StoredRow(t, path))
  {
    hide StoredRow;
    var kept := DeletePaths(t, invalidated);
    if path in kept.files {
      DeleteElsewhere(t, invalidated, path);
      if path in scanned {
        DeleteElsewhere(kept, kept.files.Keys - scanned, path);
      }
    }
  }

  /** Under an old stamp every scanned path is either written or invalidated. */
  lemma OldStampRewritten(site: Site, v: nat, t: Tables, overlays: map<string, string>, files: seq<Source>,
                          path: string)
    ensures t.version != Some(v) && path in Paths(files) && path !in overlays ==>
              Written(Scan(site, v, t, overlays, files).changed, path)
  {
    if t.version != Some(v) && path in Paths(files) && path !in overlays {
      var i :| 0 <= i < |files| && files[i].path == path;
      ScanWritesMisses(site, v, t, overlays, files, i);
    }
  }

  /** After a save every stored row is valid for the version it was stamped with. */
  lemma SaveKeepsValid(site: Site, v: nat, t: Tables, overlays: map<string, string>, files: seq<Source>)
    requires ProperParsers(site) && Valid(site, t)
    ensures Saved(site, v, t, overlays, files).version == Some(v)
    ensures Valid(site, Saved(site, v, t, overlays, files))
  {
    hide Scan, FreshRow, StoredRow, Upsert, Paths, DeletePaths;
    var t' := Saved(site, v, t, overlays, files);
    SaveStamps(t, v, Paths(files), Scan(site, v, t, overlays, files).changed,
               Scan(site, v, t, overlays, files).invalidated);
    forall path | path in t'.files ensures ValidAt(site, v, t', path) {
      SavedAt(site, v, t, overlays, files, path);
      StoredPath(t', path);
      if FromDisk(site, v, overlays, files, StoredRow(t', path)) {
        var i :| 0 <= i < |files| && files[i].path !in overlays
          && StoredRow(t', path) == FreshRow(site, v, files[i].path, files[i].text);
        FreshRowPath(site, v, files[i].path, files[i].text);
      } else {
        assert ValidAt(site, v, t, path);
      }
    }
  }

  lemma StoredPath(t: Tables, path: string)
    requires path in t.files
    ensures StoredRow(t, path).path == path && StoredRow(t, path).hash == t.files[path].hash
  {
  }

  lemma {:induction false} UpsertAllVersion(t: Tables, rows: seq<Row>)
    ensures UpsertAll(t, rows).version == t.version
  {
    if rows != [] {
      UpsertAllVersion(t, rows[..|rows| - 1]);
    }
  }

  lemma SaveStamps(t: Tables, v: nat, scanned: set<string>, rows: seq<Row>, invalidated: set<string>)
    ensures Save(t, v, scanned, rows, invalidated).version == Some(v)
  {
    hide UpsertAll;
    var kept := DeletePaths(t, invalidated);
    UpsertAllVersion(DeletePaths(kept, kept.files.Keys - scanned), rows);
  }

  /** Unsaved text is never stored: for a file that has some, a save leaves at most the row
      that was there, and only under an unchanged stamp. */
  lemma UnsavedNeverStored(site: Site, v: nat, t: Tables, overlays: map<string, string>, files: seq<Source>,
                           path: string)
    requires ProperParsers(site) && path in overlays
    requires path in Saved(site, v, t, overlays, files).files
    ensures t.version == Some(v) && path in t.files
    ensures StoredRow(Saved(site, v, t, overlays, files), path) == StoredRow(t, path)
  {
    hide Scan, FreshRow, StoredRow, Save, Paths;
    var t' := Saved(site, v, t, overlays, files);
    SavedAt(site, v, t, overlays, files, path);
    StoredPath(t', path);
    NotFromDisk(site, v, overlays, files, StoredRow(t', path));
  }

  lemma NotFromDisk(site: Site, v: nat, overlays: map<string, string>, files: seq<Source>, r: Row)
    ensures FromDisk(site, v, overlays, files, r) ==> r.path !in overlays && r.path in Paths(files)
  {
  }

  /** A path the scan did not find leaves no row behind. */
  lemma VanishedGone(site: Site, v: nat, t: Tables, overlays: map<string, string>, files: seq<Source>)
    requires ProperParsers(site)
    ensures forall path :: path in Saved(site, v, t, overlays, files).files ==> path in Paths(files)
  {
    hide Scan, FreshRow, StoredRow, Save, Paths;
    var t' := Saved(site, v, t, overlays, files);
    forall path | path in t'.files ensures path in Paths(files) {
      SavedAt(site, v, t, overlays, files, path);
      StoredPath(t', path);
      NotFromDisk(site, v, overlays, files, StoredRow(t', path));
    }
  }

  // ------------------------------------------------------------- the next run hits

  ghost predicate DistinctPaths(files: seq<Source>) {
    forall i, j :: 0 <= i < j < |files| ==> files[i].path != files[j].path
  }

  /** After a save every scanned file without unsaved text is served from the cache. */
  lemma SavedHits(site: Site, v: nat, t: Tables, overlays: map<string, string>, files: seq<Source>, i: nat)
    requires Faithful(site) && ProperParsers(site) && Valid(site, t) && DistinctPaths(files)
    requires i < |files| && files[i].path !in overlays
    ensures Hit(site, v, Saved(site, v, t, overlays, files), files[i])
  {
    hide FreshRow, Normal, StoredRow, DeletePaths, UpsertAll, Visit, Faithful, Valid;
    var path := files[i].path;
    var p := Scan(site, v, t, overlays, files);
    var t' := Saved(site, v, t, overlays, files);
    var kept := DeletePaths(t, p.invalidated);
    var present := DeletePaths(kept, kept.files.Keys - Paths(files));
    var written := UpsertAll(present, p.changed);
    ChangedNormal(site, v, t, overlays, files);
    SaveStamps(t, v, Paths(files), p.changed, p.invalidated);
    UpsertAllAt(present, p.changed, path);
    SurvivesDelete(t, p.invalidated, Paths(files), path);
    ScanInvalidates(site, v, t, overlays, files);
    if Written(p.changed, path) {
      var k :| 0 <= k < |p.changed| && p.changed[k].path == path && StoredRow(written, path) == p.changed[k];
      assert p.changed[k] in p.changed;
      ScanWritesDisk(site, v, t, overlays, files);
      OnlyFrom(site, v, overlays, files, p.changed[k], i);
    } else {
      NotWrittenHit(site, v, t, overlays, files, i);
      HitIsFresh(site, v, t, path, files[i].text);
    }
    FreshRowPath(site, v, path, files[i].text);
    StoredPath(written, path);
    assert t'.files == written.files;
  }

  lemma NotWrittenHit(site: Site, v: nat, t: Tables, overlays: map<string, string>, files: seq<Source>, i: nat)
    requires i < |files| && files[i].path !in overlays
    requires !Written(Scan(site, v, t, overlays, files).changed, files[i].path)
    ensures Hit(site, v, t, files[i])
  {
    hide Load;
    if !Hit(site, v, t, files[i]) {
      ScanWritesMisses(site, v, t, overlays, files, i);
    }
  }

  lemma OnlyFrom(site: Site, v: nat, overlays: map<string, string>, files: seq<Source>, r: Row, i: nat)
    requires FromDisk(site, v, overlays, files, r) && DistinctPaths(files)
    requires i < |files| && r.path == files[i].path
    ensures r == FreshRow(site, v, files[i].path, files[i].text)
  {
    var k :| 0 <= k < |files| && files[k].path !in overlays && r == FreshRow(site, v, files[k].path, files[k].text);
    assert k == i;
  }

  function Overlaid(files: seq<Source>, overlays: map<string, string>): nat {
    if files == [] then 0
    else Overlaid(files[..|files| - 1], overlays) + if files[|files| - 1].path in overlays then 1 else 0
  }

  lemma {:induction false} AllHits(site: Site, v: nat, t: Tables, overlays: map<string, string>, files: seq<Source>)
    requires t.version == Some(v)
    requires forall i :: 0 <= i < |files| && files[i].path !in overlays ==> Hit(site, v, t, files[i])
    ensures var p := Scan(site, v, t, overlays, files);
      p.changed == [] && p.invalidated == {} && p.parsed == Overlaid(files, overlays)
        && p.hits == |files| - Overlaid(files, overlays)
  {
    hide Load, FreshRow;
    if files != [] {
      var n := |files| - 1;
      forall i | 0 <= i < n && files[..n][i].path !in overlays ensures Hit(site, v, t, files[..n][i]) {
        assert files[..n][i] == files[i];
      }
      AllHits(site, v, t, overlays, files[..n]);
    }
  }

  /** Run again on the same files: only files with unsaved text are parsed, and the tables
      stay exactly as they are. */
  lemma WarmRun(site: Site, v: nat, t: Tables, overlays: map<string, string>, files: seq<Source>)
    requires Faithful(site) && ProperParsers(site) && Valid(site, t) && DistinctPaths(files)
    ensures var t' := Saved(site, v, t, overlays, files);
      && Scan(site, v, t', overlays, files).parsed == Overlaid(files, overlays)
      && Saved(site, v, t', overlays, files) == t'
  {
    hide Load, FreshRow, Scan, StoredRow, Paths, Save, Faithful, Valid, ProperParsers;
    var t' := Saved(site, v, t, overlays, files);
    SaveStamps(t, v, Paths(files), Scan(site, v, t, overlays, files).changed,
               Scan(site, v, t, overlays, files).invalidated);
    forall i | 0 <= i < |files| && files[i].path !in overlays ensures Hit(site, v, t', files[i]) {
      SavedHits(site, v, t, overlays, files, i);
    }
    AllHits(site, v, t', overlays, files);
    VanishedGone(site, v, t, overlays, files);
    SaveNothing(t', v, Paths(files));
  }

  lemma SaveNothing(t: Tables, v: nat, scanned: set<string>)
    requires t.version == Some(v) && forall path :: path in t.files ==> path in scanned
    ensures Save(t, v, scanned, [], {}) == t
  {
    assert DeletePaths(t, {}) == t;
    assert t.files.Keys - scanned == {};
  }

  // ------------------------------------------------------------------ every history

  /** One invocation: the program's parser version, the unsaved texts, what the scan found,
      and whether the save went through. */
  datatype Invocation = Invocation(version: nat, overlays: map<string, string>, files: seq<Source>, saved: bool)

  const EMPTY := Tables(None, map[], {}, {})

  /** The tables after a history of invocations; between them files change freely. */
  ghost function After(site: Site, history: seq<Invocation>): Tables {
    if history == [] then EMPTY
    else
      var last := history[|history| - 1];
      var before := After(site, history[..|history| - 1]);
      if last.saved then Saved(site, last.version, before, last.overlays, last.files) else before
  }

  lemma {:induction false} HistoryValid(site: Site, history: seq<Invocation>)
    requires ProperParsers(site)
    ensures Valid(site, After(site, history))
  {
    hide Saved, ProperParsers, ValidAt;
    if history == [] {
    } else {
      var n := |history| - 1;
      HistoryValid(site, history[..n]);
      SaveKeepsValid(site, history[n].version, After(site, history[..n]), history[n].overlays, history[n].files);
    }
  }

  /** Whatever happened before, over any parser versions, edits, deletions, unsaved texts and
      failed saves, an invocation answers as if it had parsed every file from scratch. */
  lemma HistoryCoherent(site: Site, history: seq<Invocation>, next: Invocation)
    requires Faithful(site) && ProperParsers(site)
    ensures Scan(site, next.version, After(site, history), next.overlays, next.files).rows
         == Scratch(site, next.version, next.overlays, next.files)
  {
    hide Scan, Scratch, After, Faithful, ProperParsers, Valid;
    HistoryValid(site, history);
    ScanCoherent(site, next.version, After(site, history), next.overlays, next.files);
  }
}
