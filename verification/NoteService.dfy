/** The note index service: the store over its tables, the loop over the scanned files, and
    the answer built from the rows. */
module NoteService {
  import opened Basics
  import opened Sorting
  import opened NoteCache

  /** No two links of one file share a position, so a query's order is determined. */
  ghost predicate Tidy(t: Tables) {
    forall a, b :: a in t.links && b in t.links && a.file == b.file && a != b ==> a.position != b.position
  }

  lemma TidyDelete(t: Tables, paths: set<string>)
    requires Tidy(t)
    ensures Tidy(DeletePaths(t, paths))
  {
  }

  lemma TidyUpsert(t: Tables, row: Row)
    requires Tidy(t) && Normal(row)
    ensures Tidy(Upsert(t, row))
  {
    forall a, b | a in row.links && b in row.links && a != b ensures a.position != b.position {
      var i :| 0 <= i < |row.links| && row.links[i] == a;
      var j :| 0 <= j < |row.links| && row.links[j] == b;
      LinksDiffer(row, i, j);
    }
  }

  lemma LinksDiffer(row: Row, i: nat, j: nat)
    requires Normal(row) && i < |row.links| && j < |row.links| && i != j
    ensures row.links[i].position != row.links[j].position
  {
    assert row.links[i] in row.links && row.links[j] in row.links;
    var file := row.path;
    assert row.links[i].file == file && row.links[j].file == file;
    NotBelowSelf(file);
    if i < j {
      assert LinkBefore(row.links[i], row.links[j]);
    } else {
      assert LinkBefore(row.links[j], row.links[i]);
    }
  }

  lemma {:induction false} NotBelowSelf(a: string)
    ensures !Below(a, a)
  {
    if Below(a, a) { BelowAsymmetric(a, a); }
  }

  lemma {:induction false} TidyUpsertAll(t: Tables, rows: seq<Row>)
    requires Tidy(t) && forall r :: r in rows ==> Normal(r)
    ensures Tidy(UpsertAll(t, rows))
  {
    hide Normal, Tidy, Upsert;
    if rows != [] {
      var n := |rows| - 1;
      assert rows[n] in rows;
      TidyUpsertAll(t, rows[..n]);
      TidyUpsert(UpsertAll(t, rows[..n]), rows[n]);
    }
  }

  lemma TidySave(t: Tables, v: nat, scanned: set<string>, rows: seq<Row>, invalidated: set<string>)
    requires Tidy(t) && forall r :: r in rows ==> Normal(r)
    ensures Tidy(Save(t, v, scanned, rows, invalidated))
  {
    hide UpsertAll, Normal, DeletePaths;
    var kept := DeletePaths(t, invalidated);
    TidyDelete(t, invalidated);
    TidyDelete(kept, kept.files.Keys - scanned);
    TidyUpsertAll(DeletePaths(kept, kept.files.Keys - scanned), rows);
  }

  method Listed<T(!new, ==)>(rows: set<T>) returns (s: seq<T>)
    ensures forall x :: x in s <==> x in rows
    ensures forall i, j :: 0 <= i < j < |s| ==> s[i] != s[j]
  {
    s := [];
    var rest := rows;
    while rest != {}
      invariant rest <= rows
      invariant forall x :: x in s <==> x in rows - rest
      invariant forall i, j :: 0 <= i < j < |s| ==> s[i] != s[j]
      decreases |rest|
    {
      EmptyOrInhabited(rest);
      var x :| x in rest;
      assert x !in s;
      forall i | 0 <= i < |s| ensures s[i] != x { assert s[i] in s; }
      rest := rest - {x};
      s := s + [x];
    }
  }

  class Store {
    var tables: Tables

    constructor (tables: Tables)
      ensures this.tables == tables
    {
      this.tables := tables;
    }

    method ParserVersionMatches(v: nat) returns (b: bool)
      ensures b == (tables.version == Some(v))
    {
      b := tables.version == Some(v);
    }

    method Load(path: string, hash: string) returns (r: Option<Row>)
      requires Tidy(tables)
      ensures r == NoteCache.Load(tables, path, hash)
    {
      if path !in tables.files || tables.files[path].hash != hash { return None; }
      var f := tables.files[path];
      var document := if f.isDocument then Some(Document(path, f.documentId, f.title, f.kind, f.identityError))
        else None;
      var occurrences := QueryIds(path);
      var links := QueryLinks(path);
      r := Some(Row(path, hash, document, occurrences, links));
    }

    method QueryIds(path: string) returns (occurrences: seq<Occurrence>)
      ensures occurrences == Listing(IdsOf(tables, path), OccurrenceBefore)
    {
      var rows := Listed(IdsOf(tables, path));
      Orders();
      forall i, j | 0 <= i < j < |rows|
        ensures OccurrenceBefore(rows[i], rows[j]) || OccurrenceBefore(rows[j], rows[i])
      {
        assert rows[i] in rows && rows[j] in rows;
        BelowTotal(rows[i].id, rows[j].id);
      }
      occurrences := Sort(rows, OccurrenceBefore);
      SortAscending(rows, OccurrenceBefore);
      ListingIs(IdsOf(tables, path), OccurrenceBefore, occurrences);
    }

    method QueryLinks(path: string) returns (links: seq<Link>)
      requires Tidy(tables)
      ensures links == Listing(LinksOf(tables, path), LinkBefore)
    {
      var rows := Listed(LinksOf(tables, path));
      Orders();
      forall i, j | 0 <= i < j < |rows| ensures LinkBefore(rows[i], rows[j]) || LinkBefore(rows[j], rows[i]) {
        assert rows[i] in rows && rows[j] in rows;
      }
      links := Sort(rows, LinkBefore);
      SortAscending(rows, LinkBefore);
      ListingIs(LinksOf(tables, path), LinkBefore, links);
    }

    /** One transaction: the statements work on a copy that replaces the tables at commit. */
    method Save(v: nat, scanned: set<string>, rows: seq<Row>, invalidated: seq<string>, fails: bool) returns (ok: bool)
      modifies this
      ensures ok == !fails
      ensures tables == if ok then NoteCache.Save(old(tables), v, scanned, rows, Elements(invalidated)) else old(tables)
    {
      hide Upsert, DeletePaths;
      var tx := tables;
      var changed := tx.version != Some(v);
      NothingDeleted(tx);
      assert Elements(invalidated[..0]) == {};
      for i := 0 to |invalidated|
        invariant tables == old(tables)
        invariant tx == DeletePaths(tables, Elements(invalidated[..i]))
        invariant changed == (tables.version != Some(v) || i > 0)
      {
        DeletedTwice(tables, Elements(invalidated[..i]), {invalidated[i]});
        assert Elements(invalidated[..i + 1]) == Elements(invalidated[..i]) + {invalidated[i]} by {
          ElementsExtended(invalidated, i);
        }
        tx := DeletePaths(tx, {invalidated[i]});
        changed := true;
      }
      assert invalidated[..|invalidated|] == invalidated;
      ghost var kept := tx;
      var existing := Listed(tx.files.Keys);
      NothingDeleted(kept);
      assert Elements(existing[..0]) - scanned == {};
      for i := 0 to |existing|
        invariant tables == old(tables)
        invariant tx == DeletePaths(kept, Elements(existing[..i]) - scanned)
        invariant changed == (tables.version != Some(v) || |invalidated| > 0 || Elements(existing[..i]) - scanned != {})
      {
        ElementsExtended(existing, i);
        DeletedTwice(kept, Elements(existing[..i]) - scanned, {existing[i]});
        if existing[i] !in scanned {
          tx := DeletePaths(tx, {existing[i]});
          changed := true;
          assert existing[i] in Elements(existing[..i + 1]) - scanned;
          assert Elements(existing[..i + 1]) - scanned == Elements(existing[..i]) - scanned + {existing[i]};
        } else {
          assert Elements(existing[..i + 1]) - scanned == Elements(existing[..i]) - scanned;
        }
      }
      assert existing[..|existing|] == existing && Elements(existing) == kept.files.Keys;
      ghost var present := tx;
      for i := 0 to |rows|
        invariant tables == old(tables)
        invariant tx == UpsertAll(present, rows[..i])
        invariant changed ==
                    (tables.version != Some(v) || |invalidated| > 0 || kept.files.Keys - scanned != {} || i > 0)
      {
        assert rows[..i + 1][..i] == rows[..i];
        tx := Upsert(tx, rows[i]);
        changed := true;
      }
      assert rows[..|rows|] == rows;
      if changed { tx := tx.(version := Some(v)); }
      if fails { return false; }
      NonEmptyElements(invalidated);
      tables := tx;
      ok := true;
    }
  }

  datatype Overlay = Overlay(path: string, text: string)

  /** Later overlays of one path replace earlier ones. */
  function OverlayByPath(overlays: seq<Overlay>): map<string, string> {
    if overlays == [] then map[]
    else OverlayByPath(overlays[..|overlays| - 1])[overlays[|overlays| - 1].path := overlays[|overlays| - 1].text]
  }

  method CollectOverlays(overlays: seq<Overlay>) returns (byPath: map<string, string>)
    ensures byPath == OverlayByPath(overlays)
  {
    byPath := map[];
    for i := 0 to |overlays|
      invariant byPath == OverlayByPath(overlays[..i])
    {
      assert overlays[..i + 1][..i] == overlays[..i];
      byPath := byPath[overlays[i].path := overlays[i].text];
    }
    assert overlays[..|overlays|] == overlays;
  }

  /** What ends an invocation early: the version cannot be read, the caller gives up before
      a file, the rows of a file cannot be read, or the save fails. */
  datatype Faults = Faults(version: bool, cancelled: nat -> bool, read: nat -> bool, save: bool)

  ghost predicate Faultless(faults: Faults, n: nat) {
    !faults.version && !faults.save && forall i :: 0 <= i < n ==> !faults.cancelled(i) && !faults.read(i)
  }

  /** One invocation after a complete scan: either it fails and leaves the tables as they
      were, or the rows it answers from are those of parsing everything, and what it leaves
      stored is valid again. */
  method Run(site: Site, v: nat, store: Store, overlays: seq<Overlay>, files: seq<Source>, faults: Faults)
    returns (answer: Option<seq<Row>>, parsed: nat, hits: nat)
    requires Faithful(site) && ProperParsers(site) && Valid(site, store.tables) && Tidy(store.tables)
    modifies store
    ensures Valid(site, store.tables) && Tidy(store.tables)
    ensures Faultless(faults, |files|) ==> answer.Some?
    ensures faults.version || faults.save || (exists i :: 0 <= i < |files| && faults.cancelled(i)) ==> answer.None?
    ensures answer.None? ==> store.tables == old(store.tables)
    ensures answer.Some? ==> |answer.value| == |files| && forall i :: 0 <= i < |files| ==>
              Tells(site, v, files[i].path, CurrentText(files[i], OverlayByPath(overlays)), answer.value[i])
    ensures answer.Some? ==> answer.value == Scratch(site, v, OverlayByPath(overlays), files)
    ensures answer.Some? ==> store.tables == Saved(site, v, old(store.tables), OverlayByPath(overlays), files)
    ensures answer.Some? ==> hits + parsed == |files|
    ensures answer.Some? ==> parsed == Scan(site, v, old(store.tables), OverlayByPath(overlays), files).parsed
  {
    hide Scan, FreshRow, Valid, Tidy, Faithful, ProperParsers, Normal, Save, Tells;
    ghost var t := store.tables;
    parsed, hits := 0, 0;
    if faults.version { return None, 0, 0; }
    var byPath := CollectOverlays(overlays);
    var scanned, rows, changed, invalidated;
    scanned, rows, changed, invalidated, hits, parsed := ScanFiles(site, v, store, byPath, files, faults);
    if !scanned { return None, parsed, hits; }
    ScanCoherent(site, v, t, byPath, files);
    ScratchTells(site, v, byPath, files);
    ScanCounts(site, v, t, byPath, files);
    SaveKeepsValid(site, v, t, byPath, files);
    ChangedNormal(site, v, t, byPath, files);
    TidySave(t, v, Paths(files), changed, Elements(invalidated));
    var ok := store.Save(v, Paths(files), changed, invalidated, faults.save);
    answer := if ok then Some(rows) else None;
  }

  /** The loop over the files; it stops at the first fault. */
  method ScanFiles(site: Site, v: nat, store: Store, overlays: map<string, string>, files: seq<Source>, faults: Faults)
    returns (ok: bool, rows: seq<Row>, changed: seq<Row>, invalidated: seq<string>, hits: nat, parsed: nat)
    requires Tidy(store.tables)
    ensures var p := Progress(rows, changed, Elements(invalidated), hits, parsed);
      ok ==> p == Scan(site, v, store.tables, overlays, files)
    ensures (forall i :: 0 <= i < |files| ==> !faults.cancelled(i) && !faults.read(i)) ==> ok
    ensures ok ==> forall i :: 0 <= i < |files| ==> !faults.cancelled(i)
  {
    hide FreshRow, NoteCache.Load, Tidy;
    ok, rows, changed, invalidated, hits, parsed := false, [], [], [], 0, 0;
    var parserMatches := store.ParserVersionMatches(v);
    for i := 0 to |files|
      invariant Progress(rows, changed, Elements(invalidated), hits, parsed) ==
                  Scan(site, v, store.tables, overlays, files[..i])
      invariant forall k :: 0 <= k < i ==> !faults.cancelled(k)
    {
      if faults.cancelled(i) { return; }
      assert files[..i + 1][..i] == files[..i];
      var file := files[i];
      if file.path in overlays {
        if !parserMatches {
          AppendedElement(invalidated, file.path);
          invalidated := invalidated + [file.path];
        }
        rows := rows + [FreshRow(site, v, file.path, overlays[file.path])];
        parsed := parsed + 1;
        continue;
      }
      if parserMatches {
        if faults.read(i) { return; }
        var cached := store.Load(file.path, site.hash(file.text));
        if cached.Some? {
          rows, hits := rows + [cached.value], hits + 1;
          continue;
        }
      }
      var row := FreshRow(site, v, file.path, file.text);
      rows, changed, parsed := rows + [row], changed + [row], parsed + 1;
    }
    assert files[..|files|] == files;
    ok := true;
  }

  lemma AppendedElement(s: seq<string>, x: string)
    ensures Elements(s + [x]) == Elements(s) + {x}
  {
  }

  // ------------------------------------------------------------------ the answer

  datatype Operation = Catalog | Index | Lookup | Backlinks

  datatype Query = Query(operation: Operation, id: string, display: string -> string)

  datatype Answer = Answer(documents: seq<Document>, occurrences: map<string, seq<(string, int)>>, links: seq<Link>)

  predicate IncludeDocument(q: Query, d: Document) {
    q.operation != Lookup || q.id == "" || d.id == q.id
  }

  predicate IncludeOccurrence(q: Query, o: Occurrence) {
    q.operation != Lookup || q.id == "" || o.id == q.id
  }

  predicate IncludeLink(q: Query, l: Link) {
    match q.operation
    case Backlinks => q.id == "" || l.targetId == q.id
    case Lookup => q.id == "" || l.sourceId == q.id || l.targetId == q.id
    case _ => true
  }

  predicate DocumentBefore(a: Document, b: Document) {
    Below(a.file, b.file)
  }

  function Shown(q: Query, d: Document): Document {
    d.(file := q.display(d.file))
  }

  function LinkShown(q: Query, l: Link): Link {
    l.(file := q.display(l.file))
  }

  /** The documents asked for, one for each row that has one, in row order. */
  function DocumentsIn(q: Query, rows: seq<Row>): (ds: seq<Document>)
    ensures |ds| <= |rows|
    ensures forall d :: d in ds <==>
              exists i :: 0 <= i < |rows| && rows[i].document.Some? && IncludeDocument(q, rows[i].document.value)
                && d == Shown(q, rows[i].document.value)
  {
    if rows == [] then []
    else
      var last := rows[|rows| - 1];
      assert forall i :: 0 <= i < |rows| - 1 ==> rows[..|rows| - 1][i] == rows[i];
      DocumentsIn(q, rows[..|rows| - 1])
      + if last.document.Some? && IncludeDocument(q, last.document.value) then [Shown(q, last.document.value)] else []
  }

  /** The links asked for of one row, as often as the row has them. */
  function LinksOfRow(q: Query, links: seq<Link>): (ls: seq<Link>)
    ensures forall l :: l in ls <==>
              exists j :: 0 <= j < |links| && IncludeLink(q, links[j]) && l == LinkShown(q, links[j])
  {
    if links == [] then []
    else
      var last := links[|links| - 1];
      assert forall j :: 0 <= j < |links| - 1 ==> links[..|links| - 1][j] == links[j];
      LinksOfRow(q, links[..|links| - 1]) + if IncludeLink(q, last) then [LinkShown(q, last)] else []
  }

  lemma NoLinks(q: Query, links: seq<Link>)
    ensures LinksOfRow(q, links[..0]) == []
  {
  }

  lemma LinksNext(q: Query, links: seq<Link>, j: nat)
    requires j < |links|
    ensures LinksOfRow(q, links[..j + 1]) ==
            LinksOfRow(q, links[..j]) + if IncludeLink(q, links[j]) then [LinkShown(q, links[j])] else []
  {
    hide IncludeLink;
    assert links[..j + 1][..j] == links[..j];
  }

  function LinksIn(q: Query, rows: seq<Row>): seq<Link> {
    if rows == [] then [] else LinksIn(q, rows[..|rows| - 1]) + LinksOfRow(q, rows[|rows| - 1].links)
  }

  lemma NoRows(q: Query, rows: seq<Row>)
    ensures DocumentsIn(q, rows[..0]) == [] && LinksIn(q, rows[..0]) == []
  {
  }

  lemma RowNext(q: Query, rows: seq<Row>, i: nat)
    requires i < |rows|
    ensures var d := rows[i].document;
      DocumentsIn(q, rows[..i + 1]) == DocumentsIn(q, rows[..i])
        + if d.Some? && IncludeDocument(q, d.value) then [Shown(q, d.value)] else []
    ensures LinksIn(q, rows[..i + 1]) == LinksIn(q, rows[..i]) + LinksOfRow(q, rows[i].links)
  {
    hide IncludeDocument, Shown, LinksOfRow;
    assert rows[..i + 1][..i] == rows[..i];
  }

  lemma AnswerOrders()
    ensures Weak(DocumentBefore) && Weak(LinkBefore)
  {
    hide Below;
    BelowWeak();
    Orders();
    forall x: Link, y: Link, z: Link | !LinkBefore(x, y) && !LinkBefore(y, z) ensures !LinkBefore(x, z) {
      BelowTotal(x.file, y.file);
      BelowTotal(y.file, z.file);
      if LinkBefore(x, z) { LinkChain(x, y, z); }
    }
  }

  lemma LinkChain(x: Link, y: Link, z: Link)
    requires !LinkBefore(x, y) && !LinkBefore(y, z)
    ensures !LinkBefore(x, z)
  {
    hide Below;
    BelowTotal(x.file, y.file);
    BelowTotal(y.file, z.file);
    if Below(x.file, z.file) {
      if Below(y.file, x.file) { BelowTransitive(y.file, x.file, z.file); }
    }
  }

  /** The answer holds exactly the documents and links asked for, each as often as the rows
      hold it, sorted by shown file and position; and the occurrences by identifier, in row
      order. */
  method FillResponse(q: Query, rows: seq<Row>) returns (r: Answer)
    ensures multiset(r.documents) == multiset(DocumentsIn(q, rows)) && Rising(r.documents, DocumentBefore)
    ensures multiset(r.links) == multiset(LinksIn(q, rows)) && Rising(r.links, LinkBefore)
    ensures r.occurrences == Occurrences(q, rows, |rows|)
  {
    hide IncludeDocument, IncludeLink, IncludeOccurrence, DocumentBefore, LinkBefore, Rising, LinksOfRow,
      DocumentsIn, LinksIn;
    var documents: seq<Document>, links: seq<Link>, occurrences := [], [], map[];
    NoRows(q, rows);
    for i := 0 to |rows|
      invariant documents == DocumentsIn(q, rows[..i])
      invariant links == LinksIn(q, rows[..i])
      invariant occurrences == Occurrences(q, rows, i)
    {
      RowNext(q, rows, i);
      var row := rows[i];
      if row.document.Some? && IncludeDocument(q, row.document.value) {
        documents := documents + [row.document.value.(file := q.display(row.document.value.file))];
      }
      for j := 0 to |row.occurrences|
        invariant occurrences == OccurrencesOfRow(q, row.occurrences, Occurrences(q, rows, i), j)
      {
        var o := row.occurrences[j];
        if IncludeOccurrence(q, o) {
          occurrences := occurrences[o.id := (if o.id in occurrences then occurrences[o.id] else [])
                                     + [(q.display(o.file), o.position)]];
        }
      }
      NoLinks(q, row.links);
      for j := 0 to |row.links|
        invariant links == LinksIn(q, rows[..i]) + LinksOfRow(q, row.links[..j])
      {
        LinksNext(q, row.links, j);
        if IncludeLink(q, row.links[j]) {
          links := links + [row.links[j].(file := q.display(row.links[j].file))];
        }
      }
      assert row.links[..|row.links|] == row.links;
    }
    assert rows[..|rows|] == rows;
    AnswerOrders();
    SortRising(documents, DocumentBefore);
    SortRising(links, LinkBefore);
    r := Answer(Sort(documents, DocumentBefore), occurrences, Sort(links, LinkBefore));
  }

  function OccurrencesOfRow(q: Query, os: seq<Occurrence>, before: map<string, seq<(string, int)>>,
                            n: nat): map<string, seq<(string, int)>>
    requires n <= |os|
  {
    if n == 0 then before
    else
      var m := OccurrencesOfRow(q, os, before, n - 1);
      var o := os[n - 1];
      if IncludeOccurrence(q, o) then
        m[o.id := (if o.id in m then m[o.id] else []) + [(q.display(o.file), o.position)]] else m
  }

  function Occurrences(q: Query, rows: seq<Row>, n: nat): map<string, seq<(string, int)>>
    requires n <= |rows|
  {
    if n == 0 then map[]
    else OccurrencesOfRow(q, rows[n - 1].occurrences, Occurrences(q, rows, n - 1), |rows[n - 1].occurrences|)
  }

  function Elements(s: seq<string>): set<string> {
    set x | x in s
  }

  lemma ElementsExtended(s: seq<string>, i: nat)
    requires i < |s|
    ensures Elements(s[..i + 1]) == Elements(s[..i]) + {s[i]}
  {
    assert s[..i + 1] == s[..i] + [s[i]];
  }

  lemma NonEmptyElements(s: seq<string>)
    ensures Elements(s) == {} <==> |s| == 0
  {
    if |s| > 0 { assert s[0] in Elements(s); }
  }

  lemma NothingDeleted(t: Tables)
    ensures DeletePaths(t, {}) == t
  {
  }

  lemma DeletedTwice(t: Tables, a: set<string>, b: set<string>)
    ensures DeletePaths(DeletePaths(t, a), b) == DeletePaths(t, a + b)
  {
    var x := DeletePaths(DeletePaths(t, a), b);
    var y := DeletePaths(t, a + b);
    assert x.files == y.files;
    assert x.ids == y.ids && x.links == y.links;
  }
}
