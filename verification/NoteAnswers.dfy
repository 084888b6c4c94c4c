/** What a caller gets from the note index: which unsaved text counts, which files are served
    from the cache, what is stored, and what each operation answers (Run, fillResponse,
    includeDocument and includeLink, internal/notecache/service.go). */
module NoteAnswers {
  import opened Basics
  import opened Sorting
  import opened NoteCache
  import opened NoteService

  predicate LastFor(overlays: seq<Overlay>, path: string, i: nat)
    requires i < |overlays|
  {
    overlays[i].path == path && forall j :: i < j < |overlays| ==> overlays[j].path != path
  }

  /** The last unsaved text given for a path is the one that counts. */
  lemma {:induction false} LastOverlayCounts(overlays: seq<Overlay>, path: string)
    ensures path in OverlayByPath(overlays) <==> exists i :: 0 <= i < |overlays| && overlays[i].path == path
    ensures forall i :: 0 <= i < |overlays| && LastFor(overlays, path, i) ==>
              OverlayByPath(overlays)[path] == overlays[i].text
  {
    if overlays != [] {
      var n := |overlays| - 1;
      LastOverlayCounts(overlays[..n], path);
      assert forall i :: 0 <= i < n && LastFor(overlays, path, i) ==> LastFor(overlays[..n], path, i);
      assert forall i :: 0 <= i < n ==> overlays[..n][i] == overlays[i];
    }
  }

  /** A file is served from the cache when the tables are of this parser version and hold a
      row of the file's path under the hash of its text, and it has no unsaved text. */
  ghost predicate Served(site: Site, v: nat, t: Tables, overlays: map<string, string>, file: Source) {
    && file.path !in overlays && t.version == Some(v)
    && file.path in t.files && t.files[file.path].hash == site.hash(file.text)
  }

  ghost function ServedAmong(site: Site, v: nat, t: Tables, overlays: map<string, string>,
                             files: seq<Source>): set<int> {
    set i | 0 <= i < |files| && Served(site, v, t, overlays, files[i])
  }

  lemma OneHit(site: Site, v: nat, t: Tables, overlays: map<string, string>, file: Source, p: Progress)
    ensures Visit(site, v, t, overlays, file, p).hits == p.hits + if Served(site, v, t, overlays, file) then 1 else 0
  {
    hide FreshRow, StoredRow;
  }

  lemma AmongNext(site: Site, v: nat, t: Tables, overlays: map<string, string>, files: seq<Source>)
    requires files != []
    ensures var n := |files| - 1; var before := ServedAmong(site, v, t, overlays, files[..n]);
      && n !in before
      && ServedAmong(site, v, t, overlays, files) == before + if Served(site, v, t, overlays, files[n]) then {n} else {}
  {
    hide Served;
    var n := |files| - 1;
    assert forall i :: 0 <= i < n ==> files[..n][i] == files[i];
  }

  /** The hits counted are the files served. */
  lemma {:induction false} HitsCounted(site: Site, v: nat, t: Tables, overlays: map<string, string>, files: seq<Source>)
    ensures Scan(site, v, t, overlays, files).hits == |ServedAmong(site, v, t, overlays, files)|
  {
    hide Visit, Served;
    if files == [] {
      assert ServedAmong(site, v, t, overlays, files) == {};
    } else {
      hide ServedAmong;
      var before := files[..|files| - 1];
      HitsCounted(site, v, t, overlays, before);
      OneHit(site, v, t, overlays, files[|files| - 1], Scan(site, v, t, overlays, before));
      AmongNext(site, v, t, overlays, files);
    }
  }

  /** After a save every scanned file without unsaved text is stored as its text on disk parses. */
  lemma StoredTells(site: Site, v: nat, t: Tables, overlays: map<string, string>, files: seq<Source>, i: nat)
    requires Faithful(site) && ProperParsers(site) && Valid(site, t) && DistinctPaths(files)
    requires i < |files| && files[i].path !in overlays
    ensures var t' := Saved(site, v, t, overlays, files); var path := files[i].path;
      path in t'.files && Tells(site, v, path, files[i].text, StoredRow(t', path))
  {
    hide FreshRow, StoredRow, Saved, Valid, Tells, Faithful, ProperParsers;
    var t', path := Saved(site, v, t, overlays, files), files[i].path;
    SavedHits(site, v, t, overlays, files, i);
    SaveKeepsValid(site, v, t, overlays, files);
    HitIsFresh(site, v, t', path, files[i].text);
    FreshRowTells(site, v, path, files[i].text);
    assert Load(t', path, site.hash(files[i].text)) == Some(StoredRow(t', path));
  }

  // ----------------------------------------------------------------- the operations

  /** What an operation asks for, given an identifier or none. */
  predicate AskedDocument(operation: Operation, id: string, d: Document) {
    operation == Lookup && id != "" ==> d.id == id
  }

  predicate AskedLink(operation: Operation, id: string, l: Link) {
    && (operation == Backlinks && id != "" ==> l.targetId == id)
    && (operation == Lookup && id != "" ==> l.sourceId == id || l.targetId == id)
  }

  predicate AskedOccurrence(operation: Operation, id: string, o: Occurrence) {
    operation == Lookup && id != "" ==> o.id == id
  }

  /** The elements a test keeps, in order. */
  function Kept<T>(s: seq<T>, test: T -> bool): seq<T> {
    if s == [] then [] else Kept(s[..|s| - 1], test) + if test(s[|s| - 1]) then [s[|s| - 1]] else []
  }

  function Each<T, U>(s: seq<T>, f: T -> U): (r: seq<U>)
    ensures |r| == |s| && forall i :: 0 <= i < |s| ==> r[i] == f(s[i])
  {
    seq(|s|, i requires 0 <= i < |s| => f(s[i]))
  }

  lemma EachJoin<T, U>(a: seq<T>, b: seq<T>, f: T -> U)
    ensures Each(a + b, f) == Each(a, f) + Each(b, f)
  {
  }

  lemma {:induction false} KeptJoin<T>(a: seq<T>, b: seq<T>, test: T -> bool)
    ensures Kept(a + b, test) == Kept(a, test) + Kept(b, test)
  {
    if b == [] {
      assert a + b == a && Kept(a, test) + [] == Kept(a, test);
    } else {
      assert (a + b)[..|a + b| - 1] == a + b[..|b| - 1];
      KeptJoin(a, b[..|b| - 1], test);
    }
  }

  /** All links of the rows, in row order. */
  function AllLinks(rows: seq<Row>): seq<Link> {
    if rows == [] then [] else AllLinks(rows[..|rows| - 1]) + rows[|rows| - 1].links
  }

  function DocumentOf(row: Row): seq<Document> {
    if row.document.Some? then [row.document.value] else []
  }

  function AllDocuments(rows: seq<Row>): seq<Document> {
    if rows == [] then [] else AllDocuments(rows[..|rows| - 1]) + DocumentOf(rows[|rows| - 1])
  }

  function AllOccurrences(rows: seq<Row>): seq<Occurrence> {
    if rows == [] then [] else AllOccurrences(rows[..|rows| - 1]) + rows[|rows| - 1].occurrences
  }

  function DocumentTest(q: Query): Document -> bool {
    (d: Document) => AskedDocument(q.operation, q.id, d)
  }

  function LinkTest(q: Query): Link -> bool {
    (l: Link) => AskedLink(q.operation, q.id, l)
  }

  /** What is asked for, of one identifier. */
  function OccurrenceTest(q: Query, id: string): Occurrence -> bool {
    (o: Occurrence) => o.id == id && AskedOccurrence(q.operation, q.id, o)
  }

  function DocumentShown(q: Query): Document -> Document {
    (d: Document) => d.(file := q.display(d.file))
  }

  function LinkFile(q: Query): Link -> Link {
    (l: Link) => l.(file := q.display(l.file))
  }

  function PlaceShown(q: Query): Occurrence -> (string, int) {
    (o: Occurrence) => (q.display(o.file), o.position)
  }

  lemma {:induction false} RowLinksAre(q: Query, links: seq<Link>)
    ensures LinksOfRow(q, links) == Each(Kept(links, LinkTest(q)), LinkFile(q))
  {
    if links != [] {
      var last := links[|links| - 1];
      RowLinksAre(q, links[..|links| - 1]);
      EachJoin(Kept(links[..|links| - 1], LinkTest(q)), if LinkTest(q)(last) then [last] else [], LinkFile(q));
    }
  }

  /** The links answered are the ones asked for among all links of the rows. */
  lemma {:induction false} LinksAnswered(q: Query, rows: seq<Row>)
    ensures LinksIn(q, rows) == Each(Kept(AllLinks(rows), LinkTest(q)), LinkFile(q))
  {
    hide LinkTest, LinkFile, Kept;
    if rows != [] {
      var before, links := rows[..|rows| - 1], rows[|rows| - 1].links;
      LinksAnswered(q, before);
      RowLinksAre(q, links);
      KeptJoin(AllLinks(before), links, LinkTest(q));
      EachJoin(Kept(AllLinks(before), LinkTest(q)), Kept(links, LinkTest(q)), LinkFile(q));
    } else {
      assert Kept([], LinkTest(q)) == [] by { KeptNothing(LinkTest(q)); }
    }
  }

  lemma KeptNothing<T>(test: T -> bool)
    ensures Kept([], test) == []
  {
  }

  /** So are the documents, one for each row that is a document. */
  lemma {:induction false} DocumentsAnswered(q: Query, rows: seq<Row>)
    ensures DocumentsIn(q, rows) == Each(Kept(AllDocuments(rows), DocumentTest(q)), DocumentShown(q))
  {
    if rows != [] {
      var before, row := rows[..|rows| - 1], rows[|rows| - 1];
      DocumentsAnswered(q, before);
      var one := DocumentOf(row);
      KeptJoin(AllDocuments(before), one, DocumentTest(q));
      EachJoin(Kept(AllDocuments(before), DocumentTest(q)), Kept(one, DocumentTest(q)), DocumentShown(q));
      if row.document.Some? { assert one[..0] == []; }
    }
  }

  /** An identifier is answered with its places, in row order, if any is asked for. */
  ghost predicate Lists(q: Query, os: seq<Occurrence>, m: map<string, seq<(string, int)>>) {
    forall id :: ListsOne(q, os, m, id)
  }

  ghost predicate ListsOne(q: Query, os: seq<Occurrence>, m: map<string, seq<(string, int)>>, id: string) {
    var kept := Kept(os, OccurrenceTest(q, id));
    && (id in m <==> kept != [])
    && (id in m ==> m[id] == Each(kept, PlaceShown(q)))
  }

  lemma ListsNext(q: Query, os: seq<Occurrence>, m: map<string, seq<(string, int)>>, o: Occurrence)
    requires Lists(q, os, m)
    ensures Lists(q, os + [o], if IncludeOccurrence(q, o) then
                                 m[o.id := (if o.id in m then m[o.id] else []) + [(q.display(o.file), o.position)]]
                               else m)
  {
    hide Kept;
    var m' := if IncludeOccurrence(q, o) then
                m[o.id := (if o.id in m then m[o.id] else []) + [(q.display(o.file), o.position)]]
              else m;
    forall id ensures ListsOne(q, os + [o], m', id) {
      assert ListsOne(q, os, m, id);
      KeptJoin(os, [o], OccurrenceTest(q, id));
      KeptOne(o, OccurrenceTest(q, id));
      EachJoin(Kept(os, OccurrenceTest(q, id)), Kept([o], OccurrenceTest(q, id)), PlaceShown(q));
    }
  }

  lemma KeptOne<T>(x: T, test: T -> bool)
    ensures Kept([x], test) == if test(x) then [x] else []
  {
    assert [x][..0] == [];
  }

  lemma {:induction false} RowLists(q: Query, os: seq<Occurrence>, more: seq<Occurrence>,
                                    m: map<string, seq<(string, int)>>, n: nat)
    requires Lists(q, os, m) && n <= |more|
    ensures Lists(q, os + more[..n], OccurrencesOfRow(q, more, m, n))
  {
    hide Lists;
    if n == 0 {
      assert os + more[..0] == os;
    } else {
      RowLists(q, os, more, m, n - 1);
      ListsNext(q, os + more[..n - 1], OccurrencesOfRow(q, more, m, n - 1), more[n - 1]);
      assert os + more[..n - 1] + [more[n - 1]] == os + more[..n];
    }
  }

  /** And the occurrences. */
  lemma {:induction false} OccurrencesAnswered(q: Query, rows: seq<Row>, n: nat)
    requires n <= |rows|
    ensures Lists(q, AllOccurrences(rows[..n]), Occurrences(q, rows, n))
  {
    hide Lists, OccurrencesOfRow;
    if n == 0 {
      NothingLists(q);
      assert rows[..0] == [];
    } else {
      OccurrencesAnswered(q, rows, n - 1);
      var os := rows[n - 1].occurrences;
      RowLists(q, AllOccurrences(rows[..n - 1]), os, Occurrences(q, rows, n - 1), |os|);
      assert os[..|os|] == os && rows[..n][..n - 1] == rows[..n - 1];
    }
  }

  lemma NothingLists(q: Query)
    ensures Lists(q, [], map[])
  {
  }

  /** First by one text, then by a number. */
  ghost predicate InOrder(a: string, i: int, b: string, j: int) {
    (exists k: nat :: PartAt(a, b, k)) || (a == b && i <= j)
  }

  /** The answer of every operation: of all documents, links and occurrences in the rows those
      it asks for, and no others, each as often as it is there; documents by the file shown,
      links by the file shown and the position. */
  ghost predicate Answers(q: Query, rows: seq<Row>, r: Answer) {
    && multiset(r.documents) == multiset(Each(Kept(AllDocuments(rows), DocumentTest(q)), DocumentShown(q)))
    && multiset(r.links) == multiset(Each(Kept(AllLinks(rows), LinkTest(q)), LinkFile(q)))
    && Lists(q, AllOccurrences(rows), r.occurrences)
    && (forall i, j :: 0 <= i < j < |r.documents| ==> InOrder(r.documents[i].file, 0, r.documents[j].file, 0))
    && (forall i, j :: 0 <= i < j < |r.links| ==>
          InOrder(r.links[i].file, r.links[i].position, r.links[j].file, r.links[j].position))
  }

  /** What the response is filled with is the answer of its operation. */
  lemma ResponseAnswers(q: Query, rows: seq<Row>, r: Answer)
    requires multiset(r.documents) == multiset(DocumentsIn(q, rows)) && Rising(r.documents, DocumentBefore)
    requires multiset(r.links) == multiset(LinksIn(q, rows)) && Rising(r.links, LinkBefore)
    requires r.occurrences == Occurrences(q, rows, |rows|)
    ensures Answers(q, rows, r)
  {
    hide AllDocuments, AllLinks, AllOccurrences, DocumentsIn, LinksIn, Occurrences, Lists, PartAt, InOrder;
    DocumentsAnswered(q, rows);
    LinksAnswered(q, rows);
    OccurrencesAnswered(q, rows, |rows|);
    assert rows[..|rows|] == rows;
    forall i, j | 0 <= i < j < |r.documents| ensures InOrder(r.documents[i].file, 0, r.documents[j].file, 0) {
      DocumentsApart(r.documents[i], r.documents[j]);
    }
    forall i, j | 0 <= i < j < |r.links|
      ensures InOrder(r.links[i].file, r.links[i].position, r.links[j].file, r.links[j].position)
    {
      LinksApart(r.links[i], r.links[j]);
    }
  }

  lemma DocumentsApart(a: Document, b: Document)
    requires !DocumentBefore(b, a)
    ensures InOrder(a.file, 0, b.file, 0)
  {
    hide Below, PartAt;
    BelowTotal(a.file, b.file);
    BelowExactly(a.file, b.file);
  }

  lemma LinksApart(a: Link, b: Link)
    requires !LinkBefore(b, a)
    ensures InOrder(a.file, a.position, b.file, b.position)
  {
    hide Below, PartAt;
    BelowTotal(a.file, b.file);
    BelowExactly(a.file, b.file);
  }

  /** A row that tells what its text parses to lists occurrences by identifier and place, and
      links by file and place. */
  lemma TellsInOrder(site: Site, v: nat, path: string, text: string, row: Row)
    requires Tells(site, v, path, text, row)
    ensures forall i, j :: 0 <= i < j < |row.occurrences| ==>
              InOrder(row.occurrences[i].id, row.occurrences[i].position + 1, row.occurrences[j].id,
                      row.occurrences[j].position)
    ensures forall i, j :: 0 <= i < j < |row.links| ==>
              InOrder(row.links[i].file, row.links[i].position + 1, row.links[j].file, row.links[j].position)
  {
    hide PartAt, Below, InOrder;
    forall i, j | 0 <= i < j < |row.occurrences|
      ensures InOrder(row.occurrences[i].id, row.occurrences[i].position + 1, row.occurrences[j].id,
                      row.occurrences[j].position)
    {
      OccurrencesApart(row.occurrences[i], row.occurrences[j]);
    }
    forall i, j | 0 <= i < j < |row.links|
      ensures InOrder(row.links[i].file, row.links[i].position + 1, row.links[j].file, row.links[j].position)
    {
      LinksFurther(row.links[i], row.links[j]);
    }
  }

  lemma OccurrencesApart(a: Occurrence, b: Occurrence)
    requires OccurrenceBefore(a, b)
    ensures InOrder(a.id, a.position + 1, b.id, b.position)
  {
    hide Below, PartAt;
    BelowExactly(a.id, b.id);
  }

  lemma LinksFurther(a: Link, b: Link)
    requires LinkBefore(a, b)
    ensures InOrder(a.file, a.position + 1, b.file, b.position)
  {
    hide Below, PartAt;
    BelowExactly(a.file, b.file);
  }
}
