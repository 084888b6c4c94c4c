/** Several transactions over the same files. Deduplication lets them share assets, so what
    one of them removes may be what another one committed. */
module SharedAssets {
  import opened Basics
  import opened AssetFiles
  import opened Publish
  import opened PublishAll
  import opened Transactions

  /** The files and the manifests, by transaction. */
  datatype Shared = Shared(files: Tree, manifests: map<string, Manifest>)

  function View(s: Shared, t: string): System {
    System(s.files, if t in s.manifests then Some(s.manifests[t]) else None)
  }

  /** One transaction takes one step; the manifests of the others stay as they are. */
  ghost predicate Steps(st: Setting, b: Shared, t: string, e: Event, a: Shared) {
    && !e.Others? && Next(st, View(b, t), e, View(a, t))
    && (forall u :: u != t ==> (u in a.manifests <==> u in b.manifests))
    && (forall u :: u != t && u in b.manifests ==> a.manifests[u] == b.manifests[u])
  }

  /** The edit leaves the document and the assets of a manifest alone. */
  ghost predicate EditSpares(files: Tree, files': Tree, m: Manifest) {
    && (m.document.Some? ==> Seen(files', m.document.value) == Seen(files, m.document.value))
    && forall i :: 0 <= i < |m.assets| ==> Seen(files', m.assets[i].path) == Seen(files, m.assets[i].path)
  }

  predicate Closed(s: Shared, u: string) {
    u in s.manifests && s.manifests[u].phase == Committed
  }

  /** A step that is orderly for its own transaction, aborts without removing what another
      one committed, and edits nothing committed. */
  ghost predicate Careful(st: Setting, b: Shared, t: string, e: Event, a: Shared) {
    && Orderly(st, View(b, t), e)
    && (e.Abort? && t in b.manifests ==>
          forall u :: u != t && Closed(b, u) ==>
            Spares(b.manifests[t].created + b.manifests[t].staging, b.manifests[u]))
    && (e.Edit? ==> forall u :: Closed(b, u) ==> EditSpares(b.files, a.files, b.manifests[u]))
  }

  ghost predicate SharedInv(st: Setting, s: Shared) {
    forall t :: t in s.manifests ==> Inv(st, View(s, t))
  }

  /** What a transaction does, aborts aside, keeps every file outside the staging root that
      is no cache file: files it takes back it created itself. */
  lemma OthersKept(st: Setting, b: System, e: Event, a: System)
    requires Inv(st, b) && Next(st, b, e, a) && Orderly(st, b, e)
    requires !e.Abort? && !e.Edit? && !e.Others?
    ensures KeptByOthers(st, b.files, a.files)
  {
    hide Sound, Intact, Referenced;
    if e.Import? && !e.report.failed {
      assert forall p :: p in b.files && p.name != INDEX ==> p in e.published && e.published[p] == b.files[p];
    } else if b.manifest.Some? && a != b {
      var m := b.manifest.value;
      match e
      case Finalize(document, root, report, published, orphans) =>
        if !report.failed {
          assert forall p :: p in b.files && p.name != INDEX ==> p in published && published[p] == b.files[p];
        }
      case Commit(orphans) =>
        StagedClearedKept(st, b.files, a.files, m.staging, orphans);
      case Reconcile(orphans) =>
        StagedClearedKept(st, b.files, a.files, if m.orphans == [] then m.staging else m.orphans, orphans);
      case _ =>
    }
  }

  lemma StagedClearedKept(st: Setting, files: Tree, files': Tree, paths: seq<Path>, orphans: seq<Path>)
    requires Cleared(files, files', paths, orphans) && StagedPaths(st, paths)
    ensures KeptByOthers(st, files, files')
  {
  }

  lemma SparedSound(st: Setting, files: Tree, files': Tree, m: Manifest, paths: seq<Path>, orphans: seq<Path>)
    requires Sound(st, files, m) && Cleared(files, files', paths, orphans) && Spares(paths, m)
    ensures Sound(st, files', m)
  {
    hide Referenced;
    assert Seen(files', m.document.value) == Seen(files, m.document.value);
    forall i | 0 <= i < |m.assets| && m.assets[i].path.name != INDEX
      ensures Seen(files', m.assets[i].path) == Seen(files, m.assets[i].path)
    {
      assert Intact(st, files, m.assets[i]);
    }
  }

  lemma EditedSound(st: Setting, files: Tree, files': Tree, m: Manifest)
    requires Sound(st, files, m) && EditSpares(files, files', m)
    ensures Sound(st, files', m)
  {
    hide Referenced;
    forall i | 0 <= i < |m.assets| && m.assets[i].path.name != INDEX
      ensures Intact(st, files', m.assets[i])
    {
      assert Intact(st, files, m.assets[i]);
    }
  }

  /** The manifest of another transaction stays as good as it was. */
  lemma OtherKeepsInv(st: Setting, b: Shared, t: string, e: Event, a: Shared, u: string)
    requires Steps(st, b, t, e, a) && Careful(st, b, t, e, a) && SharedInv(st, b)
    requires u != t && u in b.manifests
    ensures Inv(st, View(a, u))
  {
    hide Sound, Intact, Referenced, Cleared, Completes, KeptByOthers, Verified, Spares, EditSpares;
    var m := b.manifests[u];
    assert View(a, u).manifest == View(b, u).manifest;
    assert Inv(st, View(b, u));
    if e.Edit? {
      if Closed(b, u) { EditedSound(st, b.files, a.files, m); }
    } else if e.Abort? {
      var mine := b.manifests[t];
      if Closed(b, u) && a.files != b.files {
        SparedSound(st, b.files, a.files, m, mine.created + mine.staging, e.orphans);
      }
    } else {
      OwnInv(st, b, t);
      OthersKept(st, View(b, t), e, View(a, t));
      StepKeepsInv(st, View(b, u), Others, View(a, u));
    }
  }

  lemma OwnInv(st: Setting, s: Shared, t: string)
    requires SharedInv(st, s)
    ensures Inv(st, View(s, t))
  {
  }

  lemma SharedStepKeepsInv(st: Setting, b: Shared, t: string, e: Event, a: Shared)
    requires Steps(st, b, t, e, a) && Careful(st, b, t, e, a) && SharedInv(st, b)
    ensures SharedInv(st, a)
  {
    hide Inv, Next, Orderly, Spares, EditSpares;
    forall u | u in a.manifests ensures Inv(st, View(a, u)) {
      if u == t {
        OwnInv(st, b, t);
        StepKeepsInv(st, View(b, t), e, View(a, t));
      } else {
        OtherKeepsInv(st, b, t, e, a, u);
      }
    }
  }

  /** A run of all transactions: which one moves, and how. */
  ghost predicate SharedRun(st: Setting, states: seq<Shared>, movers: seq<string>, events: seq<Event>) {
    && |states| == |events| + 1 && |movers| == |events|
    && forall i :: 0 <= i < |events| ==> Steps(st, states[i], movers[i], events[i], states[i + 1])
  }

  /** On every careful run of any number of transactions over the same files, every committed
      manifest tells the truth at every moment from its commit on. */
  lemma {:induction false} SharedCommitSound(st: Setting, states: seq<Shared>, movers: seq<string>,
                                             events: seq<Event>, k: nat)
    requires SharedRun(st, states, movers, events) && states[0].manifests == map[] && k <= |events|
    requires forall i :: 0 <= i < |events| ==> Careful(st, states[i], movers[i], events[i], states[i + 1])
    ensures SharedInv(st, states[k])
    ensures forall u :: Closed(states[k], u) ==> Sound(st, states[k].files, states[k].manifests[u])
  {
    hide Steps, Careful, Sound;
    if k > 0 {
      SharedCommitSound(st, states, movers, events, k - 1);
      SharedStepKeepsInv(st, states[k - 1], movers[k - 1], events[k - 1], states[k]);
    }
    forall u | Closed(states[k], u) ensures Sound(st, states[k].files, states[k].manifests[u]) {
      assert Inv(st, View(states[k], u));
    }
  }

  /** An abort that removes all it lists leaves another committed manifest sound exactly when
      none of the listed files is that one's document or asset. */
  lemma AbortSharedIff(st: Setting, b: Shared, t: string, a: Shared, u: string)
    requires Steps(st, b, t, Abort([]), a) && t in b.manifests && a != b && u != t
    requires Closed(b, u) && Sound(st, b.files, b.manifests[u])
    ensures Closed(a, u)
    ensures Sound(st, a.files, a.manifests[u]) <==>
              Spares(b.manifests[t].created + b.manifests[t].staging, b.manifests[u])
  {
    hide Sound, Spares, Cleared;
    var m := b.manifests[t];
    assert View(a, t) != View(b, t);
    ClearingSoundIff(st, b.files, a.files, b.manifests[u], m.created + m.staging);
  }

  // ---------------------------------------------------------------- an example run

  /** The paths of the example: a staged file, the asset it becomes, and the document. */
  datatype Example = Example(staged: Path, asset: Path, document: Path)

  predicate Fitting(st: Setting, x: Example) {
    && x.staged.dir == st.stagingRoot && x.asset.dir != st.stagingRoot && x.document.dir != st.stagingRoot
    && x.asset.name != INDEX && x.document.name != INDEX && x.asset != x.document
  }

  function AssetAt(st: Setting, x: Example, path: Path): Asset {
    Asset(x.staged, path, st.digest.hash("x"), 1)
  }

  /** The document, then the staged file beside it, then the asset. */
  function FilesAt(x: Example, k: nat): Tree {
    var f0: Tree := map[x.document := File(x.asset.name, 1)];
    var f1: Tree := f0[x.staged := File("x", 2)];
    var f2: Tree := f1[x.asset := File("x", 3)];
    if k == 0 then f0 else if k == 1 then f1 else if k == 2 then f2 else f2 - {x.asset, x.staged}
  }

  /** The transaction that stages and publishes the file, and the one that finds both. */
  function Creator(st: Setting, x: Example, phase: Phase): Manifest {
    if phase == Staged then Manifest("1", Staged, None, [AssetAt(st, x, x.staged)], [x.staged], [x.staged], [])
    else Manifest("1", phase, Some(x.document), [AssetAt(st, x, x.asset)], [x.asset], [x.staged], [])
  }

  function Sharer(st: Setting, x: Example, phase: Phase): Manifest {
    if phase == Staged then Manifest("2", Staged, None, [AssetAt(st, x, x.staged)], [], [], [])
    else Manifest("2", phase, Some(x.document), [AssetAt(st, x, x.asset)], [], [], [])
  }

  function Scene(files: Tree, first: Manifest, second: Manifest): Shared {
    Shared(files, map["1" := first, "2" := second])
  }

  function Imports(st: Setting, x: Example, created: seq<Path>): Event {
    Import(Report(false, false, [AssetAt(st, x, x.staged)], created, [], map[]), FilesAt(x, 1), [])
  }

  function Finalizes(st: Setting, x: Example, created: seq<Path>): Event {
    Finalize(Some(x.document), x.asset.dir, Report(false, false, [AssetAt(st, x, x.asset)], created, [], map[]),
             FilesAt(x, 2), [])
  }

  function States(st: Setting, x: Example): seq<Shared> {
    [Shared(FilesAt(x, 0), map[]),
     Shared(FilesAt(x, 1), map["1" := Creator(st, x, Staged)]),
     Scene(FilesAt(x, 1), Creator(st, x, Staged), Sharer(st, x, Staged)),
     Scene(FilesAt(x, 2), Creator(st, x, Prepared), Sharer(st, x, Staged)),
     Scene(FilesAt(x, 2), Creator(st, x, Prepared), Sharer(st, x, Prepared)),
     Scene(FilesAt(x, 2), Creator(st, x, Prepared), Sharer(st, x, DocumentSaved)),
     Scene(FilesAt(x, 2), Creator(st, x, Prepared), Sharer(st, x, Committed)),
     Scene(FilesAt(x, 3), Creator(st, x, Aborted), Sharer(st, x, Committed))]
  }

  const MOVERS := ["1", "2", "1", "2", "2", "2", "1"]

  function Events(st: Setting, x: Example): seq<Event> {
    [Imports(st, x, [x.staged]), Imports(st, x, []), Finalizes(st, x, [x.asset]), Finalizes(st, x, []),
     SaveDocument, Commit([]), Abort([])]
  }

  lemma SceneStep(st: Setting, files: Tree, files': Tree, m: Manifest, m': Manifest, other: Manifest, e: Event)
    requires !e.Others? && Next(st, System(files, Some(m)), e, System(files', Some(m')))
    ensures Steps(st, Scene(files, m, other), "1", e, Scene(files', m', other))
    ensures Steps(st, Scene(files, other, m), "2", e, Scene(files', other, m'))
  {
    hide Next;
  }

  /** Both stage the file: the first creates it, the second finds it. */
  lemma BothStage(st: Setting, x: Example)
    requires Fitting(st, x)
    ensures Steps(st, States(st, x)[0], "1", Events(st, x)[0], States(st, x)[1])
    ensures Steps(st, States(st, x)[1], "2", Events(st, x)[1], States(st, x)[2])
  {
    hide FilesAt, Steps;
    FilesGrow(st, x);
    var first, second := Creator(st, x, Staged), Sharer(st, x, Staged);
    assert NewManifest(Events(st, x)[0].report, first);
    assert NewManifest(Events(st, x)[1].report, second);
    FirstSteps(st, States(st, x)[0], "1", Events(st, x)[0], States(st, x)[1], first);
    FirstSteps(st, States(st, x)[1], "2", Events(st, x)[1], States(st, x)[2], second);
  }

  lemma FirstSteps(st: Setting, s: Shared, id: string, e: Event, s': Shared, m: Manifest)
    requires id !in s.manifests && s'.manifests == s.manifests[id := m] && !e.Others?
    requires Next(st, System(s.files, None), e, System(s'.files, Some(m)))
    ensures Steps(st, s, id, e, s')
  {
    hide Next;
  }

  lemma FilesGrow(st: Setting, x: Example)
    requires Fitting(st, x)
    ensures Completes(st.stagingRoot, FilesAt(x, 0), FilesAt(x, 1), Imports(st, x, [x.staged]).report)
    ensures Completes(st.stagingRoot, FilesAt(x, 1), FilesAt(x, 1), Imports(st, x, []).report)
    ensures Completes(x.asset.dir, FilesAt(x, 1), FilesAt(x, 2), Finalizes(st, x, [x.asset]).report)
    ensures Completes(x.asset.dir, FilesAt(x, 2), FilesAt(x, 2), Finalizes(st, x, []).report)
    ensures Cleared(FilesAt(x, 2), FilesAt(x, 2), [], [])
    ensures Cleared(FilesAt(x, 2), FilesAt(x, 3), [x.asset] + [x.staged], [])
  {
  }

  /** Both publish it: the first creates the asset, the second finds it and saves its document. */
  lemma BothFinalize(st: Setting, x: Example)
    requires Fitting(st, x)
    ensures Steps(st, States(st, x)[2], "1", Events(st, x)[2], States(st, x)[3])
    ensures Steps(st, States(st, x)[3], "2", Events(st, x)[3], States(st, x)[4])
    ensures Steps(st, States(st, x)[4], "2", Events(st, x)[4], States(st, x)[5])
  {
    hide FilesAt, Steps;
    FilesGrow(st, x);
    SceneStep(st, FilesAt(x, 1), FilesAt(x, 2), Creator(st, x, Staged), Creator(st, x, Prepared),
              Sharer(st, x, Staged), Events(st, x)[2]);
    SceneStep(st, FilesAt(x, 2), FilesAt(x, 2), Sharer(st, x, Staged), Sharer(st, x, Prepared),
              Creator(st, x, Prepared), Events(st, x)[3]);
    SceneStep(st, FilesAt(x, 2), FilesAt(x, 2), Sharer(st, x, Prepared), Sharer(st, x, DocumentSaved),
              Creator(st, x, Prepared), SaveDocument);
  }

  lemma SharerVerified(st: Setting, x: Example, phase: Phase)
    requires Fitting(st, x) && phase != Staged
    ensures Verified(st, FilesAt(x, 2), Sharer(st, x, phase))
    ensures !Sound(st, FilesAt(x, 3), Sharer(st, x, phase))
  {
    assert OccursAt(x.asset.name, x.asset.name, 0);
    assert Occurs(x.asset.name, x.asset.name);
    var m := Sharer(st, x, phase);
    assert |"x"| == 1 && m.assets[0].path == x.asset && !Intact(st, FilesAt(x, 3), m.assets[0]);
  }

  /** The second commits; then the first is aborted. */
  lemma CommitThenAbort(st: Setting, x: Example)
    requires Fitting(st, x)
    ensures Steps(st, States(st, x)[5], "2", Events(st, x)[5], States(st, x)[6])
    ensures Steps(st, States(st, x)[6], "1", Events(st, x)[6], States(st, x)[7])
  {
    hide FilesAt, Steps, Verified, Cleared, Completes;
    FilesGrow(st, x);
    SharerVerified(st, x, DocumentSaved);
    SceneStep(st, FilesAt(x, 2), FilesAt(x, 2), Sharer(st, x, DocumentSaved), Sharer(st, x, Committed),
              Creator(st, x, Prepared), Commit([]));
    SceneStep(st, FilesAt(x, 2), FilesAt(x, 3), Creator(st, x, Prepared), Creator(st, x, Aborted),
              Sharer(st, x, Committed), Abort([]));
  }

  /** From no transactions at all: two transactions stage and publish the same file, the second
      finding what the first created, and the second commits. All of that is careful, and what
      was committed is true. Then the first is aborted, which removes the committed asset. */
  lemma AbortTakesSharedAsset(st: Setting, x: Example)
    requires Fitting(st, x)
    ensures var states, events := States(st, x), Events(st, x);
      && SharedRun(st, states, MOVERS, events) && states[0].manifests == map[]
      && (forall i :: 0 <= i < 6 ==> Careful(st, states[i], MOVERS[i], events[i], states[i + 1]))
      && Closed(states[6], "2") && Sound(st, states[6].files, states[6].manifests["2"])
      && Closed(states[7], "2") && !Sound(st, states[7].files, states[7].manifests["2"])
  {
    hide Steps, Sound, FilesAt, Verified, Next;
    BothStage(st, x);
    BothFinalize(st, x);
    CommitThenAbort(st, x);
    SharerVerified(st, x, Committed);
    VerifiedSound(st, FilesAt(x, 2), Sharer(st, x, Committed));
    var states, events := States(st, x), Events(st, x);
    forall i | 0 <= i < 7 ensures Steps(st, states[i], MOVERS[i], events[i], states[i + 1]) {
      if i == 0 {} else if i == 1 {} else if i == 2 {} else if i == 3 {} else if i == 4 {} else if i == 5 {}
    }
    forall i | 0 <= i < 6 ensures Careful(st, states[i], MOVERS[i], events[i], states[i + 1]) {
      assert !events[i].Abort? && !events[i].Edit?;
    }
  }
}
