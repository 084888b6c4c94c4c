/** A clipboard transaction: one manifest over the files, moved by the service's operations,
    by edits from outside and by other transactions. */
module Transactions {
  import opened Basics
  import opened AssetFiles
  import opened Publish
  import opened PublishAll

  datatype Phase = Staged | Prepared | DocumentSaved | NeedsReconciliation | Committed | Aborted

  /** A staging owner has no document. */
  datatype Manifest = Manifest(
    token: string, phase: Phase, document: Option<Path>, assets: seq<Asset>,
    created: seq<Path>, staging: seq<Path>, orphans: seq<Path>)

  datatype System = System(files: Tree, manifest: Option<Manifest>)

  /** The hash, the escaping of a name in a link, and where staged assets live. */
  datatype Setting = Setting(digest: Digest, escape: string -> string, stagingRoot: string)

  predicate Allowed(current: Phase, next: Phase) {
    current == next ||
    match current
    case Staged => next == Prepared || next == Aborted || next == NeedsReconciliation
    case Prepared => next == DocumentSaved || next == Aborted || next == NeedsReconciliation
    case DocumentSaved => next == Committed || next == NeedsReconciliation
    case NeedsReconciliation => next == Aborted || next == Committed
    case _ => false
  }

  /** Where a transaction comes from when it gets to a phase. */
  predicate ComesFrom(current: Phase, next: Phase) {
    match next
    case Staged => false
    case Prepared => current == Staged
    case DocumentSaved => current == Prepared
    case Committed => current == DocumentSaved || current == NeedsReconciliation
    case Aborted => current == Staged || current == Prepared || current == NeedsReconciliation
    case NeedsReconciliation => current == Staged || current == Prepared || current == DocumentSaved
  }

  function Rank(p: Phase): nat {
    match p
    case Staged => 0
    case Prepared => 1
    case DocumentSaved => 2
    case NeedsReconciliation => 3
    case _ => 4
  }

  /** Every change of phase raises the rank. */
  lemma AllowedRaises(current: Phase, next: Phase)
    requires Allowed(current, next) && current != next
    ensures Rank(current) < Rank(next) <= 4
  {
  }

  /** These are the changes of phase there are. */
  lemma AllowedExactly(current: Phase, next: Phase)
    ensures Allowed(current, next) <==> current == next || ComesFrom(current, next)
  {
  }

  /** The asset is there with its recorded size and hash. */
  predicate Intact(st: Setting, files: Tree, a: Asset) {
    var data := Seen(files, a.path);
    data.Some? && |data.value| == a.size && st.digest.hash(data.value) == a.sha
  }

  predicate Referenced(st: Setting, document: string, a: Asset) {
    Occurs(a.path.name, document) || Occurs(st.escape(a.path.name), document)
  }

  /** What verification of a prepared manifest establishes. */
  predicate Verified(st: Setting, files: Tree, m: Manifest) {
    && m.document.Some? && Seen(files, m.document.value).Some?
    && forall i :: 0 <= i < |m.assets| ==>
      Intact(st, files, m.assets[i]) && Referenced(st, Seen(files, m.document.value).value, m.assets[i])
  }

  /** The document names an asset as it is or as a link escapes it. */
  ghost predicate Names(st: Setting, document: string, name: string) {
    exists before, written, after ::
      document == before + written + after && (written == name || written == st.escape(name))
  }

  lemma ReferencedExactly(st: Setting, document: string, a: Asset)
    ensures Referenced(st, document, a) <==> Names(st, document, a.path.name)
  {
    OccursExactly(a.path.name, document);
    OccursExactly(st.escape(a.path.name), document);
  }

  lemma OccursExactly(part: string, text: string)
    ensures Occurs(part, text) <==> exists before, after :: text == before + part + after
  {
    if i :| 0 <= i <= |text| - |part| && OccursAt(part, text, i) {
      assert text == text[..i] + part + text[i + |part|..];
    }
    if before, after :| text == before + part + after {
      assert text[|before|..|before| + |part|] == part;
      assert OccursAt(part, text, |before|);
    }
  }

  /** What undoing a list of paths leaves, and what it reports as still there. */
  ghost predicate Cleared(files: Tree, files': Tree, paths: seq<Path>, orphans: seq<Path>) {
    && Grows(files', files)
    && (forall p :: p in files && p !in paths ==> p in files')
    && (forall p :: p in paths && p !in orphans ==> p !in files')
    && (forall p :: p in orphans ==> p in paths)
  }

  /** One step, with what it happened to find. */
  datatype Event =
    | Import(report: Report, published: Tree, orphans: seq<Path>)
    | Finalize(document: Option<Path>, root: string, report: Report, published: Tree, orphans: seq<Path>)
    | SaveDocument
    | Commit(orphans: seq<Path>)
    | Reconcile(orphans: seq<Path>)
    | Abort(orphans: seq<Path>)
    | Edit
    | Others

  ghost predicate Next(st: Setting, b: System, e: Event, a: System) {
    match e
    case Import(report, published, orphans) => b.manifest.None? && ImportStep(st, b, report, published, orphans, a)
    case Edit => a.manifest == b.manifest && (b.manifest.Some? ==> b.manifest.value.phase != Committed)
    case Others => a.manifest == b.manifest && KeptByOthers(st, b.files, a.files)
    case _ =>
      && b.manifest.Some?
      && (a == b || (a.manifest.Some? && Moves(st, b.files, b.manifest.value, e, a.files, a.manifest.value)))
  }

  /** Other transactions add files and clear staging; the cache file they rewrite. */
  ghost predicate KeptByOthers(st: Setting, files: Tree, files': Tree) {
    forall p :: p in files && p.dir != st.stagingRoot && p.name != INDEX ==> p in files' && files'[p] == files[p]
  }

  ghost predicate ImportStep(st: Setting, b: System, report: Report, published: Tree, orphans: seq<Path>, a: System) {
    if report.failed then a.manifest.None? && Grows(b.files, a.files)
    else
      && Completes(st.stagingRoot, b.files, published, report)
      && (forall p :: p in report.created ==> p.dir == st.stagingRoot)
      && (a.files == published || Cleared(published, a.files, report.created, orphans))
      && (|| a.manifest.None?
          || (a.files == published && a.manifest.value.phase == Staged && NewManifest(report, a.manifest.value))
          || (orphans != [] && a.manifest.value.phase == NeedsReconciliation && NewManifest(report, a.manifest.value)))
  }

  ghost predicate NewManifest(report: Report, m: Manifest) {
    m.document.None? && m.assets == report.assets && m.created == report.created && m.staging == report.created
  }

  /** The operations on an existing manifest, when they do more than answer. */
  ghost predicate Moves(st: Setting, files: Tree, m: Manifest, e: Event, files': Tree, m': Manifest) {
    match e
    case Finalize(document, root, report, published, orphans) =>
      && (m.phase == Staged || m.phase == Aborted)
      && (|| (report.failed && m' == m && Grows(files, files'))
          || (m.phase == Staged && files' == published && Completes(root, files, published, report)
              && m' == m.(phase := Prepared, document := document, assets := report.assets, created := report.created))
          || (Completes(root, files, published, report) && Cleared(published, files', report.created, orphans)
              && (m' == m || (m.phase == Staged && orphans != [] && m' ==
                              m.(phase := NeedsReconciliation, created := report.created, orphans := orphans)))))
    case SaveDocument => files' == files && Allowed(m.phase, DocumentSaved) && m' == m.(phase := DocumentSaved)
    case Commit(orphans) =>
      && m.phase == DocumentSaved && Verified(st, files, m) && Cleared(files, files', m.staging, orphans)
      && Closes(m, orphans, m')
    case Reconcile(orphans) =>
      && m.phase == NeedsReconciliation && Verified(st, files, m)
      && Cleared(files, files', if m.orphans == [] then m.staging else m.orphans, orphans)
      && Closes(m, orphans, m')
    case Abort(orphans) =>
      && (m.phase == Staged || m.phase == Prepared || m.phase == NeedsReconciliation)
      && Cleared(files, files', m.created + m.staging, orphans)
      && (|| m' == m
          || (orphans == [] && m' == m.(phase := Aborted))
          || (orphans != [] && m' == m.(phase := NeedsReconciliation, orphans := orphans)))
    case _ => false
  }

  /** After the cleanup the manifest is closed, or names what is left, or could not be written. */
  ghost predicate Closes(m: Manifest, orphans: seq<Path>, m': Manifest) {
    || m' == m
    || (orphans == [] && m' == m.(phase := Committed, orphans := []))
    || (orphans != [] && m' == m.(phase := NeedsReconciliation, orphans := orphans))
  }

  ghost predicate Completes(root: string, files: Tree, published: Tree, report: Report) {
    && !report.failed
    && (forall i :: 0 <= i < |report.assets| ==> report.assets[i].path.dir == root)
    && (forall p :: p in files && p != Path(root, INDEX) ==> p in published && published[p] == files[p])
    && (forall p :: p in report.created ==> p !in files)
  }

  // --------------------------------------------------------------------- ranks

  /** A run: states with the events between them. */
  ghost predicate Behaviour(st: Setting, states: seq<System>, events: seq<Event>) {
    && |states| == |events| + 1
    && forall i :: 0 <= i < |events| ==> Next(st, states[i], events[i], states[i + 1])
  }

  predicate PhaseChanged(b: System, a: System) {
    b.manifest.Some? && a.manifest.Some? && b.manifest.value.phase != a.manifest.value.phase
  }

  function Changes(states: seq<System>): nat {
    if |states| < 2 then 0
    else Changes(states[..|states| - 1]) + if PhaseChanged(states[|states| - 2], states[|states| - 1]) then 1 else 0
  }

  /** No step lowers the rank, and a step that changes the phase raises it. */
  lemma StepRaises(st: Setting, b: System, e: Event, a: System)
    requires Next(st, b, e, a) && b.manifest.Some?
    ensures a.manifest.Some?
    ensures PhaseChanged(b, a) ==> Allowed(b.manifest.value.phase, a.manifest.value.phase)
    ensures PhaseChanged(b, a) ==> ComesFrom(b.manifest.value.phase, a.manifest.value.phase)
    ensures Rank(b.manifest.value.phase) + (if PhaseChanged(b, a) then 1 else 0) <= Rank(a.manifest.value.phase)
  {
    hide Verified, Cleared, Completes;
    if PhaseChanged(b, a) {
      AllowedRaises(b.manifest.value.phase, a.manifest.value.phase);
    }
  }

  /** Whatever happens, a transaction changes its phase at most four times. */
  lemma {:induction false} AtMostFourChanges(st: Setting, states: seq<System>, events: seq<Event>)
    requires Behaviour(st, states, events) && states[0].manifest.Some?
    ensures states[|events|].manifest.Some?
    ensures Rank(states[0].manifest.value.phase) + Changes(states) <= Rank(states[|events|].manifest.value.phase)
    ensures Changes(states) <= 4
    decreases |events|
  {
    hide Next, PhaseChanged;
    if |events| > 0 {
      var n := |events| - 1;
      var before, done := states[..n + 1], events[..n];
      assert forall i :: 0 <= i <= n ==> before[i] == states[i];
      assert forall i :: 0 <= i < n ==> done[i] == events[i];
      AtMostFourChanges(st, before, done);
      StepRaises(st, states[n], events[n], states[n + 1]);
    }
  }

  // ------------------------------------------------------------- commit soundness

  /** What commit soundness is about: destinations outside the staging root, documents that
      are not cache files, and no abort of a transaction with a document that leaves files
      outside the staging root. */
  ghost predicate Orderly(st: Setting, b: System, e: Event) {
    && (e.Finalize? && e.document.Some? ==>
          e.root != st.stagingRoot && e.document.value.dir != st.stagingRoot && e.document.value.name != INDEX)
    && (e.Abort? && b.manifest.Some? && b.manifest.value.document.Some? ==> StagedPaths(st, e.orphans))
  }

  /** The committed manifest tells the truth about the files. */
  ghost predicate Sound(st: Setting, files: Tree, m: Manifest) {
    && m.document.Some? && Seen(files, m.document.value).Some?
    && forall i :: 0 <= i < |m.assets| && m.assets[i].path.name != INDEX ==>
         Intact(st, files, m.assets[i]) && Referenced(st, Seen(files, m.document.value).value, m.assets[i])
  }

  ghost predicate StagedPaths(st: Setting, paths: seq<Path>) {
    forall p :: p in paths ==> p.dir == st.stagingRoot
  }

  ghost predicate Inv(st: Setting, s: System) {
    s.manifest.Some? ==>
      var m := s.manifest.value;
      && StagedPaths(st, m.staging)
      && (m.document.Some? ==>
            && m.document.value.dir != st.stagingRoot && m.document.value.name != INDEX
            && (forall i :: 0 <= i < |m.assets| ==> m.assets[i].path.dir != st.stagingRoot)
            && (m.phase == NeedsReconciliation ==> StagedPaths(st, m.orphans)))
      && (m.phase == Staged ==> m.document.None?)
      && (m.phase == Committed ==> m.document.Some? && Sound(st, s.files, m))
  }

  /** The list names neither the document nor an asset outside the cache file. */
  ghost predicate Spares(paths: seq<Path>, m: Manifest) {
    && (m.document.Some? ==> m.document.value !in paths)
    && forall i :: 0 <= i < |m.assets| && m.assets[i].path.name != INDEX ==> m.assets[i].path !in paths
  }

  /** Clearing a list of paths leaves a sound manifest sound exactly when the list spares it. */
  lemma ClearingSoundIff(st: Setting, files: Tree, files': Tree, m: Manifest, paths: seq<Path>)
    requires Sound(st, files, m) && Cleared(files, files', paths, [])
    ensures Sound(st, files', m) <==> Spares(paths, m)
  {
    hide Referenced;
    if Spares(paths, m) {
      assert Seen(files', m.document.value) == Seen(files, m.document.value);
      forall i | 0 <= i < |m.assets| && m.assets[i].path.name != INDEX
        ensures Seen(files', m.assets[i].path) == Seen(files, m.assets[i].path)
      {
        assert Intact(st, files, m.assets[i]);
      }
    } else if m.document.value in paths {
      assert Seen(files', m.document.value) == None;
    } else {
      var i :| 0 <= i < |m.assets| && m.assets[i].path.name != INDEX && m.assets[i].path in paths;
      assert !Intact(st, files', m.assets[i]);
    }
  }

  lemma VerifiedSound(st: Setting, files: Tree, m: Manifest)
    requires Verified(st, files, m)
    ensures Sound(st, files, m)
  {
  }

  /** What closing a manifest clears. */
  function ClearedBy(m: Manifest): seq<Path> {
    if m.phase == NeedsReconciliation && m.orphans != [] then m.orphans else m.staging
  }

  /** The step that commits a transaction commits the truth exactly when the list it clears
      names neither the document nor an asset. */
  lemma CommitSoundIff(st: Setting, b: System, e: Event, a: System)
    requires Next(st, b, e, a) && b.manifest.Some? && a.manifest.Some?
    requires b.manifest.value.phase != Committed && a.manifest.value.phase == Committed
    ensures Sound(st, a.files, a.manifest.value) <==> Spares(ClearedBy(b.manifest.value), b.manifest.value)
  {
    hide Sound, Cleared, Verified, Spares, Completes;
    var m, m' := b.manifest.value, a.manifest.value;
    assert Verified(st, b.files, m) && Cleared(b.files, a.files, ClearedBy(m), []);
    VerifiedSound(st, b.files, m);
    ClearingSoundIff(st, b.files, a.files, m, ClearedBy(m));
    SoundEither(st, a.files, m, m');
  }

  lemma SoundEither(st: Setting, files: Tree, m: Manifest, m': Manifest)
    requires m'.document == m.document && m'.assets == m.assets
    ensures Sound(st, files, m) <==> Sound(st, files, m')
  {
  }

  /** Clearing staged paths disturbs neither the document nor the assets. */
  lemma ClearedStaysSound(st: Setting, files: Tree, files': Tree, m: Manifest, paths: seq<Path>, orphans: seq<Path>)
    requires Verified(st, files, m) && Cleared(files, files', paths, orphans) && StagedPaths(st, paths)
    requires m.document.Some? && m.document.value.dir != st.stagingRoot
    requires forall i :: 0 <= i < |m.assets| ==> m.assets[i].path.dir != st.stagingRoot
    ensures Sound(st, files', m)
  {
    hide Referenced;
    assert m.document.value !in paths;
    assert Seen(files', m.document.value) == Seen(files, m.document.value);
    forall i | 0 <= i < |m.assets| ensures Seen(files', m.assets[i].path) == Seen(files, m.assets[i].path) {
      assert Intact(st, files, m.assets[i]);
      assert m.assets[i].path !in paths;
    }
  }

  lemma OthersKeepSound(st: Setting, files: Tree, files': Tree, m: Manifest)
    requires Sound(st, files, m) && KeptByOthers(st, files, files')
    requires m.document.value.dir != st.stagingRoot && m.document.value.name != INDEX
    requires forall i :: 0 <= i < |m.assets| ==> m.assets[i].path.dir != st.stagingRoot
    ensures Sound(st, files', m)
  {
    hide Referenced;
    assert Seen(files', m.document.value) == Seen(files, m.document.value);
    forall i | 0 <= i < |m.assets| && m.assets[i].path.name != INDEX
      ensures Seen(files', m.assets[i].path) == Seen(files, m.assets[i].path)
    {
      assert Intact(st, files, m.assets[i]);
    }
  }

  lemma StepKeepsInv(st: Setting, b: System, e: Event, a: System)
    requires Inv(st, b) && Next(st, b, e, a) && Orderly(st, b, e)
    ensures Inv(st, a)
  {
    hide Sound, Intact, Referenced, Cleared, KeptByOthers;
    if b.manifest.Some? {
      var m := b.manifest.value;
      match e
      case Commit(orphans) =>
        if a != b { ClosesKeepsInv(st, b, m.staging, orphans, a); }
      case Reconcile(orphans) =>
        if a != b { ClosesKeepsInv(st, b, if m.orphans == [] then m.staging else m.orphans, orphans, a); }
      case Others =>
        if m.phase == Committed { OthersKeepSound(st, b.files, a.files, m); }
      case _ =>
    }
  }

  lemma ClosesKeepsInv(st: Setting, b: System, paths: seq<Path>, orphans: seq<Path>, a: System)
    requires Inv(st, b) && b.manifest.Some? && a.manifest.Some? && StagedPaths(st, paths)
    requires b.manifest.value.phase == DocumentSaved || b.manifest.value.phase == NeedsReconciliation
    requires Verified(st, b.files, b.manifest.value) && Cleared(b.files, a.files, paths, orphans)
    requires Closes(b.manifest.value, orphans, a.manifest.value)
    ensures Inv(st, a)
  {
    var m := b.manifest.value;
    ClearedStaysSound(st, b.files, a.files, m, paths, orphans);
    hide Sound, Verified;
    assert StagedPaths(st, orphans);
    SoundEither(st, a.files, m, a.manifest.value);
  }

  /** On every orderly run, whatever edits come before the commit and whatever fails, a
      committed manifest's assets are there with their recorded size and hash and its
      document references each of them. */
  lemma {:induction false} CommitSound(st: Setting, states: seq<System>, events: seq<Event>)
    requires Behaviour(st, states, events) && states[0].manifest.None?
    requires forall i :: 0 <= i < |events| ==> Orderly(st, states[i], events[i])
    ensures Inv(st, states[|events|])
    ensures var s := states[|events|];
      s.manifest.Some? && s.manifest.value.phase == Committed ==> Sound(st, s.files, s.manifest.value)
    decreases |events|
  {
    hide Next, Sound, Orderly;
    if |events| > 0 {
      var n := |events| - 1;
      var before, done := states[..n + 1], events[..n];
      assert forall i :: 0 <= i <= n ==> before[i] == states[i];
      assert forall i :: 0 <= i < n ==> done[i] == events[i];
      CommitSound(st, before, done);
      StepKeepsInv(st, states[n], events[n], states[n + 1]);
    }
  }

  /** Without the condition on aborts this fails: an abort that could remove nothing leaves the
      published assets listed as orphans, and reconciliation, having verified them, deletes
      them and commits. */
  lemma AbortThenReconcileLosesAssets(st: Setting, asset: Asset, document: Path, token: string)
    requires asset.path != document && |"x"| == asset.size && asset.sha == st.digest.hash("x")
    requires asset.path.name != INDEX
    ensures var files: Tree := map[asset.path := File("x", 1), document := File(asset.path.name, 1)];
            var m := Manifest(token, Prepared, Some(document), [asset], [asset.path], [], []);
            var b := System(files, Some(m));
            var stuck := System(files, Some(m.(phase := NeedsReconciliation, orphans := [asset.path])));
            var a := System(files - {asset.path}, Some(m.(phase := Committed)));
            Next(st, b, Abort([asset.path]), stuck) && Next(st, stuck, Reconcile([]), a)
              && !Sound(st, a.files, a.manifest.value)
  {
    var files: Tree := map[asset.path := File("x", 1), document := File(asset.path.name, 1)];
    var m := Manifest(token, Prepared, Some(document), [asset], [asset.path], [], []);
    var stuck := m.(phase := NeedsReconciliation, orphans := [asset.path]);
    assert OccursAt(asset.path.name, asset.path.name, 0);
    assert Occurs(asset.path.name, asset.path.name);
    assert Verified(st, files, stuck);
    assert Cleared(files, files, [asset.path] + [], [asset.path]);
    assert Cleared(files, files - {asset.path}, [asset.path], []);
    var lost := files - {asset.path};
    assert m.assets[0] == asset && !Intact(st, lost, m.assets[0]);
  }
}
