/** The clipboard service's operations on one transaction, step by step over the files and
    the stored manifest. Every operation is one step of Transactions. */
module ClipboardService {
  import opened Basics
  import opened AssetFiles
  import opened Publish
  import opened PublishAll
  import opened Transactions

  datatype Response = Response(ok: bool, phase: Option<Phase>, orphans: seq<Path>)

  /** What resolving a request's owner yields: its document, which a staging owner lacks, its
      asset root, and whether that can be created and lies inside the owner. */
  datatype Owner = Owner(staging: bool, document: Option<Path>, root: string, inside: bool)

  const REFUSED := Response(false, None, [])

  // ------------------------------- what each operation does, whatever removals and writes fail

  /** Nothing was done. */
  ghost predicate Declined(b: System, a: System, r: Response, answer: Response) {
    a == b && r == answer
  }

  /** The manifest was written, or could not be and stays. */
  ghost predicate Recorded(b: System, a: System, written: bool, m: Manifest) {
    a.manifest == if written then Some(m) else b.manifest
  }

  /** A transaction whose document is saved and whose manifest tells the truth loses its staging
      files and is closed, or lists those that could not be removed; one that is closed already
      is answered again; any other is refused. */
  ghost predicate Commits(st: Setting, b: System, e: Event, written: bool, a: System, r: Response)
    requires b.manifest.Some?
  {
    var m := b.manifest.value;
    if m.phase == Committed then Declined(b, a, r, Response(true, Some(Committed), []))
    else if m.phase == DocumentSaved && Verified(st, b.files, m) then
      && e.Commit? && Cleared(b.files, a.files, m.staging, e.orphans)
      && if e.orphans == [] then
           && Recorded(b, a, written, m.(phase := Committed, orphans := []))
           && r == if written then Response(true, Some(Committed), []) else REFUSED
         else
           && Recorded(b, a, written, m.(phase := NeedsReconciliation, orphans := e.orphans))
           && r == Response(false, if written then Some(NeedsReconciliation) else None, e.orphans)
    else Declined(b, a, r, REFUSED)
  }

  /** A transaction that needs it and whose manifest tells the truth is cleaned up and closed, or
      lists what is still left; one that should tell the truth and does not is reported as it
      is, and so is any other. */
  ghost predicate Reconciles(st: Setting, b: System, e: Event, written: bool, a: System, r: Response)
    requires b.manifest.Some?
  {
    var m := b.manifest.value;
    if (m.phase == Prepared || m.phase == DocumentSaved || m.phase == NeedsReconciliation)
      && !Verified(st, b.files, m) then
      Declined(b, a, r, Response(false, Some(m.phase), m.orphans))
    else if m.phase == NeedsReconciliation then
      && e.Reconcile? && Cleared(b.files, a.files, if m.orphans == [] then m.staging else m.orphans, e.orphans)
      && if e.orphans == [] then
           && Recorded(b, a, written, m.(phase := Committed, orphans := []))
           && r == if written then Response(true, Some(Committed), []) else REFUSED
         else
           && Recorded(b, a, written, m.(orphans := e.orphans))
           && r == Response(false, if written then Some(NeedsReconciliation) else None, e.orphans)
    else Declined(b, a, r, Response(true, Some(m.phase), m.orphans))
  }

  /** A transaction not yet saved loses everything it created and is closed as aborted, or lists
      what could not be removed. */
  ghost predicate Aborts(b: System, e: Event, written: bool, a: System, r: Response)
    requires b.manifest.Some?
  {
    var m := b.manifest.value;
    if m.phase == Aborted then Declined(b, a, r, Response(true, Some(Aborted), []))
    else if m.phase == Staged || m.phase == Prepared || m.phase == NeedsReconciliation then
      && e.Abort? && Cleared(b.files, a.files, m.created + m.staging, e.orphans)
      && if e.orphans == [] then
           && Recorded(b, a, written, m.(phase := Aborted))
           && r == if written then Response(true, Some(Aborted), []) else REFUSED
         else
           && Recorded(b, a, written, m.(phase := NeedsReconciliation, orphans := e.orphans))
           && r == if written then Response(false, Some(NeedsReconciliation), e.orphans) else REFUSED
    else Declined(b, a, r, REFUSED)
  }

  /** A prepared transaction learns that its document is saved; once saved it stays so. */
  ghost predicate Saves(b: System, written: bool, a: System, r: Response)
    requires b.manifest.Some?
  {
    var m := b.manifest.value;
    if (m.phase == Prepared || m.phase == DocumentSaved) && written then
      && r == Response(true, Some(DocumentSaved), [])
      && a == b.(manifest := Some(m.(phase := DocumentSaved)))
    else Declined(b, a, r, REFUSED)
  }

  /** A publication of these paths at a destination that nothing stands in the way of. */
  ghost predicate Clear(nodes: Tree, limits: Limits, paths: seq<Path>, root: string, admitted: bool) {
    Startable(nodes, limits, paths, root, admitted) && Roomy(nodes, root, paths)
  }

  function PathsOf(assets: seq<Asset>): (paths: seq<Path>)
    ensures |paths| == |assets| && forall i :: 0 <= i < |assets| ==> paths[i] == assets[i].path
  {
    seq(|assets|, i requires 0 <= i < |assets| => assets[i].path)
  }

  /** A staged transaction is published at the owner's root and recorded as prepared there. If
      it cannot be recorded the publication is taken back, and what cannot be is recorded with a
      second try. One that is further along is answered again; without an owner it is refused. */
  ghost predicate Finalizes(st: Setting, owner: Option<Owner>, limits: Limits, b: System, e: Event, written: bool,
                            again: bool, a: System, r: Response)
    requires b.manifest.Some?
  {
    var m := b.manifest.value;
    if m.phase != Staged && m.phase != Aborted then Declined(b, a, r, Response(true, Some(m.phase), []))
    else if owner.None? then Declined(b, a, r, REFUSED)
    else
      && e.Finalize?
      && (Clear(b.files, limits, PathsOf(m.assets), owner.value.root, owner.value.inside) ==> !e.report.failed)
      && if e.report.failed then a.manifest == b.manifest && r == REFUSED
         else
           && Completed(st.digest, owner.value.root, b.files, e.published, PathsOf(m.assets), e.report)
           && if m.phase == Staged && written then
                && r == Response(true, Some(Prepared), []) && a.files == e.published
                && a.manifest == Some(m.(phase := Prepared, document := owner.value.document, assets := e.report.assets,
                                         created := e.report.created))
              else
                && r == Response(false, None, e.orphans) && Cleared(e.published, a.files, e.report.created, e.orphans)
                && Recorded(b, a, m.phase == Staged && e.orphans != [] && again,
                            m.(phase := NeedsReconciliation, created := e.report.created, orphans := e.orphans))
  }

  /** What is pasted for a staging owner is published in staging and recorded as a transaction;
      else it is taken back, and what cannot be is recorded with a second try. */
  ghost predicate Imports(st: Setting, token: string, owner: Owner, limits: Limits, paths: seq<Path>, b: System,
                          e: Event, written: bool, again: bool, a: System, r: Response)
  {
    && e.Import?
    && (Clear(b.files, limits, paths, st.stagingRoot, owner.inside) ==> !e.report.failed)
    && if e.report.failed then a.manifest == b.manifest && r == REFUSED
       else
         var m := Manifest(token, Staged, None, e.report.assets, e.report.created, e.report.created, []);
         && Completed(st.digest, st.stagingRoot, b.files, e.published, paths, e.report)
         && if written then r == Response(true, Some(Staged), []) && a.files == e.published && a.manifest == Some(m)
            else
              && r == Response(false, None, e.orphans) && Cleared(e.published, a.files, e.report.created, e.orphans)
              && Recorded(b, a, e.orphans != [] && again, m.(phase := NeedsReconciliation, orphans := e.orphans))
  }

  class Service {
    const fs: FileSystem
    const st: Setting
    const lost: nat -> bool
    var stored: Option<Manifest>
    var writes: nat

    constructor (fs: FileSystem, st: Setting, lost: nat -> bool)
      ensures this.fs == fs && this.st == st && this.lost == lost && stored == None
    {
      this.fs, this.st, this.lost, stored, writes := fs, st, lost, None, 0;
    }

    /** The next manifest write succeeds. */
    predicate Writes()
      reads this`writes
    {
      !lost(writes)
    }

    /** The one after it does. */
    predicate WritesThen()
      reads this`writes
    {
      !lost(writes + 1)
    }

    ghost function Now(): System
      reads this, fs
    {
      System(fs.nodes, stored)
    }

    /** The stored transaction, if it has this token. */
    ghost function Held(token: string): Option<Manifest>
      reads this
    {
      if token != "" && stored.Some? && stored.value.token == token then stored else None
    }

    method Load() returns (m: Option<Manifest>)
      modifies fs`clock
      ensures m.Some? ==> m == stored
      ensures fs.Healthy() ==> m == stored
    {
      var ok := fs.Attempt();
      m := if ok then stored else None;
    }

    /** Atomic: the old manifest or the new one. */
    method Write(m: Manifest) returns (ok: bool)
      modifies this, fs`clock
      ensures ok <==> old(Writes())
      ensures stored == if ok then Some(m) else old(stored)
      ensures writes == old(writes) + 1
    {
      ok := !lost(writes);
      writes := writes + 1;
      if ok { stored := Some(m); }
    }

    method Transition(token: string, next: Phase, created: Option<seq<Path>>, orphans: Option<seq<Path>>)
      returns (r: Option<Manifest>)
      modifies this, fs`clock
      ensures r.None? ==> stored == old(stored)
      ensures r.Some? ==> old(stored).Some? && stored == r && Allowed(old(stored).value.phase, next)
                          && r.value == old(stored).value.(phase := next,
                               created := if created.Some? then created.value else old(stored).value.created,
                               orphans := if orphans.Some? then orphans.value else old(stored).value.orphans)
      ensures r.Some? ==> old(Held(token)).Some?
      ensures fs.Healthy() && old(Held(token)).Some? && Allowed(old(stored).value.phase, next) ==>
                (r.Some? <==> old(Writes()))
    {
      var loaded := Load();
      if loaded.None? || token == "" || token != loaded.value.token
        || !Allowed(loaded.value.phase, next) { return None; }
      var m := loaded.value.(phase := next);
      if created.Some? { m := m.(created := created.value); }
      if orphans.Some? { m := m.(orphans := orphans.value); }
      var ok := Write(m);
      r := if ok then Some(m) else None;
    }

    method Prepare(token: string, document: Option<Path>, assets: seq<Asset>, created: seq<Path>)
      returns (r: Option<Manifest>)
      modifies this, fs`clock
      ensures r.None? ==> stored == old(stored)
      ensures r.Some? ==> old(stored).Some? && stored == r && Allowed(old(stored).value.phase, Prepared)
                          && r.value == old(stored).value.(phase := Prepared, document := document, assets := assets,
                                                           created := created)
      ensures r.Some? ==> old(Held(token)).Some?
      ensures fs.Healthy() && old(Held(token)).Some? ==>
                if Allowed(old(stored).value.phase, Prepared) then (r.Some? <==> old(Writes()))
                  && writes == old(writes) + 1
                else r.None?
    {
      var loaded := Load();
      if loaded.None? || token == "" || token != loaded.value.token
        || !Allowed(loaded.value.phase, Prepared) { return None; }
      var m := loaded.value.(phase := Prepared, document := document, assets := assets, created := created);
      var ok := Write(m);
      r := if ok then Some(m) else None;
    }

    /** Reads the document and every asset again. */
    method VerifyPreparedManifest(m: Manifest) returns (ok: bool)
      modifies fs`clock
      ensures ok ==> Verified(st, fs.nodes, m)
      ensures fs.Healthy() && Verified(st, fs.nodes, m) ==> ok
    {
      if m.document.None? { return false; }
      var document := fs.Read(m.document.value);
      if document.None? { return false; }
      ghost var nodes := fs.nodes;
      for i := 0 to |m.assets|
        invariant fs.nodes == nodes
        invariant forall j :: 0 <= j < i ==>
                  Intact(st, nodes, m.assets[j]) && Referenced(st, document.value, m.assets[j])
      {
        var asset := m.assets[i];
        var data := fs.Read(asset.path);
        if data.None? { return false; }
        if |data.value| != asset.size || st.digest.hash(data.value) != asset.sha { return false; }
        if !Referenced(st, document.value, asset) { return false; }
      }
      ok := true;
    }

    /** Verification, removal of the staging files, then the closing transition. */
    method Commit(token: string) returns (r: Response, ghost e: Event)
      requires fs.Valid()
      modifies this, fs
      ensures fs.Valid()
      ensures old(stored).Some? ==> e.Commit? && Next(st, old(Now()), e, Now())
      ensures old(Held(token)).None? ==> Now() == old(Now()) && r == REFUSED
      ensures r.ok ==> stored.Some? && stored.value.phase == Committed
      ensures fs.Healthy() && old(Held(token)).Some? ==> Commits(st, old(Now()), e, old(Writes()), Now(), r)
      ensures fs.Removable() ==> r.orphans == []
    {
      hide Verified, Cleared;
      e, r := Event.Commit([]), REFUSED;
      var loaded := Load();
      if loaded.None? || token == "" || token != loaded.value.token { return; }
      var m := loaded.value;
      if m.phase == Committed { return Response(true, Some(Committed), []), e; }
      if m.phase != DocumentSaved { return; }
      var verified := VerifyPreparedManifest(m);
      if !verified { return; }
      var orphans := Undo(m.staging);
      e := Event.Commit(orphans);
      if orphans != [] {
        var left := Transition(token, NeedsReconciliation, None, Some(orphans));
        return Response(false, if left.Some? then Some(NeedsReconciliation) else None, orphans), e;
      }
      var closed := Transition(token, Committed, None, Some([]));
      if closed.Some? { r := Response(true, Some(Committed), []); }
    }

    method Undo(paths: seq<Path>) returns (orphans: seq<Path>)
      requires fs.Valid()
      modifies fs
      ensures fs.Valid() && Cleared(old(fs.nodes), fs.nodes, paths, orphans)
      ensures fs.Removable() ==> orphans == []
    {
      orphans := Compensate(fs, paths);
    }

    method Reconcile(token: string) returns (r: Response, ghost e: Event)
      requires fs.Valid()
      modifies this, fs
      ensures fs.Valid()
      ensures old(stored).Some? ==> e.Reconcile? && Next(st, old(Now()), e, Now())
      ensures old(Held(token)).None? ==> Now() == old(Now()) && r == REFUSED
      ensures fs.Healthy() && old(Held(token)).Some? ==> Reconciles(st, old(Now()), e, old(Writes()), Now(), r)
      ensures fs.Removable() ==> r.orphans == [] || Now() == old(Now())
    {
      hide Verified, Cleared;
      e, r := Event.Reconcile([]), REFUSED;
      var loaded := Load();
      if loaded.None? || token == "" || token != loaded.value.token { return; }
      var m := loaded.value;
      if m.phase == Prepared || m.phase == DocumentSaved || m.phase == NeedsReconciliation {
        var verified := VerifyPreparedManifest(m);
        if !verified { return Response(false, Some(m.phase), m.orphans), e; }
      }
      if m.phase == NeedsReconciliation {
        var cleanup := if |m.orphans| == 0 then m.staging else m.orphans;
        var orphans := Undo(cleanup);
        e := Event.Reconcile(orphans);
        if orphans != [] {
          var left := Transition(token, NeedsReconciliation, None, Some(orphans));
          return Response(false, if left.Some? then Some(NeedsReconciliation) else None, orphans), e;
        }
        var closed := Transition(token, Committed, None, Some([]));
        if closed.None? { return; }
        m := closed.value;
      }
      r := Response(true, Some(m.phase), m.orphans);
    }

    method Abort(token: string) returns (r: Response, ghost e: Event)
      requires fs.Valid()
      modifies this, fs
      ensures fs.Valid()
      ensures old(stored).Some? ==> e.Abort? && Next(st, old(Now()), e, Now())
      ensures old(Held(token)).None? ==> Now() == old(Now()) && r == REFUSED
      ensures fs.Healthy() && old(Held(token)).Some? ==> Aborts(old(Now()), e, old(Writes()), Now(), r)
      ensures fs.Removable() ==> r.orphans == []
    {
      hide Cleared;
      e, r := Event.Abort([]), REFUSED;
      var loaded := Load();
      if loaded.None? || token == "" || token != loaded.value.token { return; }
      var m := loaded.value;
      if m.phase == Aborted { return Response(true, Some(Aborted), []), e; }
      if m.phase != Staged && m.phase != Prepared && m.phase != NeedsReconciliation { return; }
      var orphans := Undo(m.created + m.staging);
      e := Event.Abort(orphans);
      var next := if orphans != [] then NeedsReconciliation else Aborted;
      var left := Transition(token, next, None, if orphans == [] then None else Some(orphans));
      if left.Some? { r := Response(orphans == [], Some(next), orphans); }
    }

    method SaveDocument(token: string) returns (r: Response, ghost e: Event)
      modifies this, fs`clock
      ensures old(stored).Some? ==> e.SaveDocument? && Next(st, old(Now()), e, Now())
      ensures old(Held(token)).None? ==> Now() == old(Now()) && r == REFUSED
      ensures fs.Healthy() && old(Held(token)).Some? ==> Saves(old(Now()), old(Writes()), Now(), r)
    {
      e, r := Event.SaveDocument, REFUSED;
      var saved := Transition(token, DocumentSaved, None, None);
      if saved.Some? { r := Response(true, Some(DocumentSaved), []); }
    }

    /** Publishes the staged assets at the destination and records them; a failure to record
        takes them back. An owner that cannot be resolved is refused. */
    method Finalize(token: string, owner: Option<Owner>, limits: Limits) returns (r: Response, ghost e: Event)
      requires fs.Valid() && Faithful(st.digest)
      requires owner.Some? ==> IndexValid(st.digest, fs.nodes, fs.now, owner.value.root)
      modifies this, fs
      ensures fs.Valid()
      ensures old(stored).Some? && owner.Some? ==>
                e.Finalize? && e.root == owner.value.root && e.document == owner.value.document
                  && Next(st, old(Now()), e, Now())
      ensures old(Held(token)).None? || owner.None? ==> Now() == old(Now())
      ensures old(Held(token)).None? ==> r == REFUSED
      ensures fs.Healthy() && old(Held(token)).Some? ==>
                Finalizes(st, owner, limits, old(Now()), e, old(Writes()), old(WritesThen()), Now(), r)
      ensures fs.Removable() ==> r.orphans == []
    {
      hide Cleared, IndexValid, Faithful, CompletedOne, SharesOne, WentTo, Stuck, AllShare, Startable, Roomy;
      ghost var none := Report(true, false, [], [], [], map[]);
      var document, root := if owner.Some? then owner.value.document else None, if owner.Some? then owner.value.root
        else "";
      e, r := Event.Finalize(document, root, none, fs.nodes, []), REFUSED;
      var loaded := Load();
      if loaded.None? || token == "" || token != loaded.value.token { return; }
      var m := loaded.value;
      if m.phase != Staged && m.phase != Aborted { return Response(true, Some(m.phase), []), e; }
      if owner.None? { return; }
      var paths := AssetPaths(m.assets);
      var report, _ := PublishPaths(fs, st.digest, limits, paths, root, owner.value.inside);
      ghost var published := fs.nodes;
      e := Event.Finalize(document, root, report, published, []);
      if report.failed { return; }
      AssetsAtRoot(st.digest, root, old(fs.nodes), published, paths, report);
      r := RecordPrepared(token, m, document, report);
      e := Event.Finalize(document, root, report, published, r.orphans);
    }

    /** What was published is recorded, or else taken back. */
    method RecordPrepared(token: string, m: Manifest, document: Option<Path>, report: Report) returns (r: Response)
      requires fs.Valid() && Held(token) == Some(m) && (m.phase == Staged || m.phase == Aborted)
      modifies this, fs
      ensures fs.Valid()
      ensures r.ok ==>
                && m.phase == Staged && r == Response(true, Some(Prepared), []) && fs.nodes == old(fs.nodes)
                && stored == Some(m.(phase := Prepared, document := document, assets := report.assets,
                                     created := report.created))
      ensures !r.ok ==>
                && r == Response(false, None, r.orphans)
                && Cleared(old(fs.nodes), fs.nodes, report.created, r.orphans)
      ensures !r.ok ==>
                || stored == old(stored)
                || (m.phase == Staged && r.orphans != []
                    && stored == Some(m.(phase := NeedsReconciliation, created := report.created,
                                         orphans := r.orphans)))
      ensures fs.Healthy() ==>
                && (r.ok <==> m.phase == Staged && old(Writes()))
                && (!r.ok && m.phase == Staged && r.orphans != [] && old(WritesThen()) ==> stored != old(stored))
                && (!r.ok && !old(WritesThen()) ==> stored == old(stored))
      ensures fs.Removable() ==> r.orphans == []
    {
      hide Cleared;
      var prepared := Prepare(token, document, report.assets, report.created);
      if prepared.Some? { return Response(true, Some(Prepared), []); }
      var orphans := Undo(report.created);
      if orphans != [] {
        var left := Transition(token, NeedsReconciliation, Some(report.created), Some(orphans));
      }
      r := Response(false, None, orphans);
    }

    /** Publishes into staging and records a new transaction; for any other owner publishes at
        its root and records none, which every transaction sees as a step of others. */
    method ImportPaths(token: string, owner: Option<Owner>, paths: seq<Path>, limits: Limits)
      returns (r: Response, ghost e: Event)
      requires stored.None?
      requires fs.Valid() && Faithful(st.digest)
      requires owner.Some? ==> IndexValid(st.digest, fs.nodes, fs.now, owner.value.root)
      requires owner.Some? && owner.value.staging ==> owner.value.root == st.stagingRoot
      modifies this, fs
      ensures fs.Valid()
      ensures owner.None? ==> Now() == old(Now())
      ensures owner.Some? && owner.value.staging ==> e.Import? && Next(st, old(Now()), e, Now())
      ensures owner.Some? && !owner.value.staging ==> stored == old(stored) && KeptByOthers(st, old(fs.nodes), fs.nodes)
      ensures owner.None? ==> r == REFUSED
      ensures fs.Healthy() && owner.Some? && owner.value.staging ==>
                Imports(st, token, owner.value, limits, paths, old(Now()), e, old(Writes()), old(WritesThen()),
                        Now(), r)
      ensures fs.Removable() ==> r.orphans == []
      ensures owner.Some? && !owner.value.staging ==>
                r == if r.ok then Response(true, Some(Committed), []) else REFUSED
      ensures owner.Some? && !owner.value.staging && r.ok ==>
                exists report :: Completed(st.digest, owner.value.root, old(fs.nodes), fs.nodes, paths, report)
      ensures fs.Healthy() && owner.Some? && !owner.value.staging ==>
                (Clear(old(fs.nodes), limits, paths, owner.value.root, owner.value.inside) ==> r.ok)
    {
      hide Cleared, IndexValid, Faithful, CompletedOne, SharesOne, WentTo, Stuck, AllShare, Startable, Roomy;
      e, r := Others, REFUSED;
      if owner.None? { return; }
      if !owner.value.staging {
        var direct, _ := PublishPaths(fs, st.digest, limits, paths, owner.value.root, owner.value.inside);
        if !direct.failed { r := Response(true, Some(Committed), []); }
        return;
      }
      var report, _ := PublishPaths(fs, st.digest, limits, paths, st.stagingRoot, owner.value.inside);
      ghost var published := fs.nodes;
      e, r := Event.Import(report, published, []), REFUSED;
      if report.failed { return; }
      AssetsAtRoot(st.digest, st.stagingRoot, old(fs.nodes), published, paths, report);
      r := RecordStaged(Manifest(token, Staged, None, report.assets, report.created, report.created, []));
      e := Event.Import(report, published, r.orphans);
    }

    /** What was published in staging is recorded, or else taken back. */
    method RecordStaged(m: Manifest) returns (r: Response)
      requires fs.Valid() && stored.None?
      modifies this, fs
      ensures fs.Valid()
      ensures r.ok <==> old(Writes())
      ensures r.ok ==> r == Response(true, Some(Staged), []) && fs.nodes == old(fs.nodes) && stored == Some(m)
      ensures !r.ok ==>
                && r == Response(false, None, r.orphans) && Cleared(old(fs.nodes), fs.nodes, m.created, r.orphans)
                && stored == if r.orphans != [] && old(WritesThen())
                             then Some(m.(phase := NeedsReconciliation, orphans := r.orphans)) else None
      ensures fs.Removable() ==> r.orphans == []
    {
      hide Cleared;
      var ok := Write(m);
      if ok { return Response(true, Some(Staged), []); }
      var orphans := Undo(m.created);
      if orphans != [] {
        var recorded := Write(m.(phase := NeedsReconciliation, orphans := orphans));
      }
      r := Response(false, None, orphans);
    }
  }

  method AssetPaths(assets: seq<Asset>) returns (paths: seq<Path>)
    ensures paths == PathsOf(assets)
  {
    paths := [];
    for i := 0 to |assets|
      invariant |paths| == i && forall j :: 0 <= j < i ==> paths[j] == assets[j].path
    {
      paths := paths + [assets[i].path];
    }
  }

  lemma AssetsAtRoot(d: Digest, root: string, start: Tree, nodes: Tree, paths: seq<Path>, r: Report)
    requires Completed(d, root, start, nodes, paths, r) && !r.failed
    ensures Completes(root, start, nodes, r) && forall p :: p in r.created ==> p.dir == root
  {
    hide SharesOne;
    forall i | 0 <= i < |r.assets| ensures r.assets[i].path.dir == root {
      assert CompletedOne(d, root, start, nodes, paths[i], r.assets[i], r.saved);
    }
  }
}
