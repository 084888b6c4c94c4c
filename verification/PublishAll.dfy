/** A whole publication: check the sources, place them one by one, save the cache file, and
    take back what was created when any of that fails. */
module PublishAll {
  import opened Basics
  import opened Sorting
  import opened AssetFiles
  import opened Publish
  import opened PublishRoom
  import Lines

  /** Removes in reverse order; what cannot be removed is reported. */
  method Compensate(fs: FileSystem, paths: seq<Path>) returns (orphans: seq<Path>)
    requires fs.Valid()
    modifies fs
    ensures fs.Valid() && fs.now == old(fs.now)
    ensures Grows(fs.nodes, old(fs.nodes))
    ensures forall p :: p in old(fs.nodes) && p !in paths ==> p in fs.nodes
    ensures forall p :: p in paths && p !in orphans ==> p !in fs.nodes
    ensures forall p :: p in orphans ==> p in paths
    ensures fs.Removable() ==> orphans == []
  {
    orphans := [];
    for i := |paths| downto 0
      invariant fs.Valid() && fs.now == old(fs.now) && Grows(fs.nodes, old(fs.nodes))
      invariant forall p :: p in old(fs.nodes) && p !in paths ==> p in fs.nodes
      invariant forall p :: p in paths[i..] && p !in orphans ==> p !in fs.nodes
      invariant forall p :: p in orphans ==> p in paths
      invariant fs.Removable() ==> orphans == []
    {
      assert paths[i..] == [paths[i]] + paths[i + 1..];
      var removed := fs.Remove(paths[i]);
      if !removed { orphans := orphans + [paths[i]]; }
    }
  }

  function Total(sources: seq<Source>): nat {
    if sources == [] then 0 else Total(sources[..|sources| - 1]) + sources[|sources| - 1].size
  }

  ghost predicate Checked(nodes: Tree, limits: Limits, paths: seq<Path>, sources: seq<Source>) {
    && 0 < |paths| <= limits.maxFiles && |sources| == |paths|
    && (forall i :: 0 <= i < |sources| ==> SourceOf(nodes, limits, paths[i], sources[i]))
    && Total(sources) <= limits.maxBatchBytes
  }

  ghost predicate SourceOf(nodes: Tree, limits: Limits, path: Path, source: Source) {
    && source.path == path && path in nodes && nodes[path].File?
    && source.size == |nodes[path].content| && source.size <= limits.maxFileBytes
  }

  function SizeOf(nodes: Tree, path: Path): nat {
    if path in nodes && nodes[path].File? then |nodes[path].content| else 0
  }

  /** The sources are what the limits allow. */
  predicate Acceptable(nodes: Tree, limits: Limits, paths: seq<Path>) {
    && 0 < |paths| <= limits.maxFiles
    && (forall i :: 0 <= i < |paths| ==>
          paths[i] in nodes && nodes[paths[i]].File? && SizeOf(nodes, paths[i]) <= limits.maxFileBytes)
    && SizesOf(nodes, paths) <= limits.maxBatchBytes
  }

  function SizesOf(nodes: Tree, paths: seq<Path>): nat {
    if paths == [] then 0 else SizesOf(nodes, paths[..|paths| - 1]) + SizeOf(nodes, paths[|paths| - 1])
  }

  lemma {:induction false} SizesGrow(nodes: Tree, paths: seq<Path>, n: nat)
    requires n <= |paths|
    ensures SizesOf(nodes, paths[..n]) <= SizesOf(nodes, paths)
  {
    if n == |paths| {
      assert paths[..n] == paths;
    } else {
      assert paths[..|paths| - 1][..n] == paths[..n];
      SizesGrow(nodes, paths[..|paths| - 1], n);
    }
  }

  lemma SizesNext(nodes: Tree, paths: seq<Path>, n: nat)
    requires n < |paths|
    ensures SizesOf(nodes, paths[..n + 1]) == SizesOf(nodes, paths[..n]) + SizeOf(nodes, paths[n])
    ensures SizesOf(nodes, paths[..n + 1]) <= SizesOf(nodes, paths)
    ensures paths[n] in nodes && nodes[paths[n]].File? ==> SizeOf(nodes, paths[n]) == |nodes[paths[n]].content|
  {
    assert paths[..n + 1][..n] == paths[..n];
    SizesGrow(nodes, paths, n + 1);
  }

  lemma NoSizes(nodes: Tree, paths: seq<Path>)
    ensures SizesOf(nodes, paths[..0]) == 0 && Total([]) == 0
  {
  }

  /** Accepts exactly what the limits allow, unless a file cannot be looked at. */
  method Preflight(fs: FileSystem, limits: Limits, paths: seq<Path>) returns (r: Option<seq<Source>>)
    modifies fs`clock
    ensures r.Some? ==> Checked(fs.nodes, limits, paths, r.value) && Acceptable(fs.nodes, limits, paths)
    ensures fs.Healthy() && Acceptable(fs.nodes, limits, paths) ==> r.Some?
  {
    hide SizesOf, Total;
    if |paths| == 0 || |paths| > limits.maxFiles { return None; }
    var sources: seq<Source>, total := [], 0;
    ghost var nodes := fs.nodes;
    NoSizes(nodes, paths);
    for i := 0 to |paths|
      invariant |sources| == i && fs.nodes == nodes
      invariant total == Total(sources) == SizesOf(nodes, paths[..i]) <= limits.maxBatchBytes
      invariant forall j :: 0 <= j < i ==> SourceOf(nodes, limits, paths[j], sources[j])
    {
      SizesNext(nodes, paths, i);
      var info := fs.Lstat(paths[i]);
      if info.None? || !info.value.regular { return None; }
      var size := info.value.size;
      if size > limits.maxFileBytes || total > limits.maxBatchBytes - size { return None; }
      TotalExtended(sources, Source(paths[i], size));
      sources, total := sources + [Source(paths[i], size)], total + size;
    }
    assert paths[..|paths|] == paths;
    r := Some(sources);
  }

  lemma TotalExtended(sources: seq<Source>, next: Source)
    ensures Total(sources + [next]) == Total(sources) + next.size
  {
    assert (sources + [next])[..|sources|] == sources;
  }

  /** What is known of the assets placed so far. */
  ghost predicate Shelved(d: Digest, root: string, start: Tree, nodes: Tree, sources: seq<Source>, assets: seq<Asset>)
  {
    && |assets| <= |sources|
    && forall i :: 0 <= i < |assets| ==> ShelvedOne(d, root, start, nodes, sources[i], assets[i])
  }

  ghost predicate ShelvedOne(d: Digest, root: string, start: Tree, nodes: Tree, source: Source, asset: Asset) {
    && source.path in start && start[source.path].File?
    && asset.source == source.path && asset.size == |start[source.path].content|
    && asset.sha == d.hash(start[source.path].content)
    && asset.path.dir == root && Seen(nodes, asset.path) == Some(start[source.path].content)
    && (Twin(nodes, root, start[source.path].content, asset.path.name) ==>
        FirstTwin(nodes, root, start[source.path].content, asset.path.name))
    && (asset.path.name == INDEX ==> SanitizedFilename(source.path.name) == INDEX)
  }

  /** Placing one more asset disturbs none of those placed before. */
  lemma StillShelved(d: Digest, root: string, start: Tree, nodes: Tree, nodes': Tree, source: Source, asset: Asset,
                     content: string, next: Source, p: Published)
    requires ShelvedOne(d, root, start, nodes, source, asset) && Placed(d, root, nodes, nodes', content, next, p)
    ensures ShelvedOne(d, root, start, nodes', source, asset)
  {
    if p.created.Some? {
      var c := start[source.path].content;
      if Twin(nodes', root, c, asset.path.name) {
        forall n | Twin(nodes', root, c, n) ensures n == asset.path.name || Below(asset.path.name, n) {
          TwinBefore(nodes, nodes', root, c, n);
          TwinBefore(nodes, nodes', root, c, asset.path.name);
        }
      }
    }
  }

  /** Equal sources end up at one path, unless what was found for the first is no regular
      asset: a link seen as the text, or the cache file itself. */
  ghost predicate Shares(root: string, start: Tree, nodes: Tree, sources: seq<Source>, assets: seq<Asset>) {
    && |assets| <= |sources|
    && forall i, j :: 0 <= i < j < |assets| ==>
      SharesOne(root, start, nodes, sources[i].path, sources[j].path, assets[i], assets[j])
  }

  ghost predicate SharesOne(root: string, start: Tree, nodes: Tree, first: Path, second: Path, a: Asset, b: Asset) {
    && Seen(start, first) == Seen(start, second)
    && a.path in nodes && nodes[a.path].File? && a.path.name != INDEX
    ==> b.path == a.path
  }

  lemma SharesNext(d: Digest, root: string, start: Tree, nodes: Tree, nodes': Tree, first: Source, a: Asset,
                   next: Source, p: Published)
    requires ShelvedOne(d, root, start, nodes, first, a)
    requires next.path in start && start[next.path].File?
    requires Placed(d, root, nodes, nodes', start[next.path].content, next, p)
    ensures SharesOne(root, start, nodes', first.path, next.path, a, p.asset)
  {
    var c := start[next.path].content;
    if Seen(start, first.path) == Some(c) && a.path in nodes' && nodes'[a.path].File? && a.path.name != INDEX {
      assert Twin(nodes, root, c, a.path.name);
      StillShelved(d, root, start, nodes, nodes', first, a, c, next, p);
      assert Twin(nodes', root, c, a.path.name);
      SameFirst(nodes', root, c, a.path.name, p.asset.path.name);
    }
  }

  lemma SameFirst(nodes: Tree, root: string, content: string, a: string, b: string)
    requires FirstTwin(nodes, root, content, a) && FirstTwin(nodes, root, content, b)
    ensures a == b
  {
    if Below(a, b) { BelowAsymmetric(a, b); }
  }

  /** The files created so far are new, and nothing else is. */
  ghost predicate Added(root: string, start: Tree, nodes: Tree, created: seq<Path>) {
    && Grows(start, nodes)
    && (forall p :: p in nodes ==> p in start || p in created)
    && (forall p :: p in created ==> p !in start && p.dir == root && p in nodes && nodes[p].File?)
  }

  lemma AddedNext(d: Digest, root: string, start: Tree, nodes: Tree, nodes': Tree, created: seq<Path>,
                  content: string, next: Source, p: Published)
    requires Added(root, start, nodes, created) && Placed(d, root, nodes, nodes', content, next, p)
    ensures Added(root, start, nodes', if p.created.Some? then created + [p.created.value] else created)
  {
  }

  /** Taking back everything created restores the tree. */
  lemma TakenBack(root: string, start: Tree, nodes: Tree, nodes': Tree, created: seq<Path>)
    requires Added(root, start, nodes, created) && Grows(nodes', nodes)
    requires forall p :: p in nodes && p !in created ==> p in nodes'
    ensures Grows(start, nodes')
    ensures (forall p :: p in created ==> p !in nodes') ==> nodes' == start
  {
    if forall p :: p in created ==> p !in nodes' {
      assert nodes'.Keys == start.Keys;
    }
  }

  datatype Report = Report(failed: bool, leftover: bool, assets: seq<Asset>, created: seq<Path>, orphans: seq<Path>,
                           saved: map<string, Entry>)

  /** What a completed publication leaves: each asset readable at its path with the recorded
      hash and size, unless that path is the cache file, which was written last. */
  ghost predicate Completed(d: Digest, root: string, start: Tree, nodes: Tree, paths: seq<Path>, r: Report) {
    && |r.assets| == |paths|
    && (forall p :: p in start && p != Path(root, INDEX) ==> p in nodes && nodes[p] == start[p])
    && (forall p :: p in nodes ==> p in start || p in r.created || p == Path(root, INDEX))
    && (forall p :: p in r.created ==> p !in start && p.dir == root && p in nodes && nodes[p].File?)
    && (forall i :: 0 <= i < |paths| ==> CompletedOne(d, root, start, nodes, paths[i], r.assets[i], r.saved))
    && (forall i, j :: 0 <= i < j < |paths| ==>
        SharesOne(root, start, nodes, paths[i], paths[j], r.assets[i], r.assets[j]))
  }

  ghost predicate CompletedOne(d: Digest, root: string, start: Tree, nodes: Tree, source: Path, a: Asset,
                               saved: map<string, Entry>) {
    && source in start && start[source].File?
    && a.source == source && a.path.dir == root && a.size == |start[source].content|
    && a.sha == d.hash(start[source].content)
    && Seen(nodes, a.path) == Some(if a.path.name != INDEX then start[source].content else d.encode(saved))
    && (a.path.name == INDEX ==> SanitizedFilename(source.name) == INDEX)
  }

  /** The trees between the assets: where a source finds its own name it gets it, and a file
      that is there already leaves the tree as it is. */
  ghost predicate Followed(root: string, trees: seq<Tree>, sources: seq<Source>, assets: seq<Asset>) {
    && |trees| == |assets| + 1 && |assets| <= |sources|
    && forall i :: 0 <= i < |assets| ==> OwnTaken(root, trees[i], trees[i + 1], sources[i].path, assets[i])
  }

  ghost predicate OwnTaken(root: string, nodes: Tree, nodes': Tree, source: Path, a: Asset) {
    && source in nodes && nodes[source].File?
    && (OwnChoice(nodes, root, source) ==> a.path == OwnPath(root, source))
    && ((forall n :: !Twin(nodes, root, nodes[source].content, n)) ==> FirstName(nodes, root, source, a.path))
    && Grows(nodes, nodes') && nodes'.Keys <= nodes.Keys + {a.path}
    && (a.path in nodes ==> nodes' == nodes)
    && (a.path.name == INDEX ==> LandsOnIndex(nodes, root, source))
  }

  /** All sources in turn, or up to the first that fails. */
  method PlaceAll(publisher: Publisher, sources: seq<Source>)
    returns (failed: bool, leftover: bool, assets: seq<Asset>, created: seq<Path>, ghost trees: seq<Tree>)
    requires publisher.Ready()
    requires forall i :: 0 <= i < |sources| ==> Measured(publisher.fs.nodes, sources[i])
    modifies publisher.fs, publisher.cache
    ensures publisher.Ready()
    ensures leftover ==> failed
    ensures Grows(old(publisher.fs.nodes), publisher.fs.nodes)
    ensures forall p :: p in created ==> p !in old(publisher.fs.nodes)
    ensures !leftover ==> Added(publisher.root, old(publisher.fs.nodes), publisher.fs.nodes, created)
    ensures !failed ==> |assets| == |sources|
                        && Shelved(publisher.d, publisher.root, old(publisher.fs.nodes), publisher.fs.nodes, sources,
                                   assets)
                        && Shares(publisher.root, old(publisher.fs.nodes), publisher.fs.nodes, sources, assets)
    ensures |trees| > 0 && trees[0] == old(publisher.fs.nodes)
    ensures publisher.fs.Healthy() ==> Followed(publisher.root, trees, sources, assets)
    ensures failed ==> |assets| < |sources|
    ensures publisher.fs.Healthy() && failed ==> !Placeable(trees[|assets|], publisher.root, sources[|assets|].path)
    ensures publisher.fs.Healthy() && !failed ==>
              AllRecorded(publisher.d, publisher.fs.nodes, publisher.root, publisher.cache.files, assets)
  {
    hide Twin, FirstTwin, OwnChoice, Placed, SanitizedFilename, LandsOnIndex, Placeable, FirstName, Recorded;
    var fs, d, root := publisher.fs, publisher.d, publisher.root;
    ghost var start := fs.nodes;
    assets, created, trees := [], [], [start];
    for i := 0 to |sources|
      invariant publisher.Ready() && |assets| == i
      invariant Added(root, start, fs.nodes, created)
      invariant Shelved(d, root, start, fs.nodes, sources, assets)
      invariant Shares(root, start, fs.nodes, sources, assets)
      invariant |trees| == i + 1 && trees[0] == start && trees[i] == fs.nodes
      invariant fs.Healthy() ==> Followed(root, trees, sources, assets)
      invariant fs.Healthy() ==> AllRecorded(d, fs.nodes, root, publisher.cache.files, assets)
    {
      ghost var nodes, known := fs.nodes, publisher.cache.files;
      assert Measured(start, sources[i]);
      var r := publisher.PublishOne(sources[i]);
      if r.Err? {
        GrowsTransitive(start, nodes, fs.nodes);
        return true, r.error, assets, created, trees;
      }
      AddedNext(d, root, start, nodes, fs.nodes, created, nodes[sources[i].path].content, sources[i], r.value);
      ShelfNext(d, root, start, nodes, fs.nodes, sources, assets, r.value);
      if fs.Healthy() { OwnIsTaken(d, root, nodes, fs.nodes, nodes[sources[i].path].content, sources[i], r.value); }
      if fs.Healthy() { RecordedNext(d, root, nodes, known, fs.nodes, publisher.cache.files, assets, r.value.asset); }
      if r.value.created.Some? { created := created + [r.value.created.value]; }
      assets, trees := assets + [r.value.asset], trees + [fs.nodes];
    }
    failed, leftover := false, false;
  }

  lemma OwnIsTaken(d: Digest, root: string, nodes: Tree, nodes': Tree, content: string, source: Source, p: Published)
    requires Placed(d, root, nodes, nodes', content, source, p)
    requires source.path in nodes && nodes[source.path].File? && content == nodes[source.path].content
    requires OwnChoice(nodes, root, source.path) ==> p.asset.path == OwnPath(root, source.path)
    requires (forall n :: !Twin(nodes, root, content, n)) ==> FirstName(nodes, root, source.path, p.asset.path)
    requires p.asset.path.name == INDEX ==> LandsOnIndex(nodes, root, source.path)
    ensures OwnTaken(root, nodes, nodes', source.path, p.asset)
  {
    hide OwnChoice, LandsOnIndex, Twin, FirstName;
  }

  ghost predicate Measured(nodes: Tree, source: Source) {
    source.path in nodes && nodes[source.path].File? && source.size == |nodes[source.path].content|
  }

  lemma ShelfNext(d: Digest, root: string, start: Tree, nodes: Tree, nodes': Tree, sources: seq<Source>,
                  assets: seq<Asset>, p: Published)
    requires |assets| < |sources| && Measured(start, sources[|assets|]) && Grows(start, nodes)
    requires Shelved(d, root, start, nodes, sources, assets) && Shares(root, start, nodes, sources, assets)
    requires Placed(d, root, nodes, nodes', start[sources[|assets|].path].content, sources[|assets|], p)
    ensures Shelved(d, root, start, nodes', sources, assets + [p.asset])
    ensures Shares(root, start, nodes', sources, assets + [p.asset])
  {
    hide ShelvedOne, SharesOne, Placed, Twin, FirstTwin;
    var n := |assets|;
    var next := sources[n];
    var content := start[next.path].content;
    forall i | 0 <= i <= n ensures ShelvedOne(d, root, start, nodes', sources[i], (assets + [p.asset])[i]) {
      if i < n {
        StillShelved(d, root, start, nodes, nodes', sources[i], assets[i], content, next, p);
      } else {
        NewlyShelved(d, root, start, nodes, nodes', next, p);
      }
    }
    forall i, j | 0 <= i < j <= n
      ensures SharesOne(root, start, nodes', sources[i].path, sources[j].path, (assets + [p.asset])[i],
                        (assets + [p.asset])[j])
    {
      if j < n {
        StillShares(d, root, start, nodes, nodes', sources[i].path, sources[j].path, assets[i], assets[j], content,
                    next, p, sources[i]);
      } else {
        SharesNext(d, root, start, nodes, nodes', sources[i], assets[i], next, p);
      }
    }
  }

  lemma NewlyShelved(d: Digest, root: string, start: Tree, nodes: Tree, nodes': Tree, next: Source, p: Published)
    requires Measured(start, next) && Placed(d, root, nodes, nodes', start[next.path].content, next, p)
    ensures ShelvedOne(d, root, start, nodes', next, p.asset)
  {
  }

  lemma StillShares(d: Digest, root: string, start: Tree, nodes: Tree, nodes': Tree, first: Path, second: Path,
                    a: Asset, b: Asset,
                    content: string, next: Source, p: Published, source: Source)
    requires SharesOne(root, start, nodes, first, second, a, b)
    requires ShelvedOne(d, root, start, nodes, source, a)
    requires Placed(d, root, nodes, nodes', content, next, p)
    ensures SharesOne(root, start, nodes', first, second, a, b)
  {
  }

  /** Nothing in the root but regular files shows this text. */
  ghost predicate NoLookalike(nodes: Tree, root: string, content: Option<string>) {
    forall p :: p in nodes && p.dir == root && Seen(nodes, p) == content ==> nodes[p].File?
  }

  /** Equal sources are stored as one file, if nothing but regular files shows their text
      and the first is not named as the cache file. */
  ghost predicate AllShare(start: Tree, root: string, paths: seq<Path>, assets: seq<Asset>) {
    |assets| == |paths| && forall i, j :: 0 <= i < j < |paths| && Alike(start, root, paths[i], paths[j]) ==>
      assets[i].path == assets[j].path
  }

  ghost predicate Alike(start: Tree, root: string, first: Path, second: Path) {
    && Seen(start, first) == Seen(start, second) && SanitizedFilename(first.name) != INDEX
    && NoLookalike(start, root, Seen(start, first))
  }

  lemma SharePlainly(d: Digest, root: string, start: Tree, nodes: Tree, paths: seq<Path>, r: Report)
    requires Completed(d, root, start, nodes, paths, r)
    ensures AllShare(start, root, paths, r.assets)
  {
    hide SanitizedFilename;
    forall i, j | 0 <= i < j < |paths| && Alike(start, root, paths[i], paths[j])
      ensures r.assets[i].path == r.assets[j].path
    {
      assert CompletedOne(d, root, start, nodes, paths[i], r.assets[i], r.saved);
      assert SharesOne(root, start, nodes, paths[i], paths[j], r.assets[i], r.assets[j]);
      RegularAsset(d, root, start, nodes, paths, r, i);
    }
  }

  lemma RegularAsset(d: Digest, root: string, start: Tree, nodes: Tree, paths: seq<Path>, r: Report, i: nat)
    requires Completed(d, root, start, nodes, paths, r) && i < |paths|
    requires SanitizedFilename(paths[i].name) != INDEX && NoLookalike(start, root, Seen(start, paths[i]))
    ensures r.assets[i].path in nodes && nodes[r.assets[i].path].File? && r.assets[i].path.name != INDEX
  {
    hide SanitizedFilename, SharesOne;
    assert CompletedOne(d, root, start, nodes, paths[i], r.assets[i], r.saved);
  }

  /** Every asset that is a regular file is in the cache as it is. */
  ghost predicate AllRecorded(d: Digest, nodes: Tree, root: string, files: map<string, Entry>, assets: seq<Asset>) {
    forall a :: a in assets && a.path.name != INDEX ==>
      a.path.dir == root && a.path in nodes && Recorded(d, nodes, root, files, a.path.name)
  }

  lemma RecordedNext(d: Digest, root: string, nodes: Tree, files: map<string, Entry>, nodes': Tree,
                     files': map<string, Entry>, assets: seq<Asset>, asset: Asset)
    requires AllRecorded(d, nodes, root, files, assets) && RecordsStay(d, root, nodes, files, nodes', files')
    requires Grows(nodes, nodes') && asset.path.dir == root && asset.path in nodes'
    requires Recorded(d, nodes', root, files', asset.path.name)
    ensures AllRecorded(d, nodes', root, files', assets + [asset])
  {
    hide Recorded;
    forall a | a in assets + [asset] && a.path.name != INDEX
      ensures a.path.dir == root && a.path in nodes' && Recorded(d, nodes', root, files', a.path.name)
    {
      if a in assets { assert a.path == Path(root, a.path.name) && a.path in nodes; }
    }
  }

  lemma RecordedBeside(d: Digest, root: string, nodes: Tree, files: map<string, Entry>, nodes': Tree,
                       assets: seq<Asset>)
    requires AllRecorded(d, nodes, root, files, assets)
    requires nodes'.Keys == nodes.Keys + {Path(root, INDEX)}
    requires forall p :: p in nodes && p != Path(root, INDEX) ==> nodes'[p] == nodes[p]
    ensures AllRecorded(d, nodes', root, files, assets)
  {
  }

  lemma RecordedSaved(d: Digest, root: string, nodes: Tree, now: int, nodes': Tree, files: map<string, Entry>,
                      assets: seq<Asset>)
    requires Faithful(d) && AllRecorded(d, nodes, root, files, assets)
    requires nodes' == nodes[Path(root, INDEX) := File(d.encode(files), now)]
    ensures Seen(nodes', Path(root, INDEX)) == Some(d.encode(files)) && d.decode(d.encode(files)) == Some(files)
    ensures AllRecorded(d, nodes', root, files, assets)
  {
    hide AllRecorded;
    RecordedBeside(d, root, nodes, files, nodes', assets);
  }

  /** What PublishPaths can be asked of beforehand: the root is admitted, the limits allow the
      sources, and the cache file can be read if it is there. */
  ghost predicate Startable(nodes: Tree, limits: Limits, paths: seq<Path>, root: string, admitted: bool) {
    && admitted && Acceptable(nodes, limits, paths)
    && (Path(root, INDEX) in nodes ==> Seen(nodes, Path(root, INDEX)).Some?)
  }

  /** Publishes all sources or, unless the report names what could not be taken back, none.
      The root is admitted when it could be created and lies inside its owner. */
  method PublishPaths(fs: FileSystem, d: Digest, limits: Limits, paths: seq<Path>, root: string, admitted: bool)
    returns (r: Report, ghost trees: seq<Tree>)
    requires fs.Valid() && Faithful(d) && IndexValid(d, fs.nodes, fs.now, root)
    modifies fs
    ensures fs.Valid()
    ensures !admitted ==> r.failed && fs.nodes == old(fs.nodes)
    ensures r.failed ==> Grows(old(fs.nodes), fs.nodes)
    ensures r.failed && r.orphans == [] && !r.leftover ==> fs.nodes == old(fs.nodes)
    ensures !r.failed ==> Completed(d, root, old(fs.nodes), fs.nodes, paths, r)
    ensures !r.failed ==> IndexValid(d, fs.nodes, fs.now, root)
    ensures !r.failed ==> AllShare(old(fs.nodes), root, paths, r.assets)
    ensures !r.failed && (forall i :: 0 <= i < |paths| ==> SanitizedFilename(paths[i].name) != INDEX) ==>
              AllKept(d, fs.nodes, r.assets)
    ensures fs.Healthy() && !r.failed ==>
              |trees| > 0 && trees[0] == old(fs.nodes) && WentTo(root, trees, paths, r.assets)
    ensures fs.Healthy() && r.failed && Startable(old(fs.nodes), limits, paths, root, admitted) ==>
              Stuck(root, old(fs.nodes), trees, paths)
    ensures fs.Healthy() && Roomy(old(fs.nodes), root, paths) ==>
              (Startable(old(fs.nodes), limits, paths, root, admitted) ==> !r.failed)
    ensures fs.Healthy() && !r.failed ==>
              var saved := Seen(fs.nodes, Path(root, INDEX));
              && saved.Some? && d.decode(saved.value).Some?
              && AllRecorded(d, fs.nodes, root, d.decode(saved.value).value, r.assets)
  {
    hide Twin, FirstTwin, OwnChoice, Placeable, CacheValid, Faithful, SanitizedFilename, LandsOnIndex, Acceptable,
      Completed, AllShare, AllKept, WentTo, Stuck, Shelved, Shares, Followed, Checked, Added, Measured, AllRecorded;
    ghost var start := fs.nodes;
    r, trees := Report(true, false, [], [], [], map[]), [start];
    var sources := Preflight(fs, limits, paths);
    if sources.None? || !admitted { return; }
    var cache := LoadAssetCache(fs, d, root);
    if cache.None? { return; }
    CheckedSources(start, limits, paths, sources.value);
    var publisher := new Publisher(fs, d, cache.value, root);
    var failed, leftover, assets, created;
    failed, leftover, assets, created, trees := PlaceAll(publisher, sources.value);
    ghost var nodes, before := fs.nodes, fs.now;
    if !failed {
      var saved := publisher.cache.files;
      var ok := fs.Replace(Path(root, INDEX), d.encode(saved));
      if ok {
        r := Report(false, false, assets, created, [], saved);
        Finished(d, root, start, nodes, fs.nodes, paths, sources.value, r);
        IndexSaved(d, root, nodes, before, fs.now, saved);
        SharePlainly(d, root, start, fs.nodes, paths, r);
        KeptOffIndex(d, root, start, fs.nodes, paths, r);
        if fs.Healthy() { RecordedSaved(d, root, nodes, before, fs.nodes, saved, assets); }
        if fs.Healthy() { FollowedWent(root, trees, paths, sources.value, assets); }
        return;
      }
    }
    if fs.Healthy() && failed {
      NowStuck(root, trees, paths, sources.value, assets);
      if Acceptable(start, limits, paths)
        && Roomy(start, root, paths) { NeverStuck(limits, root, start, trees, paths); }
    }
    var orphans := Compensate(fs, created);
    assert Grows(start, fs.nodes);
    if !leftover { TakenBack(root, start, nodes, fs.nodes, created); }
    r := Report(true, leftover, [], [], orphans, map[]);
  }

  lemma CheckedSources(nodes: Tree, limits: Limits, paths: seq<Path>, sources: seq<Source>)
    requires Checked(nodes, limits, paths, sources)
    ensures |sources| == |paths| && forall i :: 0 <= i < |paths| ==> sources[i].path == paths[i]
    ensures forall i :: 0 <= i < |sources| ==> Measured(nodes, sources[i])
  {
    hide Total;
  }

  /** Followed, told of the paths. */
  ghost predicate WentTo(root: string, trees: seq<Tree>, paths: seq<Path>, assets: seq<Asset>) {
    && |trees| == |assets| + 1 && |assets| <= |paths|
    && forall i :: 0 <= i < |assets| ==> OwnTaken(root, trees[i], trees[i + 1], paths[i], assets[i])
  }

  lemma NowStuck(root: string, trees: seq<Tree>, paths: seq<Path>, sources: seq<Source>, assets: seq<Asset>)
    requires Followed(root, trees, sources, assets) && |assets| < |sources|
    requires |sources| == |paths| && forall i :: 0 <= i < |paths| ==> sources[i].path == paths[i]
    requires !Placeable(trees[|assets|], root, sources[|assets|].path)
    ensures Stuck(root, trees[0], trees, paths)
  {
    hide Placeable, Followed;
    FollowedWent(root, trees, paths, sources, assets);
    assert |trees| == |assets| + 1;
  }

  lemma FollowedWent(root: string, trees: seq<Tree>, paths: seq<Path>, sources: seq<Source>, assets: seq<Asset>)
    requires Followed(root, trees, sources, assets)
    requires |sources| == |paths| && forall i :: 0 <= i < |paths| ==> sources[i].path == paths[i]
    ensures WentTo(root, trees, paths, assets)
  {
    hide OwnTaken;
  }

  /** Without failing operations only a source stops it that no name is left for. */
  ghost predicate Stuck(root: string, start: Tree, trees: seq<Tree>, paths: seq<Path>) {
    && 0 < |trees| <= |paths| && trees[0] == start
    && !Placeable(trees[|trees| - 1], root, paths[|trees| - 1])
    && exists assets :: WentTo(root, trees, paths, assets)
  }

  /** Fewer files than there are names to try, even with all sources added. */
  ghost predicate Roomy(nodes: Tree, root: string, paths: seq<Path>) {
    |NamesIn(nodes, root)| + |paths| <= ATTEMPTS
  }

  /** What was there stays while assets are placed, and each adds at most one name. */
  lemma {:induction false} NamesGrow(root: string, trees: seq<Tree>, paths: seq<Path>, assets: seq<Asset>, i: nat)
    requires WentTo(root, trees, paths, assets) && i < |trees|
    ensures Grows(trees[0], trees[i]) && |NamesIn(trees[i], root)| <= |NamesIn(trees[0], root)| + i
  {
    hide NamesIn;
    if i > 0 {
      NamesGrow(root, trees, paths, assets, i - 1);
      assert OwnTaken(root, trees[i - 1], trees[i - 1 + 1], paths[i - 1], assets[i - 1]);
      TakenGrows(root, trees[i - 1], trees[i], paths[i - 1], assets[i - 1]);
      OneMoreName(trees[i - 1], trees[i], root, assets[i - 1].path);
      GrowsTransitive(trees[0], trees[i - 1], trees[i]);
    }
  }

  lemma TakenGrows(root: string, nodes: Tree, nodes': Tree, source: Path, a: Asset)
    requires OwnTaken(root, nodes, nodes', source, a)
    ensures Grows(nodes, nodes') && nodes'.Keys <= nodes.Keys + {a.path}
  {
    hide OwnChoice, FirstName, Twin, LandsOnIndex;
  }

  /** With room in the directory no source ever stops a publication. */
  lemma NeverStuck(limits: Limits, root: string, start: Tree, trees: seq<Tree>, paths: seq<Path>)
    requires Acceptable(start, limits, paths) && Roomy(start, root, paths)
    ensures !Stuck(root, start, trees, paths)
  {
    hide Placeable, OwnTaken, NamesIn, SizesOf;
    if Stuck(root, start, trees, paths) {
      var assets :| WentTo(root, trees, paths, assets);
      var i := |trees| - 1;
      NamesGrow(root, trees, paths, assets, i);
      assert paths[i] in start && start[paths[i]].File?;
      RoomForAny(trees[i], root, paths[i]);
    }
  }

  lemma IndexSaved(d: Digest, root: string, nodes: Tree, now: int, now': int, saved: map<string, Entry>)
    requires Faithful(d) && CacheValid(d, nodes, now, root, saved) && now <= now'
    ensures IndexValid(d, nodes[Path(root, INDEX) := File(d.encode(saved), now)], now', root)
  {
    var after := nodes[Path(root, INDEX) := File(d.encode(saved), now)];
    CacheSurvives(d, nodes, after, now, now', root, saved);
    assert d.decode(d.encode(saved)) == Some(saved);
  }

  lemma Finished(d: Digest, root: string, start: Tree, nodes: Tree, nodes': Tree, paths: seq<Path>,
                 sources: seq<Source>, r: Report)
    requires |sources| == |paths| == |r.assets| && forall i :: 0 <= i < |paths| ==> sources[i].path == paths[i]
    requires Added(root, start, nodes, r.created)
    requires Shelved(d, root, start, nodes, sources, r.assets) && Shares(root, start, nodes, sources, r.assets)
    requires Path(root, INDEX) in nodes' && nodes'[Path(root, INDEX)].File?
    requires Seen(nodes', Path(root, INDEX)) == Some(d.encode(r.saved))
    requires nodes'.Keys == nodes.Keys + {Path(root, INDEX)}
    requires forall p :: p in nodes && p != Path(root, INDEX) ==> nodes'[p] == nodes[p]
    ensures Completed(d, root, start, nodes', paths, r)
  {
    forall i | 0 <= i < |paths| ensures CompletedOne(d, root, start, nodes', paths[i], r.assets[i], r.saved) {
      assert ShelvedOne(d, root, start, nodes, sources[i], r.assets[i]);
      if r.assets[i].path.name == INDEX { assert r.assets[i].path == Path(root, INDEX); }
    }
    forall i, j | 0 <= i < j < |paths|
      ensures SharesOne(root, start, nodes', paths[i], paths[j], r.assets[i], r.assets[j])
    {
      assert SharesOne(root, start, nodes, sources[i].path, sources[j].path, r.assets[i], r.assets[j]);
    }
  }

  /** The asset's path holds a text of the recorded size and hash. */
  ghost predicate Kept(d: Digest, nodes: Tree, a: Asset) {
    var text := Seen(nodes, a.path);
    text.Some? && d.hash(text.value) == a.sha && |text.value| == a.size
  }

  ghost predicate AllKept(d: Digest, nodes: Tree, assets: seq<Asset>) {
    forall i :: 0 <= i < |assets| ==> Kept(d, nodes, assets[i])
  }

  /** An asset is kept unless it went to the cache file's path, which was written last. */
  lemma KeptOffIndex(d: Digest, root: string, start: Tree, nodes: Tree, paths: seq<Path>, r: Report)
    requires Completed(d, root, start, nodes, paths, r)
    ensures forall i :: 0 <= i < |paths| && r.assets[i].path.name != INDEX ==> Kept(d, nodes, r.assets[i])
    ensures (forall i :: 0 <= i < |paths| ==> SanitizedFilename(paths[i].name) != INDEX) ==> AllKept(d, nodes, r.assets)
  {
    hide SharesOne, SanitizedFilename;
    forall i | 0 <= i < |paths| ensures r.assets[i].path.name != INDEX ==> Kept(d, nodes, r.assets[i])
      ensures SanitizedFilename(paths[i].name) != INDEX ==> Kept(d, nodes, r.assets[i])
    {
      assert CompletedOne(d, root, start, nodes, paths[i], r.assets[i], r.saved);
    }
  }

  /** A source whose text is no cache file itself is lost by its publication exactly when it
      lands on the cache file's path. */
  method PublishSingle(fs: FileSystem, d: Digest, limits: Limits, source: Path, root: string) returns (r: Report)
    requires fs.Valid() && Faithful(d) && fs.Healthy() && IndexValid(d, fs.nodes, fs.now, root)
    requires source in fs.nodes && fs.nodes[source].File? && d.decode(fs.nodes[source].content) == None
    modifies fs
    ensures !r.failed ==>
              |r.assets| == 1 && (!Kept(d, fs.nodes, r.assets[0]) <==> LandsOnIndex(old(fs.nodes), root, source))
    ensures Startable(old(fs.nodes), limits, [source], root, true) && Placeable(old(fs.nodes), root, source) ==>
              !r.failed
  {
    hide SharesOne, SanitizedFilename, Twin, IndexValid, Startable;
    ghost var text := fs.nodes[source].content;
    ghost var trees;
    r, trees := PublishPaths(fs, d, limits, [source], root, true);
    if !r.failed {
      assert CompletedOne(d, root, old(fs.nodes), fs.nodes, [source][0], r.assets[0], r.saved);
      assert OwnTaken(root, trees[0], trees[1], [source][0], r.assets[0]);
      assert d.decode(d.encode(r.saved)) == Some(r.saved);
      HashTells(d, d.encode(r.saved), text);
      KeptOffIndex(d, root, old(fs.nodes), fs.nodes, [source], r);
    }
  }

  lemma IndexIsClean()
    ensures SanitizedFilename(INDEX) == INDEX
  {
    var name := INDEX;
    assert name[0] == '.' && name[|name| - 1] == 'n' && |name| > 2;
    assert forall c :: c in name ==> c in {'.', '-', 'i', 'm', 'o', 'g', 'a', 's', 'e', 't', 'n', 'd', 'x', 'j'};
    CleanStays(name);
  }

  /** A longer name without separators, control characters and edge white space is kept. */
  lemma CleanStays(name: string)
    requires |name| > 2 && !Lines.UnicodeSpace(name[0]) && !Lines.UnicodeSpace(name[|name| - 1])
    requires forall c :: c in name ==> c != '/' && c != '\\' && c as int >= 0x20
    ensures SanitizedFilename(name) == name
  {
    hide Lines.UnicodeSpace;
    assert Lines.TrimSpace(name) == name;
    forall i | 0 <= i < |name| ensures Dashed(name)[i] == name[i] { assert name[i] in name; }
    assert Dashed(name) == name;
  }

  /** A file named as the cache file, published into an empty root, is not what is there. */
  method PublishNamedAsIndex(fs: FileSystem, d: Digest, limits: Limits, dir: string, root: string) returns (r: Report)
    requires fs.Valid() && Faithful(d) && fs.Healthy() && dir != root && limits.maxFiles > 0
    requires fs.nodes.Keys == {Path(dir, INDEX)} && fs.nodes[Path(dir, INDEX)].File?
    requires d.decode(fs.nodes[Path(dir, INDEX)].content) == None
    requires |fs.nodes[Path(dir, INDEX)].content| <= limits.maxFileBytes <= limits.maxBatchBytes
    modifies fs
    ensures !r.failed && |r.assets| == 1 && !Kept(d, fs.nodes, r.assets[0])
  {
    hide SanitizedFilename, Faithful, Kept;
    IndexIsClean();
    var source := Path(dir, INDEX);
    assert [source][..0] == [];
    assert SizesOf(fs.nodes, [source]) == SizeOf(fs.nodes, source);
    OwnPlaceable(fs.nodes, root, source);
    r := PublishSingle(fs, d, limits, source, root);
  }

  /** A link in the root that shows the text of two equal sources: the first source, of the
      link's own name, goes to the link, the second to a new file. */
  method LinkPartsEqualSources(fs: FileSystem, d: Digest, limits: Limits, first: Path, second: Path, root: string)
    returns (r: Report)
    requires fs.Valid() && Faithful(d) && fs.Healthy() && first.dir != root && second.dir != root
    requires SanitizedFilename(first.name) != SanitizedFilename(second.name)
    requires SanitizedFilename(first.name) != INDEX
    requires first in fs.nodes && fs.nodes[first].File? && second in fs.nodes && fs.nodes[second] == fs.nodes[first]
    requires forall p :: p in fs.nodes && p.dir == root <==> p == OwnPath(root, first)
    requires fs.nodes[OwnPath(root, first)] == Other(Some(fs.nodes[first].content))
    requires Acceptable(fs.nodes, limits, [first, second])
    modifies fs
    ensures !r.failed && |r.assets| == 2 && r.assets[0].path == OwnPath(root, first)
    ensures r.assets[1].path == OwnPath(root, second)
    ensures Seen(old(fs.nodes), first) == Seen(old(fs.nodes), second) && r.assets[0].path != r.assets[1].path
  {
    hide SanitizedFilename, Faithful, Completed, Acceptable, AllShare;
    ghost var start := fs.nodes;
    assert OwnChoice(start, root, first) && OwnChoice(start, root, second);
    ghost var trees;
    r, trees := PublishPaths(fs, d, limits, [first, second], root, true);
    OwnPlaceable(start, root, first);
    OwnPlaceable(start, root, second);
    if r.failed {
      ghost var assets :| WentTo(root, trees, [first, second], assets);
      assert false;
    }
    assert |r.assets| == 2 by { CompletedLength(d, root, start, fs.nodes, [first, second], r); }
    assert OwnTaken(root, trees[0], trees[1], [first, second][0], r.assets[0]);
    assert OwnTaken(root, trees[1], trees[2], [first, second][1], r.assets[1]);
  }

  lemma CompletedLength(d: Digest, root: string, start: Tree, nodes: Tree, paths: seq<Path>, r: Report)
    requires Completed(d, root, start, nodes, paths, r)
    ensures |r.assets| == |paths|
  {
  }
}
