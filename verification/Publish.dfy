/** Publishing assets into a directory: find an identical file, else create one under a free
    name; undo everything created when a later step fails. */
module Publish {
  import opened Basics
  import opened Sorting
  import opened AssetFiles
  import Cloze
  import Lines

  const INDEX := ".imoogi-asset-index.json"

  const ATTEMPTS := 10000

  /** A collision-free content hash, and the text form of the cache file. */
  datatype Digest = Digest(hash: string -> string, textOf: string -> string, encode: map<string, Entry> -> string,
                           decode: string -> Option<map<string, Entry>>)

  ghost predicate Faithful(d: Digest) {
    (forall text :: d.textOf(d.hash(text)) == text) && (forall files :: d.decode(d.encode(files)) == Some(files))
  }

  datatype Entry = Entry(size: nat, mtime: int, sha: string)

  datatype Asset = Asset(source: Path, path: Path, sha: string, size: nat)

  datatype Source = Source(path: Path, size: nat)

  datatype Limits = Limits(maxFiles: nat, maxFileBytes: nat, maxBatchBytes: nat)

  datatype Published = Published(asset: Asset, created: Option<Path>)

  /** The file at a name of the root is a regular asset holding this text. */
  predicate Twin(nodes: Tree, root: string, content: string, name: string) {
    name != INDEX && Path(root, name) in nodes && nodes[Path(root, name)].File?
      && nodes[Path(root, name)].content == content
  }

  ghost predicate FirstTwin(nodes: Tree, root: string, content: string, name: string) {
    Twin(nodes, root, content, name) && forall n :: Twin(nodes, root, content, n) ==> n == name || Below(name, n)
  }

  /** Every cache entry that matches a file's size and time stamp tells its hash. */
  ghost predicate CacheValid(d: Digest, nodes: Tree, now: int, root: string, files: map<string, Entry>) {
    forall name :: name in files ==> files[name].mtime < now && EntryValid(d, nodes, root, name, files[name])
  }

  ghost predicate EntryValid(d: Digest, nodes: Tree, root: string, name: string, e: Entry) {
    var p := Path(root, name);
    p in nodes && nodes[p].File? && |nodes[p].content| == e.size && nodes[p].mtime == e.mtime ==>
      e.sha == d.hash(nodes[p].content)
  }

  /** The file at a name, if it is a regular one, is in the cache with its size, time and hash. */
  ghost predicate Recorded(d: Digest, nodes: Tree, root: string, files: map<string, Entry>, name: string) {
    var p := Path(root, name);
    p in nodes && nodes[p].File? ==>
      name in files && files[name] == Entry(|nodes[p].content|, nodes[p].mtime, d.hash(nodes[p].content))
  }

  /** What was recorded of the files that were there still is. */
  ghost predicate RecordsStay(d: Digest, root: string, nodes: Tree, files: map<string, Entry>, nodes': Tree,
                              files': map<string, Entry>) {
    forall n :: Path(root, n) in nodes && Recorded(d, nodes, root, files, n) ==> Recorded(d, nodes', root, files', n)
  }

  /** Where a source goes if its own name can be had. */
  function OwnPath(root: string, source: Path): Path {
    Path(root, SanitizedFilename(source.name))
  }

  /** No regular asset of the source's text is in the root, and its own name is free there or
      shows the same text. */
  ghost predicate OwnChoice(nodes: Tree, root: string, source: Path) {
    && source in nodes && nodes[source].File?
    && (forall n :: !Twin(nodes, root, nodes[source].content, n))
    && (OwnPath(root, source) in nodes ==> Seen(nodes, OwnPath(root, source)) == Some(nodes[source].content))
  }

  /** The k-th name for a source is free, or what is there shows the source's text. */
  ghost predicate Available(nodes: Tree, root: string, source: Path, k: nat)
    requires source in nodes && nodes[source].File?
  {
    var p := Path(root, Candidate(SanitizedFilename(source.name), k));
    p in nodes ==> Seen(nodes, p) == Some(nodes[source].content)
  }

  /** An asset of the source's text is in the root, or one of the names for it is to be had. */
  ghost predicate Placeable(nodes: Tree, root: string, source: Path) {
    && source in nodes && nodes[source].File?
    && ((exists n :: Twin(nodes, root, nodes[source].content, n))
        || exists k: nat :: k < ATTEMPTS && Available(nodes, root, source, k))
  }

  /** The first of the names that is to be had. */
  ghost predicate FirstName(nodes: Tree, root: string, source: Path, p: Path)
    requires source in nodes && nodes[source].File?
  {
    exists k: nat :: k < ATTEMPTS && FirstNameAt(nodes, root, source, p, k)
  }

  ghost predicate FirstNameAt(nodes: Tree, root: string, source: Path, p: Path, k: nat)
    requires source in nodes && nodes[source].File?
  {
    && p == Path(root, Candidate(SanitizedFilename(source.name), k)) && Available(nodes, root, source, k)
    && forall j: nat :: j < k ==> !Available(nodes, root, source, j)
  }

  lemma OwnPlaceable(nodes: Tree, root: string, source: Path)
    requires OwnChoice(nodes, root, source)
    ensures Placeable(nodes, root, source)
  {
    hide SanitizedFilename, Twin;
    assert Available(nodes, root, source, 0);
  }

  /** Nothing that was there is altered. */
  ghost predicate Grows(nodes: Tree, nodes': Tree) {
    forall p :: p in nodes ==> p in nodes' && nodes'[p] == nodes[p]
  }

  /** Where an asset of this text went: a readable file of the text in the root, the first of
      its regular twins, and at most that one file is new. */
  ghost predicate Placed(d: Digest, root: string, nodes: Tree, nodes': Tree, content: string, source: Source,
                         p: Published) {
    && p.asset.source == source.path && p.asset.size == source.size && p.asset.sha == d.hash(content)
    && p.asset.path.dir == root && Seen(nodes', p.asset.path) == Some(content)
    && (p.asset.path.name == INDEX ==> SanitizedFilename(source.path.name) == INDEX)
    && (p.created.None? ==> nodes' == nodes)
    && (p.created.Some? ==> p.created.value == p.asset.path && p.asset.path !in nodes
                            && nodes'.Keys == nodes.Keys + {p.asset.path} && Grows(nodes, nodes')
                            && nodes'[p.asset.path].File?
                            && forall n :: !Twin(nodes, root, content, n))
    && (Twin(nodes', root, content, p.asset.path.name) ==> FirstTwin(nodes', root, content, p.asset.path.name))
    && ((exists n :: Twin(nodes, root, content, n)) ==> Twin(nodes', root, content, p.asset.path.name))
  }

  lemma GrowsTransitive(a: Tree, b: Tree, c: Tree)
    requires Grows(a, b) && Grows(b, c)
    ensures Grows(a, c)
  {
  }

  lemma HashTells(d: Digest, a: string, b: string)
    requires Faithful(d)
    ensures d.hash(a) == d.hash(b) <==> a == b
  {
    assert d.textOf(d.hash(a)) == a && d.textOf(d.hash(b)) == b;
  }

  /** A new file with a fresh time stamp leaves every entry right about the others. */
  lemma CacheSurvives(d: Digest, nodes: Tree, nodes': Tree, now: int, now': int, root: string,
                      files: map<string, Entry>)
    requires CacheValid(d, nodes, now, root, files) && now <= now'
    requires forall p :: p in nodes' ==>
              (p in nodes && nodes'[p] == nodes[p]) || (nodes'[p].File? && nodes'[p].mtime >= now)
    ensures CacheValid(d, nodes', now', root, files)
  {
  }

  // ------------------------------------------------------------------- names

  function Dashed(s: string): (r: string)
    ensures |r| == |s|
  {
    seq(|s|, i requires 0 <= i < |s| => if s[i] == '/' || s[i] == '\\' || s[i] as int < 0x20 then '-' else s[i])
  }

  function SanitizedFilename(name: string): (r: string)
    ensures r != "" && r != "." && r != ".."
  {
    var clean := Dashed(Lines.TrimSpace(name));
    if clean == "" || clean == "." || clean == ".." then "asset" else clean
  }

  /** Where the extension starts: the last dot, or the end. */
  function ExtStart(base: string, at: nat): (n: nat)
    requires at <= |base|
    ensures n <= |base|
  {
    if at == 0 then |base| else if base[at - 1] == '.' then at - 1 else ExtStart(base, at - 1)
  }

  function Candidate(base: string, sequence: nat): string {
    if sequence == 0 then base
    else
      var ext := ExtStart(base, |base|);
      base[..ext] + "-" + Cloze.Decimal(sequence) + base[ext..]
  }

  lemma FirstCandidate(base: string)
    ensures Candidate(base, 0) == base
  {
  }

  /** Only the source's own name can be the cache file's: every later candidate holds a digit. */
  lemma CandidateNotIndex(base: string, sequence: nat)
    requires sequence > 0
    ensures Candidate(base, sequence) != INDEX
  {
    var ext := ExtStart(base, |base|);
    assert Candidate(base, sequence)[ext + 1] == Cloze.Decimal(sequence)[0];
    assert IsDigit(Candidate(base, sequence)[ext + 1]);
    NoDigitInIndex(ext + 1);
  }

  lemma NoDigitInIndex(i: nat)
    ensures i < |INDEX| ==> !IsDigit(INDEX[i])
  {
    assert forall c :: c in INDEX ==> c in {'.', '-', 'i', 'm', 'o', 'g', 'a', 's', 'e', 't', 'n', 'd', 'x', 'j'};
  }

  /** The source is stored at the cache file's path: its name is that one, no asset of its
      text is there, and the path is free or holds the same text. */
  ghost predicate LandsOnIndex(nodes: Tree, root: string, source: Path) {
    SanitizedFilename(source.name) == INDEX && OwnChoice(nodes, root, source)
  }

  class AssetCache {
    var files: map<string, Entry>

    constructor (files: map<string, Entry>)
      ensures this.files == files
    {
      this.files := files;
    }

    /** Remembers what was just seen or written at a path of the root. */
    method Record(fs: FileSystem, d: Digest, path: Path, size: nat, sha: string)
      requires fs.Valid() && CacheValid(d, fs.nodes, fs.now, path.dir, files)
      requires path in fs.nodes && fs.nodes[path].File? ==>
                size == |fs.nodes[path].content| && sha == d.hash(fs.nodes[path].content)
      modifies this`files, fs`clock
      ensures CacheValid(d, fs.nodes, fs.now, path.dir, files)
      ensures fs.Healthy() ==> Recorded(d, fs.nodes, path.dir, files, path.name)
      ensures RecordsStay(d, path.dir, fs.nodes, old(files), fs.nodes, files)
    {
      var info := fs.Lstat(path);
      if info.Some? { files := files[path.name := Entry(size, info.value.mtime, sha)]; }
    }
  }

  /** A cache file that can be read as one is right about the files beside it. */
  ghost predicate IndexValid(d: Digest, nodes: Tree, now: int, root: string) {
    var text := Seen(nodes, Path(root, INDEX));
    text.Some? && d.decode(text.value).Some? ==> CacheValid(d, nodes, now, root, d.decode(text.value).value)
  }

  /** The cache file, if it is there and readable as one; an unreadable text counts as none. */
  method LoadAssetCache(fs: FileSystem, d: Digest, root: string) returns (r: Option<AssetCache>)
    requires Faithful(d) && IndexValid(d, fs.nodes, fs.now, root)
    modifies fs`clock
    ensures r.Some? ==> fresh(r.value) && CacheValid(d, fs.nodes, fs.now, root, r.value.files)
    ensures Path(root, INDEX) !in fs.nodes ==> r.Some?
    ensures fs.Healthy() && Seen(fs.nodes, Path(root, INDEX)).Some? ==> r.Some?
  {
    var path := Path(root, INDEX);
    if path !in fs.nodes {
      var empty := new AssetCache(map[]);
      return Some(empty);
    }
    var text := fs.Read(path);
    if text.None? { return None; }
    var files := d.decode(text.value);
    var cache := new AssetCache(if files.Some? then files.value else map[]);
    r := Some(cache);
  }

  class Publisher {
    const fs: FileSystem
    const d: Digest
    const cache: AssetCache
    const root: string

    constructor (fs: FileSystem, d: Digest, cache: AssetCache, root: string)
      ensures this.fs == fs && this.d == d && this.cache == cache && this.root == root
    {
      this.fs, this.d, this.cache, this.root := fs, d, cache, root;
    }

    ghost predicate Ready()
      reads this, fs, cache
    {
      Faithful(d) && fs.Valid() && CacheValid(d, fs.nodes, fs.now, root, cache.files)
    }

    /** The recorded hash if size and time agree with the file, else the hash of its text. */
    method KnownHash(name: string, info: Stat) returns (sha: Option<string>)
      requires Ready() && Path(root, name) in fs.nodes && fs.nodes[Path(root, name)].File?
      requires info.size == |fs.nodes[Path(root, name)].content| && info.mtime == fs.nodes[Path(root, name)].mtime
      modifies fs`clock, cache
      ensures Ready()
      ensures fs.Healthy() ==> sha.Some?
      ensures sha.Some? ==> sha.value == d.hash(fs.nodes[Path(root, name)].content)
      ensures sha.Some? ==> Recorded(d, fs.nodes, root, cache.files, name)
      ensures RecordsStay(d, root, fs.nodes, old(cache.files), fs.nodes, cache.files)
      ensures Recorded(d, fs.nodes, root, old(cache.files), name) ==>
                sha.Some? && fs.clock == old(fs.clock) && cache.files == old(cache.files)
    {
      if name in cache.files && cache.files[name].size == info.size && cache.files[name].mtime == info.mtime {
        assert EntryValid(d, fs.nodes, root, name, cache.files[name]);
        return Some(cache.files[name].sha);
      }
      var text := fs.Read(Path(root, name));
      if text.None? { return None; }
      cache.files := cache.files[name := Entry(info.size, info.mtime, d.hash(text.value))];
      sha := Some(d.hash(text.value));
    }

    /** The size-and-time lookup answers as hashing every file would. */
    method FindExistingAsset(ghost content: string, size: nat, want: string) returns (r: Result<Option<string>, ()>)
      requires Ready() && size == |content| && want == d.hash(content)
      modifies fs`clock, cache
      ensures Ready()
      ensures fs.Healthy() ==> r.Ok?
      ensures r.Ok? ==> match r.value
                        case Some(name) => FirstTwin(fs.nodes, root, content, name)
                        case None => forall n :: !Twin(fs.nodes, root, content, n)
      ensures r.Ok? && r.value.Some? ==> Recorded(d, fs.nodes, root, cache.files, r.value.value)
      ensures RecordsStay(d, root, fs.nodes, old(cache.files), fs.nodes, cache.files)
    {
      hide CacheValid, Faithful, Recorded;
      var listing := fs.ReadDir(root);
      if listing.None? { return Err(()); }
      var names := listing.value;
      for i := 0 to |names|
        invariant Ready() && RecordsStay(d, root, fs.nodes, old(cache.files), fs.nodes, cache.files)
        invariant forall j :: 0 <= j < i ==> !Twin(fs.nodes, root, content, names[j])
      {
        var name := names[i];
        assert name in names;
        var path := Path(root, name);
        if name == INDEX { continue; }
        var info := fs.Lstat(path);
        if info.None? { return Err(()); }
        if !info.value.regular || info.value.size != size { continue; }
        var known := KnownHash(name, info.value);
        if known.None? { return Err(()); }
        HashTells(d, content, fs.nodes[path].content);
        if known.value == want {
          Foremost(fs.nodes, root, content, names, i);
          return Ok(Some(name));
        }
      }
      NoTwin(fs.nodes, root, content, names);
      r := Ok(None);
    }

    /** One asset: an identical file that is there already, or a new file under a free name.
        On failure nothing stays, unless the half-written file itself could not be removed. */
    method PublishOne(source: Source) returns (r: Result<Published, bool>)
      requires Ready()
      requires source.path in fs.nodes && fs.nodes[source.path].File? ==> source.size == |fs.nodes[source.path].content|
      requires source.path in fs.nodes && fs.nodes[source.path].File?
      modifies fs, cache
      ensures Ready() && fs.now >= old(fs.now)
      ensures r.Ok? ==> Placed(d, root, old(fs.nodes), fs.nodes, old(fs.nodes)[source.path].content, source, r.value)
      ensures r.Ok? && r.value.asset.path.name == INDEX ==> LandsOnIndex(old(fs.nodes), root, source.path)
      ensures r.Ok? && OwnChoice(old(fs.nodes), root, source.path)
              && (fs.Healthy() || OwnPath(root, source.path) !in old(fs.nodes)) ==>
                r.value.asset.path == OwnPath(root, source.path)
      ensures r.Err? ==> Grows(old(fs.nodes), fs.nodes) && (!r.error <==> fs.nodes == old(fs.nodes))
      ensures fs.Healthy() ==> (r.Ok? <==> Placeable(old(fs.nodes), root, source.path))
      ensures fs.Healthy() && r.Ok?
              && (forall n :: !Twin(old(fs.nodes), root, old(fs.nodes)[source.path].content, n)) ==>
                FirstName(old(fs.nodes), root, source.path, r.value.asset.path)
      ensures r.Ok? ==> RecordsStay(d, root, old(fs.nodes), old(cache.files), fs.nodes, cache.files)
      ensures r.Ok? && fs.Healthy() ==> Recorded(d, fs.nodes, root, cache.files, r.value.asset.path.name)
    {
      hide Placed, CacheValid, Faithful, SanitizedFilename, Candidate, Twin;
      ghost var before := fs.nodes;
      ghost var content := fs.nodes[source.path].content;
      var text := fs.Read(source.path);
      if text.None? { return Err(false); }
      var sha := d.hash(text.value);
      var existing := FindExistingAsset(content, source.size, sha);
      if existing.Err? { return Err(false); }
      if existing.value.Some? {
        var entropy := fs.Attempt();
        if !entropy { return Err(false); }
        r := Ok(Published(Asset(source.path, Path(root, existing.value.value), sha, source.size), None));
        FoundPlaced(d, root, before, content, source, r.value);
        return;
      }
      var base := SanitizedFilename(source.path.name);
      for sequence := 0 to ATTEMPTS
        invariant Ready() && fs.nodes == before && fs.now == old(fs.now)
        invariant RecordsStay(d, root, before, old(cache.files), before, cache.files)
        invariant OwnChoice(before, root, source.path) && (fs.Healthy() || OwnPath(root, source.path) !in before) ==>
                    sequence == 0
        invariant fs.Healthy() ==> forall j: nat :: j < sequence ==> !Available(before, root, source.path, j)
      {
        if sequence > 0 { CandidateNotIndex(base, sequence); } else { FirstCandidate(base); }
        var tried := TryCandidate(source, text.value, Path(root, Candidate(base, sequence)));
        if tried.Some? {
          assert tried.value.Ok? ==> Available(before, root, source.path, sequence);
          assert fs.Healthy() ==> FirstNameAt(before, root, source.path, tried.value.value.asset.path, sequence);
          return tried.value;
        }
      }
      r := Err(false);
    }

    /** One name: a file of the text that is there already is taken, a free name is filled, and
        None asks for the next name. */
    method TryCandidate(source: Source, text: string, destination: Path) returns (r: Option<Result<Published, bool>>)
      requires Ready() && destination.dir == root && source.size == |text|
      requires forall n :: !Twin(fs.nodes, root, text, n)
      requires destination.name == INDEX ==> SanitizedFilename(source.path.name) == INDEX
      modifies fs, cache
      ensures Ready() && fs.now >= old(fs.now)
      ensures r.None? ==> fs.nodes == old(fs.nodes) && fs.now == old(fs.now) && destination in fs.nodes
      ensures r.None? && fs.Healthy() ==> Seen(fs.nodes, destination) != Some(text)
      ensures r.Some? && r.value.Ok? ==>
                && Placed(d, root, old(fs.nodes), fs.nodes, text, source, r.value.value)
                && r.value.value.asset.path == destination
                && (destination in old(fs.nodes) ==> Seen(old(fs.nodes), destination) == Some(text))
      ensures r.Some? && r.value.Err? ==>
                Grows(old(fs.nodes), fs.nodes) && (!r.value.error <==> fs.nodes == old(fs.nodes))
      ensures fs.Healthy() && r.Some? ==> r.value.Ok?
      ensures r.None? || r.value.Ok? ==> RecordsStay(d, root, old(fs.nodes), old(cache.files), fs.nodes, cache.files)
      ensures r.Some? && fs.Healthy() ==> Recorded(d, fs.nodes, root, cache.files, destination.name)
    {
      ghost var before := fs.nodes;
      var sha := d.hash(text);
      var outcome := fs.OpenNew(destination);
      if outcome == Exists {
        var there := fs.Read(destination);
        if there.Some? { HashTells(d, there.value, text); }
        if there.None? || d.hash(there.value) != sha { return None; }
        var entropy := fs.Attempt();
        if !entropy { return Some(Err(false)); }
        cache.Record(fs, d, destination, source.size, sha);
        return Some(Ok(Published(Asset(source.path, destination, sha, source.size), None)));
      }
      if outcome == Refused { return Some(Err(false)); }
      CacheSurvives(d, before, fs.nodes, old(fs.now), fs.now, root, cache.files);
      var filled := Fill(source, text, destination, before);
      r := Some(filled);
    }

    /** Copies into the file just created; a failed copy is removed again. */
    method Fill(source: Source, text: string, destination: Path, ghost before: Tree)
      returns (r: Result<Published, bool>)
      requires Ready() && destination.dir == root && destination !in before
      requires fs.nodes.Keys == before.Keys + {destination} && Grows(before, fs.nodes) && fs.nodes[destination].File?
      requires source.size == |text| && forall n :: !Twin(before, root, text, n)
      requires destination.name == INDEX ==> SanitizedFilename(source.path.name) == INDEX
      modifies fs, cache
      ensures Ready() && fs.now >= old(fs.now)
      ensures r.Ok? ==> Placed(d, root, before, fs.nodes, text, source, r.value)
      ensures r.Err? ==> Grows(before, fs.nodes) && (!r.error <==> fs.nodes == before)
      ensures r.Ok? ==> r.value.asset.path == destination
      ensures fs.Healthy() ==> r.Ok?
      ensures r.Ok? ==> RecordsStay(d, root, before, old(cache.files), fs.nodes, cache.files)
      ensures fs.Healthy() ==> Recorded(d, fs.nodes, root, cache.files, destination.name)
    {
      hide Twin, FirstTwin, Faithful, SanitizedFilename, Placed, Recorded, RecordsStay;
      ghost var empty := fs.nodes;
      var copied := fs.Write(destination, text);
      CacheSurvives(d, empty, fs.nodes, old(fs.now), fs.now, root, cache.files);
      var entropy := false;
      if copied { entropy := fs.Attempt(); }
      if !entropy {
        var removed := fs.Remove(destination);
        assert removed ==> fs.nodes == before;
        return Err(!removed);
      }
      cache.Record(fs, d, destination, source.size, d.hash(text));
      r := Ok(Published(Asset(source.path, destination, d.hash(text), source.size), Some(destination)));
      FilledPlaced(d, before, fs.nodes, text, source, destination);
      RecordsGrow(d, root, before, fs.nodes, old(cache.files), cache.files);
    }
  }

  /** An asset that was there already. */
  lemma FoundPlaced(d: Digest, root: string, nodes: Tree, content: string, source: Source, p: Published)
    requires p.created.None? && p.asset.source == source.path && p.asset.size == source.size
    requires p.asset.sha == d.hash(content) && p.asset.path.dir == root
    requires FirstTwin(nodes, root, content, p.asset.path.name)
    ensures Placed(d, root, nodes, nodes, content, source, p) && p.asset.path.name != INDEX
  {
  }

  lemma TwinBefore(before: Tree, after: Tree, root: string, text: string, n: string)
    requires Grows(before, after)
    ensures Twin(after, root, text, n) && Path(root, n) in before ==> Twin(before, root, text, n)
  {
  }

  /** The one new file is the one twin of its text. */
  lemma OnlyTwin(before: Tree, after: Tree, text: string, destination: Path)
    requires forall n :: !Twin(before, destination.dir, text, n)
    requires after.Keys == before.Keys + {destination} && Grows(before, after)
    ensures Twin(after, destination.dir, text, destination.name) ==>
              FirstTwin(after, destination.dir, text, destination.name)
  {
    forall n | Twin(after, destination.dir, text, n) ensures n == destination.name {
      TwinBefore(before, after, destination.dir, text, n);
    }
  }

  lemma RecordsGrow(d: Digest, root: string, nodes: Tree, nodes': Tree, files: map<string, Entry>,
                    files': map<string, Entry>)
    requires Grows(nodes, nodes') && RecordsStay(d, root, nodes', files, nodes', files')
    ensures RecordsStay(d, root, nodes, files, nodes', files')
  {
  }

  /** An asset that was written. */
  lemma FilledPlaced(d: Digest, before: Tree, after: Tree, text: string, source: Source, destination: Path)
    requires forall n :: !Twin(before, destination.dir, text, n)
    requires destination !in before && after.Keys == before.Keys + {destination} && Grows(before, after)
    requires after[destination].File? && after[destination].content == text
    requires destination.name == INDEX ==> SanitizedFilename(source.path.name) == INDEX
    ensures Placed(d, destination.dir, before, after, text, source,
                   Published(Asset(source.path, destination, d.hash(text), source.size), Some(destination)))
  {
    hide SanitizedFilename;
    OnlyTwin(before, after, text, destination);
  }

  lemma Foremost(nodes: Tree, root: string, content: string, names: seq<string>, i: nat)
    requires ListsNames(names, nodes, root) && i < |names| && Twin(nodes, root, content, names[i])
    requires forall j :: 0 <= j < i ==> !Twin(nodes, root, content, names[j])
    ensures FirstTwin(nodes, root, content, names[i])
  {
    forall n | Twin(nodes, root, content, n) ensures n == names[i] || Below(names[i], n) {
      assert n in names;
      var k :| 0 <= k < |names| && names[k] == n;
    }
  }

  lemma NoTwin(nodes: Tree, root: string, content: string, names: seq<string>)
    requires ListsNames(names, nodes, root)
    requires forall j :: 0 <= j < |names| ==> !Twin(nodes, root, content, names[j])
    ensures forall n :: !Twin(nodes, root, content, n)
  {
    forall n ensures !Twin(nodes, root, content, n) {
      if n in names {
        var k :| 0 <= k < |names| && names[k] == n;
      }
    }
  }
}
