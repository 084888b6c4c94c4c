/** The part of a file system the clipboard service uses: exclusive creation, whole reads
    and writes, removal, listing. Any operation may fail; a failed one changes nothing,
    except that a failed write leaves the new file behind. */
module AssetFiles {
  import opened Basics
  import opened Sorting

  datatype Path = Path(dir: string, name: string)

  /** A regular file, or anything else: a directory, or a link through which a text is seen. */
  datatype Node = File(content: string, mtime: int) | Other(seen: Option<string>)

  type Tree = map<Path, Node>

  function Seen(nodes: Tree, path: Path): Option<string> {
    if path !in nodes then None
    else match nodes[path] case File(content, _) => Some(content) case Other(seen) => seen
  }

  datatype Stat = Stat(regular: bool, directory: bool, size: nat, mtime: int)

  datatype Opened = Opened | Exists | Refused

  ghost predicate ListsNames(names: seq<string>, nodes: Tree, dir: string) {
    Ascending(names, Below) && forall n :: n in names <==> Path(dir, n) in nodes
  }

  class FileSystem {
    const down: nat -> bool
    const stuck: nat -> bool
    var nodes: Tree
    var now: int
    var clock: nat

    /** Time stamps lie in the past, so a new file's stamp was never seen before. */
    ghost predicate Valid()
      reads this
    {
      0 < now && forall p :: p in nodes && nodes[p].File? ==> nodes[p].mtime < now
    }

    /** No operation fails but removals. */
    ghost predicate Healthy() {
      forall t: nat :: !down(t)
    }

    /** No removal fails. */
    ghost predicate Removable() {
      forall t: nat :: !stuck(t)
    }

    constructor (down: nat -> bool, stuck: nat -> bool, nodes: Tree, now: int)
      requires 0 < now && forall p :: p in nodes && nodes[p].File? ==> nodes[p].mtime < now
      ensures Valid() && this.nodes == nodes && this.down == down && this.stuck == stuck
              && this.now == now
    {
      this.down, this.stuck, this.nodes, this.now, clock := down, stuck, nodes, now, 0;
    }

    method Attempt() returns (ok: bool)
      modifies this`clock
      ensures Healthy() ==> ok
    {
      ok := !down(clock);
      clock := clock + 1;
    }

    method Read(path: Path) returns (r: Option<string>)
      modifies this`clock
      ensures r.Some? ==> r == Seen(nodes, path)
      ensures Healthy() ==> r == Seen(nodes, path)
    {
      var ok := Attempt();
      r := if ok then Seen(nodes, path) else None;
    }

    method Lstat(path: Path) returns (r: Option<Stat>)
      modifies this`clock
      ensures Healthy() && path in nodes ==> r.Some?
      ensures r.Some? ==> path in nodes && (r.value.regular <==> nodes[path].File?)
      ensures r.Some? && !r.value.regular ==> r.value.mtime == 0
      ensures r.Some? && r.value.regular ==> r.value.size == |nodes[path].content| && r.value.mtime == nodes[path].mtime
    {
      var ok := Attempt();
      if !ok || path !in nodes { return None; }
      r := match nodes[path]
           case File(content, mtime) => Some(Stat(true, false, |content|, mtime))
           case Other(seen) => Some(Stat(false, seen.None?, 0, 0));
    }

    /** The names in a directory, in byte order. */
    method ReadDir(dir: string) returns (r: Option<seq<string>>)
      modifies this`clock
      ensures Healthy() ==> r.Some?
      ensures r.Some? ==> ListsNames(r.value, nodes, dir)
    {
      var ok := Attempt();
      if !ok { return None; }
      var rest, names: seq<string> := nodes.Keys, [];
      while rest != {}
        invariant rest <= nodes.Keys && nodes == old(nodes)
        invariant forall n :: n in names <==> Path(dir, n) in nodes.Keys - rest
        invariant forall i, j :: 0 <= i < j < |names| ==> names[i] != names[j]
        decreases |rest|
      {
        EmptyOrInhabited(rest);
        var p :| p in rest;
        rest := rest - {p};
        if p.dir == dir { names := names + [p.name]; }
      }
      SortedNames(names);
      r := Some(Sort(names, Below));
    }

    /** O_CREATE|O_EXCL */
    method OpenNew(path: Path) returns (r: Opened)
      requires Valid()
      modifies this
      ensures Valid() && now >= old(now)
      ensures r == Exists <==> path in old(nodes)
      ensures Healthy() ==> r != Refused
      ensures r == Opened ==> path !in old(nodes) && nodes.Keys == old(nodes).Keys + {path}
      ensures r == Opened ==> nodes[path].File? && nodes[path].mtime == old(now)
      ensures forall p :: p in old(nodes) ==> p in nodes && nodes[p] == old(nodes)[p]
      ensures r != Opened ==> nodes == old(nodes) && now == old(now)
    {
      var ok := Attempt();
      if path in nodes { return Exists; }
      if !ok { return Refused; }
      nodes, now := nodes[path := File("", now)], now + 1;
      r := Opened;
    }

    /** Fills a file just created; on failure some of it may be there. */
    method Write(path: Path, content: string) returns (ok: bool)
      requires Valid() && path in nodes && nodes[path].File?
      modifies this
      ensures Valid() && now > old(now)
      ensures nodes.Keys == old(nodes).Keys && nodes[path].File? && nodes[path].mtime == old(now)
      ensures forall p :: p in nodes && p != path ==> nodes[p] == old(nodes)[p]
      ensures ok ==> nodes[path].content == content
      ensures Healthy() ==> ok
    {
      ok := Attempt();
      nodes, now := nodes[path := File(if ok then content else "", now)], now + 1;
    }

    /** A missing file counts as removed. */
    method Remove(path: Path) returns (ok: bool)
      requires Valid()
      modifies this
      ensures Valid() && now == old(now)
      ensures nodes == if ok then old(nodes) - {path} else old(nodes)
      ensures path !in old(nodes) || Removable() ==> ok
    {
      ok := !stuck(clock) || path !in nodes;
      clock := clock + 1;
      if ok { nodes := nodes - {path}; }
    }

    /** A temporary file renamed into place: the old file or the whole new one. */
    method Replace(path: Path, content: string) returns (ok: bool)
      requires Valid()
      modifies this
      ensures Valid() && now >= old(now)
      ensures Healthy() ==> ok
      ensures !ok ==> nodes == old(nodes)
      ensures ok ==> nodes == old(nodes)[path := File(content, old(now))]
    {
      ok := Attempt();
      if ok { nodes, now := nodes[path := File(content, now)], now + 1; }
    }
  }

  lemma SortedNames(names: seq<string>)
    requires forall i, j :: 0 <= i < j < |names| ==> names[i] != names[j]
    ensures Ascending(Sort(names, Below), Below)
  {
    forall x, y, z | Below(x, y) && Below(y, z) ensures Below(x, z) { BelowTransitive(x, y, z); }
    forall i, j | 0 <= i < j < |names| ensures Below(names[i], names[j]) || Below(names[j], names[i]) {
      BelowTotal(names[i], names[j]);
    }
    SortAscending(names, Below);
  }
}
