/** The remote Anki collection as AnkiConnect shows it, and the local registry.

    Any request may fail; a failed request changes nothing. Which requests fail is a
    function of how many were issued before, so every pattern of failures is covered. */
module Collection {
  import opened Basics
  import opened Ordered

  type Fields = map<string, string>

  datatype Note = Note(model: string, fields: Fields, tags: seq<string>, deck: string)

  /** The requests that can change a collection, as issued. */
  datatype Mutation =
    | CreateDeck(deck: string)
    | AddNote(deck: string, model: string)
    | UpdateFields(id: int)
    | UpdateTags(id: int)
    | ChangeDeck(id: int, deck: string)
    | DeleteNotes(ids: seq<int>)
    | StoreMedia(name: string)

  /** What one notesInfo answer says of one requested identifier. */
  datatype Info = Info(id: int, note: Option<Note>)

  /** Identifiers are handed out upwards, so a new one was never used before. */
  datatype Anki = Anki(notes: map<int, Note>, decks: set<string>, media: set<string>, nextId: int, clock: nat,
                       log: seq<Mutation>)

  /** The outside world: which requests fail, and the real field names of each note type. */
  datatype Env = Env(down: nat -> bool, models: string -> Option<seq<string>>)

  function Tick(k: Anki): Anki {
    k.(clock := k.clock + 1)
  }

  function Issue(k: Anki, m: Mutation): Anki {
    k.(clock := k.clock + 1, log := k.log + [m])
  }

  function AskDeckNames(env: Env, k: Anki): (Option<set<string>>, Anki) {
    (if env.down(k.clock) then None else Some(k.decks), Tick(k))
  }

  function AskModelFields(env: Env, k: Anki, model: string): (Option<seq<string>>, Anki) {
    (if env.down(k.clock) then None else env.models(model), Tick(k))
  }

  function InfoOf(k: Anki, id: int): Info {
    Info(id, if id in k.notes then Some(k.notes[id]) else None)
  }

  function Infos(k: Anki, ids: seq<int>): seq<Info> {
    seq(|ids|, i requires 0 <= i < |ids| => InfoOf(k, ids[i]))
  }

  function AskNotesInfo(env: Env, k: Anki, ids: seq<int>): (Option<seq<Info>>, Anki) {
    (if env.down(k.clock) then None else Some(Infos(k, ids)), Tick(k))
  }

  function DoCreateDeck(env: Env, k: Anki, deck: string): (bool, Anki) {
    var k' := Issue(k, CreateDeck(deck));
    if env.down(k.clock) then (false, k') else (true, k'.(decks := k.decks + {deck}))
  }

  function DoStoreMedia(env: Env, k: Anki, name: string): (bool, Anki) {
    var k' := Issue(k, StoreMedia(name));
    if env.down(k.clock) then (false, k') else (true, k'.(media := k.media + {name}))
  }

  function DoAddNote(env: Env, k: Anki, deck: string, model: string, fields: Fields,
                     tags: seq<string>): (Option<int>, Anki) {
    var k' := Issue(k, AddNote(deck, model));
    if env.down(k.clock) then (None, k')
    else (Some(k.nextId), k'.(notes := k.notes[k.nextId := Note(model, fields, tags, deck)], nextId := k.nextId + 1))
  }

  function DoUpdateFields(env: Env, k: Anki, id: int, fields: Fields): (bool, Anki) {
    var k' := Issue(k, UpdateFields(id));
    if env.down(k.clock) || id !in k.notes then (false, k')
    else (true, k'.(notes := k.notes[id := k.notes[id].(fields := k.notes[id].fields + fields)]))
  }

  function DoUpdateTags(env: Env, k: Anki, id: int, tags: seq<string>): (bool, Anki) {
    var k' := Issue(k, UpdateTags(id));
    if env.down(k.clock) || id !in k.notes then (false, k')
    else (true, k'.(notes := k.notes[id := k.notes[id].(tags := tags)]))
  }

  /** Moves the cards of one note; a note that is gone has no cards to move. */
  function DoChangeDeck(env: Env, k: Anki, id: int, deck: string): (bool, Anki) {
    var k' := Issue(k, ChangeDeck(id, deck));
    if env.down(k.clock) then (false, k')
    else if id !in k.notes then (true, k')
    else (true, k'.(notes := k.notes[id := k.notes[id].(deck := deck)], decks := k.decks + {deck}))
  }

  function DoDeleteNotes(env: Env, k: Anki, ids: seq<int>): (bool, Anki) {
    var k' := Issue(k, DeleteNotes(ids));
    if env.down(k.clock) then (false, k') else (true, k'.(notes := k.notes - (set id | id in ids)))
  }

  /** AnkiConnector: the one object through which the collection is reached. */
  class Client {
    const env: Env
    var notes: map<int, Note>
    var decks: set<string>
    var media: set<string>
    var nextId: int
    var clock: nat
    ghost var log: seq<Mutation>

    ghost function State(): Anki
      reads this
    {
      Anki(notes, decks, media, nextId, clock, log)
    }

    constructor (env: Env, notes: map<int, Note>, decks: set<string>, media: set<string>, nextId: int)
      ensures State() == Anki(notes, decks, media, nextId, 0, []) && this.env == env
    {
      this.env, this.notes, this.decks, this.media, this.nextId := env, notes, decks, media, nextId;
      clock, log := 0, [];
    }

    method DeckNames() returns (names: Option<set<string>>)
      modifies this
      ensures (names, State()) == AskDeckNames(env, old(State()))
    {
      names := if env.down(clock) then None else Some(decks);
      clock := clock + 1;
    }

    method ModelFieldNames(model: string) returns (names: Option<seq<string>>)
      modifies this
      ensures (names, State()) == AskModelFields(env, old(State()), model)
    {
      names := if env.down(clock) then None else env.models(model);
      clock := clock + 1;
    }

    method NotesInfo(ids: seq<int>) returns (infos: Option<seq<Info>>)
      modifies this
      ensures (infos, State()) == AskNotesInfo(env, old(State()), ids)
    {
      if env.down(clock) {
        infos := None;
      } else {
        var found: seq<Info> := [];
        for i := 0 to |ids|
          invariant |found| == i && forall j :: 0 <= j < i ==> found[j] == InfoOf(State(), ids[j])
        {
          found := found + [Info(ids[i], if ids[i] in notes then Some(notes[ids[i]]) else None)];
        }
        assert found == Infos(State(), ids);
        infos := Some(found);
      }
      clock := clock + 1;
    }

    method CreateDeck(deck: string) returns (ok: bool)
      modifies this
      ensures (ok, State()) == DoCreateDeck(env, old(State()), deck)
    {
      ok := !env.down(clock);
      clock, log := clock + 1, log + [Mutation.CreateDeck(deck)];
      if ok { decks := decks + {deck}; }
    }

    method StoreMediaFile(name: string) returns (ok: bool)
      modifies this
      ensures (ok, State()) == DoStoreMedia(env, old(State()), name)
    {
      ok := !env.down(clock);
      clock, log := clock + 1, log + [StoreMedia(name)];
      if ok { media := media + {name}; }
    }

    method AddNote(deck: string, model: string, fields: Fields, tags: seq<string>) returns (id: Option<int>)
      modifies this
      ensures (id, State()) == DoAddNote(env, old(State()), deck, model, fields, tags)
    {
      var ok := !env.down(clock);
      clock, log := clock + 1, log + [Mutation.AddNote(deck, model)];
      if !ok { return None; }
      id := Some(nextId);
      notes, nextId := notes[nextId := Note(model, fields, tags, deck)], nextId + 1;
    }

    method UpdateNoteFields(id: int, fields: Fields) returns (ok: bool)
      modifies this
      ensures (ok, State()) == DoUpdateFields(env, old(State()), id, fields)
    {
      ok := !env.down(clock) && id in notes;
      clock, log := clock + 1, log + [UpdateFields(id)];
      if ok { notes := notes[id := notes[id].(fields := notes[id].fields + fields)]; }
    }

    method UpdateNoteTags(id: int, tags: seq<string>) returns (ok: bool)
      modifies this
      ensures (ok, State()) == DoUpdateTags(env, old(State()), id, tags)
    {
      ok := !env.down(clock) && id in notes;
      clock, log := clock + 1, log + [UpdateTags(id)];
      if ok { notes := notes[id := notes[id].(tags := tags)]; }
    }

    method ChangeDeck(id: int, deck: string) returns (ok: bool)
      modifies this
      ensures (ok, State()) == DoChangeDeck(env, old(State()), id, deck)
    {
      ok := !env.down(clock);
      clock, log := clock + 1, log + [Mutation.ChangeDeck(id, deck)];
      if ok && id in notes {
        notes, decks := notes[id := notes[id].(deck := deck)], decks + {deck};
      }
    }

    method DeleteNotes(ids: seq<int>) returns (ok: bool)
      modifies this
      ensures (ok, State()) == DoDeleteNotes(env, old(State()), ids)
    {
      ok := !env.down(clock);
      clock, log := clock + 1, log + [Mutation.DeleteNotes(ids)];
      if ok { notes := notes - (set id | id in ids); }
    }
  }

  // ---------------------------------------------------------------- registry

  datatype Record = Record(id: int, sourcePath: string, noteType: string, deck: string, hash: string)

  /** The records of a registry file, one per note identifier. */
  type Entries = map<int, Record>

  ghost predicate Keyed(entries: Entries) {
    forall id :: id in entries ==> entries[id].id == id
  }

  class Registry {
    var entries: Entries

    constructor (entries: Entries)
      ensures this.entries == entries
    {
      this.entries := entries;
    }

    method Lookup(id: int) returns (r: Option<Record>)
      ensures r == if id in entries then Some(entries[id]) else None
    {
      r := if id in entries then Some(entries[id]) else None;
    }

    /** All records, sorted by identifier. */
    method All() returns (out: seq<Record>)
      ensures |out| == |Sorted(entries.Keys)|
      ensures forall i :: 0 <= i < |out| ==>
                Sorted(entries.Keys)[i] in entries && out[i] == entries[Sorted(entries.Keys)[i]]
    {
      out := [];
      var ids := Sorted(entries.Keys);
      for i := 0 to |ids|
        invariant |out| == i && forall j :: 0 <= j < i ==> ids[j] in entries && out[j] == entries[ids[j]]
      {
        assert ids[i] in ids;
        out := out + [entries[ids[i]]];
      }
    }

    method Put(e: Record)
      modifies this
      ensures entries == old(entries)[e.id := e]
    {
      entries := entries[e.id := e];
    }

    method Remove(id: int)
      modifies this
      ensures entries == old(entries) - {id}
    {
      entries := entries - {id};
    }
  }
}
