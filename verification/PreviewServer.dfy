/** The critical sections of the preview server as it runs them under its mutex, each one a
    step of Preview. */
module PreviewServer {
  import opened Basics
  import opened Preview
  import opened PreviewReaders

  /** The digest tells views and paths apart. */
  ghost predicate TellsApart(t: Tools) {
    forall v, p, w, q :: t.handle(v, p) == t.handle(w, q) ==> v == w && p == q
  }

  class SharedState {
    const tools: Tools
    var sessions: map<string, Session>
    var touchSeq: nat

    ghost function Now(): Server
      reads this
    {
      Server(sessions, touchSeq)
    }

    constructor (tools: Tools)
      ensures Now() == EMPTY.server && this.tools == tools
    {
      this.tools := tools;
      sessions, touchSeq := map[], 0;
    }

    /** The session's state, created on first use. */
    method State(session: string)
      modifies this
      ensures Now() == WithSession(old(Now()), session)
    {
      if session !in sessions { sessions := sessions[session := Session(map[], {})]; }
    }

    method IsStale(r: Request) returns (stale: bool)
      modifies this
      ensures Now() == WithSession(old(Now()), r.session)
      ensures stale == Stale(Now(), r)
    {
      State(r.session);
      var buffers := sessions[r.session].buffers;
      stale := r.buffer in buffers && r.revision < buffers[r.buffer].revision;
    }

    method CommitRevision(r: Request, document: string, html: string, view: string, handles: map<string, string>)
      returns (committed: bool)
      requires tools.parse(r) == Some(document) && html == tools.html(r, view)
      requires handles == HandlesOf(tools, view, tools.linked(r, view))
      modifies this
      ensures (committed, Now()) == Preview.CommitRevision(tools, old(Now()), r, view)
    {
      State(r.session);
      var state := sessions[r.session];
      if r.buffer in state.buffers && r.revision < state.buffers[r.buffer].revision { return false; }
      touchSeq := touchSeq + 1;
      var buffer := Buffer(r.revision, document, html, r.path, r.generation, view, handles, touchSeq);
      sessions := sessions[r.session := state.(buffers := state.buffers[r.buffer := buffer])];
      committed := true;
    }

    method RegisterBrowserPath(session: string, buffer: string, path: string) returns (handle: Option<string>)
      modifies this
      ensures Now() == RegisterPath(tools, old(Now()), session, buffer, path)
      ensures handle.Some? ==>
                BufferOf(Now(), session, buffer).Some? && handle.value in BufferOf(Now(), session, buffer).value.handles
                               && BufferOf(Now(), session, buffer).value.handles[handle.value] == path
      ensures handle.None? <==> BufferOf(old(Now()), session, buffer).None?
    {
      if session !in sessions || buffer !in sessions[session].buffers { return None; }
      var b := sessions[session].buffers[buffer];
      var h := tools.handle(b.view, path);
      var buffers := sessions[session].buffers[buffer := b.(handles := b.handles[h := path])];
      sessions := sessions[session := sessions[session].(buffers := buffers)];
      handle := Some(h);
    }

    /** The buffer as it is stored now. */
    method BufferState(session: string, buffer: string) returns (b: Option<Buffer>)
      ensures b == BufferOf(Now(), session, buffer)
    {
      b := if session in sessions && buffer in sessions[session].buffers then Some(sessions[session].buffers[buffer])
        else None;
    }

    /** A handle that was handed out leads to the one path it was made from: it is the digest
        of the stored view and that path, and no other path under that view has it. */
    method AssetHandlePath(session: string, buffer: string, handle: string) returns (path: Option<string>)
      requires Inv(tools, Now())
      ensures path.Some? <==>
                BufferOf(Now(), session, buffer).Some? && handle in BufferOf(Now(), session, buffer).value.handles
      ensures path.Some? ==> handle == tools.handle(BufferOf(Now(), session, buffer).value.view, path.value)
      ensures path.Some? && TellsApart(tools) ==>
                forall p :: handle == tools.handle(BufferOf(Now(), session, buffer).value.view, p) ==> p == path.value
    {
      hide Whole, BufferOf;
      var b := BufferState(session, buffer);
      if b.None? { return None; }
      assert Whole(tools, b.value);
      assert Derived(tools, b.value) by { WholeDerived(tools, b.value); }
      path := LookUp(b.value, handle);
    }

    method MarkSeen(session: string, eventId: string) returns (first: bool)
      modifies this
      ensures (first, Now()) == Preview.MarkSeen(old(Now()), session, eventId)
    {
      State(session);
      var state := sessions[session];
      if eventId in state.seen { return false; }
      sessions := sessions[session := state.(seen := state.seen + {eventId})];
      first := true;
    }
  }
}
