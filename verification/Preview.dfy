/** The preview server's shared state. A handler works in critical sections: a stale check, a
    look at the buffer's view, and a commit, with parsing and rendering outside the lock in
    between. Any number of handlers interleave at these steps. */
module Preview {
  import opened Basics

  datatype Request = Request(session: string, buffer: string, revision: int, text: string, path: string,
                             generation: nat, eventId: string)

  datatype Buffer = Buffer(
    revision: int, document: string, html: string, path: string, generation: nat,
    view: string, handles: map<string, string>, touched: nat)

  datatype Session = Session(buffers: map<string, Buffer>, seen: set<string>)

  datatype Server = Server(sessions: map<string, Session>, touchSeq: nat)

  /** What parser, renderer and digest compute; linked lists the paths a rendering refers to. */
  datatype Tools = Tools(
    parse: Request -> Option<string>,
    html: (Request, string) -> string,
    linked: (Request, string) -> seq<string>,
    handle: (string, string) -> string)

  /** A handler past its stale check, and one that has chosen its view and rendered. */
  datatype Pending = Checked(request: Request) | Rendered(request: Request, view: string)

  datatype System = System(server: Server, pending: map<nat, Pending>)

  datatype Event =
    | Arrive(id: nat, request: Request)
    | Render(id: nat, token: string)
    | Commit(id: nat)
    | Register(session: string, buffer: string, path: string)
    | See(session: string, eventId: string)

  const EMPTY := System(Server(map[], 0), map[])

  function BufferOf(s: Server, session: string, buffer: string): Option<Buffer> {
    if session in s.sessions && buffer in s.sessions[session].buffers then Some(s.sessions[session].buffers[buffer])
    else None
  }

  function WithSession(s: Server, session: string): Server {
    if session in s.sessions then s else s.(sessions := s.sessions[session := Session(map[], {})])
  }

  function WithBuffer(s: Server, session: string, buffer: string, b: Buffer): Server {
    var t := WithSession(s, session);
    t.(sessions := t.sessions[session := t.sessions[session].(buffers := t.sessions[session].buffers[buffer := b])])
  }

  predicate Stale(s: Server, r: Request) {
    var b := BufferOf(s, r.session, r.buffer);
    b.Some? && r.revision < b.value.revision
  }

  /** The handles a rendering hands out: each linked path under the digest of view and path. */
  function HandlesOf(t: Tools, view: string, paths: seq<string>): map<string, string> {
    if paths == [] then map[]
    else HandlesOf(t, view, paths[..|paths| - 1])[t.handle(view, paths[|paths| - 1]) := paths[|paths| - 1]]
  }

  function NewBuffer(t: Tools, r: Request, view: string, stamp: nat): Buffer
    requires t.parse(r).Some?
  {
    Buffer(r.revision, t.parse(r).value, t.html(r, view), r.path, r.generation, view,
           HandlesOf(t, view, t.linked(r, view)), stamp)
  }

  function CommitRevision(t: Tools, s: Server, r: Request, view: string): (bool, Server)
    requires t.parse(r).Some?
  {
    var s1 := WithSession(s, r.session);
    if Stale(s1, r) then (false, s1)
    else
      (true, WithBuffer(s1, r.session, r.buffer, NewBuffer(t, r, view, s.touchSeq + 1)).(touchSeq := s.touchSeq + 1))
  }

  function RegisterPath(t: Tools, s: Server, session: string, buffer: string, path: string): Server {
    var b := BufferOf(s, session, buffer);
    if b.None? then s
    else WithBuffer(s, session, buffer, b.value.(handles := b.value.handles[t.handle(b.value.view, path) := path]))
  }

  function MarkSeen(s: Server, session: string, eventId: string): (bool, Server) {
    var t := WithSession(s, session);
    if eventId in t.sessions[session].seen then (false, t)
    else (true, t.(sessions :=
                   t.sessions[session := t.sessions[session].(seen := t.sessions[session].seen + {eventId})]))
  }

  /** A view chosen while rendering: the buffer's own, if it has one by then. */
  function ChosenView(s: Server, r: Request, token: string): string {
    var b := BufferOf(s, r.session, r.buffer);
    if b.Some? && b.value.view != "" then b.value.view else token
  }

  /** One critical section. A handler whose text does not parse goes away after its check. */
  function Step(t: Tools, s: System, e: Event): System {
    match e
    case Arrive(id, r) =>
      var server := WithSession(s.server, r.session);
      if Stale(server, r) || t.parse(r).None? then s.(server := server)
      else System(server, s.pending[id := Checked(r)])
    case Render(id, token) =>
      if id in s.pending && s.pending[id].Checked? then
        s.(pending := s.pending[id :=
                                Rendered(s.pending[id].request, ChosenView(s.server, s.pending[id].request, token))])
      else s
    case Commit(id) =>
      if id in s.pending && s.pending[id].Rendered? && t.parse(s.pending[id].request).Some? then
        System(CommitRevision(t, s.server, s.pending[id].request, s.pending[id].view).1, s.pending - {id})
      else s
    case Register(session, buffer, path) => s.(server := RegisterPath(t, s.server, session, buffer, path))
    case See(session, eventId) => s.(server := MarkSeen(s.server, session, eventId).1)
  }

  /** The state after a history of interleaved critical sections. */
  function After(t: Tools, events: seq<Event>): System {
    if events == [] then EMPTY else Step(t, After(t, events[..|events| - 1]), events[|events| - 1])
  }

  // -------------------------------------------------------- what a buffer holds

  ghost predicate Derived(t: Tools, b: Buffer) {
    forall h :: h in b.handles ==> h == t.handle(b.view, b.handles[h])
  }

  /** Document, HTML, view and the handles of its rendering come from one request. */
  ghost predicate OneRequest(t: Tools, b: Buffer, r: Request) {
    && t.parse(r).Some?
    && b.revision == r.revision && b.document == t.parse(r).value && b.html == t.html(r, b.view)
    && b.path == r.path && b.generation == r.generation
    && forall p :: p in t.linked(r, b.view) ==> t.handle(b.view, p) in b.handles
  }

  ghost predicate Whole(t: Tools, b: Buffer) {
    Derived(t, b) && exists r :: OneRequest(t, b, r)
  }

  ghost predicate Inv(t: Tools, s: Server) {
    && (forall i, j :: BufferOf(s, i, j).Some? ==>
        Whole(t, BufferOf(s, i, j).value) && BufferOf(s, i, j).value.touched <= s.touchSeq)
    && (forall i, j, k, l :: BufferOf(s, i, j).Some? && BufferOf(s, k, l).Some? && (i, j) != (k, l) ==>
          BufferOf(s, i, j).value.touched != BufferOf(s, k, l).value.touched)
  }

  /** Every buffer is still there, with a revision and a stamp no smaller. */
  ghost predicate Grows(a: Server, b: Server) {
    && a.touchSeq <= b.touchSeq
    && (forall i, j :: BufferOf(a, i, j).Some? ==>
          BufferOf(b, i, j).Some? && BufferOf(a, i, j).value.revision <= BufferOf(b, i, j).value.revision
          && BufferOf(a, i, j).value.touched <= BufferOf(b, i, j).value.touched)
    && (forall i :: i in a.sessions ==> i in b.sessions && a.sessions[i].seen <= b.sessions[i].seen)
  }

  lemma BufferAfter(s: Server, session: string, buffer: string, b: Buffer)
    ensures forall i, j :: BufferOf(WithBuffer(s, session, buffer, b), i, j) ==
              if i == session && j == buffer then Some(b) else BufferOf(s, i, j)
    ensures WithBuffer(s, session, buffer, b).touchSeq == s.touchSeq
  {
  }

  lemma SessionAfter(s: Server, session: string)
    ensures forall i, j :: BufferOf(WithSession(s, session), i, j) == BufferOf(s, i, j)
    ensures WithSession(s, session).touchSeq == s.touchSeq && session in WithSession(s, session).sessions
  {
  }

  lemma {:induction false} HandlesDerived(t: Tools, view: string, paths: seq<string>)
    ensures forall h :: h in HandlesOf(t, view, paths) ==> h == t.handle(view, HandlesOf(t, view, paths)[h])
    ensures forall p :: p in paths ==> t.handle(view, p) in HandlesOf(t, view, paths)
  {
    if paths != [] {
      var n := |paths| - 1;
      HandlesDerived(t, view, paths[..n]);
      assert forall p :: p in paths ==> p in paths[..n] || p == paths[n];
    }
  }

  lemma NewBufferWhole(t: Tools, r: Request, view: string, stamp: nat)
    requires t.parse(r).Some?
    ensures Whole(t, NewBuffer(t, r, view, stamp))
  {
    HandlesDerived(t, view, t.linked(r, view));
    assert OneRequest(t, NewBuffer(t, r, view, stamp), r);
  }

  lemma RegisteredWhole(t: Tools, b: Buffer, path: string)
    requires Whole(t, b)
    ensures Whole(t, b.(handles := b.handles[t.handle(b.view, path) := path]))
  {
    var r :| OneRequest(t, b, r);
    assert OneRequest(t, b.(handles := b.handles[t.handle(b.view, path) := path]), r);
  }

  lemma CommitKeeps(t: Tools, s: Server, r: Request, view: string)
    requires Inv(t, s) && t.parse(r).Some?
    ensures var (done, s') := CommitRevision(t, s, r, view);
      && Inv(t, s') && Grows(s, s')
      && (done ==> BufferOf(s', r.session, r.buffer) == Some(NewBuffer(t, r, view, s'.touchSeq)))
      && (done ==> s'.touchSeq == s.touchSeq + 1)
      && (!done ==> s'.touchSeq == s.touchSeq)
  {
    hide BufferOf, Whole, WithBuffer, NewBuffer;
    SessionAfter(s, r.session);
    var s1 := WithSession(s, r.session);
    var stamp := s.touchSeq + 1;
    NewBufferWhole(t, r, view, stamp);
    NewBufferFields(t, r, view, stamp);
    BufferAfter(s1, r.session, r.buffer, NewBuffer(t, r, view, stamp));
    SeenKept(s1, r.session, r.buffer, NewBuffer(t, r, view, stamp));
    StampOnly(WithBuffer(s1, r.session, r.buffer, NewBuffer(t, r, view, stamp)), stamp);
  }

  lemma NewBufferFields(t: Tools, r: Request, view: string, stamp: nat)
    requires t.parse(r).Some?
    ensures NewBuffer(t, r, view, stamp).revision == r.revision && NewBuffer(t, r, view, stamp).touched == stamp
    ensures NewBuffer(t, r, view, stamp).view == view
  {
  }

  lemma SeenKept(s: Server, session: string, buffer: string, b: Buffer)
    ensures forall i :: i in s.sessions ==>
              && i in WithBuffer(s, session, buffer, b).sessions
              && WithBuffer(s, session, buffer, b).sessions[i].seen == s.sessions[i].seen
  {
  }

  lemma StampOnly(s: Server, stamp: nat)
    ensures forall i, j :: BufferOf(s.(touchSeq := stamp), i, j) == BufferOf(s, i, j)
  {
  }

  lemma RegisterKeeps(t: Tools, s: Server, session: string, buffer: string, path: string)
    requires Inv(t, s)
    ensures var s' := RegisterPath(t, s, session, buffer, path); Inv(t, s') && Grows(s, s') && s'.touchSeq == s.touchSeq
  {
    hide BufferOf, Whole, WithBuffer;
    var b := BufferOf(s, session, buffer);
    if b.Some? {
      RegisteredWhole(t, b.value, path);
      var b' := b.value.(handles := b.value.handles[t.handle(b.value.view, path) := path]);
      BufferAfter(s, session, buffer, b');
      SeenKept(s, session, buffer, b');
    }
  }

  lemma SeenMarked(s: Server, session: string, eventId: string)
    ensures var (first, s') := MarkSeen(s, session, eventId);
      && (forall i, j :: BufferOf(s', i, j) == BufferOf(s, i, j)) && s'.touchSeq == s.touchSeq
      && (forall i :: i in s.sessions ==> i in s'.sessions && s.sessions[i].seen <= s'.sessions[i].seen)
      && session in s'.sessions && eventId in s'.sessions[session].seen
      && (first <==> !(session in s.sessions && eventId in s.sessions[session].seen))
  {
  }

  lemma StepKeeps(t: Tools, s: System, e: Event)
    requires Inv(t, s.server)
    ensures Inv(t, Step(t, s, e).server) && Grows(s.server, Step(t, s, e).server)
  {
    hide BufferOf, Whole, CommitRevision, RegisterPath, MarkSeen;
    match e
    case Arrive(id, r) =>
      SessionAfter(s.server, r.session);
      SessionsKept(s.server, r.session);
    case Render(id, token) =>
    case Commit(id) =>
      if id in s.pending && s.pending[id].Rendered? && t.parse(s.pending[id].request).Some? {
        CommitKeeps(t, s.server, s.pending[id].request, s.pending[id].view);
      }
    case Register(session, buffer, path) => RegisterKeeps(t, s.server, session, buffer, path);
    case See(session, eventId) => SeenMarked(s.server, session, eventId);
  }

  lemma SessionsKept(s: Server, session: string)
    ensures forall i :: i in s.sessions ==>
              i in WithSession(s, session).sessions && WithSession(s, session).sessions[i] == s.sessions[i]
  {
  }

  lemma GrowsTransitive(a: Server, b: Server, c: Server)
    requires Grows(a, b) && Grows(b, c)
    ensures Grows(a, c)
  {
    hide BufferOf;
  }

  lemma GrowsNothing(a: Server)
    ensures Grows(a, a)
  {
  }

  /** In every interleaving each buffer is whole and stamps tell buffers apart. */
  lemma {:induction false} BuffersWhole(t: Tools, events: seq<Event>)
    ensures Inv(t, After(t, events).server)
  {
    hide Step, Inv;
    if events == [] {
      EmptyInv(t);
    } else {
      BuffersWhole(t, events[..|events| - 1]);
      StepKeeps(t, After(t, events[..|events| - 1]), events[|events| - 1]);
    }
  }

  lemma EmptyInv(t: Tools)
    ensures Inv(t, EMPTY.server)
  {
  }

  /** Between two moments of a history no buffer's revision decreases. */
  lemma {:induction false} RevisionsGrow(t: Tools, events: seq<Event>, n: nat)
    requires n <= |events|
    ensures Grows(After(t, events[..n]).server, After(t, events).server)
    decreases |events|
  {
    hide Step, Inv, Grows;
    if n == |events| {
      assert events[..n] == events;
      GrowsNothing(After(t, events).server);
    } else {
      var last := |events| - 1;
      assert events[..last][..n] == events[..n];
      RevisionsGrow(t, events[..last], n);
      BuffersWhole(t, events[..last]);
      StepKeeps(t, After(t, events[..last]), events[last]);
      GrowsTransitive(After(t, events[..n]).server, After(t, events[..last]).server, After(t, events).server);
    }
  }

  /** The event at place i stores a revision. */
  predicate Commits(t: Tools, events: seq<Event>, i: nat)
    requires i < |events|
  {
    var s := After(t, events[..i]);
    events[i].Commit? && var id := events[i].id;
    id in s.pending && s.pending[id].Rendered? && t.parse(s.pending[id].request).Some?
    && CommitRevision(t, s.server, s.pending[id].request, s.pending[id].view).0
  }

  lemma AfterNext(t: Tools, events: seq<Event>, i: nat)
    requires i < |events|
    ensures After(t, events[..i + 1]) == Step(t, After(t, events[..i]), events[i])
  {
    assert events[..i + 1][..i] == events[..i];
  }

  /** Every commit is stamped above all commits before it, and stores exactly its own request
      under that stamp, unless a newer revision got there first. */
  lemma StampsIncrease(t: Tools, events: seq<Event>, i: nat, j: nat)
    requires i < j < |events| && Commits(t, events, i) && Commits(t, events, j)
    ensures After(t, events[..i + 1]).server.touchSeq < After(t, events[..j + 1]).server.touchSeq
    ensures var p := After(t, events[..j]).pending[events[j].id];
      BufferOf(After(t, events[..j + 1]).server, p.request.session, p.request.buffer)
      == Some(NewBuffer(t, p.request, p.view, After(t, events[..j + 1]).server.touchSeq))
  {
    hide Inv, Grows, BufferOf, CommitRevision, NewBuffer;
    AfterNext(t, events, j);
    var s := After(t, events[..j]);
    BuffersWhole(t, events[..j]);
    CommitKeeps(t, s.server, s.pending[events[j].id].request, s.pending[events[j].id].view);
    assert events[..j][..i + 1] == events[..i + 1];
    RevisionsGrow(t, events[..j], i + 1);
    GrowsStamp(After(t, events[..i + 1]).server, s.server);
  }

  lemma GrowsStamp(a: Server, b: Server)
    requires Grows(a, b)
    ensures a.touchSeq <= b.touchSeq
  {
  }

  predicate Passes(t: Tools, events: seq<Event>, i: nat)
    requires i < |events|
  {
    events[i].See? && MarkSeen(After(t, events[..i]).server, events[i].session, events[i].eventId).0
  }

  /** Whatever happens in between, an event identifier passes once per session. */
  lemma PassesOnce(t: Tools, events: seq<Event>, i: nat, j: nat)
    requires i < j < |events| && events[i].See? && events[j] == events[i]
    ensures !Passes(t, events, j)
  {
    hide Inv, BufferOf, MarkSeen, Step;
    AfterNext(t, events, i);
    SeeStep(t, After(t, events[..i]), events[i]);
    assert events[..j][..i + 1] == events[..i + 1];
    RevisionsGrow(t, events[..j], i + 1);
    SeenMarked(After(t, events[..i]).server, events[i].session, events[i].eventId);
    SeenMarked(After(t, events[..j]).server, events[j].session, events[j].eventId);
    GrowsSeen(After(t, events[..i + 1]).server, After(t, events[..j]).server, events[i].session);
  }

  lemma SeeStep(t: Tools, s: System, e: Event)
    requires e.See?
    ensures Step(t, s, e).server == MarkSeen(s.server, e.session, e.eventId).1
  {
    hide MarkSeen;
  }

  lemma GrowsSeen(a: Server, b: Server, session: string)
    requires Grows(a, b) && session in a.sessions
    ensures session in b.sessions && a.sessions[session].seen <= b.sessions[session].seen
  {
    hide BufferOf;
  }

  /** A stored handle leads to a path only if it is the digest of the stored view and that path. */
  lemma HandleLeadsHome(t: Tools, events: seq<Event>, session: string, buffer: string, handle: string)
    requires BufferOf(After(t, events).server, session, buffer).Some?
    requires handle in BufferOf(After(t, events).server, session, buffer).value.handles
    ensures var b := BufferOf(After(t, events).server, session, buffer).value;
              handle == t.handle(b.view, b.handles[handle])
  {
    hide BufferOf, After;
    BuffersWhole(t, events);
    assert Whole(t, BufferOf(After(t, events).server, session, buffer).value);
  }
}
