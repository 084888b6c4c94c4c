/** What a preview buffer holds after any history: the last commit that went through, and the
    paths registered since; nothing else is touched (handleRevision, commitRevision and
    registerBrowserPath, internal/orgpreview/server.go). */
module PreviewHistory {
  import opened Basics
  import opened Preview

  /** The rest of the server is as it was: every other buffer, and what was seen. */
  ghost predicate OnlyBuffer(a: Server, b: Server, session: string, buffer: string) {
    && (forall i, j :: (i, j) != (session, buffer) ==> BufferOf(b, i, j) == BufferOf(a, i, j))
    && (forall i :: SeenIn(b, i) == SeenIn(a, i))
  }

  function SeenIn(s: Server, session: string): set<string> {
    if session in s.sessions then s.sessions[session].seen else {}
  }

  /** A commit goes through exactly when no newer revision is stored. Then the buffer holds that
      request's own document, rendering and handles, under a stamp of its own; else nothing
      changes. */
  lemma CommitEffect(t: Tools, s: Server, r: Request, view: string)
    requires t.parse(r).Some?
    ensures var (done, s') := CommitRevision(t, s, r, view); var before := BufferOf(s, r.session, r.buffer);
      && OnlyBuffer(s, s', r.session, r.buffer)
      && (done <==> (before.Some? ==> before.value.revision <= r.revision))
      && s'.touchSeq == (if done then s.touchSeq + 1 else s.touchSeq)
      && (!done ==> BufferOf(s', r.session, r.buffer) == before)
      && var b := Buffer(r.revision, t.parse(r).value, t.html(r, view), r.path, r.generation, view,
                         HandlesOf(t, view, t.linked(r, view)), s.touchSeq + 1);
         done ==> BufferOf(s', r.session, r.buffer) == Some(b)
  {
    hide HandlesOf;
    SessionAfter(s, r.session);
    BufferAfter(WithSession(s, r.session), r.session, r.buffer, NewBuffer(t, r, view, s.touchSeq + 1));
  }

  /** A registered path is added to the handles of its buffer, and nothing else changes. */
  lemma RegisterEffect(t: Tools, s: Server, session: string, buffer: string, path: string)
    ensures var s' := RegisterPath(t, s, session, buffer, path); var b := BufferOf(s, session, buffer);
      && OnlyBuffer(s, s', session, buffer) && s'.touchSeq == s.touchSeq
      && (b.None? ==> BufferOf(s', session, buffer) == None)
      && (b.Some? ==>
            BufferOf(s', session, buffer) ==
              Some(b.value.(handles := b.value.handles[t.handle(b.value.view, path) := path])))
  {
    if BufferOf(s, session, buffer).Some? {
      var b := BufferOf(s, session, buffer).value;
      BufferAfter(s, session, buffer, b.(handles := b.handles[t.handle(b.view, path) := path]));
    }
  }

  /** An event that is seen is remembered for its session, and nothing else changes. */
  lemma SeeEffect(s: Server, session: string, eventId: string)
    ensures var (first, s') := MarkSeen(s, session, eventId);
      && (first <==> eventId !in SeenIn(s, session))
      && (forall i, j :: BufferOf(s', i, j) == BufferOf(s, i, j)) && s'.touchSeq == s.touchSeq
      && (forall i :: SeenIn(s', i) == if i == session then SeenIn(s, i) + {eventId} else SeenIn(s, i))
  {
  }

  /** A handler gets past its check exactly when no newer revision is stored and its text
      parses; it is rendered under the view the buffer has by then, or else under a new one; it commits once. */
  lemma HandlerEffect(t: Tools, s: System, e: Event)
    ensures e.Arrive? ==>
              var before := BufferOf(s.server, e.request.session, e.request.buffer);
              Step(t, s, e).pending ==
                if (before.Some? ==> before.value.revision <= e.request.revision) && t.parse(e.request).Some? then
                  s.pending[e.id := Checked(e.request)]
                else s.pending
    ensures e.Render? && e.id in s.pending && s.pending[e.id].Checked? ==>
              var r := s.pending[e.id].request; var before := BufferOf(s.server, r.session, r.buffer);
              Step(t, s, e) == s.(pending := s.pending[e.id := Rendered(r,
                if before.Some? && before.value.view != "" then before.value.view else e.token)])
    ensures e.Commit? && e.id in s.pending && s.pending[e.id].Rendered? && t.parse(s.pending[e.id].request).Some? ==>
              Step(t, s, e) == System(CommitRevision(t, s.server, s.pending[e.id].request, s.pending[e.id].view).1,
                                      map id | id in s.pending && id != e.id :: s.pending[id])
  {
    hide CommitRevision;
    if e.Arrive? { SessionAfter(s.server, e.request.session); }
  }

  /** A buffer as a request left it, but for handles registered since. */
  ghost predicate HeldFrom(t: Tools, b: Buffer, r: Request, view: string, stamp: nat) {
    && t.parse(r).Some? && b.revision == r.revision && b.document == t.parse(r).value && b.html == t.html(r, view)
    && b.path == r.path && b.generation == r.generation && b.view == view && b.touched == stamp
    && forall h :: h in HandlesOf(t, view, t.linked(r, view)) ==> h in b.handles
  }

  /** The event at place i commits to this buffer. */
  predicate CommitsTo(t: Tools, events: seq<Event>, i: nat, session: string, buffer: string)
    requires i < |events|
  {
    Commits(t, events, i) && var r := After(t, events[..i]).pending[events[i].id].request;
      r.session == session && r.buffer == buffer
  }

  lemma StoredNow(t: Tools, events: seq<Event>, i: nat, session: string, buffer: string)
    requires i < |events| && CommitsTo(t, events, i, session, buffer)
    ensures var p := After(t, events[..i]).pending[events[i].id]; var s' := After(t, events[..i + 1]).server;
      && BufferOf(s', session, buffer).Some?
      && HeldFrom(t, BufferOf(s', session, buffer).value, p.request, p.view, s'.touchSeq)
  {
    hide After, CommitRevision, HandlesOf;
    AfterNext(t, events, i);
    var s := After(t, events[..i]);
    var p := s.pending[events[i].id];
    CommitEffect(t, s.server, p.request, p.view);
  }

  /** A step that does not commit to a buffer leaves it but for its handles. */
  lemma StillHeld(t: Tools, events: seq<Event>, i: nat, session: string, buffer: string, r: Request, view: string,
                  stamp: nat)
    requires i < |events| && !CommitsTo(t, events, i, session, buffer)
    requires var b := BufferOf(After(t, events[..i]).server, session, buffer);
      b.Some? && HeldFrom(t, b.value, r, view, stamp)
    ensures var b := BufferOf(After(t, events[..i + 1]).server, session, buffer);
      b.Some? && HeldFrom(t, b.value, r, view, stamp)
  {
    hide After, CommitRevision, HandlesOf, MarkSeen, RegisterPath;
    AfterNext(t, events, i);
    var s := After(t, events[..i]);
    match events[i]
    case Arrive(id, q) => SessionAfter(s.server, q.session);
    case Render(id, token) =>
    case Commit(id) =>
      if id in s.pending && s.pending[id].Rendered? && t.parse(s.pending[id].request).Some? {
        CommitEffect(t, s.server, s.pending[id].request, s.pending[id].view);
      }
    case Register(i', j', path) => RegisterEffect(t, s.server, i', j', path);
    case See(i', eventId) => SeenMarked(s.server, i', eventId);
  }

  /** Whatever else happens, a buffer holds what the last commit to it stored. */
  lemma {:induction false} LastCommitHolds(t: Tools, events: seq<Event>, i: nat, n: nat, session: string,
                                           buffer: string)
    requires i < n <= |events| && CommitsTo(t, events, i, session, buffer)
    requires forall j :: i < j < n ==> !CommitsTo(t, events, j, session, buffer)
    ensures var p := After(t, events[..i]).pending[events[i].id];
              var b := BufferOf(After(t, events[..n]).server, session, buffer);
      b.Some? && HeldFrom(t, b.value, p.request, p.view, After(t, events[..i + 1]).server.touchSeq)
    decreases n
  {
    hide After, HeldFrom, CommitRevision;
    var p := After(t, events[..i]).pending[events[i].id];
    if n == i + 1 {
      StoredNow(t, events, i, session, buffer);
    } else {
      LastCommitHolds(t, events, i, n - 1, session, buffer);
      StillHeld(t, events, n - 1, session, buffer, p.request, p.view, After(t, events[..i + 1]).server.touchSeq);
    }
  }
}
