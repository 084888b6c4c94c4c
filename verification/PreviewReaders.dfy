/** What readers of the preview server may rely on: a handle looked up outside the lock, in a
    buffer picked earlier, and a view once answered. */
module PreviewReaders {
  import opened Basics
  import opened Preview

  // ------------------------------------------------------------ looking up handles

  /** A reader picks a buffer under the lock and looks into its handles later, outside it. */
  datatype Watched = Watched(system: System, readers: map<nat, Buffer>)

  datatype Action = Serve(event: Event) | Pick(id: nat, session: string, buffer: string)

  const UNWATCHED := Watched(EMPTY, map[])

  /** Picked buffers are shared, not copied: registering a path in a stored buffer shows in
      every reader's hands that hold the same one, told by its stamp. */
  function Shown(t: Tools, s: Server, readers: map<nat, Buffer>, session: string, buffer: string,
                 path: string): map<nat, Buffer> {
    var b := BufferOf(s, session, buffer);
    map id | id in readers ::
      if b.Some? && readers[id].touched == b.value.touched then
        readers[id].(handles := readers[id].handles[t.handle(b.value.view, path) := path])
      else readers[id]
  }

  function Act(t: Tools, w: Watched, a: Action): Watched {
    match a
    case Serve(e) =>
      Watched(Step(t, w.system, e), if e.Register? then
              Shown(t, w.system.server, w.readers, e.session, e.buffer, e.path) else w.readers)
    case Pick(id, session, buffer) =>
      var b := BufferOf(w.system.server, session, buffer);
      if b.Some? then w.(readers := w.readers[id := b.value]) else w
  }

  function Watch(t: Tools, actions: seq<Action>): Watched {
    if actions == [] then UNWATCHED else Act(t, Watch(t, actions[..|actions| - 1]), actions[|actions| - 1])
  }

  function LookUp(b: Buffer, handle: string): Option<string> {
    if handle in b.handles then Some(b.handles[handle]) else None
  }

  /** Stored buffers are as Preview says; a picked one answers only with paths of its own
      view, and is the stored one as long as that has its stamp. */
  ghost predicate Told(t: Tools, w: Watched) {
    && Inv(t, w.system.server)
    && (forall id :: id in w.readers ==> Derived(t, w.readers[id]) && w.readers[id].touched <= w.system.server.touchSeq)
    && (forall id, i, j :: id in w.readers && BufferOf(w.system.server, i, j).Some?
                           && BufferOf(w.system.server, i, j).value.touched == w.readers[id].touched ==>
          BufferOf(w.system.server, i, j).value == w.readers[id])
  }

  /** What one step leaves of a stored buffer: itself, a new handle in it, or a new stamp. */
  lemma StepChanges(t: Tools, s: System, e: Event, i: string, j: string)
    requires Inv(t, s.server) && BufferOf(Step(t, s, e).server, i, j).Some?
    ensures var b := BufferOf(s.server, i, j); var b' := BufferOf(Step(t, s, e).server, i, j).value;
      if e.Register? && e.session == i && e.buffer == j then
        b.Some? && b' == b.value.(handles := b.value.handles[t.handle(b.value.view, e.path) := e.path])
      else b == Some(b') || b'.touched > s.server.touchSeq
  {
    hide BufferOf, Whole, WithBuffer, NewBuffer, CommitRevision, MarkSeen;
    match e
    case Arrive(id, r) => SessionAfter(s.server, r.session);
    case Render(id, token) =>
    case Commit(id) =>
      if id in s.pending && s.pending[id].Rendered? && t.parse(s.pending[id].request).Some? {
        CommitChanges(t, s.server, s.pending[id].request, s.pending[id].view, i, j);
        NewBufferFields(t, s.pending[id].request, s.pending[id].view, s.server.touchSeq + 1);
      }
    case Register(session, buffer, path) =>
      var b := BufferOf(s.server, session, buffer);
      if b.Some? {
        BufferAfter(s.server, session, buffer,
                    b.value.(handles := b.value.handles[t.handle(b.value.view, path) := path]));
      }
    case See(session, eventId) => SeenMarked(s.server, session, eventId);
  }

  lemma CommitChanges(t: Tools, s: Server, r: Request, view: string, i: string, j: string)
    requires t.parse(r).Some?
    ensures var (done, s') := CommitRevision(t, s, r, view);
      && s'.touchSeq == (if done then s.touchSeq + 1 else s.touchSeq)
      && BufferOf(s', i, j) == (if done && i == r.session && j == r.buffer then
                                Some(NewBuffer(t, r, view, s.touchSeq + 1)) else BufferOf(s, i, j))
      && (done <==> !Stale(s, r))
  {
    hide BufferOf, WithBuffer, NewBuffer;
    SessionAfter(s, r.session);
    var s1 := WithSession(s, r.session);
    BufferAfter(s1, r.session, r.buffer, NewBuffer(t, r, view, s.touchSeq + 1));
    StampOnly(WithBuffer(s1, r.session, r.buffer, NewBuffer(t, r, view, s.touchSeq + 1)), s.touchSeq + 1);
  }

  lemma ShownDerived(t: Tools, s: Server, readers: map<nat, Buffer>, session: string, buffer: string, path: string,
                     id: nat)
    requires id in readers && Derived(t, readers[id])
    requires BufferOf(s, session, buffer).Some? && BufferOf(s, session, buffer).value.touched == readers[id].touched ==>
               BufferOf(s, session, buffer).value == readers[id]
    ensures Derived(t, Shown(t, s, readers, session, buffer, path)[id])
    ensures Shown(t, s, readers, session, buffer, path)[id].touched == readers[id].touched
  {
  }

  lemma ActTold(t: Tools, w: Watched, a: Action)
    requires Told(t, w)
    ensures Told(t, Act(t, w, a))
  {
    hide BufferOf, Whole, Step, Shown, Derived;
    match a
    case Pick(id, session, buffer) => PickTold(t, w, id, session, buffer);
    case Serve(e) =>
      var s := w.system;
      StepKeeps(t, s, e);
      var w' := Act(t, w, a);
      ReadersAfter(t, w, e);
      forall id, i, j | id in w'.readers && BufferOf(w'.system.server, i, j).Some?
                        && BufferOf(w'.system.server, i, j).value.touched == w'.readers[id].touched
        ensures BufferOf(w'.system.server, i, j).value == w'.readers[id]
      {
        StillTheSame(t, w, e, id, i, j);
      }
  }

  lemma PickTold(t: Tools, w: Watched, id: nat, session: string, buffer: string)
    requires Told(t, w)
    ensures Told(t, Act(t, w, Pick(id, session, buffer)))
  {
    hide BufferOf, Whole;
    var b := BufferOf(w.system.server, session, buffer);
    if b.Some? {
      assert Derived(t, b.value) by { assert Whole(t, b.value); WholeDerived(t, b.value); }
    }
  }

  lemma WholeDerived(t: Tools, b: Buffer)
    requires Whole(t, b)
    ensures Derived(t, b)
  {
  }

  lemma ReadersAfter(t: Tools, w: Watched, e: Event)
    requires Told(t, w)
    ensures var w' := Act(t, w, Serve(e));
      && w'.readers.Keys == w.readers.Keys
      && forall id :: id in w.readers ==> Derived(t, w'.readers[id]) && w'.readers[id].touched == w.readers[id].touched
  {
    hide BufferOf, Whole, Step, Derived, Inv;
    if e.Register? {
      forall id | id in w.readers
        ensures var now := Shown(t, w.system.server, w.readers, e.session, e.buffer, e.path);
          Derived(t, now[id]) && now[id].touched == w.readers[id].touched
      {
        ShownDerived(t, w.system.server, w.readers, e.session, e.buffer, e.path, id);
      }
    }
  }

  /** A reader's buffer that is the stored one before a step is so after it, or has been replaced. */
  lemma StillTheSame(t: Tools, w: Watched, e: Event, id: nat, i: string, j: string)
    requires Told(t, w) && id in w.readers
    requires var w' := Act(t, w, Serve(e));
      && id in w'.readers && w'.readers[id].touched == w.readers[id].touched
      && BufferOf(w'.system.server, i, j).Some?
      && BufferOf(w'.system.server, i, j).value.touched == w'.readers[id].touched
    ensures var w' := Act(t, w, Serve(e)); BufferOf(w'.system.server, i, j).value == w'.readers[id]
  {
    hide BufferOf, Whole, Step, Derived;
    var s := w.system.server;
    StepChanges(t, w.system, e, i, j);
    assert BufferOf(s, i, j).Some? && BufferOf(s, i, j).value == w.readers[id];
    if e.Register? && BufferOf(s, e.session, e.buffer).Some? && (e.session, e.buffer) != (i, j) {
      assert BufferOf(s, e.session, e.buffer).value.touched != BufferOf(s, i, j).value.touched;
    }
  }

  lemma {:induction false} WatchTold(t: Tools, actions: seq<Action>)
    ensures Told(t, Watch(t, actions))
  {
    hide Act, Told;
    if actions == [] {
      UnwatchedTold(t);
    } else {
      WatchTold(t, actions[..|actions| - 1]);
      ActTold(t, Watch(t, actions[..|actions| - 1]), actions[|actions| - 1]);
    }
  }

  lemma UnwatchedTold(t: Tools)
    ensures Told(t, UNWATCHED)
  {
  }

  /** Whenever a reader looks, and whatever was committed or registered since it picked its
      buffer, a handle leads to a path only if it is the digest of that buffer's view and
      the path. */
  lemma ReaderLeadsHome(t: Tools, actions: seq<Action>, id: nat, handle: string)
    requires id in Watch(t, actions).readers && LookUp(Watch(t, actions).readers[id], handle).Some?
    ensures var b := Watch(t, actions).readers[id]; handle == t.handle(b.view, LookUp(b, handle).value)
  {
    hide Watch, Inv, BufferOf;
    WatchTold(t, actions);
  }

  // ----------------------------------------------------------------- answered views

  function Onward(t: Tools, s: System, events: seq<Event>): System {
    if events == [] then s else Step(t, Onward(t, s, events[..|events| - 1]), events[|events| - 1])
  }

  lemma {:induction false} AfterOnward(t: Tools, before: seq<Event>, events: seq<Event>)
    ensures After(t, before + events) == Onward(t, After(t, before), events)
  {
    hide Step;
    if events == [] {
      assert before + events == before;
    } else {
      var n := |events| - 1;
      assert (before + events)[..|before| + n] == before + events[..n];
      AfterOnward(t, before, events[..n]);
    }
  }

  /** The buffer is stored under this view. */
  predicate Viewed(s: System, session: string, buffer: string, view: string) {
    var b := BufferOf(s.server, session, buffer); b.Some? && b.value.view == view
  }

  /** No handler past its rendering would replace the view: each has the same one, or comes
      with a revision that is stale by now. */
  predicate Unrivalled(t: Tools, s: System, session: string, buffer: string, view: string) {
    && Viewed(s, session, buffer, view)
    && forall id :: id in s.pending ==> Harmless(t, s, s.pending[id], session, buffer, view)
  }

  predicate Harmless(t: Tools, s: System, p: Pending, session: string, buffer: string, view: string) {
    p.Rendered? && p.request.session == session && p.request.buffer == buffer ==>
      p.view == view || t.parse(p.request).None? || Stale(s.server, p.request)
  }

  lemma StaleStays(a: Server, b: Server, r: Request)
    requires Stale(a, r) && Grows(a, b)
    ensures Stale(b, r)
  {
    hide BufferOf;
  }

  lemma HarmlessStays(t: Tools, s: System, e: Event, p: Pending, session: string, buffer: string, view: string)
    requires Inv(t, s.server) && Harmless(t, s, p, session, buffer, view)
    ensures Harmless(t, Step(t, s, e), p, session, buffer, view)
  {
    hide BufferOf, Step, Grows, Inv;
    StepKeeps(t, s, e);
    if p.Rendered? && Stale(s.server, p.request) { StaleStays(s.server, Step(t, s, e).server, p.request); }
  }

  lemma ViewStep(t: Tools, s: System, e: Event, session: string, buffer: string, view: string)
    requires Inv(t, s.server) && Unrivalled(t, s, session, buffer, view) && view != ""
    ensures Unrivalled(t, Step(t, s, e), session, buffer, view)
  {
    hide BufferOf, CommitRevision, RegisterPath, MarkSeen, Inv, Harmless;
    var s' := Step(t, s, e);
    ViewStored(t, s, e, session, buffer, view);
    forall id | id in s'.pending ensures Harmless(t, s', s'.pending[id], session, buffer, view) {
      if id in s.pending && s'.pending[id] == s.pending[id] {
        HarmlessStays(t, s, e, s.pending[id], session, buffer, view);
      } else {
        assert s'.pending[id].Checked?
          || (s'.pending[id].Rendered? && e.Render? && s'.pending[id] ==
              Rendered(s.pending[id].request, ChosenView(s.server, s.pending[id].request, e.token)));
        NewlyHarmless(t, s, s', s'.pending[id], session, buffer, view);
      }
    }
  }

  lemma NewlyHarmless(t: Tools, s: System, s': System, p: Pending, session: string, buffer: string, view: string)
    requires Viewed(s, session, buffer, view) && view != ""
    requires p.Checked? || exists token :: p.view == ChosenView(s.server, p.request, token)
    ensures Harmless(t, s', p, session, buffer, view)
  {
  }

  lemma ViewStored(t: Tools, s: System, e: Event, session: string, buffer: string, view: string)
    requires Inv(t, s.server) && Unrivalled(t, s, session, buffer, view)
    ensures Viewed(Step(t, s, e), session, buffer, view)
  {
    hide BufferOf, CommitRevision, MarkSeen, WithBuffer;
    match e
    case Arrive(id, r) => SessionAfter(s.server, r.session);
    case Render(id, token) =>
    case Commit(id) =>
      if id in s.pending && s.pending[id].Rendered? && t.parse(s.pending[id].request).Some? {
        var p := s.pending[id];
        assert Harmless(t, s, p, session, buffer, view);
        CommitChanges(t, s.server, p.request, p.view, session, buffer);
      }
    case Register(i, j, path) =>
      var b := BufferOf(s.server, i, j);
      if b.Some? {
        BufferAfter(s.server, i, j, b.value.(handles := b.value.handles[t.handle(b.value.view, path) := path]));
      }
    case See(i, eventId) => SeenMarked(s.server, i, eventId);
  }

  lemma {:induction false} ViewStays(t: Tools, s: System, events: seq<Event>, session: string, buffer: string,
                                     view: string)
    requires Inv(t, s.server) && Unrivalled(t, s, session, buffer, view) && view != ""
    ensures var s' := Onward(t, s, events); Inv(t, s'.server) && Unrivalled(t, s', session, buffer, view)
  {
    hide Step, Inv, Unrivalled;
    if events != [] {
      var n := |events| - 1;
      ViewStays(t, s, events[..n], session, buffer, view);
      ViewStep(t, Onward(t, s, events[..n]), events[n], session, buffer, view);
      StepKeeps(t, Onward(t, s, events[..n]), events[n]);
    }
  }

  /** After any history, the view a buffer is stored under stays its view whatever follows
      exactly when no handler that has already rendered comes with another view and a
      revision that is not stale. */
  lemma ViewStaysIff(t: Tools, before: seq<Event>, session: string, buffer: string, view: string)
    requires Viewed(After(t, before), session, buffer, view) && view != ""
    ensures (forall events :: Viewed(After(t, before + events), session, buffer, view)) <==>
            Unrivalled(t, After(t, before), session, buffer, view)
  {
    hide After, Step, Inv, Viewed, Harmless, Stale, Onward;
    var s := After(t, before);
    BuffersWhole(t, before);
    if Unrivalled(t, s, session, buffer, view) {
      forall events ensures Viewed(After(t, before + events), session, buffer, view) {
        AfterOnward(t, before, events);
        ViewStays(t, s, events, session, buffer, view);
      }
    } else {
      var id :| id in s.pending && !Harmless(t, s, s.pending[id], session, buffer, view);
      RivalCommits(t, s, id, session, buffer, view);
      var rival := [Commit(id)];
      OneOnward(t, s, Commit(id));
      AfterOnward(t, before, rival);
      assert !Viewed(After(t, before + rival), session, buffer, view);
    }
  }

  /** Two first requests for one buffer, both rendered before either commits: the browser
      given the first view is shut out by the second commit. */
  lemma SecondCommitReplacesView(t: Tools, r: Request, v: string, w: string)
    requires t.parse(r).Some? && v != "" && w != "" && v != w
    ensures var before := [Arrive(1, r), Arrive(2, r), Render(1, v), Render(2, w), Commit(1)];
      && Viewed(After(t, before), r.session, r.buffer, v)
      && !Unrivalled(t, After(t, before), r.session, r.buffer, v)
      && Viewed(After(t, before + [Commit(2)]), r.session, r.buffer, w)
  {
    hide After, NewBuffer, CommitRevision;
    var events := [Arrive(1, r), Arrive(2, r), Render(1, v), Render(2, w), Commit(1), Commit(2)];
    assert events[..0] == [];
    Begins(t);
    AfterNext(t, events, 0);
    AfterNext(t, events, 1);
    AfterNext(t, events, 2);
    AfterNext(t, events, 3);
    AfterNext(t, events, 4);
    AfterNext(t, events, 5);
    assert events[..6] == events && events[..5] + [Commit(2)] == events;
    assert events[..5] == [Arrive(1, r), Arrive(2, r), Render(1, v), Render(2, w), Commit(1)];
    var s2, s4, s5 := After(t, events[..2]), After(t, events[..4]), After(t, events[..5]);
    assert BufferOf(s2.server, r.session, r.buffer) == None;
    assert s4.pending[1] == Rendered(r, v) && s4.pending[2] == Rendered(r, w);
    CommitChanges(t, s4.server, r, v, r.session, r.buffer);
    NewBufferFields(t, r, v, s4.server.touchSeq + 1);
    assert s5.pending[2] == Rendered(r, w);
    CommitChanges(t, s5.server, r, w, r.session, r.buffer);
    NewBufferFields(t, r, w, s5.server.touchSeq + 1);
    assert !Harmless(t, s5, s5.pending[2], r.session, r.buffer, v);
  }

  lemma Begins(t: Tools)
    ensures After(t, []) == EMPTY
  {
  }

  lemma OneOnward(t: Tools, s: System, e: Event)
    ensures Onward(t, s, [e]) == Step(t, s, e)
  {
    hide Step;
    assert [e][..0] == [];
    assert Onward(t, s, []) == s;
  }

  lemma RivalCommits(t: Tools, s: System, id: nat, session: string, buffer: string, view: string)
    requires id in s.pending && !Harmless(t, s, s.pending[id], session, buffer, view)
    ensures !Viewed(Step(t, s, Commit(id)), session, buffer, view)
  {
    hide BufferOf, CommitRevision, Stale;
    var p := s.pending[id];
    CommitChanges(t, s.server, p.request, p.view, session, buffer);
  }
}
