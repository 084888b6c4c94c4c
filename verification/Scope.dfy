/** The text a cache database is named by: which scopes share one. */
module Scope {
  import opened Sorting
  import opened Hashing

  datatype Scope = Scope(projectId: string, notesRoot: string, tasksFile: string, excluded: set<string>)

  function Joined(parts: seq<string>): string {
    if parts == [] then "" else if |parts| == 1 then parts[0] else parts[0] + [NUL] + Joined(parts[1..])
  }

  ghost function Excluded(s: Scope): (names: seq<string>)
    ensures forall n :: n in names <==> n in s.excluded
    ensures Ascending(names, Below)
  {
    Names(map n | n in s.excluded :: "")
  }

  /** What the key is hashed from: project, root, tasks file, then the excluded roots in order. */
  ghost function KeyInput(s: Scope): string {
    Joined([s.projectId, s.notesRoot, s.tasksFile] + Excluded(s))
  }

  ghost predicate Separable(s: Scope) {
    Free(s.projectId, NUL) && Free(s.notesRoot, NUL) && Free(s.tasksFile, NUL) && forall n :: n in s.excluded ==>
      Free(n, NUL)
  }

  lemma {:induction false} JoinedInjective(a: seq<string>, b: seq<string>)
    requires a != [] && b != [] && Joined(a) == Joined(b)
    requires (forall p :: p in a ==> Free(p, NUL)) && (forall p :: p in b ==> Free(p, NUL))
    ensures a == b
    decreases |a|
  {
    assert a[0] in a && b[0] in b;
    if |a| == 1 && |b| == 1 {
    } else if |a| > 1 && |b| > 1 {
      SameHead(a[0], b[0], Joined(a[1..]), Joined(b[1..]), NUL);
      JoinedInjective(a[1..], b[1..]);
      assert a == [a[0]] + a[1..] && b == [b[0]] + b[1..];
    } else {
      OnePart(a);
      OnePart(b);
    }
  }

  lemma OnePart(a: seq<string>)
    requires a != []
    ensures |a| > 1 ==> !Free(Joined(a), NUL)
    ensures |a| == 1 ==> Joined(a) == a[0]
  {
    if |a| > 1 { assert Joined(a)[|a[0]|] == NUL; }
  }

  /** Two scopes share a database only if they are one scope, in particular with one tasks
      file: within a database the parser's flags depend on the path alone. */
  lemma ScopesApart(a: Scope, b: Scope)
    requires Separable(a) && Separable(b)
    ensures KeyInput(a) == KeyInput(b) <==> a == b
  {
    if KeyInput(a) == KeyInput(b) {
      var pa := [a.projectId, a.notesRoot, a.tasksFile] + Excluded(a);
      var pb := [b.projectId, b.notesRoot, b.tasksFile] + Excluded(b);
      JoinedInjective(pa, pb);
      assert pa[0] == pb[0] && pa[1] == pb[1] && pa[2] == pb[2];
      assert pa[3..] == Excluded(a) && pb[3..] == Excluded(b);
      forall n ensures n in a.excluded <==> n in b.excluded {
        assert n in Excluded(a) <==> n in Excluded(b);
      }
      assert a.excluded == b.excluded;
    }
  }
}
