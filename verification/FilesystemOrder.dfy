/** The order of a breadth-first listing: shorter paths first, then directory by directory,
    then by name. */
module FilesystemOrder {
  import opened JsStrings
  import opened FilesystemPaths
  import opened FilesystemVisibility

  predicate Precedes(p: Path, q: Path) { |p| < |q| || (|p| == |q| && EarlierInLevel(p, q)) }

  predicate EarlierInLevel(p: Path, q: Path)
    requires |p| == |q|
    decreases |p|
  {
    && p != []
    && (EarlierInLevel(Parent(p), Parent(q)) || (Parent(p) == Parent(q) && Less(p[|p| - 1], q[|q| - 1])))
  }

  lemma {:induction false} PrecedesIrreflexive(p: Path)
    ensures !Precedes(p, p)
    decreases |p|
  {
    if p != [] {
      PrecedesIrreflexive(Parent(p));
      LessIrreflexive(p[|p| - 1]);
    }
  }

  lemma {:induction false} PrecedesTransitive(p: Path, q: Path, r: Path)
    requires Precedes(p, q) && Precedes(q, r)
    ensures Precedes(p, r)
    decreases |p|
  {
    if |p| == |q| == |r| {
      if EarlierInLevel(Parent(p), Parent(q)) && EarlierInLevel(Parent(q), Parent(r)) {
        PrecedesTransitive(Parent(p), Parent(q), Parent(r));
      } else if Parent(p) == Parent(q) == Parent(r) && Less(p[|p| - 1], q[|q| - 1]) && Less(q[|q| - 1], r[|r| - 1]) {
        LessTransitive(p[|p| - 1], q[|q| - 1], r[|r| - 1]);
      }
    }
  }

  lemma {:induction false} PrecedesTotal(p: Path, q: Path)
    ensures Precedes(p, q) || Precedes(q, p) || p == q
    decreases |p|
  {
    if |p| == |q| && p != [] {
      PrecedesTotal(Parent(p), Parent(q));
      LessTotal(p[|p| - 1], q[|q| - 1]);
      assert p == Parent(p) + [p[|p| - 1]] && q == Parent(q) + [q[|q| - 1]];
    }
  }

  /** Earlier directories have earlier children, and siblings go by name. */
  lemma ChildrenFollow(p: Path, d: Path, name: JsString)
    requires p != []
    ensures Precedes(Parent(p), d) ==> Precedes(p, d + [name])
    ensures Parent(p) == d && Less(p[|p| - 1], name) ==> Precedes(p, d + [name])
  {
    assert Parent(d + [name]) == d;
  }

  predicate Ordered(paths: seq<Path>) {
    forall i, j :: 0 <= i < j < |paths| ==> Precedes(paths[i], paths[j])
  }

  /** A list in this order is determined by what it lists. */
  lemma {:induction false} OrderedUnique(a: seq<Path>, b: seq<Path>)
    requires Ordered(a) && Ordered(b) && forall p :: p in a <==> p in b
    ensures a == b
  {
    hide Precedes;
    assert a != [] ==> a[0] in b;
    assert b != [] ==> b[0] in a;
    if a != [] {
      var i :| 0 <= i < |b| && b[i] == a[0];
      var j :| 0 <= j < |a| && a[j] == b[0];
      if i > 0 && j > 0 {
        assert Precedes(b[0], b[i]) && Precedes(a[0], a[j]);
        PrecedesTransitive(a[0], b[0], a[0]);
        PrecedesIrreflexive(a[0]);
      }
      assert a[0] == b[0];
      FirstIsOnce(a);
      FirstIsOnce(b);
      assert a == [a[0]] + a[1..] && b == [b[0]] + b[1..];
      assert forall p :: p in a[1..] <==> p in a && p != a[0];
      assert forall p :: p in b[1..] <==> p in b && p != b[0];
      OrderedUnique(a[1..], b[1..]);
    }
  }

  lemma FirstIsOnce(a: seq<Path>)
    requires Ordered(a) && a != []
    ensures a[0] !in a[1..]
  {
    PrecedesIrreflexive(a[0]);
    assert forall k :: 0 < k < |a| ==> a[k] != a[0];
  }
}
