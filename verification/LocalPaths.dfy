/** Resolving a path against a working directory, as POSIX `resolve` does. */
module LocalPaths {
  import opened JsStrings
  import opened FilesystemPaths

  const DOT: Segment := [0x2E]

  const DOT_DOT: Segment := [0x2E, 0x2E]

  predicate IsAbsolute(s: JsString) { s != [] && s[0] == SLASH }

  predicate Plain(segment: Segment) { segment != [] && segment != DOT && segment != DOT_DOT && NoSlash(segment) }

  predicate AllPlain(p: Path) { forall i :: 0 <= i < |p| ==> Plain(p[i]) }

  /** Walks the segments: empty ones and `.` stay put, `..` goes up and stops at the root. */
  function Walk(base: Path, steps: Path): (r: Path)
    decreases |steps|
  {
    if steps == [] then base
    else if steps[0] == [] || steps[0] == DOT then Walk(base, steps[1..])
    else if steps[0] == DOT_DOT then Walk(if base == [] then [] else Parent(base), steps[1..])
    else Walk(base + [steps[0]], steps[1..])
  }

  function Absolute(p: Path): JsString { [SLASH] + Join(p) }

  function Resolve(workingDirectory: JsString, value: JsString): JsString {
    if IsAbsolute(value) then Absolute(Walk([], Split(value)))
    else Absolute(Walk(Walk([], Split(workingDirectory)), Split(value)))
  }

  lemma {:induction false} WalkIsPlain(base: Path, steps: Path)
    requires AllPlain(base) && forall i :: 0 <= i < |steps| ==> NoSlash(steps[i])
    ensures AllPlain(Walk(base, steps))
    decreases |steps|
  {
    if steps != [] {
      var next := if steps[0] == [] || steps[0] == DOT then base
                  else if steps[0] == DOT_DOT then (if base == [] then [] else Parent(base))
                  else base + [steps[0]];
      WalkIsPlain(next, steps[1..]);
    }
  }

  lemma {:induction false} WalkPlain(base: Path, steps: Path)
    requires AllPlain(steps)
    ensures Walk(base, steps) == base + steps
    decreases |steps|
  {
    if steps != [] {
      WalkPlain(base + [steps[0]], steps[1..]);
      assert base + [steps[0]] + steps[1..] == base + steps;
    }
  }

  /** An absolute path in normal form resolves to itself, from anywhere. */
  lemma ResolveNormal(workingDirectory: JsString, p: Path)
    requires AllPlain(p)
    ensures IsAbsolute(Absolute(p)) && Resolve(workingDirectory, Absolute(p)) == Absolute(p)
  {
    if p == [] {
      assert Absolute(p) == [SLASH] && Split([SLASH]) == [[], []];
      var root: Path := [];
      assert Walk(root, [[], []]) == Walk(root, [[]]) == Walk(root, []) == root;
    } else {
      assert Segmented(p);
      SplitJoin(p);
      assert Absolute(p)[1..] == Join(p);
      assert Split(Absolute(p)) == [[]] + p;
      WalkPlain([], p);
      assert ([[]] + p)[1..] == p;
      var root: Path := [];
      assert Walk(root, [[]] + p) == Walk(root, p) == root + p == p;
    }
  }

  lemma ResolvedIsNormal(workingDirectory: JsString, value: JsString) returns (p: Path)
    ensures AllPlain(p) && Resolve(workingDirectory, value) == Absolute(p)
  {
    JoinSplit(workingDirectory);
    JoinSplit(value);
    WalkIsPlain([], Split(workingDirectory));
    if IsAbsolute(value) {
      WalkIsPlain([], Split(value));
      p := Walk([], Split(value));
    } else {
      WalkIsPlain(Walk([], Split(workingDirectory)), Split(value));
      p := Walk(Walk([], Split(workingDirectory)), Split(value));
    }
  }

  /** What has been resolved is absolute, and no later resolution moves it. */
  lemma ResolveTwice(here: JsString, there: JsString, value: JsString)
    ensures IsAbsolute(Resolve(here, value))
    ensures Resolve(there, Resolve(here, value)) == Resolve(here, value)
  {
    var p := ResolvedIsNormal(here, value);
    ResolveNormal(there, p);
  }
}
