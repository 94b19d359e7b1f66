/** A finite tree of files, directories, links and other nodes, and which of its paths the
    connector lets a caller see. Visibility is inherited upwards: whatever hides a directory
    hides everything beneath it. */
module FilesystemVisibility {
  import opened Options
  import opened JsStrings
  import opened Utf
  import opened FilesystemPaths
  import opened FilesystemConstraints

  datatype Node = File(size: nat, links: nat) | Directory | Symlink | Special

  /** Keyed by segments below the root; the root is the empty path. */
  type Tree = map<Path, Node>

  ghost predicate IsTree(t: Tree) {
    && [] in t && t[[]].Directory?
    && forall p :: p in t && p != [] ==> Segmented(p) && Parent(p) in t && t[Parent(p)].Directory?
  }

  // ----- sensitive paths

  function NonEmpty(p: Path): Path {
    if p == [] then [] else (if p[0] == [] then [] else [p[0]]) + NonEmpty(p[1..])
  }

  predicate EndsWith(s: JsString, suffix: JsString) { |suffix| <= |s| && s[|s| - |suffix|..] == suffix }

  const STAGING_PREFIX: JsString := Js(".ai-office-txn-")

  predicate SensitiveSegment(segment: Segment) {
    var lower := Lower(segment);
    || STAGING_PREFIX <= lower
    || lower in {Js(".ai-office"), Js(".git"), Js(".ssh"), Js(".aws"), Js(".kube")}
    || lower == Js(".env") || Js(".env.") <= lower
    || lower in {Js(".npmrc"), Js(".pypirc"), Js(".netrc"), Js("credentials"), Js("credentials.json"), Js("secrets"),
                 Js("secrets.json"), Js("id_rsa"), Js("id_ed25519"), Js(".git-credentials"), Js("git-credentials")}
    || EndsWith(lower, Js(".pem")) || EndsWith(lower, Js(".key")) || EndsWith(lower, Js(".p12")) || EndsWith(lower, Js(".pfx"))
  }

  predicate CloudConfigAt(p: Path, i: nat) {
    i + 1 < |p| && Lower(p[i]) == Js(".config") && Lower(p[i + 1]) == Js("gcloud")
  }

  predicate BuiltInSensitive(path: JsString) {
    var p := NonEmpty(Split(path));
    || (exists i :: 0 <= i < |p| && SensitiveSegment(p[i]))
    || (exists i :: 0 <= i < |p| && CloudConfigAt(p, i))
  }

  predicate Sensitive(path: JsString, denied: seq<JsString>) {
    || BuiltInSensitive(path)
    || exists i :: 0 <= i < |denied| && Matches(Lower(path), Lower(denied[i]))
  }

  // ----- what a caller may see

  predicate Complete(c: Effective) { ALL_LIMITS <= c.limits.Keys }

  function ClassifyVisible(path: JsString, c: Effective): Classification {
    if Sensitive(path, c.deniedPaths) then Denied else Classify(path, c.allowedPaths)
  }

  predicate ExtensionPermitted(path: JsString, c: Effective) {
    c.allowedExtensions.None? || FileExtension(path) in c.allowedExtensions.value
  }

  /** The listing filter, said of one path on its own. */
  predicate Shown(t: Tree, c: Effective, p: Path)
    requires p in t && Complete(c)
  {
    var path := Join(p);
    && p != [] && Normalizable(path, LimitsOf(c), false)
    && match t[p]
       case File(_, links) => ClassifyVisible(path, c).Inside? && links <= 1 && ExtensionPermitted(path, c)
       case Directory => !ClassifyVisible(path, c).Denied?
       case _ => false
  }

  // ----- hidden ancestors hide their descendants

  lemma LowerMatches(a: JsString, b: JsString)
    requires Matches(a, b)
    ensures Matches(Lower(a), Lower(b))
  {
    if a != b {
      assert Lower(b) + [SLASH] == Lower(b + [SLASH]);
      assert Lower(b + [SLASH]) == Lower(a)[..|b| + 1];
    }
  }

  lemma {:induction false} NonEmptySegments(p: Path)
    requires Segmented(p)
    ensures NonEmpty(p) == p
  {
    if p != [] {
      NonEmptySegments(p[1..]);
      assert p == [p[0]] + p[1..];
    }
  }

  lemma StagingSegment(segment: Segment)
    requires STAGING_PREFIX <= segment
    ensures SensitiveSegment(segment)
  {
    hide Js, Lower, EndsWith, STAGING_PREFIX;
    PrefixIsLower();
    LowerPrefix(STAGING_PREFIX, segment);
  }

  lemma PrefixIsLower()
    ensures Lower(STAGING_PREFIX) == STAGING_PREFIX
  {
  }

  lemma LowerPrefix(a: JsString, b: JsString)
    requires a <= b
    ensures Lower(a) <= Lower(b)
  {
  }

  lemma BuiltInInherited(p: Path, q: Path)
    requires q != [] && q <= p && Segmented(p) && BuiltInSensitive(Join(q))
    ensures BuiltInSensitive(Join(p))
  {
    hide SensitiveSegment, Split, Join, Lower, NonEmpty, Js;
    SplitJoin(p);
    SplitJoin(q);
    NonEmptySegments(p);
    NonEmptySegments(q);
    if i :| 0 <= i < |q| && SensitiveSegment(q[i]) {
      assert SensitiveSegment(p[i]);
    } else {
      var i :| 0 <= i < |q| && CloudConfigAt(q, i);
      assert CloudConfigAt(p, i);
    }
  }

  lemma SensitiveInherited(p: Path, q: Path, denied: seq<JsString>)
    requires q != [] && q <= p && Segmented(p) && Sensitive(Join(q), denied)
    ensures Sensitive(Join(p), denied)
  {
    if BuiltInSensitive(Join(q)) {
      BuiltInInherited(p, q);
    } else {
      var i :| 0 <= i < |denied| && Matches(Lower(Join(q)), Lower(denied[i]));
      PrefixMatches(p, q);
      LowerMatches(Join(p), Join(q));
      MatchesTransitive(Lower(Join(p)), Lower(Join(q)), Lower(denied[i]));
    }
  }

  lemma AllowedInherited(p: Path, q: Path, allowed: Option<seq<JsString>>)
    requires q != [] && q <= p && !Classify(Join(p), allowed).Denied?
    ensures !Classify(Join(q), allowed).Denied?
  {
    PrefixMatches(p, q);
    if allowed.Some? {
      var prefixes := allowed.value;
      if i :| 0 <= i < |prefixes| && Matches(Join(p), prefixes[i]) {
        MatchesComparable(Join(p), Join(q), prefixes[i]);
        assert Matches(Join(q), prefixes[i]) || CanContain(Join(q), prefixes[i]);
      } else {
        var i :| 0 <= i < |prefixes| && CanContain(Join(p), prefixes[i]);
        if Join(p) == [] {
          assert Join(q) == [];
        } else {
          MatchesTransitive(prefixes[i], Join(p), Join(q));
        }
        assert CanContain(Join(q), prefixes[i]);
      }
    }
  }

  /** Every directory above something shown is shown. */
  lemma AncestorsAreShown(t: Tree, c: Effective, p: Path, q: Path)
    requires IsTree(t) && Complete(c) && p in t && q in t && q != [] && q <= p && q != p
    requires Shown(t, c, p)
    ensures Shown(t, c, q)
  {
    hide Normalizable, Sensitive, Classify, ExtensionPermitted, Join, Segmented;
    AncestorIsDirectory(t, p, q);
    AncestorIsNormalizable(p, q, LimitsOf(c));
    if Sensitive(Join(q), c.deniedPaths) { SensitiveInherited(p, q, c.deniedPaths); }
    AllowedInherited(p, q, c.allowedPaths);
  }

  lemma {:induction false} AncestorIsDirectory(t: Tree, p: Path, q: Path)
    requires IsTree(t) && p in t && q <= p && q != p
    ensures q in t && t[q].Directory? && Segmented(p)
    decreases |p|
  {
    if Parent(p) != q { AncestorIsDirectory(t, Parent(p), q); }
  }
}
