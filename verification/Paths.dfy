/** Path strings: the overlap test of the scheduler and the subtrees it separates. */
module Paths {

  // The C++ `s.substr(0, n)`: at most n leading characters.
  function Take(s: string, n: nat): string {
    if n <= |s| then s[..n] else s
  }

  // `formater::paths_overlap`.
  predicate PathsOverlap(a: string, b: string) {
    a == b || Take(a, |b| + 1) == b + "/" || Take(b, |a| + 1) == a + "/"
  }

  // Strictly below the root: what `root/*` selects.
  predicate Under(root: string, p: string) {
    root + "/" <= p
  }

  // The root itself or anything below it.
  predicate InSubtree(root: string, p: string) {
    p == root || Under(root, p)
  }

  /** The overlap test is exact, for all strings: it holds iff the two subtrees share a path. */
  lemma OverlapIffSubtreesMeet(a: string, b: string)
    ensures PathsOverlap(a, b) <==> exists p :: InSubtree(a, p) && InSubtree(b, p)
  {
    if PathsOverlap(a, b) {
      var p := if |a| <= |b| then b else a;
      assert InSubtree(a, p) && InSubtree(b, p);
    }
    forall p | InSubtree(a, p) && InSubtree(b, p) ensures PathsOverlap(a, b) {
      CommonPathOverlaps(a, b, p);
    }
  }

  lemma CommonPathOverlaps(a: string, b: string, p: string)
    requires InSubtree(a, p) && InSubtree(b, p)
    ensures PathsOverlap(a, b)
  {
    assert a == p[..|a|] && b == p[..|b|];
    if |a| < |b| {
      assert p[|a|] == '/';
      assert Take(b, |a| + 1) == p[..|a| + 1] == a + "/";
    } else if |b| < |a| {
      assert p[|b|] == '/';
      assert Take(a, |b| + 1) == p[..|b| + 1] == b + "/";
    }
  }

  lemma OverlapSymmetric(a: string, b: string)
    ensures PathsOverlap(a, b) == PathsOverlap(b, a)
  {
  }

  lemma InSubtreeTransitive(a: string, b: string, p: string)
    requires InSubtree(a, b) && InSubtree(b, p)
    ensures InSubtree(a, p)
    ensures Under(a, b) || Under(b, p) ==> Under(a, p)
  {
    if Under(a, b) && Under(b, p) {
      assert b + "/" == p[..|b| + 1];
      assert b == p[..|b|];
      assert a + "/" == b[..|a| + 1] == p[..|a| + 1];
    }
  }
}
