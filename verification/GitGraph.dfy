/** Git history as content-addressed commits: a commit holds its parents, so
    ancestry is well founded and never changes. */
module GitGraph {
  import opened Text

  /** `picked` is the `cherry picked from` trailer that `cherry-pick -x` leaves. */
  datatype Commit = Commit(sha: string, parents: seq<Commit>, picked: Option<string>)

  /** `git merge-base --is-ancestor`, which holds of a commit and itself. */
  predicate IsAncestor(a: Commit, c: Commit) {
    a == c || exists i :: 0 <= i < |c.parents| && IsAncestor(a, c.parents[i])
  }

  lemma {:induction false} AncestorTransitive(a: Commit, b: Commit, c: Commit)
    requires IsAncestor(a, b) && IsAncestor(b, c)
    ensures IsAncestor(a, c)
    decreases c
  {
    if b != c {
      var i :| 0 <= i < |c.parents| && IsAncestor(b, c.parents[i]);
      AncestorTransitive(a, b, c.parents[i]);
    }
  }

  lemma ParentIsAncestor(c: Commit, i: nat)
    requires i < |c.parents|
    ensures IsAncestor(c.parents[i], c)
  {
    assert IsAncestor(c.parents[i], c.parents[i]);
  }

  /** The history of `c` holds a cherry-pick of the commit `sha`. */
  ghost predicate HasPick(c: Commit, sha: string) {
    exists a :: IsAncestor(a, c) && a.picked == Some(sha)
  }

  lemma PicksAccumulate(c: Commit, d: Commit, sha: string)
    requires HasPick(c, sha) && IsAncestor(c, d)
    ensures HasPick(d, sha)
  {
    var a :| IsAncestor(a, c) && a.picked == Some(sha);
    AncestorTransitive(a, c, d);
  }
}
