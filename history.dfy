/** The commit history of a repository, abstracted from git's object store:
    a finite map from commit id to the commit's parents, message and time.
    Ancestry (`git merge-base --is-ancestor`) is reflexive-transitive
    reachability along parent links, computed as a closure and proved equal
    to reachability by paths; the merge base is the set of best common
    ancestors. */
module History {

  type CommitId = string

  datatype Date = Date(year: nat, month: nat, day: nat)

  /** A commit time as `datetime.fromtimestamp` decomposes it in local time. */
  datatype DateTime = DateTime(date: Date, hour: nat, minute: nat)

  /** `committed_date` (seconds since the epoch) and its local decomposition. */
  datatype CommitTime = CommitTime(epoch: int, local: DateTime)

  datatype Commit = Commit(parents: seq<CommitId>, message: string, time: CommitTime)

  type Graph = map<CommitId, Commit>

  function Parents(g: Graph, c: CommitId): seq<CommitId>
  {
    if c in g then g[c].parents else []
  }

  /** Every parent named in the graph is itself a commit of the graph. */
  predicate Closed(g: Graph)
  {
    forall c, p :: c in g && p in g[c].parents ==> p in g
  }

  /** `from` reaches `to` by following exactly `n` parent links. */
  ghost predicate ReachesIn(g: Graph, from: CommitId, to: CommitId, n: nat)
    decreases n
  {
    if n == 0 then from == to
    else exists p :: p in Parents(g, from) && ReachesIn(g, p, to, n - 1)
  }

  ghost predicate Reaches(g: Graph, from: CommitId, to: CommitId)
  {
    exists n: nat :: ReachesIn(g, from, to, n)
  }

  /** No commit is its own proper ancestor. */
  ghost predicate Acyclic(g: Graph)
  {
    forall c, n: nat :: 0 < n ==> !ReachesIn(g, c, c, n)
  }

  /** Joining a path from `x` to `y` with one from `y` to `z`. */
  lemma {:induction false} ReachesInJoin(g: Graph, x: CommitId, y: CommitId, z: CommitId, n: nat, m: nat)
    requires ReachesIn(g, x, y, n) && ReachesIn(g, y, z, m)
    ensures ReachesIn(g, x, z, n + m)
    decreases n
  {
    if n > 0 {
      var p :| p in Parents(g, x) && ReachesIn(g, p, y, n - 1);
      ReachesInJoin(g, p, y, z, n - 1, m);
    }
  }

  lemma ReachesTransitive(g: Graph, x: CommitId, y: CommitId, z: CommitId)
    requires Reaches(g, x, y) && Reaches(g, y, z)
    ensures Reaches(g, x, z)
  {
    var n: nat :| ReachesIn(g, x, y, n);
    var m: nat :| ReachesIn(g, y, z, m);
    ReachesInJoin(g, x, y, z, n, m);
  }

  /** In an acyclic history two distinct commits cannot each reach the other. */
  lemma ReachesAntisymmetric(g: Graph, x: CommitId, y: CommitId)
    requires Acyclic(g) && Reaches(g, x, y) && Reaches(g, y, x)
    ensures x == y
  {
    var n: nat :| ReachesIn(g, x, y, n);
    var m: nat :| ReachesIn(g, y, x, m);
    ReachesInJoin(g, x, y, x, n, m);
  }

  /** All commits named in the graph: its keys and every parent it mentions. */
  function Universe(g: Graph): set<CommitId>
  {
    g.Keys + set c, p | c in g && p in g[c].parents :: p
  }

  /** `s` together with the parents of its members. */
  function Step(g: Graph, s: set<CommitId>): (r: set<CommitId>)
    ensures s <= r
  {
    s + set c, p | c in s && c in g && p in g[c].parents :: p
  }

  lemma StepShrinks(g: Graph, s: set<CommitId>)
    requires Step(g, s) != s
    ensures |Universe(g) - Step(g, s)| < |Universe(g) - s|
  {
    var x :| x in Step(g, s) && x !in s;
    var before, after := Universe(g) - s, Universe(g) - Step(g, s);
    assert x in before;
    assert after <= before - {x};
    SubsetCardinality(after, before - {x});
  }

  lemma {:induction false} SubsetCardinality<T>(a: set<T>, b: set<T>)
    requires a <= b
    ensures |a| <= |b|
    decreases |b|
  {
    if a != {} {
      var x :| x in a;
      SubsetCardinality(a - {x}, b - {x});
    }
  }

  /** The least superset of `s` that is closed under taking parents. */
  function Closure(g: Graph, s: set<CommitId>): (r: set<CommitId>)
    ensures s <= r && Step(g, r) == r
    decreases |Universe(g) - s|
  {
    if Step(g, s) == s then s
    else
      StepShrinks(g, s);
      Closure(g, Step(g, s))
  }

  /** The ancestors of `c`, `c` included. */
  function Ancestors(g: Graph, c: CommitId): set<CommitId>
  {
    Closure(g, {c})
  }

  /** `git merge-base --is-ancestor a b`: `a` is `b` or one of its ancestors. */
  predicate IsAncestor(g: Graph, a: CommitId, b: CommitId)
  {
    a in Ancestors(g, b)
  }

  ghost predicate AllReachedFrom(g: Graph, root: CommitId, s: set<CommitId>)
  {
    forall x :: x in s ==> Reaches(g, root, x)
  }

  /** Closing a set of commits reached from `root` adds only commits reached from `root`. */
  lemma {:induction false} ClosureSound(g: Graph, root: CommitId, s: set<CommitId>)
    requires AllReachedFrom(g, root, s)
    ensures AllReachedFrom(g, root, Closure(g, s))
    decreases |Universe(g) - s|
  {
    if Step(g, s) != s {
      forall x | x in Step(g, s) ensures Reaches(g, root, x) {
        if x !in s {
          var c, p :| c in s && c in g && p in g[c].parents && p == x;
          assert ReachesIn(g, p, p, 0);
          assert p in Parents(g, c);
          assert ReachesIn(g, c, p, 1);
          ReachesTransitive(g, root, c, p);
        }
      }
      StepShrinks(g, s);
      ClosureSound(g, root, Step(g, s));
    }
  }

  /** A set closed under parents holds everything its members reach. */
  lemma {:induction false} ClosedSetHoldsReached(g: Graph, s: set<CommitId>, x: CommitId, y: CommitId, n: nat)
    requires Step(g, s) == s && x in s && ReachesIn(g, x, y, n)
    ensures y in s
    decreases n
  {
    if n > 0 {
      var p :| p in Parents(g, x) && ReachesIn(g, p, y, n - 1);
      assert p in Step(g, s);
      ClosedSetHoldsReached(g, s, p, y, n - 1);
    }
  }

  /** The computed ancestry is exactly reachability along parent links. */
  lemma IsAncestorIffReaches(g: Graph, a: CommitId, b: CommitId)
    ensures IsAncestor(g, a, b) <==> Reaches(g, b, a)
  {
    assert ReachesIn(g, b, b, 0);
    ClosureSound(g, b, {b});
    if Reaches(g, b, a) {
      var n: nat :| ReachesIn(g, b, a, n);
      ClosedSetHoldsReached(g, Ancestors(g, b), b, a, n);
    }
  }

  lemma IsAncestorReflexive(g: Graph, c: CommitId)
    ensures IsAncestor(g, c, c)
  {
  }

  lemma IsAncestorTransitive(g: Graph, a: CommitId, b: CommitId, c: CommitId)
    requires IsAncestor(g, a, b) && IsAncestor(g, b, c)
    ensures IsAncestor(g, a, c)
  {
    IsAncestorIffReaches(g, a, b);
    IsAncestorIffReaches(g, b, c);
    IsAncestorIffReaches(g, a, c);
    ReachesTransitive(g, c, b, a);
  }

  /** Two distinct commits of an acyclic history are never each other's
      ancestor: "local ahead" and "remote ahead" exclude each other. */
  lemma IsAncestorAntisymmetric(g: Graph, a: CommitId, b: CommitId)
    requires Acyclic(g) && IsAncestor(g, a, b) && IsAncestor(g, b, a)
    ensures a == b
  {
    IsAncestorIffReaches(g, a, b);
    IsAncestorIffReaches(g, b, a);
    ReachesAntisymmetric(g, a, b);
  }

  /** The best common ancestors of `a` and `b` (`git merge-base --all a b`):
      common ancestors that are not an ancestor of another common ancestor. */
  function MergeBase(g: Graph, a: CommitId, b: CommitId): set<CommitId>
  {
    var common := Ancestors(g, a) * Ancestors(g, b);
    set c | c in common && forall d | d in common && d != c :: !IsAncestor(g, c, d)
  }

  /** When `r` is an ancestor of `l`, `r` is their only best common ancestor,
      so `git merge-base l r` (which prints one best common ancestor) prints `r`. */
  lemma MergeBaseOfAncestor(g: Graph, l: CommitId, r: CommitId)
    requires Acyclic(g) && IsAncestor(g, r, l)
    ensures MergeBase(g, l, r) == {r}
  {
    var common := Ancestors(g, l) * Ancestors(g, r);
    IsAncestorReflexive(g, r);
    assert r in common;
    forall d | d in common && d != r ensures !IsAncestor(g, r, d) {
      if IsAncestor(g, r, d) {
        IsAncestorAntisymmetric(g, r, d);
      }
    }
    assert r in MergeBase(g, l, r);
    forall c | c in MergeBase(g, l, r) ensures c == r {
      assert c in common && IsAncestor(g, c, r);
    }
  }

  /** `r` is among the best common ancestors of `l` and `r` exactly when it
      is an ancestor of `l`. */
  lemma InMergeBaseIffAncestor(g: Graph, l: CommitId, r: CommitId)
    requires Acyclic(g)
    ensures r in MergeBase(g, l, r) <==> IsAncestor(g, r, l)
  {
    if IsAncestor(g, r, l) {
      MergeBaseOfAncestor(g, l, r);
    }
  }

  /** Every commit of `g` keeps its parents, message and time in `g'`. */
  predicate Extends(g: Graph, g': Graph)
  {
    forall c :: c in g ==> c in g' && g'[c] == g[c]
  }

  /** Paths that start away from a commit nobody points to never enter it. */
  lemma {:induction false} PathAvoidsFresh(g: Graph, n: CommitId, c: Commit, x: CommitId, y: CommitId, k: nat)
    requires Closed(g) && n !in g && x != n && ReachesIn(g[n := c], x, y, k)
    ensures ReachesIn(g, x, y, k)
    decreases k
  {
    if k > 0 {
      var g' := g[n := c];
      var p :| p in Parents(g', x) && ReachesIn(g', p, y, k - 1);
      assert Parents(g', x) == Parents(g, x);
      assert p in g;
      PathAvoidsFresh(g, n, c, p, y, k - 1);
    }
  }

  lemma {:induction false} ReachedIsKnown(g: Graph, x: CommitId, y: CommitId, k: nat)
    requires Closed(g) && x in g && ReachesIn(g, x, y, k)
    ensures y in g
    decreases k
  {
    if k > 0 {
      var p :| p in Parents(g, x) && ReachesIn(g, p, y, k - 1);
      ReachedIsKnown(g, p, y, k - 1);
    }
  }

  /** Adding a new commit whose parents are already present keeps the
      history closed and acyclic (what `index.commit` does). */
  lemma AddCommitKeepsAcyclic(g: Graph, n: CommitId, c: Commit)
    requires Closed(g) && Acyclic(g) && n !in g
    requires forall p :: p in c.parents ==> p in g
    ensures Closed(g[n := c]) && Acyclic(g[n := c]) && Extends(g, g[n := c])
  {
    var g' := g[n := c];
    forall z, k: nat | 0 < k ensures !ReachesIn(g', z, z, k) {
      if ReachesIn(g', z, z, k) {
        if z != n {
          PathAvoidsFresh(g, n, c, z, z, k);
        } else {
          var p :| p in Parents(g', z) && ReachesIn(g', p, z, k - 1);
          PathAvoidsFresh(g, n, c, p, z, k - 1);
          ReachedIsKnown(g, p, z, k - 1);
        }
      }
    }
  }
}
