/**
 Parent forests over channel numbers: the simple structure that the closure
 table of the channel database speeds up.  `Climb` follows parent links,
 everything else is stated through it.
 */
module Forests {
  import opened Options

  /** A channel number (an unsigned 64-bit number on the server). */
  type Id = nat

  /** The channels present, and the parent link of each linked one. */
  datatype Forest = Forest(ids: set<Id>, up: map<Id, Id>)

  /** The channel `d` parent steps above `x`, if there is one. */
  function Climb(f: Forest, x: Id, d: nat): Option<Id>
    decreases d
  {
    if x !in f.ids then None
    else if d == 0 then Some(x)
    else if x in f.up then Climb(f, f.up[x], d - 1)
    else None
  }

  ghost predicate NoRepeats(cs: seq<Id>) {
    forall i, j :: 0 <= i < j < |cs| ==> cs[i] != cs[j]
  }

  ghost predicate Closed(f: Forest) {
    && f.up.Keys <= f.ids
    && forall x :: x in f.up ==> f.up[x] in f.ids
  }

  /** No channel is its own proper ancestor. */
  ghost predicate Acyclic(f: Forest) {
    forall x: Id, d: nat :: d > 0 ==> Climb(f, x, d) != Some(x)
  }

  ghost predicate IsForest(f: Forest) {
    Closed(f) && Acyclic(f)
  }

  /** `x` is `root` or one of its descendants. */
  ghost predicate Under(f: Forest, root: Id, x: Id) {
    exists d: nat :: Climb(f, x, d) == Some(root)
  }

  // ---------- climbing ----------

  lemma {:induction false} ClimbAdd(f: Forest, x: Id, i: nat, j: nat)
    requires Climb(f, x, i).Some?
    ensures Climb(f, x, i + j) == Climb(f, Climb(f, x, i).value, j)
    decreases i
  {
    if i > 0 {
      ClimbAdd(f, f.up[x], i - 1, j);
    }
  }

  /** A climb that succeeds passes through every lower height. */
  lemma {:induction false} ClimbPrefix(f: Forest, x: Id, i: nat, j: nat)
    requires i <= j && Climb(f, x, j).Some?
    ensures Climb(f, x, i).Some?
    ensures Climb(f, Climb(f, x, i).value, j - i) == Climb(f, x, j)
    decreases i
  {
    if i > 0 {
      ClimbPrefix(f, f.up[x], i - 1, j - 1);
    }
  }

  lemma {:induction false} ClimbStays(f: Forest, x: Id, d: nat)
    requires Climb(f, x, d).Some?
    ensures x in f.ids && Climb(f, x, d).value in f.ids
    decreases d
  {
    if d > 0 {
      ClimbStays(f, f.up[x], d - 1);
    }
  }

  /** Each ancestor is met at one height only. */
  lemma {:induction false} OneDepthPerPair(f: Forest, x: Id, a: Id, i: nat, j: nat)
    requires Acyclic(f)
    requires Climb(f, x, i) == Some(a) && Climb(f, x, j) == Some(a)
    ensures i == j
  {
    if i < j {
      ClimbPrefix(f, x, i, j);
    } else if j < i {
      ClimbPrefix(f, x, j, i);
    }
  }

  /** A channel without a parent link is reached at one height only, even if there are cycles elsewhere. */
  lemma {:induction false} TopReachedOnce(f: Forest, x: Id, top: Id, i: nat, j: nat)
    requires top !in f.up && Climb(f, x, i) == Some(top) && Climb(f, x, j) == Some(top)
    ensures i == j
    decreases i
  {
    if i > 0 && j > 0 {
      TopReachedOnce(f, f.up[x], top, i - 1, j - 1);
    }
  }

  /** The channels met on a climb. */
  ghost function Chain(f: Forest, x: Id, k: nat): set<Id>
    requires Climb(f, x, k).Some?
    decreases k
  {
    {x} + if k == 0 then {} else Chain(f, f.up[x], k - 1)
  }

  ghost predicate ReachesWithin(f: Forest, x: Id, top: Id, k: nat) {
    exists j: nat :: j <= k && Climb(f, x, j) == Some(top)
  }

  lemma {:induction false} ChainIsLong(f: Forest, x: Id, top: Id, k: nat)
    requires top !in f.up && Climb(f, x, k) == Some(top)
    ensures |Chain(f, x, k)| == k + 1 && Chain(f, x, k) <= f.ids
    ensures forall y :: y in Chain(f, x, k) ==> ReachesWithin(f, y, top, k)
    decreases k
  {
    if k > 0 {
      var rest := Chain(f, f.up[x], k - 1);
      ChainIsLong(f, f.up[x], top, k - 1);
      if x in rest {
        var j: nat :| j <= k - 1 && Climb(f, x, j) == Some(top);
        TopReachedOnce(f, x, top, j, k);
      }
      assert Chain(f, x, k) == {x} + rest && x !in rest;
    }
    assert ReachesWithin(f, x, top, k);
  }

  /** A climb to the top is shorter than the number of channels. */
  lemma ClimbIsBounded(f: Forest, x: Id, top: Id, k: nat)
    requires top !in f.up && Climb(f, x, k) == Some(top)
    ensures k < |f.ids|
  {
    ChainIsLong(f, x, top, k);
    SubsetIsSmaller(Chain(f, x, k), f.ids);
  }

  lemma {:induction false} SubsetIsSmaller(a: set<Id>, b: set<Id>)
    requires a <= b
    ensures |a| <= |b|
  {
    if a != {} {
      var x :| x in a;
      SubsetIsSmaller(a - {x}, b - {x});
    }
  }

  lemma UnderTransitive(f: Forest, a: Id, b: Id, c: Id)
    requires Under(f, a, b) && Under(f, b, c)
    ensures Under(f, a, c)
  {
    var i: nat :| Climb(f, b, i) == Some(a);
    var j: nat :| Climb(f, c, j) == Some(b);
    ClimbAdd(f, c, j, i);
  }

  /** Two ancestors of one channel are comparable. */
  lemma AncestorsComparable(f: Forest, x: Id, a: Id, b: Id)
    requires Under(f, a, x) && Under(f, b, x)
    ensures Under(f, a, b) || Under(f, b, a)
  {
    var i: nat :| Climb(f, x, i) == Some(a);
    var j: nat :| Climb(f, x, j) == Some(b);
    if i <= j {
      ClimbPrefix(f, x, i, j);
    } else {
      ClimbPrefix(f, x, j, i);
    }
  }

  // ---------- removing a subtree, adding a leaf ----------

  ghost function Subtree(f: Forest, root: Id): set<Id> {
    set x | x in f.ids && Under(f, root, x)
  }

  /** The forest without `root` and everything below it. */
  ghost function Prune(f: Forest, root: Id): Forest {
    var kept := f.ids - Subtree(f, root);
    Forest(kept, map x | x in f.up && x in kept :: f.up[x])
  }

  /** The forest with `c` added, linked to `p` only if `p` is present. */
  function Graft(f: Forest, c: Id, p: Id): Forest {
    Forest(f.ids + {c}, if p in f.ids then f.up[c := p] else f.up)
  }

  /** Surviving channels keep their whole ancestry. */
  lemma {:induction false} ClimbPruned(f: Forest, root: Id, x: Id, d: nat)
    requires Closed(f)
    ensures Climb(Prune(f, root), x, d)
         == if x in f.ids && !Under(f, root, x) then Climb(f, x, d) else None
    decreases d
  {
    if x in f.ids && !Under(f, root, x) && d > 0 && x in f.up {
      if Under(f, root, f.up[x]) {
        assert Climb(f, x, 1) == Some(f.up[x]);
        UnderTransitive(f, root, f.up[x], x);
      }
      ClimbPruned(f, root, f.up[x], d - 1);
    }
  }

  lemma PruneIsForest(f: Forest, root: Id)
    requires IsForest(f)
    ensures IsForest(Prune(f, root))
  {
    var g := Prune(f, root);
    forall x | x in g.up ensures g.up[x] in g.ids {
      ClimbPruned(f, root, x, 1);
      assert Climb(f, x, 1) == Some(f.up[x]);
      if Under(f, root, f.up[x]) {
        UnderTransitive(f, root, f.up[x], x);
      }
    }
    forall x: Id, d: nat | d > 0 ensures Climb(g, x, d) != Some(x) {
      ClimbPruned(f, root, x, d);
    }
  }

  lemma {:induction false} ClimbGrafted(f: Forest, c: Id, p: Id, x: Id, d: nat)
    requires Closed(f) && c !in f.ids && p != c
    ensures Climb(Graft(f, c, p), x, d)
         == if x != c then Climb(f, x, d)
            else if d == 0 then Some(c)
            else if p in f.ids then Climb(f, p, d - 1) else None
    decreases d
  {
    if d > 0 {
      if x == c {
        if p in f.ids {
          ClimbGrafted(f, c, p, p, d - 1);
        }
      } else if x in f.up {
        ClimbGrafted(f, c, p, f.up[x], d - 1);
      }
    }
  }

  lemma GraftIsForest(f: Forest, c: Id, p: Id)
    requires IsForest(f) && c !in f.ids && p != c
    ensures IsForest(Graft(f, c, p))
  {
    var g := Graft(f, c, p);
    forall x: Id, d: nat | d > 0 ensures Climb(g, x, d) != Some(x) {
      ClimbGrafted(f, c, p, x, d);
      if x == c && p in f.ids && Climb(f, p, d - 1).Some? {
        ClimbStays(f, p, d - 1);
      }
    }
  }

  // ---------- tree distance ----------

  ghost predicate Adjacent(f: Forest, a: Id, b: Id) {
    Climb(f, a, 1) == Some(b) || Climb(f, b, 1) == Some(a)
  }

  /** There is a walk of `n` parent or child steps from `a` to `b`. */
  ghost predicate Walk(f: Forest, a: Id, b: Id, n: nat)
    decreases n
  {
    if n == 0 then a == b && a in f.ids
    else exists m: Id :: Adjacent(f, a, m) && Walk(f, m, b, n - 1)
  }

  /** `n` is the length of a shortest undirected walk. */
  ghost predicate IsDistance(f: Forest, a: Id, b: Id, n: nat) {
    Walk(f, a, b, n) && forall m: nat :: Walk(f, a, b, m) ==> n <= m
  }

  /** `w` is an ancestor of both, and every common ancestor is above it. */
  ghost predicate IsLca(f: Forest, w: Id, a: Id, b: Id) {
    && Under(f, w, a) && Under(f, w, b)
    && forall v: Id :: Under(f, v, a) && Under(f, v, b) ==> Under(f, v, w)
  }

  /** Going up to a common ancestor and down again is a walk. */
  lemma {:induction false} WalkThroughAncestor(f: Forest, a: Id, b: Id, w: Id, i: nat, j: nat)
    requires Climb(f, a, i) == Some(w) && Climb(f, b, j) == Some(w)
    ensures Walk(f, a, b, i + j)
    decreases i, j
  {
    if i > 0 {
      assert f.up[a] in f.ids by { ClimbPrefix(f, a, 1, i); ClimbStays(f, a, 1); }
      WalkThroughAncestor(f, f.up[a], b, w, i - 1, j);
      assert Adjacent(f, a, f.up[a]);
    } else if j > 0 {
      // the first step goes down, to the ancestor of b just below w
      ClimbPrefix(f, b, j - 1, j);
      var m := Climb(f, b, j - 1).value;
      WalkThroughAncestor(f, m, b, m, 0, j - 1);
      assert Adjacent(f, a, m);
    }
  }

  /** No walk is shorter than the detour through some common ancestor. */
  lemma {:induction false} WalkHasAncestor(f: Forest, a: Id, b: Id, n: nat) returns (w: Id, i: nat, j: nat)
    requires Walk(f, a, b, n)
    ensures Climb(f, a, i) == Some(w) && Climb(f, b, j) == Some(w) && i + j <= n
    decreases n
  {
    if n == 0 {
      w, i, j := a, 0, 0;
    } else {
      var m: Id :| Adjacent(f, a, m) && Walk(f, m, b, n - 1);
      w, i, j := WalkHasAncestor(f, m, b, n - 1);
      if Climb(f, a, 1) == Some(m) {
        ClimbAdd(f, a, 1, i);
        i := i + 1;
      } else if i == 0 {
        ClimbAdd(f, b, j, 1);
        w, j := a, j + 1;
      } else {
        ClimbPrefix(f, m, 1, i);
        i := i - 1;
      }
    }
  }

  /** Up to the lowest common ancestor and down again is a shortest walk. */
  lemma LcaIsNearest(f: Forest, a: Id, b: Id, w: Id, i: nat, j: nat)
    requires Acyclic(f) && IsLca(f, w, a, b)
    requires Climb(f, a, i) == Some(w) && Climb(f, b, j) == Some(w)
    ensures IsDistance(f, a, b, i + j)
  {
    WalkThroughAncestor(f, a, b, w, i, j);
    forall m: nat | Walk(f, a, b, m) ensures i + j <= m {
      var v, p, q := WalkHasAncestor(f, a, b, m);
      CommonAncestorAbove(f, a, b, w, i, j, v, p, q);
    }
  }

  /** Every common ancestor is the same number of steps further for both. */
  lemma CommonAncestorAbove(f: Forest, a: Id, b: Id, w: Id, i: nat, j: nat, v: Id, p: nat, q: nat)
    requires Acyclic(f) && IsLca(f, w, a, b)
    requires Climb(f, a, i) == Some(w) && Climb(f, b, j) == Some(w)
    requires Climb(f, a, p) == Some(v) && Climb(f, b, q) == Some(v)
    ensures i <= p && j <= q && p - i == q - j && Climb(f, w, p - i) == Some(v)
  {
    assert Under(f, v, w);
    var k: nat :| Climb(f, w, k) == Some(v);
    ClimbAdd(f, a, i, k);
    ClimbAdd(f, b, j, k);
    OneDepthPerPair(f, a, v, i + k, p);
    OneDepthPerPair(f, b, v, j + k, q);
  }

  /** Two channels with a common ancestor have a lowest one, at or below it. */
  lemma {:induction false} LcaExists(f: Forest, a: Id, b: Id, v: Id, p: nat, q: nat) returns (w: Id, i: nat, j: nat)
    requires Acyclic(f)
    requires Climb(f, a, p) == Some(v) && Climb(f, b, q) == Some(v)
    ensures IsLca(f, w, a, b) && Under(f, v, w)
    ensures Climb(f, a, i) == Some(w) && Climb(f, b, j) == Some(w) && i <= p && j <= q
    decreases p
  {
    if p > 0 && q > 0 && Climb(f, a, p - 1) == Climb(f, b, q - 1) {
      ClimbPrefix(f, a, p - 1, p);
      var u := Climb(f, a, p - 1).value;
      w, i, j := LcaExists(f, a, b, u, p - 1, q - 1);
      assert Climb(f, u, 1) == Some(v);
      UnderTransitive(f, v, u, w);
    } else {
      w, i, j := v, p, q;
      ClimbStays(f, a, p);
      assert Climb(f, v, 0) == Some(v);
      forall u: Id | Under(f, u, a) && Under(f, u, b) ensures Under(f, u, v) {
        ForkIsLowest(f, a, b, v, p, q, u);
      }
    }
  }

  /** Where two branches part, no lower channel is above both. */
  lemma ForkIsLowest(f: Forest, a: Id, b: Id, v: Id, p: nat, q: nat, u: Id)
    requires Acyclic(f)
    requires Climb(f, a, p) == Some(v) && Climb(f, b, q) == Some(v)
    requires p == 0 || q == 0 || Climb(f, a, p - 1) != Climb(f, b, q - 1)
    requires Under(f, u, a) && Under(f, u, b)
    ensures Under(f, u, v)
  {
    var i: nat :| Climb(f, a, i) == Some(u);
    var j: nat :| Climb(f, b, j) == Some(u);
    if p <= i {
      ClimbPrefix(f, a, p, i);
    } else if q <= j {
      ClimbPrefix(f, b, q, j);
    } else {
      // u is strictly below v on both branches, at the same height above it
      ClimbPrefix(f, a, i, p);
      ClimbPrefix(f, b, j, q);
      OneDepthPerPair(f, u, v, p - i, q - j);
      var k := p - i - 1;
      ClimbAdd(f, a, i, k);
      ClimbAdd(f, b, j, k);
      assert false;
    }
  }
}
