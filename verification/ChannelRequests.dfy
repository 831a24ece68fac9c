/**
 Which channels are requested when the plugin connects: the recursion over the
 flat channel list, and the order it yields.
 */
module ChannelRequests {
  import opened Options
  import opened Forests

  /** A channel and the parent the server reports for it. */
  datatype Listed = Listed(id: Id, parent: Id)

  /**
   The list holds each channel other than 0 once.  The parents are arbitrary: some may be
   missing, and some channels may be each other's ancestors.
   */
  ghost predicate Lists(list: seq<Listed>, f: Forest) {
    && 0 in f.ids && 0 !in f.up && f.ids == f.up.Keys + {0}
    && (forall i :: 0 <= i < |list| ==> list[i].id in f.up && f.up[list[i].id] == list[i].parent)
    && (forall i, j :: 0 <= i < j < |list| ==> list[i].id != list[j].id)
    && (forall c :: c in f.up ==> Listed(c, f.up[c]) in list)
  }

  ghost predicate ProperlyBelow(f: Forest, top: Id, c: Id) {
    exists d: nat :: d > 0 && Climb(f, c, d) == Some(top)
  }

  /** Every channel comes after its parent, unless that is `top`. */
  ghost predicate ParentsFirst(f: Forest, top: Id, cs: seq<Id>) {
    forall j :: 0 <= j < |cs| ==> cs[j] in f.up && (f.up[cs[j]] == top || f.up[cs[j]] in cs[..j])
  }

  /** Exactly the channels below `top`, each once, parents first. */
  ghost predicate Walks(f: Forest, top: Id, cs: seq<Id>) {
    && (forall c :: c in cs <==> ProperlyBelow(f, top, c))
    && NoRepeats(cs) && ParentsFirst(f, top, cs)
  }

  /** Some child of `parent` among the first `n` of the list has `c` under it. */
  ghost predicate UnderEarlierChild(list: seq<Listed>, f: Forest, parent: Id, n: nat, c: Id)
    requires n <= |list|
  {
    exists k :: 0 <= k < n && list[k].parent == parent && Under(f, list[k].id, c)
  }

  /** The state of the loop over the list after `n` entries. */
  ghost predicate WalksChildren(list: seq<Listed>, f: Forest, parent: Id, n: nat, cs: seq<Id>)
    requires n <= |list|
  {
    && (forall c :: c in cs <==> UnderEarlierChild(list, f, parent, n, c))
    && NoRepeats(cs) && ParentsFirst(f, parent, cs)
  }

  /** The channel itself is not below itself, since 0 is reached from it at one height. */
  lemma NotBelowItself(f: Forest, x: Id, level: nat, d: nat)
    requires 0 !in f.up && Climb(f, x, level) == Some(0) && d > 0
    ensures Climb(f, x, d) != Some(x)
  {
    if Climb(f, x, d) == Some(x) {
      ClimbAdd(f, x, d, level);
      TopReachedOnce(f, x, 0, level, d + level);
    }
  }

  /** No channel is under two children of the same parent. */
  lemma SiblingsAreApart(f: Forest, parent: Id, level: nat, a: Id, b: Id, c: Id)
    requires 0 !in f.up && Climb(f, parent, level) == Some(0)
    requires Climb(f, a, 1) == Some(parent) && Climb(f, b, 1) == Some(parent) && Under(f, a, c) && Under(f, b, c)
    ensures a == b
  {
    if a != b {
      AncestorsComparable(f, c, a, b);
      var lower, upper := if Under(f, a, b) then b else a, if Under(f, a, b) then a else b;
      var d: nat :| Climb(f, lower, d) == Some(upper);
      ClimbPrefix(f, lower, 1, d);
      // the parent would be below its own child
      ClimbAdd(f, parent, d - 1, 1);
      NotBelowItself(f, parent, level, d);
    }
  }

  /** Being under an entry of the list that is a child is being properly below the parent. */
  lemma AllChildrenDone(list: seq<Listed>, f: Forest, parent: Id, cs: seq<Id>)
    requires Lists(list, f) && parent in f.ids && WalksChildren(list, f, parent, |list|, cs)
    ensures Walks(f, parent, cs)
  {
    forall c ensures c in cs <==> ProperlyBelow(f, parent, c) {
      if c in cs {
        var k :| 0 <= k < |list| && list[k].parent == parent && Under(f, list[k].id, c);
        var d: nat :| Climb(f, c, d) == Some(list[k].id);
        ClimbAdd(f, c, d, 1);
      }
      if ProperlyBelow(f, parent, c) {
        var d: nat :| d > 0 && Climb(f, c, d) == Some(parent);
        ClimbPrefix(f, c, d - 1, d);
        var x := Climb(f, c, d - 1).value;
        assert Climb(f, x, 1) == Some(parent);
        assert Listed(x, parent) in list;
        var k :| 0 <= k < |list| && list[k] == Listed(x, parent);
        assert UnderEarlierChild(list, f, parent, |list|, c);
      }
    }
  }

  /** Taking in the next child and everything below it. */
  lemma NextChildDone(list: seq<Listed>, f: Forest, parent: Id, level: nat, n: nat, cs: seq<Id>, sub: seq<Id>)
    requires Lists(list, f) && n < |list| && list[n].parent == parent && Climb(f, parent, level) == Some(0)
    requires WalksChildren(list, f, parent, n, cs) && Walks(f, list[n].id, sub)
    ensures WalksChildren(list, f, parent, n + 1, cs + [list[n].id] + sub)
  {
    var child := list[n].id;
    var all := cs + [child] + sub;
    assert Climb(f, child, 1) == Some(parent) && Climb(f, child, level + 1) == Some(0) by {
      ClimbStays(f, parent, level);
    }
    forall c ensures c in [child] + sub <==> Under(f, child, c) {
      if Under(f, child, c) {
        var d: nat :| Climb(f, c, d) == Some(child);
        assert d > 0 ==> ProperlyBelow(f, child, c);
      }
      assert Climb(f, child, 0) == Some(child);
    }
    forall c ensures c in all <==> UnderEarlierChild(list, f, parent, n + 1, c) {
      assert c in all <==> c in cs || c in [child] + sub;
    }
    forall c | c in cs && c in [child] + sub ensures false {
      var k :| 0 <= k < n && list[k].parent == parent && Under(f, list[k].id, c);
      SiblingsAreApart(f, parent, level, list[k].id, child, c);
    }
    forall d: nat | d > 0 ensures Climb(f, child, d) != Some(child) {
      NotBelowItself(f, child, level + 1, d);
    }
    assert child !in sub;
    assert NoRepeats(all) by { AppendedApart(cs, child, sub); }
    forall j | 0 <= j < |all| ensures all[j] in f.up && (f.up[all[j]] == parent || f.up[all[j]] in all[..j]) {
      AppendedParents(f, parent, cs, child, sub, j);
    }
  }

  lemma AppendedApart(cs: seq<Id>, child: Id, sub: seq<Id>)
    requires NoRepeats(cs) && NoRepeats(sub) && child !in sub && child !in cs && forall c :: c in cs ==> c !in sub
    ensures NoRepeats(cs + [child] + sub)
  {
    var all := cs + [child] + sub;
    forall i, j | 0 <= i < j < |all| ensures all[i] != all[j] {
      assert i < |cs| ==> all[i] in cs;
      assert j > |cs| ==> all[j] in sub;
    }
  }

  lemma AppendedParents(f: Forest, parent: Id, cs: seq<Id>, child: Id, sub: seq<Id>, j: nat)
    requires ParentsFirst(f, parent, cs) && ParentsFirst(f, child, sub) && child in f.up && f.up[child] == parent
    requires j < |cs + [child] + sub|
    ensures var all := cs + [child] + sub; all[j] in f.up && (f.up[all[j]] == parent || f.up[all[j]] in all[..j])
  {
    var all := cs + [child] + sub;
    if j < |cs| {
      assert all[..j] == cs[..j];
    } else if j > |cs| {
      var i := j - |cs| - 1;
      assert all[..j] == cs + [child] + sub[..i];
      assert child in all[..j];
    }
  }
}
