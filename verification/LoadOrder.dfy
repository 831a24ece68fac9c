/**
 The forest that results from loading channels one by one, and when it is the
 server's.
 */
module LoadOrder {
  import opened Options
  import opened Forests
  import opened ChannelTables
  import opened ChannelRequests

  /** The forest after the channels have been added in this order to a fresh database. */
  ghost function Loaded(f: Forest, cs: seq<Id>): Forest
    requires forall c <- cs :: c in f.up
  {
    if cs == [] then ROOT_ONLY
    else
      var last := cs[|cs| - 1];
      Graft(Prune(Loaded(f, cs[..|cs| - 1]), last), last, f.up[last])
  }

  /** The server's channels of this order, with all their parent links. */
  ghost function ServerPart(f: Forest, cs: seq<Id>): Forest
    requires forall c <- cs :: c in f.up
  {
    Forest({0} + (set c | c in cs), map c | c in cs :: f.up[c])
  }

  /** Different channels other than 0, none its own parent. */
  ghost predicate Loadable(f: Forest, cs: seq<Id>) {
    NoRepeats(cs) && 0 !in cs && forall c <- cs :: c in f.up && f.up[c] != c
  }

  /** A channel that is not there is not removed. */
  lemma PruneAbsent(f: Forest, c: Id)
    requires IsForest(f) && c !in f.ids
    ensures Prune(f, c) == f
  {
    forall x, d: nat | Climb(f, x, d).Some? ensures Climb(f, x, d) != Some(c) {
      ClimbStays(f, x, d);
    }
    assert Subtree(f, c) == {};
  }

  /** The links after these channels have been loaded: each exactly if its parent was there before it. */
  ghost predicate LinkedInTurn(f: Forest, cs: seq<Id>, g: Forest)
    requires forall c <- cs :: c in f.up
  {
    && g.ids == {0} + (set c | c in cs)
    && (forall x :: x in g.up ==> x in cs && g.up[x] == f.up[x])
    && (forall j :: 0 <= j < |cs| ==> (cs[j] in g.up <==> f.up[cs[j]] == 0 || f.up[cs[j]] in cs[..j]))
  }

  lemma NextInTurn(f: Forest, front: seq<Id>, last: Id, g: Forest)
    requires (forall c <- front :: c in f.up) && last in f.up && last !in front && last != 0
    requires LinkedInTurn(f, front, g)
    ensures LinkedInTurn(f, front + [last], Graft(g, last, f.up[last]))
  {
    var cs, h := front + [last], Graft(g, last, f.up[last]);
    assert last !in g.up;
    forall j | 0 <= j < |cs| ensures cs[j] in h.up <==> f.up[cs[j]] == 0 || f.up[cs[j]] in cs[..j] {
      if j < |front| {
        assert front[..j] == cs[..j] && front[j] == cs[j];
      } else {
        assert cs[..j] == front;
      }
    }
  }

  lemma LoadableFront(f: Forest, cs: seq<Id>)
    requires Loadable(f, cs) && cs != []
    ensures var front, last := cs[..|cs| - 1], cs[|cs| - 1];
            && cs == front + [last] && Loadable(f, front)
            && last in f.up && last !in front && last != 0 && f.up[last] != last
  {
    assert cs[|cs| - 1] in cs;
  }

  /** Each loaded channel is linked exactly if its parent was there before it. */
  lemma {:induction false} LoadedLinks(f: Forest, cs: seq<Id>)
    requires Loadable(f, cs)
    ensures IsForest(Loaded(f, cs)) && LinkedInTurn(f, cs, Loaded(f, cs))
    decreases |cs|
  {
    if cs == [] {
      InitRepresents();
    } else {
      var front, last := cs[..|cs| - 1], cs[|cs| - 1];
      var before := Loaded(f, front);
      LoadableFront(f, cs);
      LoadedLinks(f, front);
      assert before.ids == {0} + set c | c in front;
      hide Loadable, IsForest, LinkedInTurn, Graft;
      PruneAbsent(before, last);
      GraftIsForest(before, last, f.up[last]);
      NextInTurn(f, front, last, before);
    }
  }

  /** The database ends up with the server's tree exactly if every parent is loaded before its children. */
  lemma CompleteIffParentsFirst(f: Forest, cs: seq<Id>)
    requires Loadable(f, cs)
    ensures Loaded(f, cs) == ServerPart(f, cs) <==> ParentsFirst(f, 0, cs)
  {
    hide Loaded, IsForest, NoRepeats;
    var g, part := Loaded(f, cs), ServerPart(f, cs);
    LoadedLinks(f, cs);
    if g == part {
      forall j | 0 <= j < |cs| ensures f.up[cs[j]] == 0 || f.up[cs[j]] in cs[..j] {
        assert cs[j] in part.up;
      }
    }
    if ParentsFirst(f, 0, cs) {
      forall c | c in cs ensures c in g.up {
        var j: nat :| j < |cs| && cs[j] == c;
      }
      assert g.up == part.up;
    }
  }

  /** A reply that overtakes its parent's is not linked. */
  lemma OvertakingLosesTheLink()
    ensures var f := Forest({0, 1, 2}, map[1 := 0, 2 := 1]);
            Loadable(f, [2, 1]) && !Under(Loaded(f, [2, 1]), 1, 2)
  {
    var f := Forest({0, 1, 2}, map[1 := 0, 2 := 1]);
    var cs: seq<Id> := [2, 1];
    LoadedLinks(f, cs);
    var g := Loaded(f, cs);
    assert cs[0] == 2 && cs[..0] == [];
    assert 2 !in g.up;
    forall d: nat ensures Climb(g, 2, d) != Some(1) {
    }
  }

  /** When everything below 0 has been taken over, the ancestry of each channel is the server's. */
  lemma {:induction false} PartHasTheAncestry(f: Forest, cs: seq<Id>, c: Id, d: nat)
    requires 0 in f.ids && 0 !in f.up && f.up.Keys <= f.ids
    requires (forall x <- cs :: x in f.up) && forall x :: x in cs <==> ProperlyBelow(f, 0, x)
    requires c == 0 || c in cs
    ensures Climb(ServerPart(f, cs), c, d) == Climb(f, c, d)
    decreases d
  {
    if c != 0 && d > 0 {
      var k: nat :| k > 0 && Climb(f, c, k) == Some(0);
      assert Climb(f, f.up[c], k - 1) == Some(0);
      if k > 1 {
        assert ProperlyBelow(f, 0, f.up[c]);
      }
      PartHasTheAncestry(f, cs, f.up[c], d - 1);
    }
  }

  /** A walk of the channels below 0 can be loaded. */
  lemma WalkIsLoadable(f: Forest, cs: seq<Id>)
    requires 0 !in f.up && Walks(f, 0, cs)
    ensures Loadable(f, cs)
  {
    forall c | c in cs ensures c != 0 && f.up[c] != c {
      var d: nat :| d > 0 && Climb(f, c, d) == Some(0);
      NotBelowItself(f, c, d, 1);
    }
  }
}
