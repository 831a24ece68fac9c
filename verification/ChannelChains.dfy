/**
 From rows to trees: parent links and sibling chains that fit together make a
 tree, so the channel list is a pre-order walk without a tree being assumed.
 */
module ChannelChains {
  import opened Options
  import opened Forests
  import opened ChannelTables
  import opened ChannelTrees
  import opened ChannelListing

  /** The children of `parent`, in the order in which each names the one before; the first names channel 0. */
  ghost predicate ChainBelow(ch: Channels, parent: Id, ks: seq<Id>) {
    && (forall c :: c in ks <==> c in ch && c != 0 && ch[c].parent == parent)
    && (forall i :: 0 <= i < |ks| ==> ch[ks[i]].ordering == if i == 0 then 0 else ks[i - 1])
  }

  /** The children of each channel form one chain. */
  ghost predicate Chained(ch: Channels) {
    forall p :: p in ch ==> exists ks: seq<Id> :: ChainBelow(ch, p, ks)
  }

  /** Every channel but 0 is linked to the parent its row names, and siblings are chained. */
  ghost predicate Ordered(ch: Channels, f: Forest) {
    IsForest(f) && 0 in ch && 0 !in f.up && Linked(ch, f) && Chained(ch)
  }

  /** A channel has fewer channels under it than its parent. */
  lemma SubtreeShrinks(f: Forest, c: Id)
    requires IsForest(f) && c in f.up
    ensures |Subtree(f, c)| < |Subtree(f, f.up[c])| <= |f.ids|
  {
    var p := f.up[c];
    assert Climb(f, c, 1) == Some(p) && Climb(f, p, 0) == Some(p);
    forall x | x in Subtree(f, c) ensures x in Subtree(f, p) && x != p {
      UnderTransitive(f, p, c, x);
      if x == p {
        var d: nat :| Climb(f, p, d) == Some(c);
        ClimbAdd(f, c, 1, d);
        assert false;
      }
    }
    SubsetIsSmaller(Subtree(f, c) + {p}, Subtree(f, p));
    SubsetIsSmaller(Subtree(f, p), f.ids);
  }

  lemma {:induction false} EverythingIsUnderTop(ch: Channels, f: Forest, c: Id)
    requires Ordered(ch, f) && c in ch
    ensures Under(f, 0, c)
    decreases |f.ids| - |Subtree(f, c)|
  {
    assert Climb(f, c, 0) == Some(c);
    if c != 0 {
      SubtreeShrinks(f, c);
      EverythingIsUnderTop(ch, f, f.up[c]);
      assert Climb(f, c, 1) == Some(f.up[c]);
      UnderTransitive(f, 0, f.up[c], c);
    }
  }

  ghost predicate UnderOneOf(f: Forest, ks: seq<Id>, i: nat, c: Id) {
    exists j :: i <= j < |ks| && Under(f, ks[j], c)
  }

  /** A link of a chain is a child. */
  lemma LinkIsChild(ch: Channels, f: Forest, p: Id, ks: seq<Id>, i: nat)
    requires Ordered(ch, f) && ChainBelow(ch, p, ks) && i < |ks|
    ensures var k := ks[i];
            && k in ch && k != 0 && ch[k].parent == p && ch[k].ordering == (if i == 0 then 0 else ks[i - 1])
            && Climb(f, k, 0) == Some(k) && Climb(f, k, 1) == Some(p) && |Subtree(f, k)| < |Subtree(f, p)|
  {
    assert ks[i] in ks;
    SubtreeShrinks(f, ks[i]);
  }

  lemma OneMoreSibling(f: Forest, ks: seq<Id>, i: nat, name: string, kids: seq<Tree>, others: seq<Tree>)
    requires i < |ks| && Climb(f, ks[i], 0) == Some(ks[i])
    requires forall c :: c in Ids(kids) <==> c != ks[i] && Under(f, ks[i], c)
    requires forall c :: c in Ids(others) <==> UnderOneOf(f, ks, i + 1, c)
    ensures forall c :: c in Ids([Node(ks[i], name, kids)] + others) <==> UnderOneOf(f, ks, i, c)
  {
    var ts := [Node(ks[i], name, kids)] + others;
    assert ts[1..] == others && Ids(ts) == {ks[i]} + Ids(kids) + Ids(others);
    assert Under(f, ks[i], ks[i]);
    forall c ensures UnderOneOf(f, ks, i, c) <==> Under(f, ks[i], c) || UnderOneOf(f, ks, i + 1, c) {
    }
  }

  /** The trees of the siblings from number `i` on. */
  lemma {:induction false} GrowRow(ch: Channels, f: Forest, p: Id, ks: seq<Id>, i: nat) returns (ts: seq<Tree>)
    requires Ordered(ch, f) && p in ch && ChainBelow(ch, p, ks) && i <= |ks|
    ensures Arranged(ch, p, if i == 0 then 0 else ks[i - 1], ts)
    ensures forall c :: c in Ids(ts) <==> UnderOneOf(f, ks, i, c)
    decreases |Subtree(f, p)|, 0, |ks| - i
  {
    hide Ordered, ChainBelow, Subtree, Under, Climb;
    if i == |ks| {
      ts := [];
    } else {
      LinkIsChild(ch, f, p, ks, i);
      var kids := GrowBelow(ch, f, ks[i]);
      var others := GrowRow(ch, f, p, ks, i + 1);
      ts := [Node(ks[i], ch[ks[i]].name, kids)] + others;
      assert ts[1..] == others;
      OneMoreSibling(f, ks, i, ch[ks[i]].name, kids, others);
    }
  }

  /** The trees below `p`, which hold exactly its proper descendants. */
  lemma {:induction false} GrowBelow(ch: Channels, f: Forest, p: Id) returns (ts: seq<Tree>)
    requires Ordered(ch, f) && p in ch
    ensures Arranged(ch, p, 0, ts)
    ensures forall c :: c in Ids(ts) <==> c != p && Under(f, p, c)
    decreases |Subtree(f, p)|, 1, 0
  {
    var ks: seq<Id> :| ChainBelow(ch, p, ks);
    ts := GrowRow(ch, f, p, ks, 0);
    forall c ensures UnderOneOf(f, ks, 0, c) <==> c != p && Under(f, p, c) {
      UnderAChild(ch, f, p, ks, c);
    }
  }

  lemma UnderAChild(ch: Channels, f: Forest, p: Id, ks: seq<Id>, c: Id)
    requires Ordered(ch, f) && p in ch && ChainBelow(ch, p, ks)
    ensures UnderOneOf(f, ks, 0, c) <==> c != p && Under(f, p, c)
  {
    if j: nat :| j < |ks| && Under(f, ks[j], c) {
      BelowAChild(ch, f, p, ks, j, c);
    }
    if c != p && Under(f, p, c) {
      var j := ChildAbove(ch, f, p, ks, c);
    }
  }

  lemma BelowAChild(ch: Channels, f: Forest, p: Id, ks: seq<Id>, j: nat, c: Id)
    requires Ordered(ch, f) && ChainBelow(ch, p, ks) && j < |ks| && Under(f, ks[j], c)
    ensures c != p && Under(f, p, c)
  {
    hide Ordered, ChainBelow, Subtree;
    LinkIsChild(ch, f, p, ks, j);
    var d: nat :| Climb(f, c, d) == Some(ks[j]);
    ClimbAdd(f, c, d, 1);
    assert Acyclic(f) by { OrderedIsAcyclic(ch, f); }
  }

  lemma OrderedIsAcyclic(ch: Channels, f: Forest)
    requires Ordered(ch, f)
    ensures Acyclic(f)
  {
  }

  /** A child is a link of the chain. */
  lemma ChildIsLink(ch: Channels, f: Forest, p: Id, ks: seq<Id>, k: Id)
    requires Ordered(ch, f) && ChainBelow(ch, p, ks) && Climb(f, k, 1) == Some(p)
    ensures k in ks
  {
    hide IsForest, Chained;
  }

  lemma ChildAbove(ch: Channels, f: Forest, p: Id, ks: seq<Id>, c: Id) returns (j: nat)
    requires Ordered(ch, f) && ChainBelow(ch, p, ks) && c != p && Under(f, p, c)
    ensures j < |ks| && Under(f, ks[j], c)
  {
    hide Ordered, ChainBelow;
    var d: nat :| Climb(f, c, d) == Some(p);
    ClimbPrefix(f, c, d - 1, d);
    var k := Climb(f, c, d - 1).value;
    ChildIsLink(ch, f, p, ks, k);
    j :| j < |ks| && ks[j] == k;
  }

  /** Such tables describe a tree. */
  lemma ChainsMakeTree(ch: Channels, f: Forest) returns (ts: seq<Tree>)
    requires Ordered(ch, f)
    ensures Describes(ch, ts)
  {
    ts := GrowBelow(ch, f, 0);
    forall c | c in ch ensures Under(f, 0, c) {
      EverythingIsUnderTop(ch, f, c);
    }
    forall c | Under(f, 0, c) ensures c in ch {
      var d: nat :| Climb(f, c, d) == Some(0);
    }
  }

  lemma {:induction false} HangsSomewhere(ts: seq<Tree>, base: seq<nat>, k: nat, c: Id)
    returns (n: Tree, front: seq<nat>, i: nat)
    requires c in Ids(ts)
    ensures n.id == c && HangsAt(ts, base, k, n, front + [i])
    decreases ts
  {
    if c == ts[0].id {
      n, front, i := ts[0], base, k;
    } else if c in Ids(ts[0].kids) {
      n, front, i := HangsSomewhere(ts[0].kids, base + [k], 1, c);
    } else {
      n, front, i := HangsSomewhere(ts[1..], base, k + 1, c);
    }
  }

  /**
   getChannelList, from the rows alone: for any channel, the listing is the pre-order walk of
   one tree whose siblings follow their chains, and names exactly the closure rows of that channel.
   */
  lemma ListingOfChannel(db: Database, f: Forest, root: Id, rows: seq<ListRow>) returns (n: Tree)
    requires Represents(db, f) && AllLinked(db.channels, f) && Chained(db.channels)
    requires 0 in db.channels && 0 !in f.up && root in db.channels
    requires |db.channels| <= ROW_LIMIT && Answers(db.channels, root, rows)
    ensures forall r <- rows :: r.path != []
    ensures n.id == root && n.name == db.channels[root].name && Arranged(db.channels, root, 0, n.kids)
    ensures Infos(rows) == Flatten([n], 0)
    ensures forall c: Id, d: nat :: ClosureRow(root, c, d) in db.closure <==> Lists(Infos(rows), c, d)
  {
    assert Ordered(db.channels, f);
    hide Answers, Infos, Flatten, Lists, Represents, AllLinked;
    var ts := ChainsMakeTree(db.channels, f);
    var whole := Whole(db.channels, ts);
    assert [whole][1..] == [] && root in Ids([whole]);
    var front, i;
    n, front, i := HangsSomewhere([whole], [], 0, root);
    PlaceIsArranged(db.channels, ts, n, front, i);
    ListingIsWalk(db, f, ts, n, front, i, rows);
  }
}
