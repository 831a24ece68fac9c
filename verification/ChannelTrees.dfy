/**
 Channel trees and their pre-order lists with depths: what the server shows,
 what getChannelList returns, and what the configuration dialog rebuilds.
 */
module ChannelTrees {
  import opened Forests

  datatype Tree = Node(id: Id, name: string, kids: seq<Tree>)

  /** A line of the channel list. */
  datatype ChannelInfo = ChannelInfo(channelID: Id, depth: nat, name: string)

  /** The pre-order walk of a row of siblings at the given depth. */
  function Flatten(ts: seq<Tree>, depth: nat): seq<ChannelInfo> {
    if ts == [] then []
    else [ChannelInfo(ts[0].id, depth, ts[0].name)] + Flatten(ts[0].kids, depth + 1) + Flatten(ts[1..], depth)
  }

  /** The channels of a row of siblings and everything below them. */
  function Ids(ts: seq<Tree>): set<Id> {
    if ts == [] then {} else {ts[0].id} + Ids(ts[0].kids) + Ids(ts[1..])
  }

  /** Depths never drop below `depth` and grow by one at a time, starting at `depth`. */
  predicate PreOrder(list: seq<ChannelInfo>, depth: nat) {
    && (list != [] ==> list[0].depth == depth)
    && forall k :: 0 < k < |list| ==> depth <= list[k].depth <= list[k - 1].depth + 1
  }

  lemma {:induction false} FlattenConcat(a: seq<Tree>, b: seq<Tree>, depth: nat)
    ensures Flatten(a + b, depth) == Flatten(a, depth) + Flatten(b, depth)
  {
    if a == [] {
      assert a + b == b;
    } else {
      assert (a + b)[1..] == a[1..] + b;
      FlattenConcat(a[1..], b, depth);
    }
  }

  lemma {:induction false} IdsConcat(a: seq<Tree>, b: seq<Tree>)
    ensures Ids(a + b) == Ids(a) + Ids(b)
  {
    if a == [] {
      assert a + b == b;
    } else {
      assert (a + b)[1..] == a[1..] + b;
      IdsConcat(a[1..], b);
    }
  }

  lemma {:induction false} FlattenDepths(ts: seq<Tree>, depth: nat, k: nat)
    requires k < |Flatten(ts, depth)|
    ensures Flatten(ts, depth)[k].depth >= depth
    ensures k == 0 ==> Flatten(ts, depth)[k].depth == depth
  {
    var n := |Flatten(ts[0].kids, depth + 1)|;
    if 0 < k <= n {
      FlattenDepths(ts[0].kids, depth + 1, k - 1);
    } else if n < k {
      FlattenDepths(ts[1..], depth, k - 1 - n);
    }
  }

  /** A walk is a pre-order list. */
  lemma {:induction false} FlattenIsPreOrder(ts: seq<Tree>, depth: nat)
    ensures PreOrder(Flatten(ts, depth), depth)
  {
    if ts != [] {
      var list, below, after := Flatten(ts, depth), Flatten(ts[0].kids, depth + 1), Flatten(ts[1..], depth);
      FlattenIsPreOrder(ts[0].kids, depth + 1);
      FlattenIsPreOrder(ts[1..], depth);
      forall k | 0 < k < |list| ensures depth <= list[k].depth <= list[k - 1].depth + 1 {
        FlattenDepths(ts, depth, k - 1);
        if k <= |below| {
          assert list[k] == below[k - 1];
        } else {
          assert list[k] == after[k - 1 - |below|];
        }
      }
    }
  }

  /** The first `n` lines are deeper than `depth` and the next, if any, is at it. */
  ghost predicate SplitsAt(list: seq<ChannelInfo>, n: nat, depth: nat) {
    && n <= |list|
    && (forall k :: 0 <= k < n ==> list[k].depth > depth)
    && (n < |list| ==> list[n].depth == depth)
  }

  /** The lines of the first sibling's subtree are those before the next sibling. */
  lemma SubtreeSplits(ts: seq<Tree>, depth: nat)
    requires ts != []
    ensures var below: seq<ChannelInfo>, after: seq<ChannelInfo> := Flatten(ts[0].kids, depth + 1),
        Flatten(ts[1..], depth);
            && |Flatten(ts, depth)| > 0 && Flatten(ts, depth)[0] == ChannelInfo(ts[0].id, depth, ts[0].name)
            && Flatten(ts, depth)[1..] == below + after
            && SplitsAt(below + after, |below|, depth)
  {
    var below: seq<ChannelInfo>, after: seq<ChannelInfo> := Flatten(ts[0].kids, depth + 1), Flatten(ts[1..], depth);
    forall k: nat | k < |below| ensures (below + after)[k].depth > depth {
      FlattenDepths(ts[0].kids, depth + 1, k);
    }
    if after != [] {
      FlattenDepths(ts[1..], depth, 0);
    }
    assert Flatten(ts, depth) == [ChannelInfo(ts[0].id, depth, ts[0].name)] + (below + after);
  }

  lemma SplitIsUnique(list: seq<ChannelInfo>, m: nat, n: nat, depth: nat)
    requires SplitsAt(list, m, depth) && SplitsAt(list, n, depth)
    ensures m == n
  {
  }

  lemma SameParts(x: seq<ChannelInfo>, y: seq<ChannelInfo>, u: seq<ChannelInfo>, v: seq<ChannelInfo>)
    requires x + y == u + v && |x| == |u|
    ensures x == u && y == v
  {
    assert x == (x + y)[..|x|] && y == (x + y)[|x|..];
    assert u == (u + v)[..|u|] && v == (u + v)[|u|..];
  }

  lemma SameTrees(a: seq<Tree>, b: seq<Tree>)
    requires a != [] && b != [] && a[0] == b[0] && a[1..] == b[1..]
    ensures a == b
  {
    assert a == [a[0]] + a[1..] && b == [b[0]] + b[1..];
  }

  /** The list with depths determines the tree. */
  lemma {:induction false} FlattenIsInjective(a: seq<Tree>, b: seq<Tree>, depth: nat)
    requires Flatten(a, depth) == Flatten(b, depth)
    ensures a == b
  {
    if a == [] || b == [] {
      assert |Flatten(a, depth)| == |Flatten(b, depth)|;
    } else {
      SubtreeSplits(a, depth);
      SubtreeSplits(b, depth);
      hide Flatten, SplitsAt;
      var x, u := Flatten(a[0].kids, depth + 1), Flatten(b[0].kids, depth + 1);
      SplitIsUnique(Flatten(a, depth)[1..], |x|, |u|, depth);
      SameParts(x, Flatten(a[1..], depth), u, Flatten(b[1..], depth));
      FlattenIsInjective(a[0].kids, b[0].kids, depth + 1);
      FlattenIsInjective(a[1..], b[1..], depth);
      SameTrees(a, b);
    }
  }
}
