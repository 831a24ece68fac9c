/**
 The recursive query behind getChannelList: sibling numbers by following
 `ordering` from channel 0, paths by following `parent` from the root, and a
 sort by the printed path.
 */
module ChannelListing {
  import opened Options
  import opened Forests
  import opened ChannelTables
  import opened ChannelTrees
  import opened PathOrder

  type Channels = map<Id, ChannelRow>

  /** The channels, each linked to the one it is ordered behind. */
  ghost function ByOrdering(ch: Channels): Forest {
    Forest(ch.Keys, map c | c in ch && c != 0 :: ch[c].ordering)
  }

  /** Row (c, k) of the `sort` table: following `ordering` from `c` reaches channel 0 in `k` steps. */
  ghost predicate SortRow(ch: Channels, c: Id, k: nat) {
    Climb(ByOrdering(ch), c, k) == Some(0)
  }

  /** Row (c, path) of the `tree` table, which starts at `root`. */
  ghost predicate TreeRow(ch: Channels, root: Id, c: Id, path: seq<nat>)
    decreases |path|
  {
    && path != [] && SortRow(ch, c, path[|path| - 1])
    && if |path| == 1 then c == root else c != 0 && TreeRow(ch, root, ch[c].parent, path[..|path| - 1])
  }

  /** A row of the result, with its sort key. */
  datatype ListRow = ListRow(channelId: Id, path: seq<nat>, name: string)

  /** Each row of the `tree` table once, in the order of the printed paths. */
  ghost predicate Answers(ch: Channels, root: Id, rows: seq<ListRow>) {
    && (forall r: ListRow :: r in rows <==> TreeRow(ch, root, r.channelId, r.path) && r.name == ch[r.channelId].name)
    && (forall i, j :: 0 <= i < j < |rows| ==> rows[i] != rows[j])
    && (forall i, j :: 0 <= i < j < |rows| ==> !StringLess(PathString(rows[j].path), PathString(rows[i].path)))
  }

  /** What getChannelList makes of the rows. */
  function Infos(rows: seq<ListRow>): (list: seq<ChannelInfo>)
    requires forall r <- rows :: r.path != []
    ensures |list| == |rows|
  {
    seq(|rows|, i requires 0 <= i < |rows| => ChannelInfo(rows[i].channelId, |rows[i].path| - 1, rows[i].name))
  }

  // ---------- the tables of a channel tree ----------

  /**
   Siblings below `parent` form a chain through `ordering` that starts behind `previous`, and so below each of
   them.
   */
  ghost predicate Arranged(ch: Channels, parent: Id, previous: Id, ts: seq<Tree>)
    decreases ts
  {
    ts != [] ==>
      && ts[0].id in ch && ts[0].id != 0
      && ch[ts[0].id].parent == parent && ch[ts[0].id].ordering == previous && ch[ts[0].id].name == ts[0].name
      && Arranged(ch, ts[0].id, 0, ts[0].kids)
      && Arranged(ch, parent, ts[0].id, ts[1..])
  }

  /** The table holds exactly channel 0 and the trees below it. */
  ghost predicate Describes(ch: Channels, ts: seq<Tree>) {
    && 0 in ch && ch.Keys == {0} + Ids(ts)
    && Arranged(ch, 0, 0, ts)
  }

  /** The tree with the root channel on top. */
  function Whole(ch: Channels, ts: seq<Tree>): Tree
    requires 0 in ch
  {
    Node(0, ch[0].name, ts)
  }

  /** The pre-order walk of siblings numbered from `k` on, below the path `base`. */
  function Listing(ts: seq<Tree>, base: seq<nat>, k: nat): seq<ListRow> {
    if ts == [] then []
    else [ListRow(ts[0].id, base + [k], ts[0].name)] + Listing(ts[0].kids, base + [k], 1) + Listing(ts[1..], base,
        k + 1)
  }

  /** The same, for a tree whose top has the sibling number `k`. */
  function ListingOf(t: Tree, k: nat): seq<ListRow> {
    [ListRow(t.id, [k], t.name)] + Listing(t.kids, [k], 1)
  }

  // ---------- rows are where they should be ----------

  lemma SortRowIsUnique(ch: Channels, c: Id, j: nat, k: nat)
    requires SortRow(ch, c, j) && SortRow(ch, c, k)
    ensures j == k
  {
    TopReachedOnce(ByOrdering(ch), c, 0, j, k);
  }

  /** From channel 0 there is one path to each channel. */
  lemma {:induction false} TreeRowIsUnique(ch: Channels, c: Id, p: seq<nat>, q: seq<nat>)
    requires TreeRow(ch, 0, c, p) && TreeRow(ch, 0, c, q)
    ensures p == q
    decreases |p|
  {
    SortRowIsUnique(ch, c, p[|p| - 1], q[|q| - 1]);
    if |p| > 1 && |q| > 1 {
      TreeRowIsUnique(ch, ch[c].parent, p[..|p| - 1], q[..|q| - 1]);
    }
    assert p == p[..|p| - 1] + [p[|p| - 1]] && q == q[..|q| - 1] + [q[|q| - 1]];
  }

  /** A path below `root`, put behind the path of `root`. */
  lemma {:induction false} TreeRowBehind(ch: Channels, root: Id, front: seq<nat>, i: nat, c: Id, path: seq<nat>)
    requires TreeRow(ch, 0, root, front + [i]) && TreeRow(ch, root, c, path)
    ensures path[0] == i && TreeRow(ch, 0, c, front + path)
    decreases |path|
  {
    var last := |path| - 1;
    if last == 0 {
      assert (front + [i])[|front|] == i;
      SortRowIsUnique(ch, c, path[0], i);
      assert path == [i];
    } else {
      TreeRowBehind(ch, root, front, i, ch[c].parent, path[..last]);
      assert (front + path)[..|front + path| - 1] == front + path[..last];
    }
  }

  /** Every row of the walk is a row of the query. */
  lemma {:induction false} ListedIsTreeRow(ch: Channels, root: Id, parent: Id, previous: Id, ts: seq<Tree>,
                                           base: seq<nat>, k: nat, r: ListRow)
    requires 0 in ch && Arranged(ch, parent, previous, ts) && TreeRow(ch, root, parent, base)
    requires k > 0 && SortRow(ch, previous, k - 1)
    requires r in Listing(ts, base, k)
    ensures TreeRow(ch, root, r.channelId, r.path) && r.name == ch[r.channelId].name && r.channelId in Ids(ts)
    decreases ts
  {
    var t := ts[0];
    var path := base + [k];
    assert path[..|path| - 1] == base;
    assert SortRow(ch, t.id, k);
    if r == ListRow(t.id, path, t.name) {
    } else if r in Listing(t.kids, path, 1) {
      assert SortRow(ch, 0, 0);
      ListedIsTreeRow(ch, root, t.id, 0, t.kids, path, 1, r);
    } else {
      ListedIsTreeRow(ch, root, parent, t.id, ts[1..], base, k + 1, r);
    }
  }

  lemma {:induction false} EveryChannelIsListed(ts: seq<Tree>, base: seq<nat>, k: nat, c: Id) returns (r: ListRow)
    requires c in Ids(ts)
    ensures r in Listing(ts, base, k) && r.channelId == c
    decreases ts
  {
    if c == ts[0].id {
      r := ListRow(c, base + [k], ts[0].name);
    } else if c in Ids(ts[0].kids) {
      r := EveryChannelIsListed(ts[0].kids, base + [k], 1, c);
    } else {
      r := EveryChannelIsListed(ts[1..], base, k + 1, c);
    }
  }

  // ---------- the part of the walk below one channel ----------

  /** The tree `n` hangs at path `p` among siblings numbered from `k` on below `base`. */
  ghost predicate HangsAt(ts: seq<Tree>, base: seq<nat>, k: nat, n: Tree, p: seq<nat>) {
    ts != [] && (
      || (n == ts[0] && p == base + [k])
      || HangsAt(ts[0].kids, base + [k], 1, n, p)
      || HangsAt(ts[1..], base, k + 1, n, p))
  }

  /** Paths in a walk lie behind the base, at a sibling number from `k` on. */
  ghost predicate Behind(base: seq<nat>, k: nat, p: seq<nat>) {
    |p| > |base| && p[..|base|] == base && p[|base|] >= k
  }

  lemma {:induction false} ListedBehind(ts: seq<Tree>, base: seq<nat>, k: nat, r: ListRow)
    requires r in Listing(ts, base, k)
    ensures Behind(base, k, r.path)
    decreases ts
  {
    var path := base + [k];
    if r in Listing(ts[0].kids, path, 1) {
      ListedBehind(ts[0].kids, path, 1, r);
      assert r.path[..|base|] == r.path[..|path|][..|base|];
      assert r.path[|base|] == r.path[..|path|][|base|];
    } else if r in Listing(ts[1..], base, k + 1) {
      ListedBehind(ts[1..], base, k + 1, r);
    }
  }

  lemma {:induction false} HangsBehind(ts: seq<Tree>, base: seq<nat>, k: nat, n: Tree, p: seq<nat>)
    requires HangsAt(ts, base, k, n, p)
    ensures Behind(base, k, p) && ListRow(n.id, p, n.name) in Listing(ts, base, k)
    decreases ts
  {
    var path := base + [k];
    if n == ts[0] && p == path {
    } else if HangsAt(ts[0].kids, path, 1, n, p) {
      HangsBehind(ts[0].kids, path, 1, n, p);
      assert p[..|base|] == p[..|path|][..|base|];
      assert p[|base|] == p[..|path|][|base|];
    } else {
      HangsBehind(ts[1..], base, k + 1, n, p);
    }
  }

  /** The rows behind the path of a tree are the walk below that tree. */
  lemma {:induction false} RowsBehind(ts: seq<Tree>, base: seq<nat>, k: nat, n: Tree, p: seq<nat>, r: ListRow)
    requires HangsAt(ts, base, k, n, p) && |r.path| > |p| && r.path[..|p|] == p
    ensures r in Listing(ts, base, k) <==> r in Listing(n.kids, p, 1)
    decreases ts
  {
    var path := base + [k];
    HangsBehind(ts, base, k, n, p);
    assert r.path[|base|] == p[|base|];
    // a row behind p is in the same part of the walk as p
    if r in Listing(ts[0].kids, path, 1) {
      ListedBehind(ts[0].kids, path, 1, r);
      assert r.path[|base|] == r.path[..|path|][|base|] == k;
    }
    if r in Listing(ts[1..], base, k + 1) {
      ListedBehind(ts[1..], base, k + 1, r);
    }
    if n == ts[0] && p == path {
    } else if HangsAt(ts[0].kids, path, 1, n, p) {
      HangsBehind(ts[0].kids, path, 1, n, p);
      assert p[|base|] == p[..|path|][|base|] == k;
      assert r.path != path;
      RowsBehind(ts[0].kids, path, 1, n, p, r);
    } else {
      HangsBehind(ts[1..], base, k + 1, n, p);
      RowsBehind(ts[1..], base, k + 1, n, p, r);
    }
  }

  /** A walk below a longer base is the walk below the shorter one, with longer paths. */
  lemma {:induction false} Rebase(ts: seq<Tree>, front: seq<nat>, base: seq<nat>, k: nat, c: Id, path: seq<nat>,
                                  name: string)
    ensures ListRow(c, front + path, name) in Listing(ts, front + base, k)
        <==> ListRow(c, path, name) in Listing(ts, base, k)
    decreases ts
  {
    if ts != [] {
      assert front + (base + [k]) == (front + base) + [k];
      assert (front + path)[|front|..] == path && (front + (base + [k]))[|front|..] == base + [k];
      Rebase(ts[0].kids, front, base + [k], 1, c, path, name);
      Rebase(ts[1..], front, base, k + 1, c, path, name);
    }
  }

  /** The tables describe the children of each tree that hangs anywhere below. */
  lemma {:induction false} HangsArranged(ch: Channels, parent: Id, previous: Id, ts: seq<Tree>, base: seq<nat>,
                                         k: nat, n: Tree, p: seq<nat>)
    requires Arranged(ch, parent, previous, ts) && HangsAt(ts, base, k, n, p)
    ensures Arranged(ch, n.id, 0, n.kids) && n.id in ch && n.name == ch[n.id].name
    decreases ts
  {
    if n == ts[0] && p == base + [k] {
    } else if HangsAt(ts[0].kids, base + [k], 1, n, p) {
      HangsArranged(ch, ts[0].id, 0, ts[0].kids, base + [k], 1, n, p);
    } else {
      HangsArranged(ch, parent, ts[0].id, ts[1..], base, k + 1, n, p);
    }
  }

  // ---------- the order of the walk ----------

  ghost predicate Sorted(rows: seq<ListRow>) {
    forall i, j :: 0 <= i < j < |rows| ==> PathLess(rows[i].path, rows[j].path)
  }

  lemma PrefixIsLess(p: seq<nat>, q: seq<nat>)
    requires |p| < |q| && q[..|p|] == p
    ensures PathLess(p, q)
  {
    assert q == p + q[|p|..];
    assert p == p + [];
    PathLessPrefix(p, [], q[|p|..]);
  }

  lemma SmallerBranchIsLess(base: seq<nat>, p: seq<nat>, q: seq<nat>)
    requires |p| > |base| && |q| > |base| && p[..|base|] == base && q[..|base|] == base && p[|base|] < q[|base|]
    ensures PathLess(p, q)
  {
    assert p == base + p[|base|..] && q == base + q[|base|..];
    PathLessPrefix(base, p[|base|..], q[|base|..]);
  }

  /** The walk is in path order. */
  lemma {:induction false} ListingIsSorted(ts: seq<Tree>, base: seq<nat>, k: nat)
    ensures Sorted(Listing(ts, base, k))
    decreases ts
  {
    if ts != [] {
      var path := base + [k];
      var head, below, after := [ListRow(ts[0].id, path, ts[0].name)], Listing(ts[0].kids, path, 1),
          Listing(ts[1..], base, k + 1);
      ListingIsSorted(ts[0].kids, path, 1);
      ListingIsSorted(ts[1..], base, k + 1);
      forall r | r in below
        ensures |r.path| > |path| && r.path[..|path|] == path && r.path[..|base|] == base && r.path[|base|] == k
      {
        ListedBehind(ts[0].kids, path, 1, r);
        assert r.path[..|base|] == r.path[..|path|][..|base|] && r.path[|base|] == r.path[..|path|][|base|];
      }
      forall r | r in after ensures Behind(base, k + 1, r.path) {
        ListedBehind(ts[1..], base, k + 1, r);
      }
      forall r | r in below ensures PathLess(path, r.path) {
        PrefixIsLess(path, r.path);
      }
      forall r, s | r in head + below && s in after ensures PathLess(r.path, s.path) {
        SmallerBranchIsLess(base, r.path, s.path);
      }
      SortedConcat(head, below);
      SortedConcat(head + below, after);
    }
  }

  lemma SortedConcat(a: seq<ListRow>, b: seq<ListRow>)
    requires Sorted(a) && Sorted(b) && forall r, s :: r in a && s in b ==> PathLess(r.path, s.path)
    ensures Sorted(a + b)
  {
  }

  lemma ListingOfIsSorted(n: Tree, i: nat)
    ensures Sorted(ListingOf(n, i))
  {
    ListingIsSorted(n.kids, [i], 1);
    forall r | r in Listing(n.kids, [i], 1) ensures PathLess([i], r.path) {
      ListedBehind(n.kids, [i], 1, r);
      PrefixIsLess([i], r.path);
    }
    SortedConcat([ListRow(n.id, [i], n.name)], Listing(n.kids, [i], 1));
  }

  /** Two sorted lists of the same rows are the same list. */
  lemma {:induction false} SortedIsUnique(a: seq<ListRow>, b: seq<ListRow>)
    requires Sorted(a) && Sorted(b) && forall r :: r in a <==> r in b
    ensures a == b
  {
    var r0 := ListRow(0, [], "");
    var ra, rb := if a != [] then a[0] else r0, if b != [] then b[0] else r0;
    assert (a != [] ==> ra in a) && (b != [] ==> rb in b);
    if a == [] || b == [] {
    } else {
      assert a[0] in b && b[0] in a;
      var i: nat :| i < |b| && b[i] == a[0];
      var j: nat :| j < |a| && a[j] == b[0];
      PathLessTotal(a[0].path, b[0].path);
      assert a[0] == b[0];
      forall r ensures r in a[1..] <==> r in b[1..] {
        PathLessTotal(a[0].path, a[0].path);
        assert r in a[1..] ==> PathLess(a[0].path, r.path) && r in a;
        assert r in b[1..] ==> PathLess(b[0].path, r.path) && r in b;
        assert r in a && r != a[0] ==> r in a[1..];
        assert r in b && r != b[0] ==> r in b[1..];
      }
      SortedIsUnique(a[1..], b[1..]);
      assert a == [a[0]] + a[1..] && b == [b[0]] + b[1..];
    }
  }

  // ---------- the width of the sort key ----------

  /** The query keeps at most this many rows; tables of fewer channels are never cut off. */
  const ROW_LIMIT: nat := 1000000

  lemma SortRowIsBounded(ch: Channels, c: Id, k: nat)
    requires SortRow(ch, c, k)
    ensures k < |ch|
  {
    ClimbIsBounded(ByOrdering(ch), c, 0, k);
    assert |ch.Keys| == |ch|;
  }

  lemma {:induction false} TreeRowFits(ch: Channels, root: Id, c: Id, path: seq<nat>)
    requires TreeRow(ch, root, c, path) && |ch| <= ROW_LIMIT
    ensures InWidth(path)
    decreases |path|
  {
    var last := |path| - 1;
    SortRowIsBounded(ch, c, path[last]);
    if last > 0 {
      TreeRowFits(ch, root, ch[c].parent, path[..last]);
    }
    forall i | 0 <= i < |path| ensures path[i] < PATH_NUMBERS {
      assert i < last ==> path[..last][i] == path[i];
    }
  }

  // ---------- the query is the walk ----------

  /** Where the tree `n` hangs in the whole tree, and with what number. */
  ghost predicate Place(ch: Channels, ts: seq<Tree>, n: Tree, front: seq<nat>, i: nat) {
    Describes(ch, ts) && HangsAt([Whole(ch, ts)], [], 0, n, front + [i])
  }

  lemma WholeIsListed(ch: Channels, ts: seq<Tree>, r: ListRow)
    requires Describes(ch, ts) && r in Listing([Whole(ch, ts)], [], 0)
    ensures TreeRow(ch, 0, r.channelId, r.path) && r.name == ch[r.channelId].name
  {
    assert SortRow(ch, 0, 0) && TreeRow(ch, 0, 0, [0]);
    assert [] + [0] == [0];
    if r != ListRow(0, [0], ch[0].name) {
      ListedIsTreeRow(ch, 0, 0, 0, ts, [0], 1, r);
    }
  }

  lemma PlaceIsArranged(ch: Channels, ts: seq<Tree>, n: Tree, front: seq<nat>, i: nat)
    requires Place(ch, ts, n, front, i)
    ensures Arranged(ch, n.id, 0, n.kids) && n.id in ch && n.name == ch[n.id].name
    ensures TreeRow(ch, 0, n.id, front + [i]) && SortRow(ch, n.id, i)
  {
    var p := front + [i];
    HangsBehind([Whole(ch, ts)], [], 0, n, p);
    WholeIsListed(ch, ts, ListRow(n.id, p, n.name));
    var top := [Whole(ch, ts)];
    assert top[1..] == [] && top[0].kids == ts;
    assert !HangsAt(top[1..], [], 1, n, p);
    if n != top[0] || p != [] + [0] {
      assert HangsAt(ts, [] + [0], 1, n, p);
      HangsArranged(ch, 0, 0, ts, [] + [0], 1, n, p);
    }
  }

  /** Every channel of the table has its row in the walk of the whole tree. */
  lemma PathFromRoot(ch: Channels, ts: seq<Tree>, c: Id) returns (path: seq<nat>)
    requires Describes(ch, ts) && c in ch
    ensures TreeRow(ch, 0, c, path) && ListRow(c, path, ch[c].name) in Listing([Whole(ch, ts)], [], 0)
  {
    var r := EveryChannelIsListed([Whole(ch, ts)], [], 0, c);
    WholeIsListed(ch, ts, r);
    path := r.path;
  }

  /** The rows of the query are the rows of the walk below its root. */
  lemma QueryRows(ch: Channels, ts: seq<Tree>, n: Tree, front: seq<nat>, i: nat, r: ListRow)
    requires Place(ch, ts, n, front, i)
    ensures r in ListingOf(n, i) <==> TreeRow(ch, n.id, r.channelId, r.path) && r.name == ch[r.channelId].name
  {
    var p := front + [i];
    PlaceIsArranged(ch, ts, n, front, i);
    assert TreeRow(ch, n.id, n.id, [i]);
    if r in Listing(n.kids, [i], 1) {
      ListedIsTreeRow(ch, n.id, n.id, 0, n.kids, [i], 1, r);
    }
    if TreeRow(ch, n.id, r.channelId, r.path) && r.name == ch[r.channelId].name {
      TreeRowBehind(ch, n.id, front, i, r.channelId, r.path);
      if |r.path| == 1 {
        assert r.path == [i];
      } else {
        var path := PathFromRoot(ch, ts, r.channelId);
        TreeRowIsUnique(ch, r.channelId, path, front + r.path);
        assert (front + r.path)[..|p|] == p;
        RowsBehind([Whole(ch, ts)], [], 0, n, p, ListRow(r.channelId, front + r.path, r.name));
        Rebase(n.kids, front, [i], 1, r.channelId, r.path, r.name);
      }
    }
  }

  /** The query has one answer: the pre-order walk of the tree under its root. */
  lemma AnswerIsWalk(ch: Channels, ts: seq<Tree>, n: Tree, front: seq<nat>, i: nat, rows: seq<ListRow>)
    requires Place(ch, ts, n, front, i) && |ch| <= ROW_LIMIT
    ensures Answers(ch, n.id, rows) <==> rows == ListingOf(n, i)
  {
    var walk := ListingOf(n, i);
    ListingOfIsSorted(n, i);
    forall r ensures r in walk <==> TreeRow(ch, n.id, r.channelId, r.path) && r.name == ch[r.channelId].name {
      QueryRows(ch, ts, n, front, i, r);
    }
    forall r, s | r in walk && s in walk
      ensures StringLess(PathString(r.path), PathString(s.path)) <==> PathLess(r.path, s.path)
    {
      TreeRowFits(ch, n.id, r.channelId, r.path);
      TreeRowFits(ch, n.id, s.channelId, s.path);
      PathStringOrder(r.path, s.path);
    }
    if Answers(ch, n.id, rows) {
      AnswerIsSorted(walk, rows);
      SortedIsUnique(rows, walk);
    }
    if rows == walk {
      forall a, b | 0 <= a < b < |rows| ensures rows[a] != rows[b] && !PathLess(rows[b].path, rows[a].path) {
        PathLessTotal(rows[a].path, rows[b].path);
        PathLessTotal(rows[a].path, rows[a].path);
      }
    }
  }

  /** Rows of a sorted list, each once and none before a smaller one, are sorted. */
  lemma AnswerIsSorted(walk: seq<ListRow>, rows: seq<ListRow>)
    requires Sorted(walk) && forall r :: r in rows ==> r in walk
    requires forall a, b :: 0 <= a < b < |rows| ==> rows[a] != rows[b]
    requires forall a, b :: 0 <= a < b < |rows| ==> !StringLess(PathString(rows[b].path), PathString(rows[a].path))
    requires forall r, s :: r in walk && s in walk ==>
               (StringLess(PathString(r.path), PathString(s.path)) <==> PathLess(r.path, s.path))
    ensures Sorted(rows)
  {
    forall a, b | 0 <= a < b < |rows| ensures PathLess(rows[a].path, rows[b].path) {
      assert rows[a] in walk && rows[b] in walk;
      var i: nat :| i < |walk| && walk[i] == rows[a];
      var j: nat :| j < |walk| && walk[j] == rows[b];
      assert i != j;
      PathLessTotal(rows[a].path, rows[b].path);
    }
  }

  /** What getChannelList returns is the walk with depths. */
  lemma {:induction false} ListingFlattens(ts: seq<Tree>, base: seq<nat>, k: nat)
    ensures forall r <- Listing(ts, base, k) :: |r.path| > |base|
    ensures Infos(Listing(ts, base, k)) == Flatten(ts, |base|)
    decreases ts
  {
    if ts != [] {
      hide Infos;
      var head := [ListRow(ts[0].id, base + [k], ts[0].name)];
      InfosOne(head[0]);
      ListingFlattens(ts[0].kids, base + [k], 1);
      ListingFlattens(ts[1..], base, k + 1);
      InfosConcat(head, Listing(ts[0].kids, base + [k], 1));
      InfosConcat(head + Listing(ts[0].kids, base + [k], 1), Listing(ts[1..], base, k + 1));
    } else {
      InfosNone();
    }
  }

  lemma InfosNone()
    ensures Infos([]) == []
  {
  }

  lemma InfosOne(r: ListRow)
    requires r.path != []
    ensures Infos([r]) == [ChannelInfo(r.channelId, |r.path| - 1, r.name)]
  {
  }

  lemma InfosConcat(a: seq<ListRow>, b: seq<ListRow>)
    requires (forall r <- a :: r.path != []) && (forall r <- b :: r.path != [])
    ensures (forall r <- a + b :: r.path != []) && Infos(a + b) == Infos(a) + Infos(b)
  {
  }

  lemma ListingOfFlattens(n: Tree, i: nat)
    ensures (forall r <- ListingOf(n, i) :: r.path != []) && Infos(ListingOf(n, i)) == Flatten([n], 0)
  {
    var head := [ListRow(n.id, [i], n.name)];
    ListingFlattens(n.kids, [i], 1);
    InfosConcat(head, Listing(n.kids, [i], 1));
    assert Flatten([n], 0) == [ChannelInfo(n.id, 0, n.name)] + Flatten(n.kids, 1) + [];
    assert Infos(head) == [ChannelInfo(n.id, 0, n.name)];
  }

  // ---------- the listing and the closure table ----------

  /** Every parent was present when its child was inserted. */
  ghost predicate AllLinked(ch: Channels, f: Forest) {
    forall c :: c in ch && c != 0 ==> c in f.up
  }

  /** So every channel is linked to the parent its row names. */
  ghost predicate Linked(ch: Channels, f: Forest) {
    ch.Keys == f.ids && FollowsRows(ch, f) && AllLinked(ch, f)
  }

  lemma {:induction false} ListedIsDescendant(ch: Channels, f: Forest, root: Id, c: Id, path: seq<nat>)
    requires Linked(ch, f) && TreeRow(ch, root, c, path)
    ensures Climb(f, c, |path| - 1) == Some(root)
    decreases |path|
  {
    if |path| > 1 {
      ListedIsDescendant(ch, f, root, ch[c].parent, path[..|path| - 1]);
    }
  }

  lemma OneStepUp(ch: Channels, f: Forest, root: Id, c: Id, d: nat)
    requires Linked(ch, f) && 0 !in f.up && Climb(f, c, d) == Some(root)
    ensures c in ch
    ensures d > 0 ==> c != 0 && Climb(f, ch[c].parent, d - 1) == Some(root)
    ensures d == 0 ==> c == root
  {
  }

  lemma SortRowOf(ch: Channels, c: Id, path: seq<nat>) returns (k: nat)
    requires TreeRow(ch, 0, c, path)
    ensures SortRow(ch, c, k)
  {
    k := path[|path| - 1];
  }

  lemma LongerRow(ch: Channels, root: Id, c: Id, above: seq<nat>, k: nat)
    requires c in ch && c != 0 && TreeRow(ch, root, ch[c].parent, above) && SortRow(ch, c, k)
    ensures TreeRow(ch, root, c, above + [k])
  {
    assert (above + [k])[..|above|] == above;
  }

  lemma {:induction false} DescendantIsListed(ch: Channels, f: Forest, ts: seq<Tree>, root: Id, c: Id, d: nat)
    returns (path: seq<nat>)
    requires Linked(ch, f) && Describes(ch, ts) && 0 !in f.up
    requires Climb(f, c, d) == Some(root)
    ensures c in ch && TreeRow(ch, root, c, path) && |path| == d + 1
    decreases d
  {
    hide Linked, Describes, Climb, SortRow;
    OneStepUp(ch, f, root, c, d);
    var whole := PathFromRoot(ch, ts, c);
    var k := SortRowOf(ch, c, whole);
    if d == 0 {
      path := [k];
    } else {
      var above := DescendantIsListed(ch, f, ts, root, ch[c].parent, d - 1);
      hide TreeRow;
      LongerRow(ch, root, c, above, k);
      path := above + [k];
    }
  }

  /**
   getChannelList: for tables that describe a channel tree, the listing of any of its
   channels is the pre-order walk of that channel's subtree, with siblings in chain
   order, and names exactly the channels below it in the closure table, at those depths.
   */
  lemma ListingIsWalk(db: Database, f: Forest, ts: seq<Tree>, n: Tree, front: seq<nat>, i: nat, rows: seq<ListRow>)
    requires Represents(db, f) && AllLinked(db.channels, f) && 0 !in f.up
    requires Place(db.channels, ts, n, front, i) && |db.channels| <= ROW_LIMIT
    requires Answers(db.channels, n.id, rows)
    ensures forall r <- rows :: r.path != []
    ensures Infos(rows) == Flatten([n], 0)
    ensures forall c: Id, d: nat :: ClosureRow(n.id, c, d) in db.closure <==> Lists(Infos(rows), c, d)
  {
    var ch := db.channels;
    AnswerIsWalk(ch, ts, n, front, i, rows);
    ListingOfFlattens(n, i);
    forall c: Id, d: nat ensures ClosureRow(n.id, c, d) in db.closure <==> Lists(Infos(rows), c, d) {
      ListedIffDescendant(ch, f, ts, n.id, rows, c, d);
    }
  }

  /** The list names the channel at the given depth. */
  ghost predicate Lists(infos: seq<ChannelInfo>, c: Id, depth: nat) {
    exists info :: info in infos && info.channelID == c && info.depth == depth
  }

  /** A line of the list is a descendant. */
  lemma LineIsDescendant(ch: Channels, f: Forest, root: Id, rows: seq<ListRow>, c: Id, d: nat)
    requires Linked(ch, f) && Answers(ch, root, rows)
    requires (forall r <- rows :: r.path != []) && Lists(Infos(rows), c, d)
    ensures Climb(f, c, d) == Some(root)
  {
    hide SortRow, StringLess, PathString, Linked, Climb;
    var infos := Infos(rows);
    var info :| info in infos && info.channelID == c && info.depth == d;
    var j: nat :| j < |infos| && infos[j] == info;
    var r := rows[j];
    assert r in rows && TreeRow(ch, root, r.channelId, r.path);
    ListedIsDescendant(ch, f, root, c, r.path);
  }

  /** A descendant has a line in the list. */
  lemma DescendantHasLine(ch: Channels, f: Forest, ts: seq<Tree>, root: Id, rows: seq<ListRow>, c: Id, d: nat)
    requires Linked(ch, f) && Describes(ch, ts) && 0 !in f.up && Answers(ch, root, rows)
    requires (forall r <- rows :: r.path != []) && Climb(f, c, d) == Some(root)
    ensures Lists(Infos(rows), c, d)
  {
    hide SortRow, StringLess, PathString, TreeRow, Linked, Describes, Climb;
    var path := DescendantIsListed(ch, f, ts, root, c, d);
    var r := ListRow(c, path, ch[c].name);
    assert r in rows;
    var j: nat :| j < |rows| && rows[j] == r;
    assert Infos(rows)[j] in Infos(rows);
  }

  lemma ListedIffDescendant(ch: Channels, f: Forest, ts: seq<Tree>, root: Id, rows: seq<ListRow>, c: Id, d: nat)
    requires Linked(ch, f) && Describes(ch, ts) && 0 !in f.up
    requires Answers(ch, root, rows)
    ensures forall r <- rows :: r.path != []
    ensures Lists(Infos(rows), c, d) <==> Climb(f, c, d) == Some(root)
  {
    PathsAreNotEmpty(ch, root, rows);
    hide *;
    if Lists(Infos(rows), c, d) {
      LineIsDescendant(ch, f, root, rows, c, d);
    }
    if Climb(f, c, d) == Some(root) {
      DescendantHasLine(ch, f, ts, root, rows, c, d);
    }
  }

  lemma PathsAreNotEmpty(ch: Channels, root: Id, rows: seq<ListRow>)
    requires Answers(ch, root, rows)
    ensures forall r <- rows :: r.path != []
  {
    hide SortRow, StringLess, PathString;
  }
}
