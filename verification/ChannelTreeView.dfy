/**
 The channel tree of the configuration dialog, rebuilt from the flat channel
 list: items that own their children, added one by one below their parent.
 */
module ChannelTreeView {
  import opened Forests
  import opened ChannelTrees

  /** What an item and everything below it shows. */
  datatype View = View(id: Id, name: string, expanded: bool, kids: seq<View>)

  /** The trees with exactly the proper ancestors of the selection expanded. */
  function Mark(ts: seq<Tree>, selection: Id): (vs: seq<View>)
    ensures |vs| == |ts|
  {
    if ts == [] then []
    else [View(ts[0].id, ts[0].name, selection in Ids(ts[0].kids), Mark(ts[0].kids, selection))] + Mark(ts[1..],
        selection)
  }

  lemma {:induction false} MarkConcat(a: seq<Tree>, b: seq<Tree>, selection: Id)
    ensures Mark(a + b, selection) == Mark(a, selection) + Mark(b, selection)
  {
    if a == [] {
      assert a + b == b;
    } else {
      assert (a + b)[1..] == a[1..] + b;
      MarkConcat(a[1..], b, selection);
    }
  }

  class TreeItem {
    const id: Id
    const name: string
    var expanded: bool
    var children: seq<TreeItem>

    ghost var view: View
    ghost var Repr: set<object>

    /** The item owns its children, which own theirs, and `view` is what they show. */
    ghost predicate Valid()
      reads this, Repr
      ensures Valid() ==> this in Repr
      decreases Repr
    {
      && this in Repr
      && view.id == id && view.name == name && view.expanded == expanded
      && |view.kids| == |children|
      && (forall i :: 0 <= i < |children| ==>
            && children[i] in Repr && children[i].Repr <= Repr && this !in children[i].Repr
            && children[i].Valid() && children[i].view == view.kids[i])
      && (forall i, j :: 0 <= i < j < |children| ==> children[i].Repr !! children[j].Repr)
    }

    constructor (info: ChannelInfo)
      ensures Valid() && fresh(Repr) && Repr == {this}
      ensures view == View(info.channelID, info.name, false, [])
    {
      id, name, expanded, children := info.channelID, info.name, false, [];
      view, Repr := View(info.channelID, info.name, false, []), {this};
    }

    /** Puts a fresh item after the other children. */
    method Append(kid: TreeItem)
      requires Valid() && kid.Valid() && Repr !! kid.Repr
      modifies this
      ensures Valid() && Repr == old(Repr) + kid.Repr
      ensures children == old(children) + [kid] && view == old(view).(kids := old(view.kids) + [kid.view])
      ensures expanded == old(expanded)
    {
      children := children + [kid];
      view := view.(kids := view.kids + [kid.view]);
      Repr := Repr + kid.Repr;
    }

    /** All that validity asks, apart from `view` and `Repr` being out of date for the last child. */
    ghost predicate ValidUpToLast()
      reads this, children, set i, o | 0 <= i < |children| && o in children[i].Repr :: o
    {
      && this in Repr && |children| > 0
      && view.id == id && view.name == name && view.expanded == expanded
      && |view.kids| == |children|
      && (forall i :: 0 <= i < |children| ==> this !in children[i].Repr && children[i].Valid())
      && (forall i :: 0 <= i < |children| - 1 ==>
            children[i] in Repr && children[i].Repr <= Repr && children[i].view == view.kids[i])
      && (forall i, j :: 0 <= i < j < |children| ==> children[i].Repr !! children[j].Repr)
    }

    /** Takes over what the last child has become. */
    ghost method AdoptLast()
      requires ValidUpToLast()
      modifies this`view, this`Repr
      ensures Valid() && Repr == old(Repr) + children[|children| - 1].Repr
      ensures view == old(view).(kids := old(view.kids)[|children| - 1 := children[|children| - 1].view])
    {
      var kid := children[|children| - 1];
      Repr := Repr + kid.Repr;
      view := view.(kids := view.kids[|children| - 1 := kid.view]);
    }

    method Expand()
      requires Valid()
      modifies this
      ensures Valid() && Repr == old(Repr) && children == old(children)
      ensures view == old(view).(expanded := true)
    {
      expanded := true;
      view := view.(expanded := true);
    }
  }

  /** The item `t` is reached from `item` by going down the children with these numbers. */
  ghost predicate HasAt(item: TreeItem, path: seq<nat>, t: TreeItem)
    requires item.Valid()
    reads item, item.Repr
    decreases |path|
  {
    if path == [] then t == item
    else path[0] < |item.children| && HasAt(item.children[path[0]], path[1..], t)
  }

  /** The item is found below `parent`, unless there is none. */
  ghost predicate Hangs(parent: TreeItem, path: seq<nat>, t: TreeItem?)
    requires parent.Valid()
    reads parent, parent.Repr
  {
    t != null ==> path != [] && HasAt(parent, path, t)
  }

  // ---------- one item for each channel ----------

  /** The channels that are shown, in pre-order. */
  function Shown(vs: seq<View>): seq<Id> {
    if vs == [] then [] else [vs[0].id] + Shown(vs[0].kids) + Shown(vs[1..])
  }

  function ChannelIds(list: seq<ChannelInfo>): seq<Id> {
    seq(|list|, i requires 0 <= i < |list| => list[i].channelID)
  }

  lemma ChannelIdsConcat(a: seq<ChannelInfo>, b: seq<ChannelInfo>)
    ensures ChannelIds(a + b) == ChannelIds(a) + ChannelIds(b)
  {
  }

  /** Marking shows each channel of the trees, in the order of their walk. */
  lemma {:induction false} MarkShows(ts: seq<Tree>, depth: nat, selection: Id)
    ensures Shown(Mark(ts, selection)) == ChannelIds(Flatten(ts, depth))
  {
    if ts != [] {
      hide ChannelIds;
      var head := [ChannelInfo(ts[0].id, depth, ts[0].name)];
      var kids, others := Flatten(ts[0].kids, depth + 1), Flatten(ts[1..], depth);
      MarkShows(ts[0].kids, depth + 1, selection);
      MarkShows(ts[1..], depth, selection);
      ChannelIdsConcat(head, kids);
      ChannelIdsConcat(head + kids, others);
      OneChannelId(head[0]);
      var vs := Mark(ts, selection);
      assert vs[1..] == Mark(ts[1..], selection);
    } else {
      NoChannelIds();
    }
  }

  lemma OneChannelId(info: ChannelInfo)
    ensures ChannelIds([info]) == [info.channelID]
  {
  }

  lemma NoChannelIds()
    ensures ChannelIds([]) == []
  {
  }

  lemma {:induction false} ShownConcat(a: seq<View>, b: seq<View>)
    ensures Shown(a + b) == Shown(a) + Shown(b)
  {
    if a == [] {
      assert a + b == b;
    } else {
      assert (a + b)[1..] == a[1..] + b;
      ShownConcat(a[1..], b);
    }
  }

  /** What one of the siblings shows is a part of what all of them show. */
  lemma ShownPart(vs: seq<View>, i: nat) returns (front: seq<Id>, back: seq<Id>)
    requires i < |vs|
    ensures Shown(vs) == front + Shown([vs[i]]) + back
    ensures forall c <- Shown([vs[i]]) :: c in Shown(vs)
    ensures forall j :: 0 <= j < i ==> forall c <- Shown([vs[j]]) :: c in front
  {
    front, back := Shown(vs[..i]), Shown(vs[i + 1..]);
    assert vs == vs[..i] + [vs[i]] + vs[i + 1..];
    ShownConcat(vs[..i], [vs[i]]);
    ShownConcat(vs[..i] + [vs[i]], vs[i + 1..]);
    forall j | 0 <= j < i ensures forall c <- Shown([vs[j]]) :: c in front {
      assert vs[..i] == vs[..j] + [vs[j]] + vs[j + 1..i];
      ShownConcat(vs[..j], [vs[j]]);
      ShownConcat(vs[..j] + [vs[j]], vs[j + 1..i]);
    }
  }

  lemma ShownOne(v: View)
    ensures Shown([v]) == [v.id] + Shown(v.kids)
  {
    assert [v][1..] == [];
  }

  /** Every item that is reached is shown. */
  lemma {:induction false} ReachedIsShown(item: TreeItem, path: seq<nat>, t: TreeItem)
    requires item.Valid() && HasAt(item, path, t)
    ensures t.id in Shown([item.view])
    decreases |path|
  {
    ShownOne(item.view);
    if path != [] {
      var i := path[0];
      ReachedIsShown(item.children[i], path[1..], t);
      var front, back := ShownPart(item.view.kids, i);
    }
  }

  lemma PartsAreApart(front: seq<Id>, part: seq<Id>, back: seq<Id>)
    requires NoRepeats(front + part + back)
    ensures NoRepeats(part) && forall c <- part :: c !in front
  {
    var all := front + part + back;
    assert forall i :: 0 <= i < |front| ==> all[i] == front[i];
    assert forall i :: 0 <= i < |part| ==> all[|front| + i] == part[i];
  }

  lemma HeadIsApart(v: View)
    requires NoRepeats(Shown([v]))
    ensures NoRepeats(Shown(v.kids)) && forall c <- Shown(v.kids) :: c != v.id
  {
    ShownOne(v);
    assert [v.id] + Shown(v.kids) + [] == Shown([v]);
    PartsAreApart([v.id], Shown(v.kids), []);
    assert v.id in [v.id];
  }

  /** If no channel is shown twice, there is one item for each, at one place. */
  lemma {:induction false} OneItemPerChannel(item: TreeItem, p: seq<nat>, t: TreeItem, q: seq<nat>, u: TreeItem)
    requires item.Valid() && NoRepeats(Shown([item.view]))
    requires HasAt(item, p, t) && HasAt(item, q, u) && t.id == u.id
    ensures p == q && t == u
    decreases |p|
  {
    hide Shown, NoRepeats;
    var kids := item.view.kids;
    HeadIsApart(item.view);
    if p != [] {
      ReachedIsShown(item.children[p[0]], p[1..], t);
      var _, _ := ShownPart(kids, p[0]);
    }
    if q != [] {
      ReachedIsShown(item.children[q[0]], q[1..], u);
      var _, _ := ShownPart(kids, q[0]);
    }
    if p != [] && q != [] {
      var high := if p[0] <= q[0] then q[0] else p[0];
      var front, back := ShownPart(kids, high);
      PartsAreApart(front, Shown([kids[high]]), back);
      if p[0] == q[0] {
        OneItemPerChannel(item.children[high], p[1..], t, q[1..], u);
        assert p == [p[0]] + p[1..] && q == [q[0]] + q[1..];
      }
    }
  }

  lemma NoOtherItem(item: TreeItem, path: seq<nat>, t: TreeItem)
    requires item.Valid() && NoRepeats(Shown([item.view])) && HasAt(item, path, t)
    ensures forall p: seq<nat>, u: TreeItem :: HasAt(item, p, u) && u.id == t.id ==> p == path && u == t
  {
    forall p: seq<nat>, u: TreeItem | HasAt(item, p, u) && u.id == t.id ensures p == path && u == t {
      OneItemPerChannel(item, p, u, path, t);
    }
  }

  // ---------- which items are expanded ----------

  /** Going down the children with these numbers leads to an item of this channel. */
  ghost predicate IdAt(item: TreeItem, path: seq<nat>, id: Id)
    requires item.Valid()
    reads item, item.Repr
    decreases |path|
  {
    if path == [] then item.id == id
    else path[0] < |item.children| && IdAt(item.children[path[0]], path[1..], id)
  }

  /** Some item properly below this one is for the channel. */
  ghost predicate HasBelow(item: TreeItem, id: Id)
    requires item.Valid()
    reads item, item.Repr
  {
    exists path: seq<nat> :: path != [] && IdAt(item, path, id)
  }

  lemma {:induction false} ItemAt(item: TreeItem, path: seq<nat>, id: Id) returns (t: TreeItem)
    requires item.Valid() && IdAt(item, path, id)
    ensures HasAt(item, path, t) && t.id == id
    decreases |path|
  {
    if path == [] {
      t := item;
    } else {
      t := ItemAt(item.children[path[0]], path[1..], id);
    }
  }

  lemma {:induction false} MarkAt(ts: seq<Tree>, selection: Id, i: nat)
    requires i < |ts|
    ensures Mark(ts, selection)[i]
         == View(ts[i].id, ts[i].name, selection in Ids(ts[i].kids), Mark(ts[i].kids, selection))
  {
    if i > 0 {
      MarkAt(ts[1..], selection, i - 1);
    }
  }

  lemma {:induction false} ShownIds(ts: seq<Tree>, selection: Id, c: Id)
    ensures c in Shown(Mark(ts, selection)) <==> c in Ids(ts)
  {
    if ts != [] {
      assert Mark(ts, selection)[1..] == Mark(ts[1..], selection);
      ShownIds(ts[0].kids, selection, c);
      ShownIds(ts[1..], selection, c);
    }
  }

  lemma {:induction false} ShownSomewhere(vs: seq<View>, c: Id) returns (i: nat)
    requires c in Shown(vs)
    ensures i < |vs| && (c == vs[i].id || c in Shown(vs[i].kids))
  {
    if c == vs[0].id || c in Shown(vs[0].kids) {
      i := 0;
    } else {
      i := ShownSomewhere(vs[1..], c);
      i := i + 1;
    }
  }

  /** Every channel shown below an item has an item there. */
  lemma {:induction false} ShownIsReached(item: TreeItem, c: Id) returns (q: seq<nat>)
    requires item.Valid() && c in Shown(item.view.kids)
    ensures q != [] && IdAt(item, q, c)
    decreases item.Repr
  {
    var i := ShownSomewhere(item.view.kids, c);
    var kid := item.children[i];
    if c == kid.id {
      q := [i];
    } else {
      var below := ShownIsReached(kid, c);
      q := [i] + below;
      assert q[1..] == below;
    }
  }

  /** The items below one that shows marked trees: one is there for the selection exactly if the trees have it. */
  lemma SelectionBelow(item: TreeItem, ts: seq<Tree>, selection: Id)
    requires item.Valid() && item.view.kids == Mark(ts, selection)
    ensures HasBelow(item, selection) <==> selection in Ids(ts)
  {
    ShownIds(ts, selection, selection);
    if selection in Ids(ts) {
      var q := ShownIsReached(item, selection);
    }
    if q: seq<nat> :| q != [] && IdAt(item, q, selection) {
      var u := ItemAt(item, q, selection);
      ReachedIsShown(item.children[q[0]], q[1..], u);
      var _, _ := ShownPart(item.view.kids, q[0]);
    }
  }

  lemma {:induction false} MarkedAt(item: TreeItem, ts: seq<Tree>, selection: Id, p: seq<nat>, t: TreeItem)
    returns (n: Tree)
    requires item.Valid() && item.view.kids == Mark(ts, selection) && p != [] && HasAt(item, p, t)
    ensures t.Valid() && t.expanded == (selection in Ids(n.kids)) && t.view.kids == Mark(n.kids, selection)
    decreases |p|
  {
    var i := p[0];
    MarkAt(ts, selection, i);
    if |p| == 1 {
      n := ts[i];
    } else {
      n := MarkedAt(item.children[i], ts[i].kids, selection, p[1..], t);
    }
  }

  /** Below an item that shows marked trees, exactly the items with the selection somewhere below them are expanded. */
  lemma ExpandedIff(item: TreeItem, ts: seq<Tree>, selection: Id, p: seq<nat>, t: TreeItem)
    requires item.Valid() && item.view.kids == Mark(ts, selection) && p != [] && HasAt(item, p, t)
    ensures t.Valid() && (t.expanded <==> HasBelow(t, selection))
  {
    var n := MarkedAt(item, ts, selection, p, t);
    SelectionBelow(t, n.kids, selection);
  }

  lemma ExpandedThroughout(item: TreeItem, ts: seq<Tree>, selection: Id)
    requires item.Valid() && item.view.kids == Mark(ts, selection)
    ensures forall p: seq<nat>, t: TreeItem :: p != [] && HasAt(item, p, t) ==>
              t.Valid() && (t.expanded <==> HasBelow(t, selection))
  {
    forall p: seq<nat>, t: TreeItem | p != [] && HasAt(item, p, t)
      ensures t.Valid() && (t.expanded <==> HasBelow(t, selection))
    {
      ExpandedIff(item, ts, selection, p, t);
    }
  }

  /** The siblings with one more, which has no children yet. */
  function WithLeaf(g: seq<Tree>, info: ChannelInfo): seq<Tree> {
    g + [Node(info.channelID, info.name, [])]
  }

  lemma WithLeafLists(g: seq<Tree>, info: ChannelInfo, selection: Id)
    ensures Flatten(WithLeaf(g, info), info.depth) == Flatten(g, info.depth) + [info]
    ensures Ids(WithLeaf(g, info)) == Ids(g) + {info.channelID}
    ensures Mark(WithLeaf(g, info), selection) == Mark(g, selection) + [View(info.channelID, info.name, false, [])]
  {
    var n := [Node(info.channelID, info.name, [])];
    FlattenConcat(g, n, info.depth);
    IdsConcat(g, n);
    MarkConcat(g, n, selection);
  }

  /** The siblings with the last one's children filled in. */
  function WithKids(g: seq<Tree>, h: seq<Tree>): seq<Tree>
    requires g != []
  {
    g[..|g| - 1] + [g[|g| - 1].(kids := h)]
  }

  /** What the last of the siblings shows with its children filled in. */
  function LastView(g: seq<Tree>, h: seq<Tree>, selection: Id): View
    requires g != []
  {
    View(g[|g| - 1].id, g[|g| - 1].name, selection in Ids(h), Mark(h, selection))
  }

  lemma LeafAndFull(leaf: Tree, h: seq<Tree>, depth: nat, selection: Id)
    requires leaf.kids == []
    ensures Flatten([leaf.(kids := h)], depth) == Flatten([leaf], depth) + Flatten(h, depth + 1)
    ensures Ids([leaf.(kids := h)]) == Ids([leaf]) + Ids(h)
    ensures Mark([leaf.(kids := h)], selection) == [View(leaf.id, leaf.name, selection in Ids(h), Mark(h, selection))]
    ensures |Mark([leaf], selection)| == 1
  {
  }

  lemma WithKidsLists(g: seq<Tree>, h: seq<Tree>, depth: nat, selection: Id)
    requires g != [] && g[|g| - 1].kids == []
    ensures Flatten(WithKids(g, h), depth) == Flatten(g, depth) + Flatten(h, depth + 1)
    ensures Ids(WithKids(g, h)) == Ids(g) + Ids(h)
    ensures Mark(WithKids(g, h), selection) == Mark(g, selection)[|g| - 1 := LastView(g, h, selection)]
  {
    hide Flatten, Ids, Mark;
    var front, leaf, full := g[..|g| - 1], [g[|g| - 1]], [g[|g| - 1].(kids := h)];
    assert g == front + leaf;
    LeafAndFull(g[|g| - 1], h, depth, selection);
    FlattenConcat(front, leaf, depth);
    FlattenConcat(front, full, depth);
    IdsConcat(front, leaf);
    IdsConcat(front, full);
    MarkConcat(front, leaf, selection);
    MarkConcat(front, full, selection);
  }

  lemma ListLeaf(ch: seq<ChannelInfo>, i: nat, j: nat, indent: nat, g: seq<Tree>, selection: Id)
    requires i <= j < |ch| && ch[j].depth == indent && Flatten(g, indent) == ch[i..j]
    ensures Flatten(WithLeaf(g, ch[j]), indent) == ch[i..j + 1]
    ensures Ids(WithLeaf(g, ch[j])) == Ids(g) + {ch[j].channelID}
  {
    WithLeafLists(g, ch[j], selection);
  }

  lemma ListKids(ch: seq<ChannelInfo>, i: nat, j: nat, k: nat, indent: nat, g: seq<Tree>, h: seq<Tree>, selection: Id)
    requires i <= j <= k <= |ch| && Flatten(g, indent) == ch[i..j] && Flatten(h, indent + 1) == ch[j..k]
    requires g != [] && g[|g| - 1].kids == []
    ensures Flatten(WithKids(g, h), indent) == ch[i..k]
    ensures Ids(WithKids(g, h)) == Ids(g) + Ids(h)
  {
    WithKidsLists(g, h, indent, selection);
    assert ch[i..k] == ch[i..j] + ch[j..k];
  }

  /** `parent` shows what it showed before, and then the trees `g` as well. */
  ghost predicate Shows(parent: TreeItem, before: View, g: seq<Tree>, selection: Id)
    reads parent, parent.Repr
  {
    parent.Valid() && parent.view == before.(kids := before.kids + Mark(g, selection))
  }

  /** The loop state: `parent` shows the trees `g` that make up the entries up to `index`. */
  ghost predicate Built(parent: TreeItem, before: View, g: seq<Tree>, selection: Id,
                        ch: seq<ChannelInfo>, index0: nat, index: nat, indent: nat)
    reads parent, parent.Repr
  {
    && Shows(parent, before, g, selection)
    && index0 <= index <= |ch| && Flatten(g, indent) == ch[index0..index]
    && (index == index0 <==> g == [])
    && (index > index0 ==> |parent.children| > 0)
    // an entry deeper than the last one is one level deeper, and the last one has no children yet
    && (index < |ch| && ch[index].depth > indent ==>
          index > index0 && g[|g| - 1].kids == [] && ch[index].depth == indent + 1)
  }

  lemma StartsBuilt(parent: TreeItem, selection: Id, ch: seq<ChannelInfo>, index: nat, indent: nat)
    requires parent.Valid() && index < |ch| && ch[index].depth == indent
    ensures Built(parent, parent.view, [], selection, ch, index, index, indent) && Ids([]) == {}
  {
    assert parent.view.kids + Mark([], selection) == parent.view.kids;
  }

  /** No entry from `index0` on is more than one level deeper than the one before. */
  predicate Gradual(ch: seq<ChannelInfo>, index0: nat) {
    forall k :: index0 < k < |ch| ==> ch[k].depth <= ch[k - 1].depth + 1
  }

  /** An item that hangs somewhere is the childless last one, or below another one. */
  lemma HangsApart(parent: TreeItem, path: seq<nat>, t: TreeItem)
    requires parent.Valid() && |parent.children| > 0 && parent.children[|parent.children| - 1].children == []
    requires Hangs(parent, path, t)
    ensures path != [] && path[0] < |parent.children|
    ensures var kid, last := parent.children[path[0]], parent.children[|parent.children| - 1];
            && kid.Valid() && HasAt(kid, path[1..], t) && parent !in kid.Repr
            && if path[0] == |parent.children| - 1 then path[1..] == [] && t == last else last !in kid.Repr
  {
  }

  /** An entry at the current depth: a new item after the others. */
  method AddItem(parent: TreeItem, ch: seq<ChannelInfo>, index: nat, indent: nat,
                 ghost before: View, ghost g: seq<Tree>, ghost selection: Id, ghost index0: nat,
                 ghost kept: TreeItem?, ghost path: seq<nat>)
    returns (tree: TreeItem)
    requires Built(parent, before, g, selection, ch, index0, index, indent) && Gradual(ch, index0)
    requires index < |ch| && ch[index].depth == indent && Hangs(parent, path, kept)
    modifies parent
    ensures Built(parent, before, WithLeaf(g, ch[index]), selection, ch, index0, index + 1, indent)
    ensures Ids(WithLeaf(g, ch[index])) == Ids(g) + {ch[index].channelID}
    ensures fresh(tree) && parent.Repr == old(parent.Repr) + {tree} && tree.id == ch[index].channelID
    ensures parent.children == old(parent.children) + [tree]
    ensures Hangs(parent, path, kept) && Hangs(parent, [|parent.children| - 1], tree)
  {
    tree := new TreeItem(ch[index]);
    parent.Append(tree);
    ListLeaf(ch, index0, index, indent, g, selection);
    WithLeafLists(g, ch[index], selection);
  }

  /** Fills in the children of a leaf, and expands it if the selection is among them. */
  method AddBelow(tree: TreeItem, ch: seq<ChannelInfo>, index0: nat, selection: Id)
    returns (t: TreeItem?, index: nat, ghost h: seq<Tree>, ghost path: seq<nat>)
    requires tree.Valid() && tree.view.kids == [] && !tree.view.expanded
    requires index0 < |ch| && Gradual(ch, index0)
    modifies tree
    ensures index0 < index <= |ch| && (index < |ch| ==> ch[index].depth < ch[index0].depth)
    ensures Flatten(h, ch[index0].depth) == ch[index0..index]
    ensures tree.Valid() && fresh(tree.Repr - old(tree.Repr)) && old(tree.Repr) <= tree.Repr
    ensures tree.view == View(tree.id, tree.name, selection in Ids(h), Mark(h, selection))
    ensures t != null <==> selection in Ids(h)
    ensures (t != null ==> t.id == selection && fresh(t)) && Hangs(tree, path, t)
    decreases |ch| - index0, 1
  {
    t, index, h, path := AddChannel(tree, ch, index0, ch[index0].depth, selection);
    assert [] + Mark(h, selection) == Mark(h, selection);
    if t != null {
      tree.Expand();
    }
  }

  /** The same for the last of the parent's items, which the parent then shows with its children. */
  method FillLast(parent: TreeItem, ch: seq<ChannelInfo>, index0: nat, selection: Id)
    returns (t: TreeItem?, index: nat, ghost h: seq<Tree>, ghost path: seq<nat>)
    requires parent.Valid() && |parent.children| > 0
    requires var shown := parent.view.kids[|parent.children| - 1]; shown.kids == [] && !shown.expanded
    requires index0 < |ch| && Gradual(ch, index0)
    modifies parent, parent.children[|parent.children| - 1]
    ensures index0 < index <= |ch| && (index < |ch| ==> ch[index].depth < ch[index0].depth)
    ensures Flatten(h, ch[index0].depth) == ch[index0..index]
    ensures parent.Valid() && fresh(parent.Repr - old(parent.Repr)) && old(parent.Repr) <= parent.Repr
    ensures parent.children == old(parent.children)
    ensures var last := |parent.children| - 1;
            var shown := View(parent.children[last].id, parent.children[last].name, selection in Ids(h), Mark(h,
                selection));
            parent.view == old(parent.view).(kids := old(parent.view.kids)[last := shown])
    ensures t != null <==> selection in Ids(h)
    ensures t != null ==> t.id == selection && fresh(t) && HasAt(parent.children[|parent.children| - 1], path, t)
    decreases |ch| - index0, 2
  {
    hide Mark, Flatten, Ids, Gradual, HasAt;
    var tree := parent.children[|parent.children| - 1];
    ghost var siblings := parent.children[..|parent.children| - 1];
    assert forall kid <- siblings ::
        kid.Valid() && kid.Repr !! tree.Repr && parent !in kid.Repr && kid.Repr <= parent.Repr;
    t, index, h, path := AddBelow(tree, ch, index0, selection);
    assert forall kid <- siblings :: kid.Valid() && kid.Repr !! tree.Repr;
    parent.AdoptLast();
  }

  /** And an item found before stays where it is. */
  method FillLastKeeping(parent: TreeItem, ch: seq<ChannelInfo>, index0: nat, selection: Id,
                         ghost kept: TreeItem?, ghost keptPath: seq<nat>)
    returns (t: TreeItem?, index: nat, ghost h: seq<Tree>, ghost path: seq<nat>)
    requires parent.Valid() && |parent.children| > 0
    requires var shown := parent.view.kids[|parent.children| - 1]; shown.kids == [] && !shown.expanded
    requires index0 < |ch| && Gradual(ch, index0) && Hangs(parent, keptPath, kept)
    modifies parent, parent.children[|parent.children| - 1]
    ensures index0 < index <= |ch| && (index < |ch| ==> ch[index].depth < ch[index0].depth)
    ensures Flatten(h, ch[index0].depth) == ch[index0..index]
    ensures parent.Valid() && fresh(parent.Repr - old(parent.Repr)) && old(parent.Repr) <= parent.Repr
    ensures parent.children == old(parent.children)
    ensures var last := |parent.children| - 1;
            var kid := parent.children[last];
            parent.view == old(parent.view).(kids := old(parent.view.kids)
              [last := View(kid.id, kid.name, selection in Ids(h), Mark(h, selection))])
    ensures t != null <==> selection in Ids(h)
    ensures t != null ==> t.id == selection && fresh(t)
    ensures Hangs(parent, path, t) && Hangs(parent, keptPath, kept)
    decreases |ch| - index0, 3
  {
    hide Mark, Flatten, Ids, Gradual;
    if kept != null {
      HangsApart(parent, keptPath, kept);
    }
    ghost var kid := if kept != null then parent.children[keptPath[0]] else parent;
    ghost var below: seq<nat>;
    t, index, h, below := FillLast(parent, ch, index0, selection);
    path := [|parent.children| - 1] + below;
    assert path[1..] == below;
    if kept != null {
      assert HasAt(kid, keptPath[1..], kept);
    }
  }

  /** A deeper entry: everything deeper goes below the last item. */
  method AddBelowLast(parent: TreeItem, ch: seq<ChannelInfo>, start: nat, selection: Id, ghost indent: nat,
                      ghost before: View, ghost g: seq<Tree>, ghost index0: nat,
                      ghost kept: TreeItem?, ghost keptPath: seq<nat>)
    returns (t: TreeItem?, index: nat, ghost h: seq<Tree>, ghost path: seq<nat>)
    requires Built(parent, before, g, selection, ch, index0, start, indent) && Gradual(ch, index0)
    requires start < |ch| && ch[start].depth > indent && Hangs(parent, keptPath, kept)
    modifies parent, parent.children[|parent.children| - 1]
    ensures start < index && Built(parent, before, WithKids(g, h), selection, ch, index0, index, indent)
    ensures Ids(WithKids(g, h)) == Ids(g) + Ids(h)
    ensures index < |ch| ==> ch[index].depth <= indent
    ensures fresh(parent.Repr - old(parent.Repr)) && old(parent.Repr) <= parent.Repr
    ensures parent.children == old(parent.children)
    ensures t != null <==> selection in Ids(h)
    ensures t != null ==> t.id == selection && fresh(t)
    ensures Hangs(parent, path, t) && Hangs(parent, keptPath, kept)
    decreases |ch| - start, 4
  {
    hide Flatten, Hangs;
    LastOfSum(before.kids, g, selection);
    t, index, h, path := FillLastKeeping(parent, ch, start, selection, kept, keptPath);
    UpdateLastOfSum(before.kids, g, h, selection);
    ListKids(ch, index0, start, index, indent, g, h, selection);
  }

  lemma MarkLast(g: seq<Tree>, selection: Id)
    requires g != []
    ensures Mark(g, selection)[|g| - 1] == LastView(g, g[|g| - 1].kids, selection)
  {
    assert g == g[..|g| - 1] + [g[|g| - 1]];
    MarkConcat(g[..|g| - 1], [g[|g| - 1]], selection);
  }

  lemma LastOfSum(a: seq<View>, g: seq<Tree>, selection: Id)
    requires g != []
    ensures var kids := a + Mark(g, selection);
            kids[|kids| - 1] == LastView(g, g[|g| - 1].kids, selection)
  {
    MarkLast(g, selection);
  }

  lemma UpdateLastOfSum(a: seq<View>, g: seq<Tree>, h: seq<Tree>, selection: Id)
    requires g != [] && g[|g| - 1].kids == []
    ensures var kids := a + Mark(g, selection);
            kids[|kids| - 1 := LastView(g, h, selection)] == a + Mark(WithKids(g, h), selection)
  {
    WithKidsLists(g, h, 0, selection);
  }

  /**
   Adds the entries from `index0` on, as long as they are at least `indent` deep.
   `g` are the trees they make up; the result is the item of the selection.
   */
  method AddChannel(parent: TreeItem, ch: seq<ChannelInfo>, index0: nat, indent: nat, selection: Id)
    returns (retValue: TreeItem?, index: nat, ghost g: seq<Tree>, ghost path: seq<nat>)
    requires parent.Valid()
    requires index0 < |ch| && ch[index0].depth == indent && Gradual(ch, index0)
    modifies parent
    ensures index0 < index <= |ch| && (index < |ch| ==> ch[index].depth < indent)
    ensures Flatten(g, indent) == ch[index0..index]
    ensures Shows(parent, old(parent.view), g, selection)
    ensures fresh(parent.Repr - old(parent.Repr)) && old(parent.Repr) <= parent.Repr
    ensures retValue != null <==> selection in Ids(g)
    ensures (retValue != null ==> retValue.id == selection && fresh(retValue)) && Hangs(parent, path, retValue)
    decreases |ch| - index0, 0
  {
    hide Mark, Flatten, Ids, Gradual, HasAt;
    StartsBuilt(parent, selection, ch, index0, indent);
    var tree: TreeItem? := null;
    ghost var before := parent.view;
    retValue, index, g, path := null, index0, [], [];
    while index < |ch|
      invariant Built(parent, before, g, selection, ch, index0, index, indent)
      invariant fresh(parent.Repr - old(parent.Repr)) && old(parent.Repr) <= parent.Repr
      invariant index > index0 ==> tree == parent.children[|parent.children| - 1] && fresh(tree)
      invariant retValue != null <==> selection in Ids(g)
      invariant (retValue != null ==> retValue.id == selection && fresh(retValue)) && Hangs(parent, path, retValue)
      decreases |ch| - index, if index < |ch| && ch[index].depth > indent then 1 else 0
    {
      if ch[index].depth < indent {
        break;
      } else if ch[index].depth == indent {
        tree := AddItem(parent, ch, index, indent, before, g, selection, index0, retValue, path);
        if ch[index].channelID == selection {
          retValue, path := tree, [|parent.children| - 1];
        }
        g := WithLeaf(g, ch[index]);
        index := index + 1;
      } else {
        var t: TreeItem?;
        ghost var h: seq<Tree>, below: seq<nat>;
        t, index, h, below := AddBelowLast(parent, ch, index, selection, indent, before, g, index0, retValue, path);
        if t != null {
          retValue, path := t, below;
        }
        g := WithKids(g, h);
      }
    }
  }

  /** The list below its first entry, whose item is `item`. */
  method AddChildren(item: TreeItem, ch: seq<ChannelInfo>, selection: Id)
    returns (t: TreeItem?, ghost g: seq<Tree>, ghost path: seq<nat>)
    requires item.Valid() && item.view.kids == []
    requires IsChannelList(ch)
    modifies item
    ensures Flatten(g, 1) == ch[1..]
    ensures item.Valid() && fresh(item.Repr - old(item.Repr))
    ensures item.view == old(item.view).(kids := Mark(g, selection))
    ensures t != null <==> selection in Ids(g)
    ensures (t != null ==> t.id == selection && fresh(t)) && Hangs(item, path, t)
  {
    var index := 1;
    if index < |ch| {
      t, index, g, path := AddChannel(item, ch, index, ch[index].depth, selection);
      assert index == |ch| && ch[1..|ch|] == ch[1..];
    } else {
      t, g, path := null, [], [];
    }
    assert [] + Mark(g, selection) == Mark(g, selection);
  }

  /** The depths of a channel list: the root first, everything else below it. */
  predicate IsChannelList(ch: seq<ChannelInfo>) {
    && ch != [] && PreOrder(ch, 0)
    && forall k :: 0 < k < |ch| ==> ch[k].depth >= 1
  }

  /** The listing of any channel tree is such a list. */
  lemma TreeIsChannelList(t: Tree)
    ensures IsChannelList(Flatten([t], 0))
  {
    var list := Flatten([t], 0);
    FlattenIsPreOrder([t], 0);
    assert [t][1..] == [] && list == [ChannelInfo(t.id, 0, t.name)] + Flatten(t.kids, 1) + Flatten([], 0);
    forall k | 0 < k < |list| ensures list[k].depth >= 1 {
      FlattenDepths(t.kids, 1, k - 1);
    }
  }

  lemma ListStarts(ch: seq<ChannelInfo>)
    requires IsChannelList(ch)
    ensures ch != [] && ch[0].depth == 0
  {
  }

  /** The list is the walk of exactly one tree. */
  lemma OneTreePerList(ch: seq<ChannelInfo>, g: seq<Tree>)
    requires ch != [] && ch[0].depth == 0 && Flatten(g, 1) == ch[1..]
    ensures var tree := Node(ch[0].channelID, ch[0].name, g);
            Flatten([tree], 0) == ch && forall t: Tree :: Flatten([t], 0) == ch ==> t == tree
  {
    var tree := Node(ch[0].channelID, ch[0].name, g);
    assert Flatten([tree], 0) == [ch[0]] + ch[1..] + [] == ch;
    forall t: Tree | Flatten([t], 0) == ch ensures t == tree {
      FlattenIsInjective([t], [tree], 0);
      assert [t][0] == [tree][0];
    }
  }

  /** The view of the whole tree shows the channels of the list, in their order. */
  lemma ViewShowsList(view: View, tree: Tree, ch: seq<ChannelInfo>, selection: Id)
    requires view == View(tree.id, tree.name, true, Mark(tree.kids, selection)) && Flatten([tree], 0) == ch
    ensures Shown([view]) == ChannelIds(ch)
  {
    ShownOne(view);
    MarkShows(tree.kids, 1, selection);
    assert [tree][1..] == [];
    assert ch == [ChannelInfo(tree.id, 0, tree.name)] + Flatten(tree.kids, 1) + Flatten([], 0);
  }

  /** A tree view with one top-level item and its selection. */
  class TreeWidget {
    var root: TreeItem?
    var selected: TreeItem?

    constructor ()
    {
      root, selected := null, null;
    }

    /** Rebuilds the tree whose pre-order is `ch`, and selects the given channel or else the root. */
    method AddChannelList(ch: seq<ChannelInfo>, selection: Id) returns (ghost tree: Tree, ghost path: seq<nat>)
      requires IsChannelList(ch)
      modifies this
      ensures Flatten([tree], 0) == ch && forall t: Tree :: Flatten([t], 0) == ch ==> t == tree
      ensures root != null && fresh(root) && root.Valid()
      ensures root.view == View(tree.id, tree.name, true, Mark(tree.kids, selection))
      ensures selected != null && HasAt(root, path, selected)
      ensures root.expanded && forall p: seq<nat>, t: TreeItem :: p != [] && HasAt(root, p, t) ==>
                t.Valid() && (t.expanded <==> HasBelow(t, selection))
      ensures Shown([root.view]) == ChannelIds(ch)
      ensures NoRepeats(ChannelIds(ch)) ==>
                forall p: seq<nat>, t: TreeItem :: HasAt(root, p, t) && t.id == selected.id ==>
                  p == path && t == selected
      ensures if selection in Ids(tree.kids) then selected.id == selection else selected == root
    {
      hide Mark, Ids, Flatten, Shown, ChannelIds, NoRepeats, Hangs, IsChannelList;
      assert ch != [] && ch[0].depth == 0 by {
        ListStarts(ch);
      }
      var item := new TreeItem(ch[0]);
      item.Expand();
      var selectedItem;
      ghost var g;
      selectedItem, g, path := AddChildren(item, ch, selection);
      if selectedItem == null {
        path := [];
      }
      root := item;
      selected := if selectedItem != null then selectedItem else item;
      tree := Node(ch[0].channelID, ch[0].name, g);
      OneTreePerList(ch, g);
      ViewShowsList(root.view, tree, ch, selection);
      ExpandedThroughout(root, g, selection);
      if NoRepeats(ChannelIds(ch)) {
        NoOtherItem(root, path, selected);
      }
    }
  }
}
