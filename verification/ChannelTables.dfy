/**
 The channel database: three tables, and the SQL statements that maintain them
 as operations on sets of rows.  `closure` materialises the ancestry of the
 channel forest; `Represents` says what it must hold.
 */
module ChannelTables {
  import opened Options
  import opened Forests
  import opened Frequencies

  datatype Position = Position(lat: real, lon: real)

  /** A row of `channels`, without its key. */
  datatype ChannelRow = ChannelRow(parent: Id, ordering: Id, name: string, station: string,
                                   position: Option<Position>, range: real)

  /** A row of `closure`: `parent` is `depth` steps above `child`. */
  datatype ClosureRow = ClosureRow(parent: Id, child: Id, depth: nat)

  /** A row of `channelFrequency`; no tuning stands for two NULL columns. */
  datatype FrequencyRow = FrequencyRow(channel: Id, tuning: Option<Tuning>)

  datatype Database = Database(
    channels: map<Id, ChannelRow>,
    closure: set<ClosureRow>,
    channelFrequency: set<FrequencyRow>)

  // ---------- the statements ----------

  const ROOT_ROW := ChannelRow(0, 0, "Root", "Root Channel", None, 0.0)

  /** aInitDatabase: empty tables but for the root channel. */
  function InitDatabaseSql(): Database {
    Database(map[0 := ROOT_ROW], {ClosureRow(0, 0, 0)}, {})
  }

  /** select child from closure where parent = :root */
  function ChildrenSql(closure: set<ClosureRow>, root: Id): set<Id> {
    set r | r in closure && r.parent == root :: r.child
  }

  /** aDeleteChannelFrequencies */
  function DeleteChannelFrequenciesSql(db: Database, id: Id): Database {
    var gone := ChildrenSql(db.closure, id);
    db.(channelFrequency := set q | q in db.channelFrequency && q.channel !in gone)
  }

  /** aDeleteChannels */
  function DeleteChannelsSql(db: Database, id: Id): Database {
    db.(channels := db.channels - ChildrenSql(db.closure, id))
  }

  /** The four-way join of aDeleteClosure: `link` spans a row that touches `id`. */
  predicate SpansDeleted(closure: set<ClosureRow>, id: Id, link: ClosureRow) {
    exists d <- closure ::
      && (d.parent == id || d.child == id)
      && (exists p <- closure :: p.parent == link.parent && p.child == d.parent)
      && (exists c <- closure :: c.child == link.child && c.parent == d.child)
  }

  /** aDeleteClosure */
  function DeleteClosureSql(db: Database, id: Id): Database {
    var gone := ChildrenSql(db.closure, id);
    db.(closure := set r | r in db.closure && !SpansDeleted(db.closure, id, r) && r.parent !in gone)
  }

  /** The transaction of deleteChannel. */
  function DeleteSql(db: Database, id: Id): Database {
    DeleteClosureSql(DeleteChannelsSql(DeleteChannelFrequenciesSql(db, id), id), id)
  }

  /** aAddInsertChannel; the key must be free. */
  function InsertChannelSql(db: Database, id: Id, row: ChannelRow): Database
    requires id !in db.channels
  {
    db.(channels := db.channels[id := row])
  }

  /** aAddInsertChannelFrequency; a frequency of zero is stored as NULL. */
  function FrequencyRowOf(id: Id, t: Tuning): FrequencyRow {
    FrequencyRow(id, if t.khz != 0 then Some(t) else None)
  }

  /** aAddInsertClosure1 */
  function InsertClosure1Sql(db: Database, id: Id): Database {
    db.(closure := db.closure + {ClosureRow(id, id, 0)})
  }

  /** What aAddInsertClosure2 selects for insertion. */
  function NewLinks(closure: set<ClosureRow>, id: Id, parent: Id): set<ClosureRow> {
    set p, c | p in closure && c in closure && p.child == parent && c.parent == id
      :: ClosureRow(p.parent, c.child, p.depth + c.depth + 1)
  }

  /** aAddInsertClosure2 */
  function InsertClosure2Sql(db: Database, id: Id, parent: Id): Database {
    db.(closure := db.closure + NewLinks(db.closure, id, parent))
  }

  /** aUpdateRootChannelName */
  function UpdateRootChannelNameSql(channels: map<Id, ChannelRow>, name: string): map<Id, ChannelRow> {
    if 0 in channels then channels[0 := channels[0].(name := name)] else channels
  }

  function InsertFrequencies(db: Database, id: Id, tunings: seq<Tuning>): Database {
    db.(channelFrequency := db.channelFrequency + set t | t in tunings :: FrequencyRowOf(id, t))
  }

  /** The transaction of addOrUpdateChannel, after its deletion of the old channel. */
  function InsertSql(db: Database, id: Id, row: ChannelRow, tunings: seq<Tuning>): Database
    requires id !in db.channels
  {
    var withChannel := InsertFrequencies(InsertChannelSql(db, id, row), id, tunings);
    InsertClosure2Sql(InsertClosure1Sql(withChannel, id), id, row.parent)
  }

  // ---------- what the tables stand for ----------

  /** `closure` holds exactly the ancestry of the forest. */
  ghost predicate Indexes(closure: set<ClosureRow>, f: Forest) {
    forall r: ClosureRow :: r in closure <==> Climb(f, r.child, r.depth) == Some(r.parent)
  }

  /** Every link goes to the parent that the channel's row names. */
  ghost predicate FollowsRows(channels: map<Id, ChannelRow>, f: Forest) {
    forall c :: c in f.up ==> c in channels && f.up[c] == channels[c].parent
  }

  ghost predicate Represents(db: Database, f: Forest) {
    && IsForest(f)
    && Indexes(db.closure, f)
    && db.channels.Keys == f.ids
    && FollowsRows(db.channels, f)
    && forall q :: q in db.channelFrequency ==> q.channel in f.ids && (q.tuning.Some? ==> q.tuning.value.khz != 0)
  }

  const ROOT_ONLY := Forest({0}, map[])

  lemma InitRepresents()
    ensures Represents(InitDatabaseSql(), ROOT_ONLY)
  {
  }

  lemma ChildrenAreSubtree(closure: set<ClosureRow>, f: Forest, root: Id)
    requires Indexes(closure, f)
    ensures ChildrenSql(closure, root) == Subtree(f, root)
  {
    var got := ChildrenSql(closure, root);
    forall x | x in got ensures x in Subtree(f, root) {
      var r :| r in closure && r.parent == root && r.child == x;
      ClimbStays(f, x, r.depth);
    }
    forall x | x in Subtree(f, root) ensures x in got {
      var d: nat :| Climb(f, x, d) == Some(root);
      assert ClosureRow(root, x, d) in closure;
    }
  }

  /** One row between each ordered pair, so each pair has one depth. */
  lemma OneRowPerPair(closure: set<ClosureRow>, f: Forest, r: ClosureRow, s: ClosureRow)
    requires Acyclic(f) && Indexes(closure, f)
    requires r in closure && s in closure && r.parent == s.parent && r.child == s.child
    ensures r == s
  {
    OneDepthPerPair(f, r.child, r.parent, r.depth, s.depth);
  }

  /** A row caught by the four-way join ends below the deleted channel. */
  lemma SpanEndsBelow(closure: set<ClosureRow>, f: Forest, id: Id, link: ClosureRow)
    requires Indexes(closure, f) && link in closure && SpansDeleted(closure, id, link)
    ensures Under(f, id, link.child)
  {
    var d, c :| d in closure && c in closure && (d.parent == id || d.child == id)
             && c.child == link.child && c.parent == d.child;
    assert Climb(f, d.child, d.depth) == Some(d.parent);
    assert Climb(f, c.child, c.depth) == Some(c.parent);
    assert Under(f, c.parent, c.child);
    if d.parent == id {
      assert Under(f, id, d.child);
      UnderTransitive(f, id, d.child, link.child);
    }
  }

  /** A row that ends below the deleted channel is caught by join or union. */
  lemma BelowIsDeleted(closure: set<ClosureRow>, f: Forest, id: Id, link: ClosureRow)
    requires Indexes(closure, f) && link in closure && Under(f, id, link.child)
    ensures SpansDeleted(closure, id, link) || link.parent in ChildrenSql(closure, id)
  {
    assert Climb(f, link.child, link.depth) == Some(link.parent);
    AncestorsComparable(f, link.child, link.parent, id);
    var j: nat :| Climb(f, link.child, j) == Some(id);
    var c := ClosureRow(id, link.child, j);
    assert c in closure;
    ClimbStays(f, link.child, j);
    ClimbStays(f, link.child, link.depth);
    if Under(f, link.parent, id) {
      var i: nat :| Climb(f, id, i) == Some(link.parent);
      var p, d := ClosureRow(link.parent, id, i), ClosureRow(id, id, 0);
      assert p in closure && d in closure;
      assert p.parent == link.parent && p.child == d.parent;
      assert c.child == link.child && c.parent == d.child;
    } else {
      ChildrenAreSubtree(closure, f, id);
    }
  }

  /** The delete join removes exactly the rows that end in the deleted subtree. */
  lemma DeleteJoinIsExact(db: Database, f: Forest, id: Id)
    requires Indexes(db.closure, f)
    ensures DeleteClosureSql(db, id).closure == set r | r in db.closure && !Under(f, id, r.child)
  {
    forall r | r in db.closure
      ensures SpansDeleted(db.closure, id, r) || r.parent in ChildrenSql(db.closure, id) <==> Under(f, id, r.child)
    {
      if SpansDeleted(db.closure, id, r) {
        SpanEndsBelow(db.closure, f, id, r);
      }
      if r.parent in ChildrenSql(db.closure, id) {
        ChildrenAreSubtree(db.closure, f, id);
        assert Climb(f, r.child, r.depth) == Some(r.parent);
        UnderTransitive(f, id, r.parent, r.child);
      }
      if Under(f, id, r.child) {
        BelowIsDeleted(db.closure, f, id, r);
      }
    }
  }

  /** Deleting keeps the refinement: what is left is the pruned forest. */
  lemma DeleteRepresents(db: Database, f: Forest, id: Id)
    requires Represents(db, f)
    ensures Represents(DeleteSql(db, id), Prune(f, id))
  {
    var g, after := Prune(f, id), DeleteSql(db, id);
    DeleteJoinIsExact(db, f, id);
    ChildrenAreSubtree(db.closure, f, id);
    PruneIsForest(f, id);
    assert after.closure == DeleteClosureSql(db, id).closure;
    forall r: ClosureRow ensures r in after.closure <==> Climb(g, r.child, r.depth) == Some(r.parent) {
      ClimbPruned(f, id, r.child, r.depth);
      if r in db.closure {
        ClimbStays(f, r.child, r.depth);
      }
    }
  }

  /** A new channel's key is free once its old subtree is gone. */
  lemma KeyIsFree(db: Database, f: Forest, id: Id)
    requires Represents(db, f)
    ensures id !in DeleteSql(db, id).channels
  {
    ChildrenAreSubtree(db.closure, f, id);
    if id in f.ids {
      assert Climb(f, id, 0) == Some(id);
    }
  }

  /** Inserting keeps the refinement: the channel becomes a leaf below its parent. */
  lemma InsertRepresents(db: Database, f: Forest, id: Id, row: ChannelRow, tunings: seq<Tuning>)
    requires Represents(db, f) && id !in db.channels && id != row.parent
    ensures Represents(InsertSql(db, id, row, tunings), Graft(f, id, row.parent))
  {
    var g, after := Graft(f, id, row.parent), InsertSql(db, id, row, tunings);
    GraftIsForest(f, id, row.parent);
    var self := ClosureRow(id, id, 0);
    var before := db.closure + {self};
    assert after.closure == before + NewLinks(before, id, row.parent);
    forall r: ClosureRow ensures r in after.closure <==> Climb(g, r.child, r.depth) == Some(r.parent) {
      ClimbGrafted(f, id, row.parent, r.child, r.depth);
      NewLinksAreAncestors(db.closure, f, id, row.parent, r);
    }
  }

  /** The second insert selects the new channel's proper ancestors, and no row twice. */
  lemma NewLinksAreAncestors(closure: set<ClosureRow>, f: Forest, id: Id, parent: Id, r: ClosureRow)
    requires Indexes(closure, f) && id !in f.ids && id != parent
    ensures r in NewLinks(closure + {ClosureRow(id, id, 0)}, id, parent)
       <==> r.child == id && r.depth > 0 && Climb(f, parent, r.depth - 1) == Some(r.parent)
    ensures r.child == id ==> r !in closure
  {
    var self := ClosureRow(id, id, 0);
    var before := closure + {self};
    forall c | c in closure ensures c.parent != id && c.child != id {
      ClimbStays(f, c.child, c.depth);
    }
    if r.child == id && r.depth > 0 && Climb(f, parent, r.depth - 1) == Some(r.parent) {
      var p := ClosureRow(r.parent, parent, r.depth - 1);
      assert p in before && self in before;
      assert r == ClosureRow(p.parent, self.child, p.depth + self.depth + 1);
    }
    if r in NewLinks(before, id, parent) {
      var p, c :| p in before && c in before && p.child == parent && c.parent == id
               && r == ClosureRow(p.parent, c.child, p.depth + c.depth + 1);
      assert c == self && p in closure;
    }
  }

  // ---------- every run ----------

  /** The statements the plugin issues, in any order. */
  datatype Command =
    | Init
    | Delete(id: Id)
    | AddOrUpdate(id: Id, row: ChannelRow, tunings: seq<Tuning>)

  predicate Legal(c: Command) {
    c.AddOrUpdate? ==> c.id != c.row.parent
  }

  /** The effect on the simple structure: prune, graft, or start again. */
  ghost function Plan(f: Forest, c: Command): Forest {
    match c
    case Init => ROOT_ONLY
    case Delete(id) => Prune(f, id)
    case AddOrUpdate(id, row, _) => Graft(Prune(f, id), id, row.parent)
  }

  ghost function PlanAll(cs: seq<Command>): Forest {
    if cs == [] then ROOT_ONLY else Plan(PlanAll(cs[..|cs| - 1]), cs[|cs| - 1])
  }

  /** The effect on the tables; a second row with a key in use is refused. */
  function Execute(db: Database, c: Command): Option<Database> {
    match c
    case Init => Some(InitDatabaseSql())
    case Delete(id) => Some(DeleteSql(db, id))
    case AddOrUpdate(id, row, tunings) =>
      var cleared := DeleteSql(db, id);
      if id in cleared.channels then None else Some(InsertSql(cleared, id, row, tunings))
  }

  function ExecuteAll(cs: seq<Command>): Option<Database> {
    if cs == [] then Some(InitDatabaseSql())
    else
      match ExecuteAll(cs[..|cs| - 1])
      case None => None
      case Some(db) => Execute(db, cs[|cs| - 1])
  }

  lemma ExecuteRepresents(db: Database, f: Forest, c: Command)
    requires Represents(db, f) && Legal(c)
    ensures Execute(db, c).Some? && Represents(Execute(db, c).value, Plan(f, c))
  {
    match c
    case Init => InitRepresents();
    case Delete(id) => DeleteRepresents(db, f, id);
    case AddOrUpdate(id, row, tunings) =>
      DeleteRepresents(db, f, id);
      KeyIsFree(db, f, id);
      InsertRepresents(DeleteSql(db, id), Prune(f, id), id, row, tunings);
  }

  /** What each statement does to the rows: nothing but what it is for. */
  lemma CommandDoes(db: Database, f: Forest, c: Command)
    requires Represents(db, f) && Legal(c)
    ensures Execute(db, c).Some?
    ensures var after := Execute(db, c).value;
            match c
            case Init =>
              after.closure == {ClosureRow(0, 0, 0)} && after.channels.Keys == {0} && after.channelFrequency == {}
            case Delete(id) =>
              && (forall r :: r in after.closure <==> r in db.closure && !Under(f, id, r.child))
              && (forall x :: x in after.channels <==> x in db.channels && !Under(f, id, x))
              && (forall x :: x in after.channels ==> after.channels[x] == db.channels[x])
              && (forall q :: q in after.channelFrequency <==> q in db.channelFrequency && !Under(f, id, q.channel))
            case AddOrUpdate(id, row, tunings) =>
              && (forall r: ClosureRow :: r.child != id ==>
                   (r in after.closure <==> r in db.closure && !Under(f, id, r.child)))
              && (forall r: ClosureRow :: r.child == id ==> (r in after.closure <==>
                    if r.depth == 0 then r.parent == id
                    else ClosureRow(r.parent, row.parent, r.depth - 1) in db.closure && !Under(f, id, row.parent)))
              && (forall x :: x != id ==> (x in after.channels <==> x in db.channels && !Under(f, id, x)))
              && (forall x :: x in after.channels && x != id ==> after.channels[x] == db.channels[x])
              && id in after.channels && after.channels[id] == row
              && (forall q: FrequencyRow :: q.channel != id ==>
                    (q in after.channelFrequency <==> q in db.channelFrequency && !Under(f, id, q.channel)))
              && (forall q: FrequencyRow :: q.channel == id && q.tuning.Some? ==>
                    (q in after.channelFrequency <==> q.tuning.value.khz != 0 && q.tuning.value in tunings))
  {
    match c
    case Init =>
    case Delete(id) => DeleteDoes(db, f, id);
    case AddOrUpdate(id, row, tunings) =>
      DeleteDoes(db, f, id);
      ExecuteRepresents(db, f, c);
      AddDoes(db, f, id, row, tunings);
  }

  lemma DeleteDoes(db: Database, f: Forest, id: Id)
    requires Represents(db, f)
    ensures var after := DeleteSql(db, id);
            && (forall r :: r in after.closure <==> r in db.closure && !Under(f, id, r.child))
            && (forall x :: x in after.channels <==> x in db.channels && !Under(f, id, x))
            && (forall x :: x in after.channels ==> after.channels[x] == db.channels[x])
            && (forall q :: q in after.channelFrequency <==> q in db.channelFrequency && !Under(f, id, q.channel))
  {
    DeleteJoinIsExact(db, f, id);
    ChildrenAreSubtree(db.closure, f, id);
    assert DeleteSql(db, id).closure == DeleteClosureSql(db, id).closure;
  }

  lemma AddDoes(db: Database, f: Forest, id: Id, row: ChannelRow, tunings: seq<Tuning>)
    requires Represents(db, f) && id != row.parent
    requires Execute(db, AddOrUpdate(id, row, tunings)).Some?
    ensures var cleared, after := DeleteSql(db, id), Execute(db, AddOrUpdate(id, row, tunings)).value;
            && after.channels == cleared.channels[id := row]
            && (forall q :: q in after.channelFrequency <==>
                  q in cleared.channelFrequency || exists t :: t in tunings && q == FrequencyRowOf(id, t))
            && (forall r: ClosureRow :: r.child != id ==> (r in after.closure <==> r in cleared.closure))
            && (forall r: ClosureRow :: r.child == id ==> (r in after.closure <==>
                  if r.depth == 0 then r.parent == id
                  else ClosureRow(r.parent, row.parent, r.depth - 1) in cleared.closure))
            && (forall q :: q in cleared.channelFrequency ==> q.channel != id)
  {
    var cleared, g := DeleteSql(db, id), Prune(f, id);
    DeleteRepresents(db, f, id);
    KeyIsFree(db, f, id);
    hide DeleteSql, Prune;
    InsertedRows(cleared, g, id, row, tunings);
  }

  /** The inserts of a channel that is not there, row by row. */
  lemma InsertedRows(db: Database, f: Forest, id: Id, row: ChannelRow, tunings: seq<Tuning>)
    requires Represents(db, f) && id != row.parent && id !in db.channels
    ensures var after := InsertSql(db, id, row, tunings);
            && after.channels == db.channels[id := row]
            && (forall q :: q in after.channelFrequency <==>
                  q in db.channelFrequency || exists t :: t in tunings && q == FrequencyRowOf(id, t))
            && (forall r: ClosureRow :: r.child != id ==> (r in after.closure <==> r in db.closure))
            && (forall r: ClosureRow :: r.child == id ==> (r in after.closure <==>
                  if r.depth == 0 then r.parent == id
                  else ClosureRow(r.parent, row.parent, r.depth - 1) in db.closure))
    ensures forall q :: q in db.channelFrequency ==> q.channel != id
  {
    var after, self := InsertSql(db, id, row, tunings), ClosureRow(id, id, 0);
    var before := db.closure + {self};
    assert after.closure == before + NewLinks(before, id, row.parent);
    hide NewLinks, InsertSql;
    forall r: ClosureRow ensures r in after.closure <==>
      if r.child != id then r in db.closure
      else if r.depth == 0 then r.parent == id
      else ClosureRow(r.parent, row.parent, r.depth - 1) in db.closure
    {
      NewLinksAreAncestors(db.closure, f, id, row.parent, r);
    }
  }

  /** In every run no insert meets a key in use, and the index refines the forest. */
  lemma {:induction false} EveryRunRepresents(cs: seq<Command>)
    requires forall c :: c in cs ==> Legal(c)
    ensures ExecuteAll(cs).Some? && Represents(ExecuteAll(cs).value, PlanAll(cs))
  {
    if cs == [] {
      InitRepresents();
    } else {
      EveryRunRepresents(cs[..|cs| - 1]);
      ExecuteRepresents(ExecuteAll(cs[..|cs| - 1]).value, PlanAll(cs[..|cs| - 1]), cs[|cs| - 1]);
    }
  }

  // ---------- what an update keeps ----------

  /** Updating a channel keeps every other channel exactly when it has none below it. */
  lemma UpdateKeepsOthersIffLeaf(f: Forest, id: Id, parent: Id)
    requires IsForest(f) && id != parent
    ensures f.ids <= Graft(Prune(f, id), id, parent).ids <==> (forall x :: x in f.ids && Under(f, id, x) ==> x == id)
  {
  }

  /** An updated channel hangs below its parent exactly when the parent is present and not below it. */
  lemma UpdateLinksIffParentSurvives(f: Forest, id: Id, parent: Id)
    requires IsForest(f) && id != parent
    ensures var g := Graft(Prune(f, id), id, parent);
            Under(g, parent, id) <==> parent in f.ids && !Under(f, id, parent)
  {
    var h := Prune(f, id);
    var g := Graft(h, id, parent);
    PruneIsForest(f, id);
    if id in f.ids {
      assert Climb(f, id, 0) == Some(id);
    }
    if parent in h.ids {
      ClimbGrafted(h, id, parent, id, 1);
      assert Climb(h, parent, 0) == Some(parent);
    } else if Under(g, parent, id) {
      var d: nat :| Climb(g, id, d) == Some(parent);
      ClimbGrafted(h, id, parent, id, d);
      assert false;
    }
  }

  /** Updating a channel with one below it loses the one below. */
  lemma UpdateLosesDescendants()
    ensures var f := Graft(Graft(ROOT_ONLY, 1, 0), 2, 1);
            IsForest(f) && 2 in f.ids && 2 !in Graft(Prune(f, 1), 1, 0).ids
  {
    var one := Graft(ROOT_ONLY, 1, 0);
    var f := Graft(one, 2, 1);
    InitRepresents();
    GraftIsForest(ROOT_ONLY, 1, 0);
    GraftIsForest(one, 2, 1);
    assert f.up[2] == 1;
    assert Climb(f, 2, 1) == Some(1);
  }
}
