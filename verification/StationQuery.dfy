/**
 The query behind getChannelID: of the channels that carry a frequency, the one
 nearest to the current channel, measured through the closure table.
 */
module StationQuery {
  import opened Options
  import opened Forests
  import opened Frequencies
  import opened ChannelTables

  /** A row of the `stations` subquery. */
  datatype StationRow = StationRow(channel: Id, distance: nat, removed: nat)

  /** What is asked; `nm` gives the distance from the aircraft to a position. */
  datatype Query = Query(tuning: Tuning, current: Id, root: Id,
                         considerRange: bool, outOfRangeUntuned: bool, nm: Position -> real)

  /** The `stations` subquery of aGetChannelFromFreqCurrPrnt. */
  function StationsSql(db: Database, q: Query): set<StationRow> {
    var below := ChildrenSql(db.closure, q.root);
    set up, down, cf |
      && up in db.closure && down in db.closure && cf in db.channelFrequency
      && up.child == q.current && up.parent in below
      && down.child == cf.channel && cf.tuning == Some(q.tuning)
      && up.parent == down.parent
      :: StationRow(down.child, up.depth + down.depth, down.depth)
  }

  /** ifnull(range(...), c.range) */
  function RangeTo(db: Database, q: Query, channel: Id): real
    requires channel in db.channels
  {
    match db.channels[channel].position
    case Some(p) => q.nm(p)
    case None => db.channels[channel].range
  }

  predicate InRange(db: Database, q: Query, channel: Id)
    requires channel in db.channels
  {
    RangeTo(db, q, channel) <= db.channels[channel].range
  }

  /** The where clause, which is there only if out of range means untuned. */
  predicate Admitted(db: Database, q: Query, channel: Id) {
    channel in db.channels && (q.considerRange && q.outOfRangeUntuned ==> InRange(db, q, channel))
  }

  function CandidatesSql(db: Database, q: Query): set<StationRow> {
    set s | s in StationsSql(db, q) && Admitted(db, q, s.channel)
  }

  /** The final order by: range if it is considered, distance, removed. */
  predicate AtMost(db: Database, q: Query, a: StationRow, b: StationRow)
    requires a.channel in db.channels && b.channel in db.channels
  {
    var nearer := a.distance < b.distance || (a.distance == b.distance && a.removed <= b.removed);
    if !q.considerRange || RangeTo(db, q, a.channel) == RangeTo(db, q, b.channel) then nearer
    else RangeTo(db, q, a.channel) < RangeTo(db, q, b.channel)
  }

  /** `first` may be the first row of the ordered result. */
  predicate IsFirst(db: Database, q: Query, first: StationRow) {
    && first in CandidatesSql(db, q)
    && forall s <- CandidatesSql(db, q) :: AtMost(db, q, first, s)
  }

  // ---------- what the query should find ----------

  /** A channel under the root that carries the frequency and is not ruled out by range. */
  ghost predicate Eligible(db: Database, f: Forest, q: Query, x: Id) {
    && Under(f, q.root, x)
    && FrequencyRow(x, Some(q.tuning)) in db.channelFrequency
    && Admitted(db, q, x)
  }

  /**
   `x` is `distance` tree steps from the current channel, `removed` of them down from their lowest common
   ancestor.
   */
  ghost predicate Placed(f: Forest, q: Query, x: Id, distance: nat, removed: nat) {
    && IsDistance(f, q.current, x, distance)
    && exists w: Id :: IsLca(f, w, q.current, x) && Climb(f, x, removed) == Some(w)
  }

  /** A station row goes up to a common ancestor under the root and down again. */
  ghost predicate Via(f: Forest, q: Query, x: Id, w: Id, i: nat, j: nat) {
    Climb(f, q.current, i) == Some(w) && Climb(f, x, j) == Some(w) && Under(f, q.root, w)
  }

  lemma RowGoesVia(db: Database, f: Forest, q: Query, s: StationRow) returns (w: Id, i: nat)
    requires Represents(db, f) && s in StationsSql(db, q)
    ensures Via(f, q, s.channel, w, i, s.removed) && s.distance == i + s.removed
    ensures FrequencyRow(s.channel, Some(q.tuning)) in db.channelFrequency
    ensures Under(f, q.root, s.channel) && Under(f, q.root, q.current)
  {
    var up, down, cf :|
      && up in db.closure && down in db.closure && cf in db.channelFrequency
      && up.child == q.current && up.parent in ChildrenSql(db.closure, q.root)
      && down.child == cf.channel && cf.tuning == Some(q.tuning)
      && up.parent == down.parent
      && s == StationRow(down.child, up.depth + down.depth, down.depth);
    w, i := up.parent, up.depth;
    ChildrenAreSubtree(db.closure, f, q.root);
    assert Climb(f, up.child, up.depth) == Some(w) && Climb(f, down.child, down.depth) == Some(w);
    UnderTransitive(f, q.root, w, s.channel);
    UnderTransitive(f, q.root, w, q.current);
    assert cf == FrequencyRow(s.channel, Some(q.tuning));
  }

  lemma ViaIsRow(db: Database, f: Forest, q: Query, x: Id, w: Id, i: nat, j: nat)
    requires Represents(db, f) && Via(f, q, x, w, i, j)
    requires FrequencyRow(x, Some(q.tuning)) in db.channelFrequency
    ensures StationRow(x, i + j, j) in StationsSql(db, q)
  {
    var up, down, cf := ClosureRow(w, q.current, i), ClosureRow(w, x, j), FrequencyRow(x, Some(q.tuning));
    ChildrenAreSubtree(db.closure, f, q.root);
    ClimbStays(f, q.current, i);
    assert up in db.closure && down in db.closure && up.parent in ChildrenSql(db.closure, q.root);
    assert StationRow(x, i + j, j) == StationRow(down.child, up.depth + down.depth, down.depth);
  }

  /** Two channels under the root have their lowest common ancestor under it too. */
  lemma PlaceUnderRoot(f: Forest, q: Query, x: Id) returns (w: Id, i: nat, j: nat)
    requires Acyclic(f) && Under(f, q.root, q.current) && Under(f, q.root, x)
    ensures Via(f, q, x, w, i, j) && IsLca(f, w, q.current, x) && Placed(f, q, x, i + j, j)
  {
    var p: nat :| Climb(f, q.current, p) == Some(q.root);
    var r: nat :| Climb(f, x, r) == Some(q.root);
    w, i, j := LcaExists(f, q.current, x, q.root, p, r);
    LcaIsNearest(f, q.current, x, w, i, j);
  }

  lemma PlaceIsUnique(f: Forest, q: Query, x: Id, w: Id, i: nat, j: nat, distance: nat, removed: nat)
    requires Acyclic(f) && Via(f, q, x, w, i, j) && IsLca(f, w, q.current, x)
    requires Placed(f, q, x, distance, removed)
    ensures distance == i + j && removed == j
  {
    LcaIsNearest(f, q.current, x, w, i, j);
    var v: Id :| IsLca(f, v, q.current, x) && Climb(f, x, removed) == Some(v);
    var k: nat :| Climb(f, q.current, k) == Some(v);
    CommonAncestorAbove(f, q.current, x, w, i, j, v, k, removed);
    CommonAncestorAbove(f, q.current, x, v, k, removed, w, i, j);
  }

  /** An eligible station has a row at its true place. */
  lemma EligibleHasRow(db: Database, f: Forest, q: Query, x: Id) returns (best: StationRow)
    requires Represents(db, f) && Under(f, q.root, q.current) && Eligible(db, f, q, x)
    ensures best in CandidatesSql(db, q) && best.channel == x
    ensures Placed(f, q, x, best.distance, best.removed)
    ensures forall n: nat, j: nat :: Placed(f, q, x, n, j) ==> n == best.distance && j == best.removed
  {
    var w, i, j := PlaceUnderRoot(f, q, x);
    ViaIsRow(db, f, q, x, w, i, j);
    best := StationRow(x, i + j, j);
    forall n: nat, k: nat | Placed(f, q, x, n, k) ensures n == i + j && k == j {
      PlaceIsUnique(f, q, x, w, i, j, n, k);
    }
  }

  /** Of the rows of one station none beats the one at its true place. */
  lemma RowIsNoNearer(db: Database, f: Forest, q: Query, s: StationRow)
    requires Represents(db, f) && s in StationsSql(db, q)
    ensures forall n: nat, j: nat :: Placed(f, q, s.channel, n, j) ==>
              n <= s.distance && j <= s.removed && (n == s.distance ==> j == s.removed)
  {
    var v, p := RowGoesVia(db, f, q, s);
    var w, i, j := PlaceUnderRoot(f, q, s.channel);
    CommonAncestorAbove(f, q.current, s.channel, w, i, j, v, p, s.removed);
    forall n: nat, k: nat | Placed(f, q, s.channel, n, k) ensures n == i + j && k == j {
      PlaceIsUnique(f, q, s.channel, w, i, j, n, k);
    }
  }

  /** An eligible station that no eligible station beats: by range if it counts, then tree distance, then steps down. */
  ghost predicate IsNearest(db: Database, f: Forest, q: Query, x: Id) {
    && Eligible(db, f, q, x)
    && exists n: nat, j: nat :: Placed(f, q, x, n, j) && BeatsAll(db, f, q, StationRow(x, n, j))
  }

  ghost predicate BeatsAll(db: Database, f: Forest, q: Query, best: StationRow)
    requires best.channel in db.channels
  {
    forall y: Id, m: nat, k: nat :: Eligible(db, f, q, y) && Placed(f, q, y, m, k) ==>
      AtMost(db, q, best, StationRow(y, m, k))
  }

  /** The first row of the ordered result is such a station, in its true place. */
  lemma FirstIsNearest(db: Database, f: Forest, q: Query, first: StationRow)
    requires Represents(db, f) && IsFirst(db, q, first)
    ensures Under(f, q.root, q.current) && IsNearest(db, f, q, first.channel)
    ensures Placed(f, q, first.channel, first.distance, first.removed)
    ensures q.considerRange && q.outOfRangeUntuned ==> InRange(db, q, first.channel)
  {
    var _, _ := RowGoesVia(db, f, q, first);
    var own := EligibleHasRow(db, f, q, first.channel);
    RowIsNoNearer(db, f, q, first);
    assert AtMost(db, q, first, own);
    forall y: Id, m: nat, k: nat | Eligible(db, f, q, y) && Placed(f, q, y, m, k)
      ensures AtMost(db, q, first, StationRow(y, m, k))
    {
      var best := EligibleHasRow(db, f, q, y);
      assert AtMost(db, q, first, best);
    }
    assert BeatsAll(db, f, q, StationRow(first.channel, first.distance, first.removed));
  }

  // ---------- the order in which stations win ----------

  /** How far away a station counts as being: its distance, or its own range if its position is not known. */
  predicate IsRange(row: ChannelRow, nm: Position -> real, r: real) {
    match row.position
    case Some(p) => r == nm(p)
    case None => r == row.range
  }

  /** From `home` the channel is reached by `up` steps to their lowest common ancestor and `down` steps from there. */
  ghost predicate Reached(f: Forest, home: Id, x: Id, up: nat, down: nat) {
    exists w: Id :: IsLca(f, w, home, x) && Climb(f, home, up) == Some(w) && Climb(f, x, down) == Some(w)
  }

  /** `x` is found rather than `y`: by range, if that counts, then by tree distance, then by the steps down. */
  ghost predicate Ahead(f: Forest, home: Id, byRange: bool, x: Id, rx: real, y: Id, ry: real) {
    forall i: nat, j: nat, k: nat, l: nat :: Reached(f, home, x, i, j) && Reached(f, home, y, k, l) ==>
      if byRange && rx != ry then rx < ry else i + j < k + l || (i + j == k + l && j <= l)
  }

  /** Under the root, on the frequency, and not out of range where that means untuned. */
  ghost predicate Heard(db: Database, f: Forest, root: Id, t: Tuning, considerRange: bool, outOfRangeUntuned: bool,
                        nm: Position -> real, x: Id)
  {
    && Under(f, root, x) && FrequencyRow(x, Some(t)) in db.channelFrequency && x in db.channels
    && (considerRange && outOfRangeUntuned ==>
          match db.channels[x].position
          case Some(p) => nm(p) <= db.channels[x].range
          case None => true)
  }

  ghost predicate HeardBy(db: Database, f: Forest, q: Query, x: Id) {
    Heard(db, f, q.root, q.tuning, q.considerRange, q.outOfRangeUntuned, q.nm, x)
  }

  lemma HeardIsEligible(db: Database, f: Forest, q: Query, x: Id)
    requires Represents(db, f)
    ensures Eligible(db, f, q, x) <==> HeardBy(db, f, q, x)
  {
  }

  /** A nearest station is ahead of every station that is heard. */
  lemma NearestIsAhead(db: Database, f: Forest, q: Query, x: Id, rx: real, y: Id, ry: real)
    requires Represents(db, f) && Under(f, q.root, q.current) && IsNearest(db, f, q, x)
    requires HeardBy(db, f, q, y)
    requires x in db.channels && IsRange(db.channels[x], q.nm, rx) && IsRange(db.channels[y], q.nm, ry)
    ensures Ahead(f, q.current, q.considerRange, x, rx, y, ry)
  {
    HeardIsEligible(db, f, q, y);
    forall i: nat, j: nat, k: nat, l: nat | Reached(f, q.current, x, i, j) && Reached(f, q.current, y, k, l)
      ensures if q.considerRange && rx != ry then rx < ry else i + j < k + l || (i + j == k + l && j <= l)
    {
      hide IsNearest, Eligible, HeardBy, Reached;
      ReachedIsPlaced(f, q, x, i, j);
      ReachedIsPlaced(f, q, y, k, l);
      OrderOfPlaces(db, f, q, x, i + j, j, y, k + l, l);
    }
  }

  lemma ReachedIsPlaced(f: Forest, q: Query, x: Id, up: nat, down: nat)
    requires Acyclic(f) && Reached(f, q.current, x, up, down)
    ensures Placed(f, q, x, up + down, down)
  {
    var w: Id :| IsLca(f, w, q.current, x) && Climb(f, q.current, up) == Some(w) && Climb(f, x, down) == Some(w);
    LcaIsNearest(f, q.current, x, w, up, down);
  }

  lemma OrderOfPlaces(db: Database, f: Forest, q: Query, x: Id, m: nat, j: nat, y: Id, n: nat, l: nat)
    requires Represents(db, f) && IsNearest(db, f, q, x) && Eligible(db, f, q, y) && Under(f, q.root, q.current)
    requires Placed(f, q, x, m, j) && Placed(f, q, y, n, l)
    ensures AtMost(db, q, StationRow(x, m, j), StationRow(y, n, l))
  {
    var own := EligibleHasRow(db, f, q, x);
    var a: nat, b: nat :| Placed(f, q, x, a, b) && BeatsAll(db, f, q, StationRow(x, a, b));
  }

  /** A station is the nearest if it is the only eligible one. */
  lemma OnlyStationIsNearest(db: Database, f: Forest, q: Query, x: Id)
    requires Represents(db, f) && Under(f, q.root, q.current)
    requires Eligible(db, f, q, x) && forall y :: Eligible(db, f, q, y) ==> y == x
    ensures IsNearest(db, f, q, x)
  {
    var best := EligibleHasRow(db, f, q, x);
    assert BeatsAll(db, f, q, best);
  }

  /** There is no row exactly when the user is outside the root or nothing is eligible. */
  lemma NoRowsIff(db: Database, f: Forest, q: Query)
    requires Represents(db, f)
    ensures CandidatesSql(db, q) == {} <==> !Under(f, q.root, q.current) || forall x :: !Eligible(db, f, q, x)
  {
    if s :| s in CandidatesSql(db, q) {
      var _, _ := RowGoesVia(db, f, q, s);
      assert Eligible(db, f, q, s.channel);
    }
    if x :| Under(f, q.root, q.current) && Eligible(db, f, q, x) {
      var best := EligibleHasRow(db, f, q, x);
    }
  }

  /** A non-empty set of rows has a first one. */
  lemma {:induction false} FirstExists(db: Database, q: Query, rows: set<StationRow>) returns (first: StationRow)
    requires rows != {} && forall s :: s in rows ==> s.channel in db.channels
    ensures first in rows && forall s :: s in rows ==> AtMost(db, q, first, s)
    decreases rows
  {
    var s :| s in rows;
    if rows == {s} {
      first := s;
    } else {
      var t := FirstExists(db, q, rows - {s});
      first := if AtMost(db, q, s, t) then s else t;
      forall r | r in rows ensures AtMost(db, q, first, r) {
        if r != s {
          assert r in rows - {s} && AtMost(db, q, t, r);
        }
      }
    }
  }

  /** Runs the ordered query and fetches its first row, if it has one. */
  method ExecuteStep(db: Database, q: Query) returns (first: Option<StationRow>)
    requires forall s :: s in CandidatesSql(db, q) ==> s.channel in db.channels
    ensures first.None? <==> CandidatesSql(db, q) == {}
    ensures first.Some? ==> IsFirst(db, q, first.value)
  {
    var rows := CandidatesSql(db, q);
    if rows == {} {
      return None;
    }
    ghost var best := FirstExists(db, q, rows);
    var row :| row in rows && forall s <- rows :: AtMost(db, q, row, s);
    first := Some(row);
  }
}
