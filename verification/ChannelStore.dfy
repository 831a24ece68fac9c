/**
 The channel store of the plugin: the database object, its updates and its two
 queries, with the forest it stands for as a ghost.
 */
module ChannelStore {
  import opened Options
  import opened Forests
  import opened Frequencies
  import opened ChannelTables
  import opened StationQuery

  const UINT64_MAX: Id := 0xFFFF_FFFF_FFFF_FFFF
  const CHANNEL_ROOT: Id := 0
  const CHANNEL_NOT_CHILD_OF_ROOT: Id := UINT64_MAX - 1
  const CHANNEL_ID_NOT_FOUND: Id := UINT64_MAX

  datatype StationInfo = StationInfo(ch: Id, lat: real, lon: real, range: real, maxRange: real, inRange: bool,
                                     id: string)

  /** A station known only by its channel number. */
  function Unplaced(ch: Id): StationInfo {
    StationInfo(ch, -999.0, -999.0, 10800.0, 10800.0, false, "")
  }

  /** What is known of a channel as a station; a missing position reads as zero. */
  function StationOf(db: Database, q: Query, ch: Id): StationInfo
    requires ch in db.channels
  {
    var row := db.channels[ch];
    var position := if row.position.Some? then row.position.value else Position(0.0, 0.0);
    StationInfo(ch, position.lat, position.lon, RangeTo(db, q, ch), row.range, InRange(db, q, ch), row.station)
  }

  /** The answers to a query: the nearest eligible station, or the reason why there is none. */
  ghost predicate IsAnswer(db: Database, f: Forest, q: Query, r: StationInfo) {
    && (r.ch == CHANNEL_NOT_CHILD_OF_ROOT <==> !Under(f, q.root, q.current))
    && (r.ch == CHANNEL_ID_NOT_FOUND <==> Under(f, q.root, q.current) && forall x :: !Eligible(db, f, q, x))
    && (r.ch != CHANNEL_NOT_CHILD_OF_ROOT && r.ch != CHANNEL_ID_NOT_FOUND ==>
          && IsNearest(db, f, q, r.ch)
          && r == StationOf(db, q, r.ch))
  }

  /** A station in an answer is one that is heard, and ahead of every other one that is. */
  lemma AnswerIsAhead(db: Database, f: Forest, q: Query, r: StationInfo, rx: real, y: Id, ry: real)
    requires Represents(db, f) && IsAnswer(db, f, q, r)
    requires r.ch != 0xFFFF_FFFF_FFFF_FFFF && r.ch != 0xFFFF_FFFF_FFFF_FFFE
    ensures HeardBy(db, f, q, r.ch)
    ensures HeardBy(db, f, q, y) && IsRange(db.channels[r.ch], q.nm, rx) && IsRange(db.channels[y], q.nm, ry) ==>
              Ahead(f, q.current, q.considerRange, r.ch, rx, y, ry)
  {
    HeardIsEligible(db, f, q, r.ch);
    if HeardBy(db, f, q, y) && IsRange(db.channels[r.ch], q.nm, rx) && IsRange(db.channels[y], q.nm, ry) {
      NearestIsAhead(db, f, q, r.ch, rx, y, ry);
    }
  }

  /** There is a station in the answer exactly if the user is under the root and some station is heard. */
  lemma AnswerIffHeard(db: Database, f: Forest, q: Query, r: StationInfo)
    requires Represents(db, f) && IsAnswer(db, f, q, r) && forall x :: x in f.ids ==> x < CHANNEL_NOT_CHILD_OF_ROOT
    ensures r.ch != 0xFFFF_FFFF_FFFF_FFFF && r.ch != 0xFFFF_FFFF_FFFF_FFFE
       <==> Under(f, q.root, q.current) && exists y :: HeardBy(db, f, q, y)
  {
    forall y ensures Eligible(db, f, q, y) <==> HeardBy(db, f, q, y) {
      HeardIsEligible(db, f, q, y);
    }
    hide HeardBy;
    if r.ch != 0xFFFF_FFFF_FFFF_FFFF && r.ch != 0xFFFF_FFFF_FFFF_FFFE {
      assert Eligible(db, f, q, r.ch);
    }
  }

  /** An answer gives the data of the station's row; without a position it is in range, at its own range. */
  lemma AnswerDescribesStation(db: Database, f: Forest, q: Query, r: StationInfo)
    requires Represents(db, f) && IsAnswer(db, f, q, r)
    requires r.ch != 0xFFFF_FFFF_FFFF_FFFF && r.ch != 0xFFFF_FFFF_FFFF_FFFE
    ensures r.ch in db.channels
    ensures var row := db.channels[r.ch];
            && r.id == row.station && r.maxRange == row.range
            && match row.position
               case Some(p) =>
                 r.lat == p.lat && r.lon == p.lon && r.range == q.nm(p) && (r.inRange <==> q.nm(p) <= row.range)
               case None => r.lat == 0.0 && r.lon == 0.0 && r.range == row.range && r.inRange
  {
  }

  /** What the ident, position and airport lookups made of a channel's texts. */
  datatype Lookup = Lookup(ident: string, stations: seq<nat>, position: Option<Position>, range: real)

  class TS3Channels {
    var db: Database
    ghost var forest: Forest

    ghost predicate Valid()
      reads this
    {
      && Represents(db, forest)
      && forall x :: x in forest.ids ==> x < CHANNEL_NOT_CHILD_OF_ROOT
    }

    constructor ()
      ensures Valid() && db == InitDatabaseSql() && forest == ROOT_ONLY
    {
      db := InitDatabaseSql();
      forest := ROOT_ONLY;
      new;
      InitRepresents();
    }

    method InitDatabase()
      modifies this
      ensures Valid() && db == InitDatabaseSql() && forest == ROOT_ONLY
    {
      db := InitDatabaseSql();
      forest := ROOT_ONLY;
      InitRepresents();
    }

    method DeleteAllChannels()
      modifies this
      ensures Valid() && db == InitDatabaseSql() && forest == ROOT_ONLY
    {
      InitDatabase();
    }

    /** Removes the channel and everything below it, and nothing else. */
    method DeleteChannel(channelID: Id)
      requires Valid()
      modifies this
      ensures Valid() && forest == Prune(old(forest), channelID) && channelID !in forest.ids
      ensures db.channels == old(db.channels) - Subtree(old(forest), channelID)
      ensures forall q :: q in db.channelFrequency <==>
                q in old(db.channelFrequency) && !Under(old(forest), channelID, q.channel)
    {
      ChildrenAreSubtree(db.closure, forest, channelID);
      KeyIsFree(db, forest, channelID);
      DeleteRepresents(db, forest, channelID);
      db := DeleteChannelFrequenciesSql(db, channelID);
      db := DeleteChannelsSql(db, channelID);
      db := DeleteClosureSql(db, channelID);
      forest := Prune(forest, channelID);
    }

    /** Removes the channel's subtree, then adds the channel alone below `parentChannel`, if that is present. */
    method AddOrUpdateChannel(name: string, topic: string, desc: string, channelID: Id,
                              parentChannel: Id, order: Id, pattern: Pattern, lookup: Lookup)
      requires Valid() && channelID != parentChannel && channelID < CHANNEL_NOT_CHILD_OF_ROOT
      modifies this
      ensures Valid() && forest == Graft(Prune(old(forest), channelID), channelID, parentChannel)
      ensures db.channels == (old(db.channels) - Subtree(old(forest), channelID))
                [channelID := ChannelRow(parentChannel, order, name, lookup.ident, lookup.position, lookup.range)]
      ensures forall q :: q in db.channelFrequency <==>
                if q.channel == channelID
                then q.tuning.Some? && Tunes([name, topic, desc], pattern, lookup.stations, q.tuning.value)
                else q in old(db.channelFrequency) && !Under(old(forest), channelID, q.channel)
    {
      DeleteChannel(channelID);
      var frequencies := ChannelFrequencies([name, topic, desc], pattern, lookup.stations);
      var row := ChannelRow(parentChannel, order, name, lookup.ident, lookup.position, lookup.range);
      InsertRepresents(db, forest, channelID, row, frequencies);
      db := InsertChannelSql(db, channelID, row);
      ghost var start, pruned := db, forest;
      for i := 0 to |frequencies|
        invariant db == InsertFrequencies(start, channelID, frequencies[..i]) && forest == pruned
      {
        var q := FrequencyRowOf(channelID, frequencies[i]);
        assert frequencies[..i + 1] == frequencies[..i] + [frequencies[i]];
        // a repeated frequency breaks the primary key, which is ignored
        if q !in db.channelFrequency {
          db := db.(channelFrequency := db.channelFrequency + {q});
        }
      }
      assert frequencies[..|frequencies|] == frequencies;
      db := InsertClosure1Sql(db, channelID);
      db := InsertClosure2Sql(db, channelID, parentChannel);
      forest := Graft(forest, channelID, parentChannel);
      forall q ensures q in db.channelFrequency <==>
                q in start.channelFrequency || (q.channel == channelID && q.tuning.Some?
                    && q.tuning.value in frequencies)
      {
        if q.channel == channelID && q.tuning.Some? && q.tuning.value in frequencies {
          assert q == FrequencyRowOf(channelID, q.tuning.value);
        }
      }
    }

    method UpdateRootChannelName(name: string)
      requires Valid()
      modifies `db
      ensures Valid() && forest == old(forest)
      ensures db.closure == old(db).closure && db.channelFrequency == old(db).channelFrequency
      ensures db.channels.Keys == old(db).channels.Keys
      ensures forall c :: c in db.channels ==>
                if c != 0 then db.channels[c] == old(db).channels[c]
                else && db.channels[0].name == name
                     && db.channels[0].(name := old(db).channels[0].name) == old(db).channels[0]
    {
      db := db.(channels := UpdateRootChannelNameSql(db.channels, name));
    }

    method ChannelIsUnderRoot(current: Id, root: Id) returns (retValue: bool)
      requires Valid()
      ensures retValue <==> Under(forest, root, current)
    {
      var rows := set r | r in db.closure && r.parent == root && r.child == current;
      retValue := rows != {};
      if retValue {
        var r :| r in rows;
        assert Climb(forest, r.child, r.depth) == Some(r.parent);
      }
      if Under(forest, root, current) {
        ghost var d: nat :| Climb(forest, current, d) == Some(root);
        assert ClosureRow(root, current, d) in rows;
      }
    }

    /** The nearest eligible station, or which of the two reasons there is for finding none. */
    method GetChannelID(q: Query) returns (retValue: StationInfo)
      requires Valid()
      ensures IsAnswer(db, forest, q, retValue)
    {
      var step := ExecuteStep(db, q);
      NoRowsIff(db, forest, q);
      if step.Some? {
        var ch := step.value.channel;
        FirstIsNearest(db, forest, q, step.value);
        assert ch in forest.ids;
        retValue := StationOf(db, q, ch);
      } else {
        var under := ChannelIsUnderRoot(q.current, q.root);
        retValue := Unplaced(if under then CHANNEL_ID_NOT_FOUND else CHANNEL_NOT_CHILD_OF_ROOT);
      }
    }
  }
}
