/**
 Reports on which the plugin does something its user will not expect, each
 with the database that gives the answer.
 */
module MoveExamples {
  import opened Options
  import opened Forests
  import opened Frequencies
  import opened ChannelTables
  import opened LoadOrder
  import opened StationQuery
  import opened ChannelStore
  import opened SimPolling
  import opened MoveDecision

  const KHZ: nat := 118300
  const LOBBY: Id := 3
  const TOWER: Id := 5

  function Leaf(order: Id, name: string): ChannelRow {
    ChannelRow(0, order, name, "", None, 10800.0)
  }

  const ADD_LOBBY := AddOrUpdate(LOBBY, Leaf(0, "Lobby"), [])
  const ADD_TOWER := AddOrUpdate(TOWER, Leaf(LOBBY, "Tower 118.30"), [Tuning(KHZ, false), Tuning(KHZ, true)])

  /** Two channels below the root; the second carries a frequency. */
  const TWO_CHANNELS := [ADD_LOBBY, ADD_TOWER]

  ghost predicate HoldsTwo(db: Database, f: Forest) {
    && Represents(db, f) && f == Forest({0, LOBBY, TOWER}, map[LOBBY := 0, TOWER := 0])
    && db.channelFrequency
       == {FrequencyRow(TOWER, Some(Tuning(KHZ, false))), FrequencyRow(TOWER, Some(Tuning(KHZ, true)))}
  }

  /** Adding a channel that is not there adds a leaf and its frequencies. */
  lemma AddLeaf(db: Database, f: Forest, c: Command)
    requires Represents(db, f) && c.AddOrUpdate? && Legal(c) && c.id !in f.ids
    ensures Execute(db, c).Some? && Plan(f, c) == Graft(f, c.id, c.row.parent)
    ensures var after := Execute(db, c).value;
            && Represents(after, Plan(f, c))
            && after.channelFrequency == db.channelFrequency + set t | t in c.tunings :: FrequencyRowOf(c.id, t)
  {
    ExecuteRepresents(db, f, c);
    PruneAbsent(f, c.id);
    ChildrenAreSubtree(db.closure, f, c.id);
    assert Subtree(f, c.id) == {} by {
      assert Prune(f, c.id).ids == f.ids;
    }
    assert DeleteSql(db, c.id).channelFrequency == db.channelFrequency;
  }

  /** The database that two updates leave behind. */
  lemma TwoChannels() returns (db: Database, f: Forest)
    ensures ExecuteAll(TWO_CHANNELS) == Some(db) && HoldsTwo(db, f)
  {
    hide Execute, Represents, Plan;
    assert TWO_CHANNELS[..1] == [ADD_LOBBY] && [ADD_LOBBY][..0] == [];
    InitRepresents();
    assert ExecuteAll([]) == Some(InitDatabaseSql());
    AddLeaf(InitDatabaseSql(), ROOT_ONLY, ADD_LOBBY);
    assert ExecuteAll([ADD_LOBBY]) == Execute(InitDatabaseSql(), ADD_LOBBY);
    var one, tree := ExecuteAll([ADD_LOBBY]).value, Graft(ROOT_ONLY, LOBBY, 0);
    AddLeaf(one, tree, ADD_TOWER);
    db, f := Execute(one, ADD_TOWER).value, Graft(tree, TOWER, 0);
    var tunings := ADD_TOWER.tunings;
    assert tunings[0] in tunings && tunings[1] in tunings;
  }

  /** Com1 is selected and shows `khz`. */
  function Report(khz: nat, com: bool, pos: bool, other: bool): SimComData {
    SimComData(RadioFields(khz, 0, false), RadioFields(0, 0, false), 1, false, Position(0.0, 0.0), com, pos, other)
  }

  function Settings(mode: Mode, root: Id, untuned: bool, untunedChannel: Id): Config {
    Config(mode, root, false, false, untuned, untunedChannel, Civil)
  }

  lemma PlacesOfTwo(f: Forest, x: Id)
    requires f == Forest({0, LOBBY, TOWER}, map[LOBBY := 0, TOWER := 0])
    ensures Under(f, 0, x) <==> x in f.ids
    ensures x !in f.ids ==> forall y :: !Under(f, x, y)
  {
    assert Climb(f, 0, 0) == Some(0) && Climb(f, LOBBY, 1) == Some(0) && Climb(f, TOWER, 1) == Some(0);
    forall y, d: nat | Climb(f, y, d).Some? ensures y in f.ids && Climb(f, y, d).value in f.ids {
      ClimbStays(f, y, d);
    }
  }

  /** From the lobby the tower is found on its frequency, and nothing on another. */
  lemma AnswerOfTwo(db: Database, f: Forest, q: Query) returns (found: StationInfo)
    requires HoldsTwo(db, f) && q.root == 0 && q.current == LOBBY && !q.considerRange
    ensures IsAnswer(db, f, q, found)
    ensures found.ch == if q.tuning.khz == KHZ then TOWER else CHANNEL_ID_NOT_FOUND
  {
    PlacesOfTwo(f, LOBBY);
    PlacesOfTwo(f, TOWER);
    if q.tuning.khz == KHZ {
      OnlyStationIsNearest(db, f, q, TOWER);
      found := StationOf(db, q, TOWER);
    } else {
      found := Unplaced(CHANNEL_ID_NOT_FOUND);
    }
  }

  /** The configured root has been deleted: in AUTO mode the user is sent there. */
  lemma DeletedRootIsTarget(distance: Distance) returns (db: Database, f: Forest, found: StationInfo, d: Decision)
    ensures ExecuteAll(TWO_CHANNELS) == Some(db) && Represents(db, f)
    ensures Decides(Settings(Auto, 7, false, 0), Report(KHZ, true, false, false), distance, db, f,
                    Unplaced(LOBBY), found, d)
    ensures d.move == Some(7) && 7 !in f.ids
  {
    db, f := TwoChannels();
    PlacesOfTwo(f, 7);
    found := Unplaced(CHANNEL_NOT_CHILD_OF_ROOT);
    d := Decide(Settings(Auto, 7, false, 0), Report(KHZ, true, false, false), Unplaced(LOBBY), 7, found);
  }

  /** The untuned channel has been deleted: on a frequency nobody has, the user is sent there in both modes. */
  lemma DeletedUntunedIsTarget(mode: Mode, distance: Distance)
    returns (db: Database, f: Forest, found: StationInfo, d: Decision)
    requires !mode.Disabled?
    ensures ExecuteAll(TWO_CHANNELS) == Some(db) && Represents(db, f)
    ensures Decides(Settings(mode, 0, true, 9), Report(121500, true, false, false), distance, db, f,
                    Unplaced(LOBBY), found, d)
    ensures d.move == Some(9) && 9 !in f.ids
  {
    db, f := TwoChannels();
    PlacesOfTwo(f, LOBBY);
    var cfg, data := Settings(mode, 0, true, 9), Report(121500, true, false, false);
    found := AnswerOfTwo(db, f, Question(cfg, data, distance, f, LOBBY));
    d := Decide(cfg, data, Unplaced(LOBBY), LOBBY, found);
  }

  /** In MANUAL mode a user who has gone to the lobby by hand is sent to the tower merely because the aircraft moves. */
  lemma ManualMoveIsOverruled(distance: Distance) returns (db: Database, f: Forest, found: StationInfo, d: Decision)
    ensures ExecuteAll(TWO_CHANNELS) == Some(db) && Represents(db, f)
    ensures Decides(Settings(Manual, 0, false, 0), Report(KHZ, false, true, false), distance, db, f,
                    Unplaced(LOBBY), found, d)
    ensures d.move == Some(TOWER)
    ensures DecideGiven(Settings(Manual, 0, false, 0), Report(KHZ, false, true, false), Unplaced(LOBBY), LOBBY, found,
                        true).move == None
  {
    db, f := TwoChannels();
    var cfg, data := Settings(Manual, 0, false, 0), Report(KHZ, false, true, false);
    found := AnswerOfTwo(db, f, Question(cfg, data, distance, f, LOBBY));
    d := Decide(cfg, data, Unplaced(LOBBY), LOBBY, found);
  }

  /** In MANUAL mode the wheels leave the ground: the target becomes the tower, though no move there is requested. */
  lemma TargetWithoutMove(distance: Distance) returns (db: Database, f: Forest, found: StationInfo, d: Decision)
    ensures ExecuteAll(TWO_CHANNELS) == Some(db) && Represents(db, f)
    ensures Decides(Settings(Manual, 0, false, 0), Report(KHZ, false, false, true), distance, db, f,
                    Unplaced(LOBBY), found, d)
    ensures d.move == None && d.target.ch == TOWER && Destination(LOBBY, d) == LOBBY
  {
    db, f := TwoChannels();
    var cfg, data := Settings(Manual, 0, false, 0), Report(KHZ, false, false, true);
    found := AnswerOfTwo(db, f, Question(cfg, data, distance, f, LOBBY));
    d := Decide(cfg, data, Unplaced(LOBBY), LOBBY, found);
  }
}
