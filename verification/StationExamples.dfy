/**
 Which of several stations is found, on concrete databases.
 */
module StationExamples {
  import opened Options
  import opened Forests
  import opened Frequencies
  import opened ChannelTables
  import opened StationQuery
  import opened ChannelStore
  import opened SimPolling
  import opened MoveDecision
  import opened MoveExamples

  function Below(parent: Id, tuning: Option<Tuning>, id: Id): Command {
    AddOrUpdate(id, ChannelRow(parent, 0, "", "", None, 10800.0), if tuning.Some? then [tuning.value] else [])
  }

  const TUNED := Tuning(118300, false)
  const OTHER := Tuning(121505, true)

  /** Channel 4 below 0, 1 below 4, and 2 and 3 below 1; stations 4 and 3 share a frequency, and 2 has another. */
  const FAMILY := [Below(0, Some(TUNED), 4), Below(4, None, 1), Below(1, Some(OTHER), 2), Below(1, Some(TUNED), 3)]

  ghost predicate HoldsFamily(db: Database, f: Forest) {
    && Represents(db, f) && f == Forest({0, 4, 1, 2, 3}, map[4 := 0, 1 := 4, 2 := 1, 3 := 1])
    && db.channelFrequency == {FrequencyRow(4, Some(TUNED)), FrequencyRow(2, Some(OTHER)), FrequencyRow(3, Some(TUNED))}
  }

  ghost predicate HoldsAfter(cs: seq<Command>, db: Database, f: Forest, frequencies: set<FrequencyRow>) {
    ExecuteAll(cs) == Some(db) && Represents(db, f) && db.channelFrequency == frequencies
  }

  /** One more update, of a channel that is not there yet. */
  lemma NextUpdate(cs: seq<Command>, db: Database, f: Forest, frequencies: set<FrequencyRow>,
                   parent: Id, tuning: Option<Tuning>, id: Id, more: seq<Command>) returns (after: Database)
    requires HoldsAfter(cs, db, f, frequencies) && id !in f.ids && id != parent
    requires (tuning.Some? ==> tuning.value.khz != 0) && more == cs + [Below(parent, tuning, id)]
    ensures HoldsAfter(more, after, Graft(f, id, parent),
                       if tuning.Some? then frequencies + {FrequencyRow(id, tuning)} else frequencies)
  {
    var c := Below(parent, tuning, id);
    AddLeaf(db, f, c);
    assert more[..|cs|] == cs;
    after := Execute(db, c).value;
    assert tuning.Some? ==> tuning.value in c.tunings && FrequencyRowOf(id, tuning.value) == FrequencyRow(id, tuning);
  }

  lemma InitHolds()
    ensures HoldsAfter([], InitDatabaseSql(), ROOT_ONLY, {})
  {
    InitRepresents();
  }

  lemma FamilyTree()
    ensures 4 !in ROOT_ONLY.ids && 1 !in Graft(ROOT_ONLY, 4, 0).ids && 2 !in Graft(Graft(ROOT_ONLY, 4, 0), 1, 4).ids
    ensures 3 !in Graft(Graft(Graft(ROOT_ONLY, 4, 0), 1, 4), 2, 1).ids
    ensures Graft(Graft(Graft(Graft(ROOT_ONLY, 4, 0), 1, 4), 2, 1), 3, 1)
         == Forest({0, 4, 1, 2, 3}, map[4 := 0, 1 := 4, 2 := 1, 3 := 1])
  {
  }

  /** The database that four updates leave behind. */
  lemma Family() returns (db: Database, f: Forest)
    ensures ExecuteAll(FAMILY) == Some(db) && HoldsFamily(db, f)
  {
    hide HoldsAfter, Graft;
    InitHolds();
    FamilyTree();
    assert {} + {FrequencyRow(4, Some(TUNED))} == {FrequencyRow(4, Some(TUNED))};
    f := ROOT_ONLY;
    db := NextUpdate([], InitDatabaseSql(), f, {}, 0, Some(TUNED), 4, FAMILY[..1]);
    f := Graft(f, 4, 0);
    db := NextUpdate(FAMILY[..1], db, f, {FrequencyRow(4, Some(TUNED))}, 4, None, 1, FAMILY[..2]);
    f := Graft(f, 1, 4);
    db := NextUpdate(FAMILY[..2], db, f, {FrequencyRow(4, Some(TUNED))}, 1, Some(OTHER), 2, FAMILY[..3]);
    f := Graft(f, 2, 1);
    db := NextUpdate(FAMILY[..3], db, f, {FrequencyRow(4, Some(TUNED)), FrequencyRow(2, Some(OTHER))},
                     1, Some(TUNED), 3,
                     FAMILY);
    f := Graft(f, 3, 1);
    WhatHolds(FAMILY, db, f,
              {FrequencyRow(4, Some(TUNED)), FrequencyRow(2, Some(OTHER)), FrequencyRow(3, Some(TUNED))});
  }

  lemma WhatHolds(cs: seq<Command>, db: Database, f: Forest, frequencies: set<FrequencyRow>)
    requires HoldsAfter(cs, db, f, frequencies)
    ensures ExecuteAll(cs) == Some(db) && Represents(db, f) && db.channelFrequency == frequencies
  {
  }

  lemma PlacesOfFamily(f: Forest)
    requires f == Forest({0, 4, 1, 2, 3}, map[4 := 0, 1 := 4, 2 := 1, 3 := 1]) && Acyclic(f)
    ensures Under(f, 0, 2) && Under(f, 0, 3) && Under(f, 0, 4)
    ensures Reached(f, 2, 3, 1, 1) && Reached(f, 2, 4, 2, 0)
  {
    assert Climb(f, 1, 1) == Some(4) && Climb(f, 4, 1) == Some(0) && Climb(f, 4, 0) == Some(4);
    assert Climb(f, 2, 1) == Some(1) && Climb(f, 3, 1) == Some(1);
    ClimbAdd(f, 2, 1, 1);
    ClimbAdd(f, 2, 2, 1);
    ClimbAdd(f, 3, 1, 1);
    ClimbAdd(f, 3, 2, 1);
    forall u: Id | Under(f, u, 2) && Under(f, u, 3) ensures Under(f, u, 1) {
      ForkIsLowest(f, 2, 3, 1, 1, 1, u);
    }
    forall u: Id | Under(f, u, 2) && Under(f, u, 4) ensures Under(f, u, 4) {
      ForkIsLowest(f, 2, 4, 4, 2, 0, u);
    }
    assert IsLca(f, 1, 2, 3) && IsLca(f, 4, 2, 4);
  }

  /** Stations 4 and 3 are both two steps away from channel 2; the one above is found, not the one beside. */
  lemma TieGoesUp(q: Query, r: StationInfo) returns (db: Database, f: Forest)
    requires q.tuning == TUNED && q.current == 2 && q.root == 0 && !q.considerRange
    ensures ExecuteAll(FAMILY) == Some(db) && HoldsFamily(db, f)
    ensures Reached(f, 2, 3, 1, 1) && Reached(f, 2, 4, 2, 0)
    ensures IsAnswer(db, f, q, r) ==> r.ch == 4
  {
    db, f := Family();
    PlacesOfFamily(f);
    assert HeardBy(db, f, q, 4);
    if IsAnswer(db, f, q, r) {
      AnswerIffHeard(db, f, q, r);
      AnswerIsHeard(db, f, q, r);
      hide HeardBy, IsAnswer, Represents, Reached;
      AnswerIsAhead(db, f, q, r, RangeTo(db, q, r.ch), 4, RangeTo(db, q, 4));
    }
  }

  lemma AnswerIsHeard(db: Database, f: Forest, q: Query, r: StationInfo)
    requires HoldsFamily(db, f) && IsAnswer(db, f, q, r) && q.tuning == TUNED
    requires r.ch != 0xFFFF_FFFF_FFFF_FFFF && r.ch != 0xFFFF_FFFF_FFFF_FFFE
    ensures r.ch == 3 || r.ch == 4
  {
    assert Eligible(db, f, q, r.ch);
  }

  /** The second radio is selected and tuned to the stations, the first to the channel the user is in. */
  function SecondRadio(): SimComData {
    SimComData(RadioFields(121505, 0, true), RadioFields(118300, 0, false), 2, false, Position(0.0, 0.0),
               true, false, false)
  }

  lemma SomeRange(db: Database, distance: Distance, x: Id) returns (r: real)
    requires x in db.channels
    ensures IsRange(db.channels[x], (p: Position) => distance(SecondRadio().position, p), r)
  {
    match db.channels[x].position
    case Some(p) => r := distance(SecondRadio().position, p);
    case None => r := db.channels[x].range;
  }

  /** It is the second that is followed. */
  lemma SelectedRadioDecides(distance: Distance, found: StationInfo, d: Decision) returns (db: Database, f: Forest)
    ensures ExecuteAll(FAMILY) == Some(db) && HoldsFamily(db, f)
    ensures Decides(Settings(Auto, 0, false, 0), SecondRadio(), distance, db, f, Unplaced(2), found, d) ==>
              d.move == Some(4)
  {
    db, f := Family();
    PlacesOfFamily(f);
    if Decides(Settings(Auto, 0, false, 0), SecondRadio(), distance, db, f, Unplaced(2), found, d) {
      FamilyIsSound(db, f);
      SelectedRadioIsFollowed(Settings(Auto, 0, false, 0), SecondRadio(), distance, db, f, Unplaced(2), found, d);
      FollowedInFamily(distance, db, f, d.target.ch);
    }
  }

  lemma FamilyIsSound(db: Database, f: Forest)
    requires HoldsFamily(db, f)
    ensures RootIsSound(Settings(Auto, 0, false, 0), f) && forall x :: x in f.ids ==> x < CHANNEL_NOT_CHILD_OF_ROOT
  {
    assert Climb(f, 0, 0) == Some(0);
  }

  /** On the common frequency the radio leads from channel 2 to channel 4. */
  lemma FollowedInFamily(distance: Distance, db: Database, f: Forest, x: Id)
    requires HoldsFamily(db, f) && Under(f, 0, 4) && Reached(f, 2, 3, 1, 1) && Reached(f, 2, 4, 2, 0)
    requires IsFollowed(Settings(Auto, 0, false, 0), SecondRadio().position, distance, db, f, 2, TUNED, x)
    ensures x == 4
  {
    hide Reached, Under, Represents;
    var cfg, from := Settings(Auto, 0, false, 0), SecondRadio().position;
    assert 4 in db.channels by { PresentInFamily(db, f); }
    assert HeardFrom(cfg, from, distance, db, f, TUNED, 4);
    assert HeardFrom(cfg, from, distance, db, f, TUNED, x) && (x == 3 || x == 4);
    var rx := SomeRange(db, distance, x);
    var r4 := SomeRange(db, distance, 4);
    assert Ahead(f, 2, false, x, rx, 4, r4);
  }

  lemma PresentInFamily(db: Database, f: Forest)
    requires HoldsFamily(db, f)
    ensures 4 in db.channels
  {
  }
}
