/**
 Where the plugin wants the user to be: the decision made on each report from
 the simulator, and the answer to a move it did not ask for.
 */
module MoveDecision {
  import opened Options
  import opened Forests
  import opened Frequencies
  import opened ChannelTables
  import opened StationQuery
  import opened ChannelStore
  import opened SimPolling

  datatype Mode = Auto | Manual | Disabled

  datatype Config = Config(mode: Mode, rootChannel: Id, considerRange: bool, outOfRangeUntuned: bool,
                           untuned: bool, untunedChannel: Id, frequencyMode: Pattern)

  /** Distance between two positions in nautical miles. */
  type Distance = (Position, Position) -> real

  // ---------- the question put to the database ----------

  /** Without a configured root, the current channel is taken for the root. */
  function AdjustedRoot(cfg: Config, current: Id): Id {
    if cfg.rootChannel == CHANNEL_ID_NOT_FOUND then current else cfg.rootChannel
  }

  /** In AUTO mode a user outside the root is taken to be at the root. */
  ghost function AdjustedCurrent(cfg: Config, f: Forest, current: Id): Id {
    if cfg.mode.Auto? && !Under(f, AdjustedRoot(cfg, current), current) then cfg.rootChannel else current
  }

  /** The frequency of the selected radio; none or both selected means no frequency. */
  function SelectedTuning(data: SimComData): Tuning {
    if data.selectedCom == 1 then Tuning(data.com1.freq, data.com1.is833)
    else if data.selectedCom == 2 then Tuning(data.com2.freq, data.com2.is833)
    else Tuning(0, false)
  }

  function QueryOf(cfg: Config, data: SimComData, distance: Distance, adjustedCurrent: Id, adjustedRoot: Id): Query {
    Query(SelectedTuning(data), adjustedCurrent, adjustedRoot, cfg.considerRange, cfg.outOfRangeUntuned,
          p => distance(data.position, p))
  }

  ghost function Question(cfg: Config, data: SimComData, distance: Distance, f: Forest, current: Id): Query {
    QueryOf(cfg, data, distance, AdjustedCurrent(cfg, f, current), AdjustedRoot(cfg, current))
  }

  // ---------- the decision ----------

  predicate IsRecognised(ch: Id) {
    ch != CHANNEL_ID_NOT_FOUND && ch != CHANNEL_NOT_CHILD_OF_ROOT
  }

  predicate IsServerChannel(ch: Id) {
    ch != CHANNEL_ID_NOT_FOUND && ch != CHANNEL_ROOT
  }

  predicate SomethingChanged(data: SimComData) {
    data.blComChanged || data.blPosChanged || data.blOtherChanged
  }

  /** The mode allows a move for this report. */
  predicate MayMove(cfg: Config, data: SimComData, found: Id, lastMoveManual: bool) {
    match cfg.mode
    case Auto => true
    case Manual => (data.blComChanged || (data.blPosChanged && !lastMoveManual)) && found != CHANNEL_NOT_CHILD_OF_ROOT
    case Disabled => false
  }

  /** The station found, or else the configured untuned channel, or else where the user is taken to be. */
  function Goal(cfg: Config, adjustedCurrent: Id, found: StationInfo): StationInfo {
    if IsRecognised(found.ch) then found
    else found.(ch := if cfg.untuned then cfg.untunedChannel else adjustedCurrent)
  }

  /** The new target, and the move to request. */
  datatype Decision = Decision(target: StationInfo, move: Option<Id>)

  /**
   The decision with the user in `current` and `found` the answer of the database; `lastMoveManual` is
   whether the user has left the target.
   */
  function DecideGiven(cfg: Config, data: SimComData, current: StationInfo, adjustedCurrent: Id, found: StationInfo,
                       lastMoveManual: bool): Decision {
    if cfg.mode.Disabled? || !SomethingChanged(data) then Decision(current, None)
    else if found.ch == current.ch || !MayMove(cfg, data, found.ch, lastMoveManual) then
      Decision(if found.ch != CHANNEL_ROOT then found else current.(ch := CHANNEL_ROOT), None)
    else
      var goal := Goal(cfg, adjustedCurrent, found);
      Decision(goal, if goal.ch != current.ch && IsServerChannel(goal.ch) then Some(goal.ch) else None)
  }

  /** The decision as it is made: the target has just been set to where the user is. */
  function Decide(cfg: Config, data: SimComData, current: StationInfo, adjustedCurrent: Id,
                  found: StationInfo): Decision {
    DecideGiven(cfg, data, current, adjustedCurrent, found, false)
  }

  /** Where the user is once the request, if there is one, has been granted. */
  function Destination(current: Id, d: Decision): Id {
    if d.move.Some? then d.move.value else current
  }

  /** The decision for some answer that the database may give. */
  ghost predicate Decides(cfg: Config, data: SimComData, distance: Distance, db: Database, f: Forest,
                          current: StationInfo, found: StationInfo, d: Decision) {
    && IsAnswer(db, f, Question(cfg, data, distance, f, current.ch), found)
    && d == Decide(cfg, data, current, AdjustedCurrent(cfg, f, current.ch), found)
  }

  /** The configured root is a channel that is there, and the untuned channel, if it is used, is under it. */
  ghost predicate RootIsSound(cfg: Config, f: Forest) {
    && cfg.rootChannel != CHANNEL_ID_NOT_FOUND && cfg.rootChannel in f.ids
    && (cfg.untuned ==> Under(f, cfg.rootChannel, cfg.untunedChannel))
  }

  // ---------- safety ----------

  /** No move when disabled, to no channel, to channel 0 or to where the user is. */
  lemma MovesAreReal(cfg: Config, data: SimComData, current: StationInfo, adjustedCurrent: Id, found: StationInfo)
    ensures var d := Decide(cfg, data, current, adjustedCurrent, found);
            d.move.Some? ==> && !cfg.mode.Disabled? && SomethingChanged(data)
                             && d.move.value != CHANNEL_ID_NOT_FOUND && d.move.value != CHANNEL_ROOT
                                 && d.move.value != current.ch
                             && d.target.ch == d.move.value
  {
  }

  /** The goal of a decision is under a sound root. */
  lemma GoalIsUnderRoot(cfg: Config, data: SimComData, distance: Distance, db: Database, f: Forest,
                        current: StationInfo, found: StationInfo)
    requires Represents(db, f) && RootIsSound(cfg, f)
    requires IsAnswer(db, f, Question(cfg, data, distance, f, current.ch), found)
    requires cfg.mode.Auto? || found.ch != CHANNEL_NOT_CHILD_OF_ROOT
    ensures Under(f, cfg.rootChannel, AdjustedCurrent(cfg, f, current.ch))
    ensures found.ch != CHANNEL_NOT_CHILD_OF_ROOT
    ensures Under(f, cfg.rootChannel, Goal(cfg, AdjustedCurrent(cfg, f, current.ch), found).ch)
  {
    assert Climb(f, cfg.rootChannel, 0) == Some(cfg.rootChannel);
  }

  /** With a sound root, every move goes under it, in both modes; in MANUAL mode a user outside it is left alone. */
  lemma MovesStayUnderRoot(cfg: Config, data: SimComData, distance: Distance, db: Database, f: Forest,
                           current: StationInfo, found: StationInfo, d: Decision)
    requires Represents(db, f) && RootIsSound(cfg, f)
    requires Decides(cfg, data, distance, db, f, current, found, d)
    ensures d.move.Some? ==> Under(f, cfg.rootChannel, d.move.value)
    ensures cfg.mode.Manual? && !Under(f, cfg.rootChannel, current.ch) ==> d.move.None?
  {
    if d.move.Some? {
      GoalIsUnderRoot(cfg, data, distance, db, f, current, found);
    }
  }

  /**
   After each change in AUTO mode the target is under a sound root, and the user ends up there exactly unless the target
   is channel 0 and the user was outside.
   */
  lemma AutoEndsUnderRoot(cfg: Config, data: SimComData, distance: Distance, db: Database, f: Forest,
                          current: StationInfo, found: StationInfo, d: Decision)
    requires Represents(db, f) && RootIsSound(cfg, f) && (forall x :: x in f.ids ==> x < CHANNEL_NOT_CHILD_OF_ROOT)
    requires Decides(cfg, data, distance, db, f, current, found, d)
    requires cfg.mode.Auto? && SomethingChanged(data) && current.ch < CHANNEL_NOT_CHILD_OF_ROOT
    ensures d.target.ch == CHANNEL_ROOT || d.target.ch == Destination(current.ch, d)
    ensures Under(f, cfg.rootChannel, d.target.ch)
    ensures Under(f, cfg.rootChannel, Destination(current.ch, d))
       <==> d.target.ch != CHANNEL_ROOT || Under(f, cfg.rootChannel, current.ch)
  {
    var q := Question(cfg, data, distance, f, current.ch);
    var goal := Goal(cfg, q.current, found);
    GoalIsUnderRoot(cfg, data, distance, db, f, current, found);
    var k: nat :| Climb(f, goal.ch, k) == Some(cfg.rootChannel);
    ClimbStays(f, goal.ch, k);
  }

  /** Without a configured root only stations below the current channel are found. */
  lemma WithoutRootOnlyDownwards(cfg: Config, data: SimComData, distance: Distance, db: Database, f: Forest,
                                 current: StationInfo, found: StationInfo)
    requires cfg.rootChannel == CHANNEL_ID_NOT_FOUND
    requires IsAnswer(db, f, Question(cfg, data, distance, f, current.ch), found) && IsRecognised(found.ch)
    ensures Under(f, current.ch, found.ch)
  {
  }

  /** A configured root that is not there attracts the user all the same. */
  lemma AbsentRootAttracts(cfg: Config, data: SimComData, distance: Distance, db: Database, f: Forest,
                           current: StationInfo, found: StationInfo, d: Decision)
    requires Represents(db, f) && cfg.rootChannel !in f.ids && IsServerChannel(cfg.rootChannel)
    requires Decides(cfg, data, distance, db, f, current, found, d)
    requires cfg.mode.Auto? && SomethingChanged(data) && !cfg.untuned && current.ch < CHANNEL_NOT_CHILD_OF_ROOT
    ensures Destination(current.ch, d) == cfg.rootChannel
  {
    if x :| Under(f, cfg.rootChannel, x) {
      var k: nat :| Climb(f, x, k) == Some(cfg.rootChannel);
      ClimbStays(f, x, k);
    }
  }

  /** Where a decision turns when no station is found. */
  ghost function Fallback(cfg: Config, f: Forest, current: Id): Id {
    if cfg.untuned then cfg.untunedChannel else AdjustedCurrent(cfg, f, current)
  }

  /**
   A move is requested to a channel that is not in the database exactly if the mode allows a move, no station is found,
   and the configured channel to turn to instead (the untuned channel, or in AUTO mode the root) is not there.
   */
  lemma MoveToAbsentIff(cfg: Config, data: SimComData, distance: Distance, db: Database, f: Forest,
                        current: StationInfo, found: StationInfo, d: Decision)
    requires Represents(db, f) && (forall x :: x in f.ids ==> x < CHANNEL_NOT_CHILD_OF_ROOT)
    requires Decides(cfg, data, distance, db, f, current, found, d) && current.ch < CHANNEL_NOT_CHILD_OF_ROOT
    ensures var q, fallback := Question(cfg, data, distance, f, current.ch), Fallback(cfg, f, current.ch);
            && (d.move.Some? && d.move.value !in f.ids
                <==> && SomethingChanged(data)
                     && (cfg.mode.Auto? || (cfg.mode.Manual? && (data.blComChanged || data.blPosChanged)
                                            && Under(f, q.root, q.current)))
                     && (!Under(f, q.root, q.current) || forall x :: !Eligible(db, f, q, x))
                     && fallback !in f.ids && IsServerChannel(fallback) && fallback != current.ch)
  {
    var q := Question(cfg, data, distance, f, current.ch);
    if IsRecognised(found.ch) {
      assert Eligible(db, f, q, found.ch);
    }
    assert forall x :: Under(f, q.root, x) ==> x in f.ids;
  }

  // ---------- the radio is followed ----------

  /**
   A report that may move the user leads to a nearest station, or else to the untuned channel, back to the
   root, or nowhere.
   */
  lemma RadioIsFollowed(cfg: Config, data: SimComData, distance: Distance, db: Database, f: Forest,
                        current: StationInfo, found: StationInfo, d: Decision)
    requires Represents(db, f) && RootIsSound(cfg, f) && (forall x :: x in f.ids ==> x < CHANNEL_NOT_CHILD_OF_ROOT)
    requires Decides(cfg, data, distance, db, f, current, found, d) && current.ch < CHANNEL_NOT_CHILD_OF_ROOT
    requires SomethingChanged(data)
    requires || cfg.mode.Auto?
             || (cfg.mode.Manual? && (data.blComChanged || data.blPosChanged) && Under(f, cfg.rootChannel, current.ch))
    ensures var q := Question(cfg, data, distance, f, current.ch);
            if exists x :: Eligible(db, f, q, x) then IsNearest(db, f, q, d.target.ch)
            else d.target.ch == if cfg.untuned then cfg.untunedChannel else q.current
  {
    GoalIsUnderRoot(cfg, data, distance, db, f, current, found);
  }

  /** `x` is heard under the configured root on this frequency, from the aircraft, with the configured range options. */
  ghost predicate HeardFrom(cfg: Config, from: Position, distance: Distance, db: Database, f: Forest, t: Tuning, x: Id)
  {
    Heard(db, f, cfg.rootChannel, t, cfg.considerRange, cfg.outOfRangeUntuned, (p: Position) => distance(from, p), x)
  }

  /**
   `x` is where a radio on this frequency leads a user who is taken to be in `home`: to a station that is heard and
   ahead of all others that are, or else to the untuned channel or nowhere.
   */
  ghost predicate IsFollowed(cfg: Config, from: Position, distance: Distance, db: Database, f: Forest, home: Id,
                             t: Tuning, x: Id)
  {
    if exists y :: HeardFrom(cfg, from, distance, db, f, t, y) then
      && HeardFrom(cfg, from, distance, db, f, t, x)
      && forall y: Id, rx: real, ry: real ::
           && HeardFrom(cfg, from, distance, db, f, t, y)
           && IsRange(db.channels[x], (p: Position) => distance(from, p), rx)
           && IsRange(db.channels[y], (p: Position) => distance(from, p), ry)
           ==> Ahead(f, home, cfg.considerRange, x, rx, y, ry)
    else x == if cfg.untuned then cfg.untunedChannel else home
  }

  /** The query sees the stations as the report and the configuration say. */
  lemma QueryHears(cfg: Config, data: SimComData, distance: Distance, db: Database, f: Forest, home: Id, x: Id)
    ensures var q := QueryOf(cfg, data, distance, home, cfg.rootChannel);
            HeardBy(db, f, q, x) <==> HeardFrom(cfg, data.position, distance, db, f, q.tuning, x)
  {
  }

  /** A nearest station for the query is where the radio leads. */
  lemma NearestIsFollowed(cfg: Config, data: SimComData, distance: Distance, db: Database, f: Forest, home: Id, x: Id)
    requires Represents(db, f) && Under(f, cfg.rootChannel, home)
    requires IsNearest(db, f, QueryOf(cfg, data, distance, home, cfg.rootChannel), x)
    ensures IsFollowed(cfg, data.position, distance, db, f, home,
                       QueryOf(cfg, data, distance, home, cfg.rootChannel).tuning, x)
  {
    var q := QueryOf(cfg, data, distance, home, cfg.rootChannel);
    HeardIsEligible(db, f, q, x);
    QueryHears(cfg, data, distance, db, f, home, x);
    forall y: Id, rx: real, ry: real |
      && HeardFrom(cfg, data.position, distance, db, f, q.tuning, y)
      && IsRange(db.channels[x], (p: Position) => distance(data.position, p), rx)
      && IsRange(db.channels[y], (p: Position) => distance(data.position, p), ry)
      ensures Ahead(f, home, cfg.considerRange, x, rx, y, ry)
    {
      QueryHears(cfg, data, distance, db, f, home, y);
      NearestIsAhead(db, f, q, x, rx, y, ry);
    }
  }

  /**
   A report that may move the user, in terms of the radios: the selected one is followed, from the current channel if it
   is under the root and from the root otherwise; with none or both selected nothing is found.
   */
  lemma SelectedRadioIsFollowed(cfg: Config, data: SimComData, distance: Distance, db: Database, f: Forest,
                                current: StationInfo, found: StationInfo, d: Decision)
    requires Represents(db, f) && RootIsSound(cfg, f) && (forall x :: x in f.ids ==> x < CHANNEL_NOT_CHILD_OF_ROOT)
    requires Decides(cfg, data, distance, db, f, current, found, d) && current.ch < CHANNEL_NOT_CHILD_OF_ROOT
    requires || (cfg.mode.Auto? && (data.blComChanged || data.blPosChanged || data.blOtherChanged))
             || (cfg.mode.Manual? && (data.blComChanged || data.blPosChanged) && Under(f, cfg.rootChannel, current.ch))
    ensures var home := if Under(f, cfg.rootChannel, current.ch) then current.ch else cfg.rootChannel;
            && (data.selectedCom == 1 ==> IsFollowed(cfg, data.position, distance, db, f, home,
                                                     Tuning(data.com1.freq, data.com1.is833), d.target.ch))
            && (data.selectedCom == 2 ==> IsFollowed(cfg, data.position, distance, db, f, home,
                                                     Tuning(data.com2.freq, data.com2.is833), d.target.ch))
            && (data.selectedCom != 1 && data.selectedCom != 2 ==>
                  d.target.ch == if cfg.untuned then cfg.untunedChannel else home)
  {
    var home := if Under(f, cfg.rootChannel, current.ch) then current.ch else cfg.rootChannel;
    var q := Question(cfg, data, distance, f, current.ch);
    assert q == QueryOf(cfg, data, distance, home, cfg.rootChannel);
    RadioIsFollowed(cfg, data, distance, db, f, current, found, d);
    GoalIsUnderRoot(cfg, data, distance, db, f, current, found);
    forall y ensures Eligible(db, f, q, y) <==> HeardFrom(cfg, data.position, distance, db, f, q.tuning, y) {
      HeardIsEligible(db, f, q, y);
      QueryHears(cfg, data, distance, db, f, home, y);
    }
    if y :| Eligible(db, f, q, y) {
      NearestIsFollowed(cfg, data, distance, db, f, home, d.target.ch);
    }
  }

  // ---------- the decision settles ----------

  /** Which stations are eligible does not depend on where the user is. */
  ghost predicate SameBut(q: Query, r: Query) {
    && q.tuning == r.tuning && q.root == r.root && (forall p :: q.nm(p) == r.nm(p))
    && q.considerRange == r.considerRange && q.outOfRangeUntuned == r.outOfRangeUntuned
  }

  /** A nearest station is no further in range than any other eligible one, if range counts. */
  lemma NearestInRange(db: Database, f: Forest, q: Query, x: Id, y: Id)
    requires Represents(db, f) && Under(f, q.root, q.current) && IsNearest(db, f, q, x) && Eligible(db, f, q, y)
    ensures q.considerRange ==> RangeTo(db, q, x) <= RangeTo(db, q, y)
  {
    var w, i, j := PlaceUnderRoot(f, q, y);
    var n: nat, k: nat :| Placed(f, q, x, n, k) && BeatsAll(db, f, q, StationRow(x, n, k));
    assert AtMost(db, q, StationRow(x, n, k), StationRow(y, i + j, j));
  }

  /** No station is nearer to the user than one the user is in, unless it is nearer in range. */
  lemma NearestToHome(db: Database, f: Forest, r: Query, x: Id, y: Id)
    requires Represents(db, f) && r.current == x && Eligible(db, f, r, x) && IsNearest(db, f, r, y)
    requires r.considerRange ==> RangeTo(db, r, x) <= RangeTo(db, r, y)
    ensures y == x
  {
    AtHome(f, r, x);
    var m: nat, l: nat :| Placed(f, r, y, m, l) && BeatsAll(db, f, r, StationRow(y, m, l));
    assert AtMost(db, r, StationRow(y, m, l), StationRow(x, 0, 0));
    assert m == 0 && Walk(f, x, y, 0);
  }

  /** Asked again from the nearest station itself, the database answers with that station. */
  lemma NearestIsFoundAgain(db: Database, f: Forest, q: Query, r: Query, found: StationInfo, again: StationInfo)
    requires Represents(db, f) && IsAnswer(db, f, q, found) && IsAnswer(db, f, r, again)
    requires IsRecognised(found.ch) && SameBut(q, r) && r.current == found.ch
    requires forall x :: x in f.ids ==> x < CHANNEL_NOT_CHILD_OF_ROOT
    ensures again.ch == found.ch
  {
    var x, y := found.ch, again.ch;
    assert Eligible(db, f, r, x);
    assert IsNearest(db, f, r, y) && Eligible(db, f, q, y);
    hide IsNearest, IsAnswer, Represents, Admitted, Under;
    NearestInRange(db, f, q, x, y);
    NearestToHome(db, f, r, x, y);
  }

  /** The current channel is no steps away from itself. */
  lemma AtHome(f: Forest, q: Query, x: Id)
    requires Acyclic(f) && q.current == x && Under(f, q.root, x)
    ensures Placed(f, q, x, 0, 0)
  {
    var k: nat :| Climb(f, x, k) == Some(q.root);
    ClimbStays(f, x, k);
    assert Climb(f, x, 0) == Some(x) && IsLca(f, x, x, x);
    LcaIsNearest(f, x, x, x, 0, 0);
  }

  /**
   The decision settles: once the requested move has been granted, the same report leads to no
   further request, so the plugin never sends the user back and forth.
   */
  lemma GrantedMoveSettles(cfg: Config, data: SimComData, distance: Distance, db: Database, f: Forest,
                           current: StationInfo, found: StationInfo, d: Decision,
                           moved: StationInfo, again: StationInfo, e: Decision)
    requires Represents(db, f) && RootIsSound(cfg, f) && (forall x :: x in f.ids ==> x < CHANNEL_NOT_CHILD_OF_ROOT)
    requires Decides(cfg, data, distance, db, f, current, found, d) && d.move.Some?
    requires moved.ch == d.move.value && Decides(cfg, data, distance, db, f, moved, again, e)
    ensures e.move.None?
  {
    GoalIsUnderRoot(cfg, data, distance, db, f, current, found);
    var q, r := Question(cfg, data, distance, f, current.ch), Question(cfg, data, distance, f, moved.ch);
    if IsRecognised(found.ch) {
      NearestIsFoundAgain(db, f, q, r, found, again);
    } else {
      forall x ensures Eligible(db, f, q, x) == Eligible(db, f, r, x) {
      }
    }
  }

  // ---------- where the code and its comments differ ----------

  /**
   The move asked for is the one the comments describe exactly unless, in MANUAL mode, only the position
   has changed after the user left the target, and the station now nearest is another valid channel.
   */
  lemma ManualGuardMattersIff(cfg: Config, data: SimComData, current: StationInfo, adjustedCurrent: Id,
                              found: StationInfo)
    ensures Decide(cfg, data, current, adjustedCurrent, found).move
         == DecideGiven(cfg, data, current, adjustedCurrent, found, true).move
       <==> !(&& cfg.mode.Manual? && data.blPosChanged && !data.blComChanged
              && found.ch != CHANNEL_NOT_CHILD_OF_ROOT && found.ch != current.ch
              && IsServerChannel(Goal(cfg, adjustedCurrent, found).ch)
                  && Goal(cfg, adjustedCurrent, found).ch != current.ch)
  {
  }

  /**
   The remembered target is where the user is or is being sent, exactly unless it is no valid channel or no
   move was allowed.
   */
  lemma TargetIsDestinationIff(cfg: Config, data: SimComData, current: StationInfo, adjustedCurrent: Id,
                               found: StationInfo)
    ensures var d := Decide(cfg, data, current, adjustedCurrent, found);
            var goal := Goal(cfg, adjustedCurrent, found).ch;
            && (d.target.ch == Destination(current.ch, d)
                <==> || cfg.mode.Disabled? || !SomethingChanged(data) || found.ch == current.ch
                     || (MayMove(cfg, data, found.ch, false) && (goal == current.ch || IsServerChannel(goal))))
  {
  }
}
