/**
 The automatic return of a user who is moved away from the target, played
 against a server that grants requests and reports moves in order.
 */
module MoveBack {
  import opened Options
  import opened Forests
  import opened ChannelTables
  import opened ChannelStore
  import opened SimPolling
  import opened MoveDecision

  /** The target is a channel to return to. */
  predicate IsSet(target: Id) {
    IsRecognised(target) && target != CHANNEL_ROOT
  }

  /** The plugin takes charge of a move of the user. */
  predicate Intercepts(mode: Mode, simConnected: bool, target: Id) {
    simConnected && mode.Auto? && IsSet(target)
  }

  /** The move requested when the user turns up in a channel. */
  function Return(mode: Mode, simConnected: bool, target: Id, newChannel: Id): Option<Id> {
    if Intercepts(mode, simConnected, target) && newChannel != target then Some(target) else None
  }

  /** A move that a decision asked for is not undone when it is reported. */
  lemma OwnMoveIsKept(cfg: Config, data: SimComData, current: StationInfo, adjustedCurrent: Id, found: StationInfo,
                      simConnected: bool)
    ensures var d := Decide(cfg, data, current, adjustedCurrent, found);
            d.move.Some? ==> Return(cfg.mode, simConnected, d.target.ch, d.move.value) == None
  {
    MovesAreReal(cfg, data, current, adjustedCurrent, found);
  }

  // ---------- the server, the plugin and everyone else ----------

  /** Where the user is, the requests on their way to the server, and the reports on their way back. */
  datatype World = World(location: Id, requests: seq<Id>, events: seq<Id>)

  /** Someone moves the user, the server grants a request, or the plugin handles a report. */
  datatype Step = Outside(channel: Id) | Grant | Handle

  predicate Enabled(w: World, s: Step) {
    match s
    case Outside(_) => true
    case Grant => w.requests != []
    case Handle => w.events != []
  }

  /** A user who changes channel is reported; a move to where the user is does nothing. */
  function Moved(w: World, channel: Id): World {
    if channel == w.location then w else w.(location := channel, events := w.events + [channel])
  }

  /** The requests that the plugin makes on a report, in AUTO mode with the simulator running. */
  function Requested(target: Id, newChannel: Id): seq<Id> {
    var move := Return(Auto, true, target, newChannel);
    if move.Some? then [move.value] else []
  }

  function Next(w: World, s: Step, target: Id): World
    requires Enabled(w, s)
  {
    match s
    case Outside(channel) => Moved(w, channel)
    case Grant => Moved(w.(requests := w.requests[1..]), w.requests[0])
    case Handle => w.(events := w.events[1..], requests := w.requests + Requested(target, w.events[0]))
  }

  /** A user who is away from the target has a request or a report under way that leads back. */
  ghost predicate OnTrack(w: World, target: Id) {
    && (forall r <- w.requests :: r == target)
    && (w.location == target || w.requests != [] || exists i :: 0 <= i < |w.events| && w.events[i] != target)
  }

  predicate Quiet(w: World) {
    w.requests == [] && w.events == []
  }

  /** The reports of channels other than the target. */
  function Strays(events: seq<Id>, target: Id): nat {
    if events == [] then 0 else (if events[0] != target then 1 else 0) + Strays(events[1..], target)
  }

  /** The steps that can still follow if nobody else moves the user. */
  function StepsLeft(w: World, target: Id): nat {
    |w.events| + 2 * Strays(w.events, target) + 2 * |w.requests|
  }

  lemma {:induction false} StraysOfMore(events: seq<Id>, channel: Id, target: Id)
    ensures Strays(events + [channel], target) == Strays(events, target) + if channel != target then 1 else 0
  {
    if events == [] {
      assert events + [channel] == [channel];
    } else {
      assert (events + [channel])[1..] == events[1..] + [channel];
      StraysOfMore(events[1..], channel, target);
    }
  }

  lemma StepStaysOnTrack(w: World, s: Step, target: Id)
    requires IsSet(target) && OnTrack(w, target) && Enabled(w, s)
    ensures OnTrack(Next(w, s, target), target)
  {
    var v := Next(w, s, target);
    match s
    case Outside(channel) =>
      if channel != w.location {
        assert v.events[|w.events|] == channel;
      }
    case Grant => assert w.requests[0] in w.requests && forall r <- v.requests :: r in w.requests;
    case Handle =>
      if w.location != target && w.requests == [] && w.events[0] == target {
        var i :| 0 <= i < |w.events| && w.events[i] != target;
        assert v.events[i - 1] != target;
      }
  }

  /** Every step but someone else's move brings the end nearer. */
  lemma StepCounts(w: World, s: Step, target: Id)
    requires IsSet(target) && OnTrack(w, target) && Enabled(w, s) && !s.Outside?
    ensures StepsLeft(Next(w, s, target), target) < StepsLeft(w, target)
  {
    if s.Grant? {
      assert w.requests[0] in w.requests;
      StraysOfMore(w.events, target, target);
    }
  }

  // ---------- every run ----------

  ghost predicate IsRun(w: World, steps: seq<Step>, target: Id)
    decreases |steps|
  {
    steps != [] ==> Enabled(w, steps[0]) && IsRun(Next(w, steps[0], target), steps[1..], target)
  }

  function After(w: World, steps: seq<Step>, target: Id): World
    requires IsRun(w, steps, target)
    decreases |steps|
  {
    if steps == [] then w else After(Next(w, steps[0], target), steps[1..], target)
  }

  /** How many requests the plugin makes during a run. */
  function RequestsMade(w: World, steps: seq<Step>, target: Id): nat
    requires IsRun(w, steps, target)
    decreases |steps|
  {
    if steps == [] then 0
    else
      (if steps[0].Handle? then |Requested(target, w.events[0])| else 0)
      + RequestsMade(Next(w, steps[0], target), steps[1..], target)
  }

  /** How often someone else moves the user away from the target, or between other channels. */
  function OutsideMoves(w: World, steps: seq<Step>, target: Id): nat
    requires IsRun(w, steps, target)
    decreases |steps|
  {
    if steps == [] then 0
    else
      (if steps[0].Outside? && steps[0].channel != w.location && steps[0].channel != target then 1 else 0)
      + OutsideMoves(Next(w, steps[0], target), steps[1..], target)
  }

  /** In every run a user away from the target is on the way back, and each outside move costs one request at most. */
  lemma {:induction false} EveryRunStaysOnTrack(w: World, steps: seq<Step>, target: Id)
    requires IsSet(target) && OnTrack(w, target) && IsRun(w, steps, target)
    ensures OnTrack(After(w, steps, target), target)
    ensures RequestsMade(w, steps, target) + Strays(After(w, steps, target).events, target)
         == Strays(w.events, target) + OutsideMoves(w, steps, target)
    decreases |steps|
  {
    if steps != [] {
      var v := Next(w, steps[0], target);
      StepStaysOnTrack(w, steps[0], target);
      EveryRunStaysOnTrack(v, steps[1..], target);
      if steps[0].Grant? {
        assert w.requests[0] in w.requests;
      }
      if !steps[0].Handle? && v.events != w.events {
        StraysOfMore(w.events, v.location, target);
      }
    }
  }

  /** Once nobody else moves the user, the run ends, and then the user is back in the target. */
  lemma {:induction false} ReturnConverges(w: World, steps: seq<Step>, target: Id)
    requires IsSet(target) && OnTrack(w, target) && IsRun(w, steps, target)
    requires forall s <- steps :: !s.Outside?
    ensures |steps| + StepsLeft(After(w, steps, target), target) <= StepsLeft(w, target)
    ensures Quiet(After(w, steps, target)) ==> After(w, steps, target).location == target
    decreases |steps|
  {
    if steps == [] {
    } else {
      StepStaysOnTrack(w, steps[0], target);
      StepCounts(w, steps[0], target);
      assert steps[0] in steps;
      ReturnConverges(Next(w, steps[0], target), steps[1..], target);
    }
  }

  /** A decision in AUTO mode starts such a run: from it the user gets to the target, whoever interferes for a while. */
  lemma DecisionStartsOnTrack(cfg: Config, data: SimComData, distance: Distance, db: Database, f: Forest,
                              current: StationInfo, found: StationInfo, d: Decision)
    requires Represents(db, f) && RootIsSound(cfg, f) && (forall x :: x in f.ids ==> x < CHANNEL_NOT_CHILD_OF_ROOT)
    requires Decides(cfg, data, distance, db, f, current, found, d)
    requires cfg.mode.Auto? && SomethingChanged(data) && current.ch < CHANNEL_NOT_CHILD_OF_ROOT
        && d.target.ch != CHANNEL_ROOT
    ensures IsSet(d.target.ch)
    ensures OnTrack(World(current.ch, if d.move.Some? then [d.move.value] else [], []), d.target.ch)
  {
    AutoEndsUnderRoot(cfg, data, distance, db, f, current, found, d);
    var k: nat :| Climb(f, d.target.ch, k) == Some(cfg.rootChannel);
    ClimbStays(f, d.target.ch, k);
  }
}
