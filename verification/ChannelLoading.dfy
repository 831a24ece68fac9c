/**
 The load of the channels as a state machine over the client's events: what is
 still awaited, and what the database holds after any run.
 */
module ChannelLoading {
  import opened Options
  import opened Forests
  import opened ChannelTables
  import opened ChannelTrees
  import opened ChannelRequests
  import opened ChannelListing
  import opened ChannelChains
  import opened ChannelStore
  import opened LoadOrder

  /** What the client knows of a channel. */
  datatype ServerChannel = ServerChannel(name: string, topic: string, desc: string, parent: Id, order: Id,
                                         lookup: Lookup)

  function RowOf(info: ServerChannel): ChannelRow {
    ChannelRow(info.parent, info.order, info.name, info.lookup.ident, info.lookup.position, info.lookup.range)
  }

  /** A row that says what the client knows. */
  predicate IsRowOf(row: ChannelRow, info: ServerChannel) {
    && row.name == info.name && row.parent == info.parent && row.ordering == info.order
    && row.station == info.lookup.ident && row.position == info.lookup.position && row.range == info.lookup.range
  }

  /** The channels awaited on each connection, and what the database stands for. */
  datatype LoadState = LoadState(channelUpdates: set<(Id, Id)>, initialising: bool, forest: Forest,
                                 channels: map<Id, ChannelRow>)

  /** What happens to the channels: a load begins, an answer or news arrives, the connection is lost. */
  datatype Event =
    | ListReceived(connection: Id, requested: seq<Id>, serverName: string)
    | Edited(connection: Id, channel: Id)
    | Updated(connection: Id, channel: Id, info: ServerChannel)
    | CreatedOrMoved(channel: Id, info: ServerChannel)
    | Deleted(channel: Id)
    | Disconnected

  const INITIAL := LoadState({}, true, ROOT_ONLY, map[0 := ROOT_ROW])

  function Pairs(connection: Id, cs: seq<Id>): set<(Id, Id)> {
    set c | c in cs :: (connection, c)
  }

  /** The channel replaces its own subtree. */
  ghost function Added(st: LoadState, c: Id, info: ServerChannel): LoadState {
    st.(forest := Graft(Prune(st.forest, c), c, info.parent),
        channels := (st.channels - Subtree(st.forest, c))[c := RowOf(info)])
  }

  ghost function Advance(st: LoadState, e: Event): LoadState {
    match e
    case ListReceived(s, cs, name) => st.(channelUpdates := st.channelUpdates + Pairs(s, cs),
        channels := UpdateRootChannelNameSql(st.channels, name))
    case Edited(s, c) => st.(channelUpdates := st.channelUpdates + {(s, c)})
    case Updated(s, c, info) =>
      if (s, c) !in st.channelUpdates then st
      else
        var awaited := st.channelUpdates - {(s, c)};
        Added(st, c, info).(channelUpdates := awaited, initialising := st.initialising && awaited != {})
    case CreatedOrMoved(c, info) => Added(st, c, info)
    case Deleted(c) => st.(forest := Prune(st.forest, c), channels := st.channels - Subtree(st.forest, c))
    case Disconnected => st.(forest := ROOT_ONLY, channels := map[0 := ROOT_ROW])
  }

  ghost function Run(es: seq<Event>): LoadState {
    if es == [] then INITIAL else Advance(Run(es[..|es| - 1]), es[|es| - 1])
  }

  // ---------- what is awaited, in every run ----------

  predicate AsksFor(e: Event, p: (Id, Id)) {
    || (e.ListReceived? && e.connection == p.0 && p.1 in e.requested)
    || (e.Edited? && (e.connection, e.channel) == p)
  }

  predicate AnswersTo(e: Event, p: (Id, Id)) {
    e.Updated? && (e.connection, e.channel) == p
  }

  /** Asked for by event `i`, and not answered since. */
  predicate OpenSince(es: seq<Event>, p: (Id, Id), i: nat) {
    i < |es| && AsksFor(es[i], p) && forall j :: i < j < |es| ==> !AnswersTo(es[j], p)
  }

  ghost predicate Open(es: seq<Event>, p: (Id, Id)) {
    exists i: nat :: OpenSince(es, p, i)
  }

  /** The pending set holds exactly what was asked for and not answered since, even across a disconnection. */
  lemma {:induction false} PendingIffOpen(es: seq<Event>, p: (Id, Id))
    ensures p in Run(es).channelUpdates <==> Open(es, p)
    decreases |es|
  {
    if es != [] {
      var front, e := es[..|es| - 1], es[|es| - 1];
      PendingIffOpen(front, p);
      assert es == front + [e];
      if AsksFor(e, p) {
        assert OpenSince(es, p, |front|);
      } else if AnswersTo(e, p) {
        assert !Open(es, p);
      } else {
        if i: nat :| OpenSince(front, p, i) {
          assert OpenSince(es, p, i);
        }
        if i: nat :| OpenSince(es, p, i) {
          assert OpenSince(front, p, i);
        }
      }
    }
  }

  /** Event `k` is an awaited answer after which nothing is awaited any more. */
  ghost predicate Completes(es: seq<Event>, k: nat) {
    && k < |es| && es[k].Updated?
    && (es[k].connection, es[k].channel) in Run(es[..k]).channelUpdates
    && Run(es[..k + 1]).channelUpdates == {}
  }

  /** The plugin is initialised exactly if some answer was the last one awaited. */
  lemma {:induction false} InitialisedIff(es: seq<Event>)
    ensures !Run(es).initialising <==> exists k: nat :: Completes(es, k)
    decreases |es|
  {
    if es != [] {
      var front, e := es[..|es| - 1], es[|es| - 1];
      InitialisedIff(front);
      forall k: nat | k < |front| ensures Completes(front, k) <==> Completes(es, k) {
        assert front[..k] == es[..k] && front[..k + 1] == es[..k + 1];
      }
      assert es[..|front|] == front && es[..|front| + 1] == es;
      if k: nat :| Completes(es, k) {
        assert k < |front| ==> Completes(front, k);
      }
      assert !Run(es).initialising && Run(front).initialising ==> Completes(es, |front|);
    }
  }

  /** The plugin is not initialised while a channel it asked for remains unanswered. */
  lemma InitialisedOnlyWhenAnswered(es: seq<Event>, i: nat, p: (Id, Id))
    requires i < |es| && AsksFor(es[i], p) && forall j :: 0 <= j < |es| ==> !AnswersTo(es[j], p)
    requires Run(es[..i]).initialising
    ensures Run(es).initialising
  {
    hide Run, Advance;
    InitialisedIff(es);
    InitialisedIff(es[..i]);
    forall k: nat | k < |es| ensures !Completes(es, k) {
      var now := es[..k + 1];
      if i <= k {
        assert OpenSince(now, p, i);
        PendingIffOpen(now, p);
      } else {
        assert es[..i][..k] == es[..k] && es[..i][..k + 1] == now;
        assert Completes(es, k) == Completes(es[..i], k);
      }
    }
  }

  /** After a reconnection every channel is answered, and the plugin still waits for the lost connection. */
  lemma LostRequestBlocks(info: ServerChannel, name: string)
    ensures var es := [ListReceived(1, [5], name), Disconnected, ListReceived(2, [5], name), Updated(2, 5, info)];
            Run(es).initialising
  {
    var es := [ListReceived(1, [5], name), Disconnected, ListReceived(2, [5], name), Updated(2, 5, info)];
    assert 5 in [5] && es[..0] == [];
    InitialisedOnlyWhenAnswered(es, 0, (1, 5));
  }

  // ---------- loading into an empty database ----------

  /** Nothing but the root channel, whatever may still be awaited. */
  ghost predicate IsEmpty(st: LoadState) {
    st.forest == ROOT_ONLY && st.channels == map[0 := ROOT_ROW]
  }

  /** So it is at the start and after every disconnection, which forgets no request. */
  lemma DisconnectionEmpties(before: seq<Event>)
    ensures IsEmpty(Run([])) && Run([]).channelUpdates == {}
    ensures var st := Run(before + [Disconnected]);
            && IsEmpty(st) && st.channelUpdates == Run(before).channelUpdates
            && st.initialising == Run(before).initialising
  {
    RunAppended(before + [Disconnected], before, Disconnected);
  }

  lemma RunAppended(es: seq<Event>, front: seq<Event>, e: Event)
    requires es == front + [e]
    ensures Run(es) == Advance(Run(front), e)
  {
    assert es[..|es| - 1] == front;
  }

  /** A load: the parent links and the data the server has, and what is requested on which connection. */
  datatype Session = Session(tree: Forest, server: map<Id, ServerChannel>, connection: Id, requested: seq<Id>,
                             serverName: string)

  /** The client knows every channel. */
  ghost predicate Serves(server: map<Id, ServerChannel>, f: Forest) {
    forall c :: c in f.up ==> c in server && server[c].parent == f.up[c]
  }

  ghost predicate IsSession(s: Session) {
    Loadable(s.tree, s.requested) && Serves(s.server, s.tree)
  }

  /** The answers agree with what the client knows. */
  predicate Faithful(server: map<Id, ServerChannel>, es: seq<Event>) {
    forall e <- es :: e.Updated? && (e.channel in server ==> e.info == server[e.channel])
  }

  /** No answer is to a request of an earlier connection, unless it is to one of the new requests as well. */
  ghost predicate NoStrays(awaited: set<(Id, Id)>, s: Session, es: seq<Event>) {
    forall e <- es :: e.Updated? && (e.connection, e.channel) in awaited ==>
      (e.connection, e.channel) in Pairs(s.connection, s.requested)
  }

  /** The answers to a load: the requested channels in the order in which they are first answered. */
  ghost function Accepted(connection: Id, requested: seq<Id>, es: seq<Event>): seq<Id> {
    if es == [] then []
    else
      var before, e := Accepted(connection, requested, es[..|es| - 1]), es[|es| - 1];
      if e.Updated? && e.connection == connection && e.channel in requested && e.channel !in before
      then before + [e.channel] else before
  }

  /** The events of a load: whatever came before, the list, and the answers. */
  function Loading(before: seq<Event>, s: Session, es: seq<Event>): seq<Event> {
    before + [ListReceived(s.connection, s.requested, s.serverName)] + es
  }

  ghost function Rows(server: map<Id, ServerChannel>, cs: seq<Id>, serverName: string): map<Id, ChannelRow>
    requires forall c <- cs :: c in server
  {
    map c | c in [0] + cs :: if c == 0 then ROOT_ROW.(name := serverName) else RowOf(server[c])
  }

  lemma {:induction false} AcceptedAreRequested(connection: Id, requested: seq<Id>, es: seq<Event>)
    ensures var acc := Accepted(connection, requested, es); NoRepeats(acc) && forall c <- acc :: c in requested
    decreases |es|
  {
    if es != [] {
      AcceptedAreRequested(connection, requested, es[..|es| - 1]);
    }
  }

  /** The state of a load, begun in state `before`, that has taken over the channels `acc` so far. */
  ghost predicate TakenOver(before: LoadState, st: LoadState, s: Session, acc: seq<Id>)
    requires Loadable(s.tree, acc) && Serves(s.server, s.tree)
  {
    && st.channelUpdates == before.channelUpdates + Pairs(s.connection, s.requested) - Pairs(s.connection, acc)
    && st.forest == Loaded(s.tree, acc) && st.channels == Rows(s.server, acc, s.serverName)
    && (st.initialising <==> before.initialising && (acc == [] || st.channelUpdates != {}))
  }

  lemma NextRow(server: map<Id, ServerChannel>, acc: seq<Id>, c: Id, serverName: string)
    requires (forall x <- acc + [c] :: x in server) && c != 0
    ensures (forall x <- acc :: x in server)
    ensures Rows(server, acc, serverName)[c := RowOf(server[c])] == Rows(server, acc + [c], serverName)
  {
    assert forall x <- acc :: x in acc + [c];
  }

  lemma NextLoaded(f: Forest, acc: seq<Id>, c: Id)
    requires Loadable(f, acc + [c])
    ensures Loadable(f, acc) && Prune(Loaded(f, acc), c) == Loaded(f, acc) && Subtree(Loaded(f, acc), c) == {}
    ensures Loaded(f, acc + [c]) == Graft(Loaded(f, acc), c, f.up[c])
  {
    hide Graft;
    var all := acc + [c];
    forall j | 0 <= j < |acc| ensures acc[j] != c && acc[j] in all {
      assert all[j] == acc[j] && all[|acc|] == c;
    }
    assert forall i, j :: 0 <= i < j < |acc| ==> acc[i] == all[i] && acc[j] == all[j];
    LoadedLinks(f, acc);
    PruneAbsent(Loaded(f, acc), c);
    NothingBelow(Loaded(f, acc), c);
    assert all[..|acc|] == acc;
  }

  lemma NothingBelow(f: Forest, c: Id)
    requires Prune(f, c) == f
    ensures Subtree(f, c) == {}
  {
  }

  /** A channel that is not there yet is added and replaces nothing. */
  lemma AcceptStep(st: LoadState, f: Forest, server: map<Id, ServerChannel>, acc: seq<Id>, c: Id, serverName: string)
    requires Loadable(f, acc + [c]) && Loadable(f, acc) && Serves(server, f)
    requires st.forest == Loaded(f, acc) && st.channels == Rows(server, acc, serverName)
    ensures Added(st, c, server[c]) == st.(forest := Loaded(f, acc + [c]), channels := Rows(server, acc + [c],
        serverName))
  {
    hide Graft, Prune, Subtree, Rows, Loaded, NoRepeats;
    assert c in acc + [c];
    NextLoaded(f, acc, c);
    NextRow(server, acc, c, serverName);
  }

  lemma AcceptedPairs(connection: Id, requested: seq<Id>, acc: seq<Id>, c: Id)
    ensures Pairs(connection, acc + [c]) == Pairs(connection, acc) + {(connection, c)}
    ensures forall p :: p in Pairs(connection, requested) <==> p.0 == connection && p.1 in requested
  {
  }

  /** One answer during a load. */
  lemma AnswerStep(before: LoadState, st: LoadState, s: Session, acc: seq<Id>, e: Event)
    requires IsSession(s) && Loadable(s.tree, acc) && TakenOver(before, st, s, acc)
    requires Faithful(s.server, [e]) && NoStrays(before.channelUpdates, s, [e])
    ensures if e.connection == s.connection && e.channel in s.requested && e.channel !in acc
            then Loadable(s.tree, acc + [e.channel]) ==> TakenOver(before, Advance(st, e), s, acc + [e.channel])
            else Advance(st, e) == st
  {
    hide Loaded, Rows, Added, NoRepeats;
    assert e in [e] && (e.channel in s.requested ==> e.channel in s.tree.up);
    AcceptedPairs(s.connection, s.requested, acc, e.channel);
    AcceptedPairs(s.connection, acc, acc, e.channel);
    hide Loadable;
    if e.connection == s.connection && e.channel in s.requested && e.channel !in acc
       && Loadable(s.tree, acc + [e.channel])
    {
      AcceptStep(st, s.tree, s.server, acc, e.channel, s.serverName);
    }
  }

  lemma AcceptedIsLoadable(s: Session, es: seq<Event>)
    requires IsSession(s)
    ensures Loadable(s.tree, Accepted(s.connection, s.requested, es))
  {
    AcceptedAreRequested(s.connection, s.requested, es);
  }

  lemma LoadStarts(before: LoadState, s: Session)
    requires IsEmpty(before) && Serves(s.server, s.tree)
    ensures Loadable(s.tree, [])
    ensures TakenOver(before, Advance(before, ListReceived(s.connection, s.requested, s.serverName)), s, [])
  {
    assert Rows(s.server, [], s.serverName) == map[0 := ROOT_ROW.(name := s.serverName)];
  }

  /** Without strays, the accepted channels are taken over in the order in which they are answered. */
  lemma {:induction false} LoadProceeds(before: seq<Event>, s: Session, es: seq<Event>)
    requires IsEmpty(Run(before)) && IsSession(s) && Faithful(s.server, es)
    requires NoStrays(Run(before).channelUpdates, s, es)
    ensures var acc := Accepted(s.connection, s.requested, es);
            Loadable(s.tree, acc) && TakenOver(Run(before), Run(Loading(before, s, es)), s, acc)
    decreases |es|
  {
    hide Advance, TakenOver, Run, Pairs;
    var listed := ListReceived(s.connection, s.requested, s.serverName);
    if es == [] {
      LoadStarts(Run(before), s);
      RunAppended(Loading(before, s, es), before, listed);
    } else {
      var front, e := es[..|es| - 1], es[|es| - 1];
      assert e in es && forall x <- front :: x in es;
      LoadProceeds(before, s, front);
      AcceptedIsLoadable(s, es);
      RunAppended(Loading(before, s, es), Loading(before, s, front), e);
      AnswerStep(Run(before), Run(Loading(before, s, front)), s, Accepted(s.connection, s.requested, front), e);
    }
  }

  /** An answer to an earlier request is no longer awaited after it, though it is not one of this load. */
  lemma StrayIsTaken(before: seq<Event>, s: Session, es: seq<Event>, p: (Id, Id), j: nat)
    requires Faithful(s.server, es) && j < |es| && AnswersTo(es[j], p)
    ensures p !in Run(Loading(before, s, es)).channelUpdates
  {
    var all := Loading(before, s, es);
    assert all[|before| + 1 + j] == es[j];
    forall i | |before| < i < |all| ensures all[i].Updated? {
      assert all[i] in es;
    }
    assert forall i: nat :: OpenSince(all, p, i) ==> i <= |before|;
    PendingIffOpen(all, p);
  }

  /**
   A load into an empty database, whatever was awaited before and whatever answers arrive: unexpected and repeated
   ones change nothing, the rest are loaded in order of arrival, and earlier requests stay awaited; all this
   exactly if no request of an earlier connection is answered.
   */
  lemma LoadRun(before: seq<Event>, s: Session, es: seq<Event>)
    requires IsEmpty(Run(before)) && IsSession(s) && Faithful(s.server, es)
    ensures var acc := Accepted(s.connection, s.requested, es);
            && Loadable(s.tree, acc)
            && (TakenOver(Run(before), Run(Loading(before, s, es)), s, acc)
                <==> NoStrays(Run(before).channelUpdates, s, es))
  {
    hide Run, Advance, Accepted, Loaded, Rows;
    AcceptedIsLoadable(s, es);
    var acc := Accepted(s.connection, s.requested, es);
    if NoStrays(Run(before).channelUpdates, s, es) {
      LoadProceeds(before, s, es);
    } else {
      var e :| e in es && e.Updated? && (e.connection, e.channel) in Run(before).channelUpdates
               && (e.connection, e.channel) !in Pairs(s.connection, s.requested);
      var j: nat :| j < |es| && es[j] == e;
      StrayIsTaken(before, s, es, (e.connection, e.channel), j);
      AcceptedAreRequested(s.connection, s.requested, es);
      assert (e.connection, e.channel) !in Pairs(s.connection, acc);
    }
  }

  /** In particular after a disconnection at any moment. */
  lemma ReloadRun(before: seq<Event>, s: Session, es: seq<Event>)
    requires IsSession(s) && Faithful(s.server, es) && NoStrays(Run(before).channelUpdates, s, es)
    ensures var acc := Accepted(s.connection, s.requested, es);
            var st := Run(Loading(before + [Disconnected], s, es));
            && Loadable(s.tree, acc)
            && st.forest == Loaded(s.tree, acc) && st.channels == Rows(s.server, acc, s.serverName)
            && st.channelUpdates
               == Run(before).channelUpdates + Pairs(s.connection, s.requested) - Pairs(s.connection, acc)
  {
    hide Run, Advance, Accepted, Loaded, Rows;
    DisconnectionEmpties(before);
    LoadRun(before + [Disconnected], s, es);
  }

  /** A channel of the lost connection that is answered after all ends up among those of the new one. */
  lemma StrayIsMixedIn(info: ServerChannel, name: string)
    ensures var es := [ListReceived(1, [5], name), Disconnected, ListReceived(2, [6], name), Updated(1, 5, info)];
            5 in Run(es).channels
  {
    var es := [ListReceived(1, [5], name), Disconnected, ListReceived(2, [6], name), Updated(1, 5, info)];
    assert 5 in [5] && OpenSince(es[..3], (1, 5), 0);
    PendingIffOpen(es[..3], (1, 5));
    RunAppended(es, es[..3], es[3]);
  }

  /** Answers to all the requests, in the order of the requests, are all accepted in that order. */
  lemma {:induction false} AnsweredInOrder(connection: Id, requested: seq<Id>, es: seq<Event>)
    requires |es| <= |requested| && NoRepeats(requested)
    requires forall i :: 0 <= i < |es| ==> AnswersTo(es[i], (connection, requested[i]))
    ensures Accepted(connection, requested, es) == requested[..|es|]
    decreases |es|
  {
    if es != [] {
      AnsweredInOrder(connection, requested, es[..|es| - 1]);
    }
  }

  // ---------- the load as a whole ----------

  /** The channels requested from a server, whose parent links are `f`, as the recursion over its list requests them. */
  ghost predicate Requests(server: map<Id, ServerChannel>, f: Forest, requested: seq<Id>) {
    0 in f.ids && 0 !in f.up && f.up.Keys <= f.ids && Serves(server, f) && Walks(f, 0, requested)
  }

  /** A load of everything a server has below channel 0, into an empty database, and undisturbed by earlier requests. */
  ghost predicate IsFullLoad(before: seq<Event>, s: Session, es: seq<Event>) {
    && IsEmpty(Run(before)) && Requests(s.server, s.tree, s.requested)
    && Faithful(s.server, es) && NoStrays(Run(before).channelUpdates, s, es)
  }

  /**
   When none of the requests is awaited any more, the database has the server's links exactly if each parent was
   answered before its children.
   */
  lemma LoadIsCompleteIff(before: seq<Event>, s: Session, es: seq<Event>)
    requires IsFullLoad(before, s, es)
    requires Run(Loading(before, s, es)).channelUpdates !! Pairs(s.connection, s.requested)
    ensures var g := Run(Loading(before, s, es)).forest;
            && g.ids == {0} + set c | c in s.requested
            && (g == ServerPart(s.tree, s.requested)
                <==> ParentsFirst(s.tree, 0, Accepted(s.connection, s.requested, es)))
  {
    hide Run, Advance, Pairs, Rows, Loaded, ParentsFirst, Faithful, NoStrays, IsEmpty;
    var acc := Accepted(s.connection, s.requested, es);
    WalkIsLoadable(s.tree, s.requested);
    LoadProceeds(before, s, es);
    AcceptedAreRequested(s.connection, s.requested, es);
    NothingAwaited(Run(before).channelUpdates, s.connection, s.requested, acc);
    SameChannelsComplete(s.tree, s.requested, acc);
  }

  lemma SameChannelsComplete(f: Forest, requested: seq<Id>, acc: seq<Id>)
    requires Loadable(f, requested) && Loadable(f, acc) && forall c :: c in acc <==> c in requested
    ensures Loaded(f, acc).ids == {0} + set c | c in requested
    ensures Loaded(f, acc) == ServerPart(f, requested) <==> ParentsFirst(f, 0, acc)
  {
    hide Loaded, ParentsFirst, NoRepeats;
    CompleteIffParentsFirst(f, acc);
    LoadedLinks(f, acc);
    assert ServerPart(f, acc) == ServerPart(f, requested);
  }

  lemma NothingAwaited(stale: set<(Id, Id)>, connection: Id, requested: seq<Id>, acc: seq<Id>)
    requires stale + Pairs(connection, requested) - Pairs(connection, acc) !! Pairs(connection, requested)
    ensures forall c <- requested :: c in acc
  {
    forall c | c in requested ensures c in acc {
      assert (connection, c) in Pairs(connection, requested);
      assert (connection, c) in Pairs(connection, acc);
    }
  }

  /**
   If the answers arrive in the order of the requests, the load ends with the server's tree below channel 0, and the
   plugin is initialised unless it was waiting for something else.
   */
  lemma LoadInOrder(before: seq<Event>, s: Session, es: seq<Event>)
    requires IsFullLoad(before, s, es) && Accepted(s.connection, s.requested, es) == s.requested
    ensures var st := Run(Loading(before, s, es));
            && st.channelUpdates == Run(before).channelUpdates - Pairs(s.connection, s.requested)
            && (st.initialising <==> Run(before).initialising && (s.requested == [] || st.channelUpdates != {}))
            && st.forest == ServerPart(s.tree, s.requested) && st.channels == Rows(s.server, s.requested, s.serverName)
            && (forall c <- s.requested :: c in st.channels && c in s.server && IsRowOf(st.channels[c], s.server[c]))
            && forall c, d: nat :: c == 0 || ProperlyBelow(s.tree, 0, c) ==>
                 Climb(st.forest, c, d) == Climb(s.tree, c, d)
  {
    hide Run, Advance, Accepted, Loaded;
    WalkIsLoadable(s.tree, s.requested);
    LoadProceeds(before, s, es);
    CompleteIffParentsFirst(s.tree, s.requested);
    forall c, d: nat | c == 0 || ProperlyBelow(s.tree, 0, c)
      ensures Climb(ServerPart(s.tree, s.requested), c, d) == Climb(s.tree, c, d)
    {
      PartHasTheAncestry(s.tree, s.requested, c, d);
    }
  }

  /** And if the server keeps its siblings in chains, what is then listed is the walk of its channel tree. */
  lemma LoadThenList(before: seq<Event>, s: Session, es: seq<Event>, db: Database, rows: seq<ListRow>)
    returns (tree: Tree)
    requires IsFullLoad(before, s, es) && Accepted(s.connection, s.requested, es) == s.requested
    requires Chained(Rows(s.server, s.requested, s.serverName))
    requires var st := Run(Loading(before, s, es)); Represents(db, st.forest) && db.channels == st.channels
    requires |db.channels| <= ROW_LIMIT && ChannelListing.Answers(db.channels, 0, rows)
    ensures (forall r <- rows :: r.path != []) && Infos(rows) == Flatten([tree], 0)
    ensures tree.id == 0 && tree.name == s.serverName
    ensures Arranged(Rows(s.server, s.requested, s.serverName), 0, 0, tree.kids)
    ensures forall c: Id, d: nat :: Climb(s.tree, c, d) == Some(0) <==> ChannelListing.Lists(Infos(rows), c, d)
  {
    hide Run, Faithful, Infos, ChannelListing.Answers, Chained, Accepted, Flatten;
    LoadInOrder(before, s, es);
    tree := ListFromTop(s.tree, s.server, s.requested, s.serverName, db, rows);
  }

  lemma ListFromTop(f: Forest, server: map<Id, ServerChannel>, requested: seq<Id>, serverName: string,
                    db: Database, rows: seq<ListRow>) returns (tree: Tree)
    requires Requests(server, f, requested)
    requires (forall c <- requested :: c in server && c in f.up) && db.channels == Rows(server, requested, serverName)
    requires Chained(db.channels) && Represents(db, ServerPart(f, requested))
    requires |db.channels| <= ROW_LIMIT && ChannelListing.Answers(db.channels, 0, rows)
    ensures (forall r <- rows :: r.path != []) && Infos(rows) == Flatten([tree], 0)
    ensures tree.id == 0 && tree.name == serverName && Arranged(db.channels, 0, 0, tree.kids)
    ensures forall c: Id, d: nat :: Climb(f, c, d) == Some(0) <==> ChannelListing.Lists(Infos(rows), c, d)
  {
    hide Infos, ChannelListing.Answers, Chained, ChannelListing.Lists, Flatten, Walks;
    var g := ServerPart(f, requested);
    PartIsLinked(f, server, requested, serverName);
    assert IsForest(g);
    tree := ListingOfChannel(db, g, 0, rows);
    forall c: Id, d: nat ensures Climb(f, c, d) == Some(0) <==> ClosureRow(0, c, d) in db.closure {
      BelowTopInBoth(f, requested, c, d);
    }
  }

  lemma PartIsLinked(f: Forest, server: map<Id, ServerChannel>, requested: seq<Id>, serverName: string)
    requires Requests(server, f, requested)
    ensures forall c <- requested :: c in server && c in f.up
    ensures Linked(Rows(server, requested, serverName), ServerPart(f, requested)) && 0 !in ServerPart(f, requested).up
  {
    WalkIsLoadable(f, requested);
  }

  lemma BelowTopInBoth(f: Forest, requested: seq<Id>, c: Id, d: nat)
    requires 0 in f.ids && 0 !in f.up && f.up.Keys <= f.ids && Walks(f, 0, requested)
    ensures forall x <- requested :: x in f.up
    ensures Climb(f, c, d) == Some(0) <==> Climb(ServerPart(f, requested), c, d) == Some(0)
  {
    WalkIsLoadable(f, requested);
    if c == 0 || c in requested {
      PartHasTheAncestry(f, requested, c, d);
    } else {
      assert c !in ServerPart(f, requested).ids;
      assert d > 0 && Climb(f, c, d) == Some(0) ==> ProperlyBelow(f, 0, c);
    }
  }
}
