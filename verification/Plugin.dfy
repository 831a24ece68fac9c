/**
 The plugin's event handlers: they keep the list of awaited channels, feed the
 database, and ask the client to move the user.
 */
module Plugin {
  import opened Options
  import opened Forests
  import opened Frequencies
  import opened ChannelTables
  import opened ChannelRequests
  import opened ChannelStore
  import opened ChannelLoading
  import opened SimPolling
  import opened MoveDecision
  import opened MoveBack

  /** What the plugin asks the client for. */
  datatype Request = Describe(connection: Id, channel: Id) | Move(channel: Id)

  function Descriptions(connection: Id, cs: seq<Id>): seq<Request> {
    seq(|cs|, i requires 0 <= i < |cs| => Describe(connection, cs[i]))
  }

  function Moves(move: Option<Id>): seq<Request> {
    if move.Some? then [Move(move.value)] else []
  }

  /** The parent links that the server reports for the channels on its list. */
  ghost function ServerForest(channels: seq<Id>, server: map<Id, ServerChannel>): Forest
    requires forall c <- channels :: c in server
  {
    Forest({0} + (set c | c in channels), map c | c in channels :: server[c].parent)
  }

  class BfsgSimCom {
    const ts3Channels: TS3Channels
    const distance: Distance
    var cfg: Config
    var channelUpdates: set<(Id, Id)>
    var initialising: bool
    var blConnectedToTeamspeak: bool
    var myTS3ID: nat
    var simComData: SimComData
    var targetChannel: StationInfo
    var currentChannel: StationInfo

    /** Everything asked of the client so far, oldest first. */
    ghost var sent: seq<Request>

    ghost predicate Valid()
      reads this, ts3Channels
    {
      ts3Channels.Valid()
    }

    /** The part of the state that has to do with the load. */
    ghost function Load(): LoadState
      reads this, ts3Channels
    {
      LoadState(channelUpdates, initialising, ts3Channels.forest, ts3Channels.db.channels)
    }

    /** The target and the requests are what the decision on this report makes of some answer of the database. */
    ghost predicate Decided(data: SimComData, found: StationInfo, sentBefore: seq<Request>)
      reads this, ts3Channels
    {
      var forest := ts3Channels.forest;
      var d := Decide(cfg, data, currentChannel, AdjustedCurrent(cfg, forest, currentChannel.ch), found);
      && targetChannel == d.target && sent == sentBefore + Moves(d.move)
      && (!cfg.mode.Disabled? && SomethingChanged(data) ==>
            IsAnswer(ts3Channels.db, forest, Question(cfg, data, distance, forest, currentChannel.ch), found))
    }

    constructor (cfg: Config, distance: Distance, data: SimComData)
      ensures Valid() && fresh(ts3Channels) && Load() == INITIAL
      ensures sent == [] && !blConnectedToTeamspeak && targetChannel == Unplaced(CHANNEL_ID_NOT_FOUND)
      ensures this.cfg == cfg && this.distance == distance
    {
      ts3Channels := new TS3Channels();
      this.distance, this.cfg, simComData := distance, cfg, data;
      channelUpdates, initialising, blConnectedToTeamspeak, myTS3ID := {}, true, false, 0;
      targetChannel, currentChannel := Unplaced(CHANNEL_ID_NOT_FOUND), Unplaced(CHANNEL_ID_NOT_FOUND);
      sent := [];
    }

    // ---------- the channels ----------

    /**
     Requests everything below `parent`, which is `level` steps below channel 0.  The recursion
     ends for every list of different channels other than 0, even if it has cycles.
     */
    method RecurseChannelList(listOfChannels: seq<Listed>, connection: Id, parent: Id, ghost f: Forest,
                              ghost level: nat)
      returns (ghost requested: seq<Id>)
      requires Lists(listOfChannels, f) && Climb(f, parent, level) == Some(0)
      modifies `channelUpdates, `sent
      ensures Walks(f, parent, requested)
      ensures channelUpdates == old(channelUpdates) + Pairs(connection, requested)
      ensures sent == old(sent) + Descriptions(connection, requested)
      ensures |sent| == |old(sent)| + |requested|
      ensures forall i :: 0 <= i < |requested| ==> sent[|old(sent)| + i] == Describe(connection, requested[i])
      decreases |f.ids| - level
    {
      hide Lists, Walks, WalksChildren, Climb, Descriptions;
      requested := [];
      NothingDescribed(connection);
      NothingWalked(listOfChannels, f, parent);
      for n := 0 to |listOfChannels|
        invariant WalksChildren(listOfChannels, f, parent, n, requested)
        invariant channelUpdates == old(channelUpdates) + Pairs(connection, requested)
        invariant sent == old(sent) + Descriptions(connection, requested)
      {
        var channel := listOfChannels[n];
        if channel.parent == parent {
          channelUpdates := channelUpdates + {(connection, channel.id)};
          sent := sent + [Describe(connection, channel.id)];
          ChildIsDeeper(listOfChannels, f, parent, level, n);
          ghost var sub := RecurseChannelList(listOfChannels, connection, channel.id, f, level + 1);
          NextChildDone(listOfChannels, f, parent, level, n, requested, sub);
          MoreRequested(connection, requested, channel.id, sub);
          requested := requested + [channel.id] + sub;
        } else {
          OtherEntrySkipped(listOfChannels, f, parent, n, requested);
        }
      }
      DescriptionsInOrder(connection, requested);
      RootPresent(f, parent, level);
      AllChildrenDone(listOfChannels, f, parent, requested);
    }

    /** Asks for every channel on the server's list that is below channel 0.  The list ends with a zero. */
    method LoadChannels(connection: Id, channelList: seq<Id>, ghost size: nat, server: map<Id, ServerChannel>,
                        serverName: string)
      returns (ghost requested: seq<Id>)
      requires Valid() && size < |channelList| && channelList[size] == 0 && 0 !in channelList[..size]
      requires NoRepeats(channelList[..size]) && forall c <- channelList[..size] :: c in server
      modifies `channelUpdates, `sent, ts3Channels`db
      ensures Valid() && Requests(server, ServerForest(channelList[..size], server), requested)
      ensures Load() == Advance(old(Load()), ListReceived(connection, requested, serverName))
      ensures sent == old(sent) + Descriptions(connection, requested)
    {
      ts3Channels.UpdateRootChannelName(serverName);
      assert ts3Channels.db.channels == UpdateRootChannelNameSql(old(ts3Channels.db.channels), serverName);
      var listOfChannels: seq<Listed> := [];
      var i := 0;
      while channelList[i] != 0
        invariant i <= size && |listOfChannels| == i
        invariant forall k :: 0 <= k < i ==> listOfChannels[k] == Listed(channelList[k], server[channelList[k]].parent)
        decreases size - i
      {
        assert channelList[i] in channelList[..size];
        listOfChannels := listOfChannels + [Listed(channelList[i], server[channelList[i]].parent)];
        i := i + 1;
      }
      assert i == size;
      ghost var f := ServerForest(channelList[..size], server);
      ListedByServer(channelList[..size], server, listOfChannels);
      assert Climb(f, 0, 0) == Some(0);
      requested := RecurseChannelList(listOfChannels, connection, 0, f, 0);
    }

    /** Takes over what the client knows of a channel. */
    method LoadChannel(channel: Id, info: ServerChannel)
      requires Valid() && channel != info.parent && channel < CHANNEL_NOT_CHILD_OF_ROOT
      modifies ts3Channels
      ensures Valid() && Load() == Added(old(Load()), channel, info)
      ensures forall q :: q in ts3Channels.db.channelFrequency <==>
                if q.channel == channel
                then && q.tuning.Some?
                     && Tunes([info.name, info.topic, info.desc], cfg.frequencyMode, info.lookup.stations,
                         q.tuning.value)
                else q in old(ts3Channels.db.channelFrequency) && !Under(old(ts3Channels.forest), channel, q.channel)
    {
      ts3Channels.AddOrUpdateChannel(info.name, info.topic, info.desc, channel, info.parent, info.order,
                                     cfg.frequencyMode, info.lookup);
    }

    /** A channel was created or has another parent. */
    method OnChannelMoveEvent(channel: Id, info: ServerChannel)
      requires Valid() && channel != info.parent && channel < CHANNEL_NOT_CHILD_OF_ROOT
      modifies ts3Channels
      ensures Valid() && Load() == Advance(old(Load()), CreatedOrMoved(channel, info))
      ensures ts3Channels.forest == Graft(Prune(old(ts3Channels.forest), channel), channel, info.parent)
      ensures channel in ts3Channels.db.channels && IsRowOf(ts3Channels.db.channels[channel], info)
    {
      LoadChannel(channel, info);
    }

    method OnDelChannelEvent(channel: Id)
      requires Valid()
      modifies ts3Channels
      ensures Valid() && Load() == Advance(old(Load()), Deleted(channel))
      ensures ts3Channels.forest == Prune(old(ts3Channels.forest), channel)
    {
      ts3Channels.DeleteChannel(channel);
    }

    method OnUpdateChannelEditedEvent(connection: Id, channel: Id)
      requires Valid()
      modifies `channelUpdates, `sent
      ensures Valid() && Load() == Advance(old(Load()), Edited(connection, channel))
      ensures channelUpdates == old(channelUpdates) + {(connection, channel)}
      ensures sent == old(sent) + [Describe(connection, channel)]
    {
      channelUpdates := channelUpdates + {(connection, channel)};
      sent := sent + [Describe(connection, channel)];
    }

    /** A description has arrived: a channel that is awaited is loaded. */
    method OnUpdateChannelEvent(connection: Id, channel: Id, info: ServerChannel)
      requires Valid()
      requires (connection, channel) in channelUpdates ==> channel != info.parent && channel < CHANNEL_NOT_CHILD_OF_ROOT
      modifies `channelUpdates, `initialising, ts3Channels
      ensures Valid() && Load() == Advance(old(Load()), Updated(connection, channel, info))
      ensures if (connection, channel) in old(channelUpdates)
              then && channelUpdates == old(channelUpdates) - {(connection, channel)}
                   && initialising == (old(initialising) && channelUpdates != {})
                   && ts3Channels.forest == Graft(Prune(old(ts3Channels.forest), channel), channel, info.parent)
                   && channel in ts3Channels.db.channels && IsRowOf(ts3Channels.db.channels[channel], info)
              else channelUpdates == old(channelUpdates) && initialising == old(initialising)
                   && ts3Channels.forest == old(ts3Channels.forest)
                   && ts3Channels.db.channels == old(ts3Channels.db.channels)
    {
      var sc := (connection, channel);
      if sc in channelUpdates {
        channelUpdates := channelUpdates - {sc};
        LoadChannel(channel, info);
        if initialising && channelUpdates == {} {
          initialising := false;
        }
      }
    }

    /** The connection is lost; what is awaited stays awaited. */
    method OnDisconnected()
      requires Valid()
      modifies ts3Channels, `blConnectedToTeamspeak, `myTS3ID, `currentChannel, `targetChannel
      ensures Valid() && Load() == Advance(old(Load()), Disconnected)
      ensures ts3Channels.db == InitDatabaseSql() && channelUpdates == old(channelUpdates)
      ensures !blConnectedToTeamspeak && myTS3ID == 0 && currentChannel == targetChannel == Unplaced(CHANNEL_ROOT)
    {
      ts3Channels.DeleteAllChannels();
      blConnectedToTeamspeak, myTS3ID := false, 0;
      currentChannel, targetChannel := Unplaced(CHANNEL_ROOT), Unplaced(CHANNEL_ROOT);
    }

    // ---------- the user ----------

    /** A report from the simulator, with the user in `clientChannel`. */
    method Callback(data: SimComData, clientChannel: Id) returns (ghost found: StationInfo)
      requires Valid()
      modifies `simComData, `targetChannel, `currentChannel, `sent
      ensures simComData == data
      ensures !blConnectedToTeamspeak ==>
                && targetChannel == Unplaced(CHANNEL_ID_NOT_FOUND)
                && currentChannel == old(currentChannel) && sent == old(sent)
      ensures blConnectedToTeamspeak ==>
                && (cfg.mode.Disabled? ==> currentChannel == old(currentChannel))
                && (!cfg.mode.Disabled? ==> currentChannel == old(currentChannel).(ch := clientChannel))
                && Decided(data, found, old(sent))
      ensures cfg.mode.Disabled? || (!data.blComChanged && !data.blPosChanged && !data.blOtherChanged) ==>
                sent == old(sent) && (blConnectedToTeamspeak ==> targetChannel == currentChannel)
    {
      simComData := data;
      found := Unplaced(CHANNEL_ID_NOT_FOUND);
      if !blConnectedToTeamspeak {
        targetChannel := Unplaced(CHANNEL_ID_NOT_FOUND);
      } else if cfg.mode.Disabled? {
        targetChannel := currentChannel;
      } else {
        currentChannel := currentChannel.(ch := clientChannel);
        targetChannel := currentChannel;
        if data.blComChanged || data.blPosChanged || data.blOtherChanged {
          found := Retarget(data);
        }
      }
    }

    /** The question a report of a change raises, and the answer of the database. */
    method FindTarget(data: SimComData) returns (adjustedCurrent: Id, newTarget: StationInfo)
      requires Valid()
      ensures adjustedCurrent == AdjustedCurrent(cfg, ts3Channels.forest, currentChannel.ch)
      ensures IsAnswer(ts3Channels.db, ts3Channels.forest,
                       Question(cfg, data, distance, ts3Channels.forest, currentChannel.ch), newTarget)
    {
      hide IsAnswer, QueryOf, Represents, Under;
      var adjustedRoot := if cfg.rootChannel == CHANNEL_ID_NOT_FOUND then currentChannel.ch else cfg.rootChannel;
      adjustedCurrent := currentChannel.ch;
      if cfg.mode.Auto? {
        var underRoot := ts3Channels.ChannelIsUnderRoot(currentChannel.ch, adjustedRoot);
        if !underRoot {
          adjustedCurrent := cfg.rootChannel;
        }
      }
      newTarget := ts3Channels.GetChannelID(QueryOf(cfg, data, distance, adjustedCurrent, adjustedRoot));
    }

    /** Moves to what was found, as far as the mode allows, when the target has just been set to where the user is. */
    method MoveToTarget(data: SimComData, adjustedCurrent: Id, found: StationInfo)
      requires !cfg.mode.Disabled? && SomethingChanged(data) && targetChannel == currentChannel
      modifies `targetChannel, `sent
      ensures var d := Decide(cfg, data, currentChannel, adjustedCurrent, found);
              targetChannel == d.target && sent == old(sent) + Moves(d.move)
    {
      ghost var d := Decide(cfg, data, currentChannel, adjustedCurrent, found);
      hide Decide, DecideGiven;
      DecisionCases(cfg, data, currentChannel, adjustedCurrent, found);
      var newTarget := found;
      var blTargetUnderCurrentRoot := newTarget.ch != CHANNEL_NOT_CHILD_OF_ROOT;
      var blTunedToRecognisedFrequency := newTarget.ch != CHANNEL_ID_NOT_FOUND
          && newTarget.ch != CHANNEL_NOT_CHILD_OF_ROOT;
      var blLastChannelMoveManual := currentChannel.ch != targetChannel.ch;
      var blTargetChannelChanged := newTarget.ch != targetChannel.ch;
      if (|| cfg.mode.Auto?
          || (cfg.mode.Manual? && (data.blComChanged || (data.blPosChanged && !blLastChannelMoveManual))
              && blTargetUnderCurrentRoot))
         && blTargetChannelChanged
      {
        if !blTunedToRecognisedFrequency {
          newTarget := newTarget.(ch := if cfg.untuned then cfg.untunedChannel else adjustedCurrent);
        }
        var blTargetChannelInTS := newTarget.ch != CHANNEL_ID_NOT_FOUND && newTarget.ch != CHANNEL_ROOT;
        if newTarget.ch != currentChannel.ch && blTargetChannelInTS {
          sent := sent + [Move(newTarget.ch)];
        }
        targetChannel := newTarget;
      } else {
        // an assignment whose value is then tested
        targetChannel := targetChannel.(ch := newTarget.ch);
        if targetChannel.ch != 0 {
          targetChannel := newTarget;
        }
      }
    }

    /** The decision on a report of a change. */
    method Retarget(data: SimComData) returns (ghost found: StationInfo)
      requires Valid() && !cfg.mode.Disabled? && SomethingChanged(data) && targetChannel == currentChannel
      modifies `targetChannel, `sent
      ensures Decided(data, found, old(sent))
    {
      hide IsAnswer, Question, AdjustedCurrent, Decide, Valid, TS3Channels.Valid;
      var adjustedCurrent, newTarget := FindTarget(data);
      found := newTarget;
      MoveToTarget(data, adjustedCurrent, newTarget);
    }

    /** A client has moved; if it is the user, the target is restored in AUTO mode. */
    method OnClientMoveEvent(clientID: nat, newChannelID: Id, simConnected: bool)
      modifies `currentChannel, `sent
      ensures sent == old(sent)
                      + if clientID == myTS3ID then Moves(Return(cfg.mode, simConnected, targetChannel.ch,
                          newChannelID)) else []
      // in plain words, for the user's own moves
      ensures clientID == myTS3ID && (!cfg.mode.Auto? || !simConnected) ==>
                sent == old(sent) && currentChannel.ch == newChannelID
      ensures && clientID == myTS3ID && cfg.mode.Auto? && simConnected
              && targetChannel.ch != 0 && targetChannel.ch != 0xFFFF_FFFF_FFFF_FFFF
              && targetChannel.ch != 0xFFFF_FFFF_FFFF_FFFE ==>
                && sent == old(sent) + (if newChannelID != targetChannel.ch then [Move(targetChannel.ch)] else [])
                && currentChannel == targetChannel
      ensures clientID != myTS3ID ==> sent == old(sent) && currentChannel == old(currentChannel)
      ensures currentChannel ==
                if clientID != myTS3ID then old(currentChannel)
                else if Intercepts(cfg.mode, simConnected,
                    targetChannel.ch) || newChannelID == targetChannel.ch then targetChannel
                else Unplaced(newChannelID)
    {
      if clientID == myTS3ID {
        if simConnected && cfg.mode.Auto? && targetChannel.ch != CHANNEL_ROOT
           && targetChannel.ch != CHANNEL_NOT_CHILD_OF_ROOT && targetChannel.ch != CHANNEL_ID_NOT_FOUND
        {
          if newChannelID != targetChannel.ch {
            sent := sent + [Move(targetChannel.ch)];
          }
          currentChannel := targetChannel;
        } else if newChannelID == targetChannel.ch {
          currentChannel := targetChannel;
        } else {
          currentChannel := Unplaced(newChannelID);
        }
      }
    }

    /** The connection is up: a new load, and a first decision if the simulator runs. */
    method OnConnectionEstablished(connection: Id, channelList: seq<Id>, ghost size: nat,
                                   server: map<Id, ServerChannel>, serverName: string, clientID: nat,
                                   clientChannel: Id, simConnected: bool)
      returns (ghost requested: seq<Id>, ghost found: StationInfo)
      requires Valid() && size < |channelList| && channelList[size] == 0 && 0 !in channelList[..size]
      requires NoRepeats(channelList[..size]) && forall c <- channelList[..size] :: c in server
      modifies `channelUpdates, `sent, ts3Channels`db
      modifies `blConnectedToTeamspeak, `myTS3ID, `simComData, `targetChannel, `currentChannel
      ensures Valid() && Requests(server, ServerForest(channelList[..size], server), requested)
      ensures Load() == Advance(old(Load()), ListReceived(connection, requested, serverName))
      ensures blConnectedToTeamspeak && myTS3ID == clientID && currentChannel.ch == clientChannel
      ensures var asked := old(sent) + Descriptions(connection, requested);
              if simConnected then Decided(simComData, found, asked)
              else targetChannel == currentChannel && sent == asked
    {
      requested := LoadChannels(connection, channelList, size, server, serverName);
      blConnectedToTeamspeak, myTS3ID := true, clientID;
      currentChannel := currentChannel.(ch := clientChannel);
      targetChannel := currentChannel;
      found := currentChannel;
      if simConnected {
        found := Callback(simComData, clientChannel);
      }
    }

    /**
     What a report leads to with a sound root, in terms of the radios: the target is where the selected one leads, and
     a move there is requested exactly if it is another channel than the current one, and not channel 0.
     */
    lemma ReportIsFollowed(data: SimComData, found: StationInfo, sentBefore: seq<Request>)
      requires Valid() && Decided(data, found, sentBefore) && RootIsSound(cfg, ts3Channels.forest)
      requires currentChannel.ch < CHANNEL_NOT_CHILD_OF_ROOT
      requires || (cfg.mode.Auto? && (data.blComChanged || data.blPosChanged || data.blOtherChanged))
               || (cfg.mode.Manual? && (data.blComChanged || data.blPosChanged)
                   && Under(ts3Channels.forest, cfg.rootChannel, currentChannel.ch))
      ensures var db, f := ts3Channels.db, ts3Channels.forest;
              var home := if Under(f, cfg.rootChannel, currentChannel.ch) then currentChannel.ch else cfg.rootChannel;
              && (data.selectedCom == 1 ==> IsFollowed(cfg, data.position, distance, db, f, home,
                                                       Tuning(data.com1.freq, data.com1.is833), targetChannel.ch))
              && (data.selectedCom == 2 ==> IsFollowed(cfg, data.position, distance, db, f, home,
                                                       Tuning(data.com2.freq, data.com2.is833), targetChannel.ch))
              && (data.selectedCom != 1 && data.selectedCom != 2 ==>
                    targetChannel.ch == if cfg.untuned then cfg.untunedChannel else home)
      ensures sent == if targetChannel.ch != currentChannel.ch && targetChannel.ch != 0
                      then sentBefore + [Move(targetChannel.ch)] else sentBefore
    {
      var db, f := ts3Channels.db, ts3Channels.forest;
      var d := Decide(cfg, data, currentChannel, AdjustedCurrent(cfg, f, currentChannel.ch), found);
      hide IsFollowed, IsAnswer, Represents, Acyclic;
      SelectedRadioIsFollowed(cfg, data, distance, db, f, currentChannel, found, d);
      GoalIsUnderRoot(cfg, data, distance, db, f, currentChannel, found);
      UnderIsPresent(f, cfg.rootChannel, Goal(cfg, AdjustedCurrent(cfg, f, currentChannel.ch), found).ch);
    }

    /** Another mode: the target is where the user is, and the last report is looked at again. */
    method HandleModeChange(mode: Mode, clientChannel: Id) returns (ghost found: StationInfo)
      requires Valid()
      modifies `cfg, `simComData, `targetChannel, `currentChannel, `sent
      ensures cfg == old(cfg).(mode := mode) && simComData == old(simComData)
      ensures if blConnectedToTeamspeak then Decided(simComData, found, old(sent)) else sent == old(sent)
    {
      cfg := cfg.(mode := mode);
      targetChannel := currentChannel;
      found := Callback(simComData, clientChannel);
    }
  }

  /** The list built from the server's answers holds each of its channels once, with the reported parent. */
  lemma ListedByServer(channels: seq<Id>, server: map<Id, ServerChannel>, list: seq<Listed>)
    requires NoRepeats(channels) && 0 !in channels && forall c <- channels :: c in server
    requires |list| == |channels|
    requires forall k :: 0 <= k < |list| ==> list[k] == Listed(channels[k], server[channels[k]].parent)
    ensures Lists(list, ServerForest(channels, server))
    ensures var f := ServerForest(channels, server); 0 in f.ids && 0 !in f.up && f.up.Keys <= f.ids && Serves(server, f)
  {
    var f := ServerForest(channels, server);
    forall i | 0 <= i < |list| ensures list[i].id in f.up && f.up[list[i].id] == list[i].parent {
      assert channels[i] in channels;
    }
    forall c | c in f.up ensures Listed(c, f.up[c]) in list {
      var k: nat :| k < |channels| && channels[k] == c;
      assert list[k] == Listed(c, f.up[c]);
    }
  }

  lemma UnderIsPresent(f: Forest, root: Id, x: Id)
    requires Under(f, root, x)
    ensures x in f.ids
  {
    var k: nat :| Climb(f, x, k) == Some(root);
    ClimbStays(f, x, k);
  }

  /** The decision on a report of a change, by what was found. */
  lemma DecisionCases(cfg: Config, data: SimComData, current: StationInfo, adjustedCurrent: Id, found: StationInfo)
    requires !cfg.mode.Disabled? && SomethingChanged(data)
    ensures var d := Decide(cfg, data, current, adjustedCurrent, found);
            if found.ch == current.ch || !MayMove(cfg, data, found.ch, false)
            then d.move == None && d.target == if found.ch != CHANNEL_ROOT then found else current.(ch := CHANNEL_ROOT)
            else && d.target == Goal(cfg, adjustedCurrent, found)
                 && d.move == if d.target.ch != current.ch && IsServerChannel(d.target.ch)
                              then Some(d.target.ch) else None
  {
  }

  lemma MoreRequested(connection: Id, cs: seq<Id>, c: Id, sub: seq<Id>)
    ensures Pairs(connection, cs + [c] + sub) == Pairs(connection, cs) + {(connection, c)} + Pairs(connection, sub)
    ensures Descriptions(connection, cs + [c] + sub)
         == Descriptions(connection, cs) + [Describe(connection, c)] + Descriptions(connection, sub)
  {
  }

  lemma NothingDescribed(connection: Id)
    ensures Descriptions(connection, []) == []
  {
  }

  lemma DescriptionsInOrder(connection: Id, cs: seq<Id>)
    ensures |Descriptions(connection, cs)| == |cs|
    ensures forall i :: 0 <= i < |cs| ==> Descriptions(connection, cs)[i] == Describe(connection, cs[i])
  {
  }

  lemma NothingWalked(list: seq<Listed>, f: Forest, parent: Id)
    ensures WalksChildren(list, f, parent, 0, [])
  {
  }

  lemma RootPresent(f: Forest, parent: Id, level: nat)
    requires Climb(f, parent, level) == Some(0)
    ensures parent in f.ids
  {
    ClimbStays(f, parent, level);
  }

  /** A child of a channel is one step further down, and never further than there are channels. */
  lemma ChildIsDeeper(list: seq<Listed>, f: Forest, parent: Id, level: nat, n: nat)
    requires Lists(list, f) && n < |list| && list[n].parent == parent && Climb(f, parent, level) == Some(0)
    ensures Climb(f, list[n].id, level + 1) == Some(0) && level + 1 < |f.ids|
  {
    ClimbIsBounded(f, list[n].id, 0, level + 1);
  }

  /** An entry with another parent adds nothing. */
  lemma OtherEntrySkipped(list: seq<Listed>, f: Forest, parent: Id, n: nat, cs: seq<Id>)
    requires n < |list| && list[n].parent != parent && WalksChildren(list, f, parent, n, cs)
    ensures WalksChildren(list, f, parent, n + 1, cs)
  {
    forall c ensures UnderEarlierChild(list, f, parent, n + 1, c) <==> UnderEarlierChild(list, f, parent, n, c) {
    }
  }
}
