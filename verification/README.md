# BFSGSimCom, modelled and proved in Dafny

BFSGSimCom is a TeamSpeak plugin that moves a pilot to the channel that matches
the radio tuned in the flight simulator. This project models its logic and
proves what it is meant to keep:

* **The channel index** (`Forests`, `ChannelTables`, `ChannelStore`). The table
  `closure` materialises the ancestry of a forest of channels. The SQL
  statements are operations on sets of rows; `Represents` says that the rows are
  exactly the climbs of the forest, and every run of statements keeps it. The
  forest is a ghost field of the class `TS3Channels`.
* **The nearest station** (`StationQuery`, `StationExamples`). The first row of the
  ordered query is compared with an independent notion: tree distance as the length
  of a shortest undirected walk, through the lowest common ancestor. Who is ahead
  is then spelled out in steps up, steps down and ranges.
* **The channel list** (`PathOrder`, `ChannelListing`, `ChannelChains`,
  `ChannelTrees`). Sorting by printed hexadecimal paths gives the pre-order walk
  of the channel tree that the rows stand for.
* **The channel tree of the dialog** (`ChannelTreeView`). Items on the heap,
  rebuilt from the list with depths: the inverse of the walk.
* **The simulator link** (`IpcMessages`, `IpcLink`). Requests are printed into a
  byte buffer and parsed again after the simulator has filled the slots; what the
  simulator is asked for is stated on the bytes.
* **Polling** (`SimPolling`). The comparison with cached readings refines a
  comparison of what the radios effectively show.
* **Frequencies in channel texts** (`Frequencies`, `FrequencyTexts`). The regular
  expressions and the loop that collects their matches: a frequency is found
  wherever it is spelled among other words.
* **Loading, moving and moving back** (`ChannelRequests`, `LoadOrder`,
  `ChannelLoading`, `MoveDecision`, `MoveExamples`, `MoveBack`,
  `Plugin`). The event handlers are methods of one class; the load and the return
  of the user are state machines over which every run is considered.

Code that changes state is a class whose methods are proved against functions of
the old state; queries are predicates over the tables. Methods with heavy
contracts use `hide` to keep their proofs small.

## Findings

Where the code does not do what its comments or its design suggest, the model
follows the code, and the exact condition is proved.

* An update of a channel that has channels below it loses them from the database
  until they are reported again (`UpdateKeepsOthersIffLeaf`,
  `UpdateLosesDescendants`): the old subtree is deleted, one channel is added.
* A channel whose description arrives before its parent's is never linked upwards
  (`CompleteIffParentsFirst`, `OvertakingLosesTheLink`). The database ends up
  with the server's tree exactly if every parent is answered first.
* What is awaited survives a disconnection. The plugin stays uninitialised as long
  as one channel it asked for is never answered, even if it was asked for on a
  connection that is gone (`PendingIffOpen`, `InitialisedIff`,
  `InitialisedOnlyWhenAnswered`, `LostRequestBlocks`), and a late answer to such a
  request puts a foreign channel into the new database (`StrayIsMixedIn`; a load
  is undisturbed exactly if there is no such answer, `LoadRun`).
* The comment on the move decision says that in MANUAL mode a change of position
  moves the user only if the last move was not manual. The target has just been
  set to the current channel (BFSGSimCom/BFSGSimCom.cpp:210), so that guard never
  holds back a move (`ManualGuardMattersIff`, and on a concrete database
  `MoveExamples.ManualMoveIsOverruled`).
* The comparison at BFSGSimCom/BFSGSimCom.cpp:363 is an assignment: the target is
  overwritten even if no move is requested (`TargetIsDestinationIff`,
  `TargetWithoutMove`).
* A configured root or untuned channel that no longer exists still attracts the
  user: the root in AUTO mode, the untuned channel in both (`MoveToAbsentIff`,
  `DeletedRootIsTarget`, `DeletedUntunedIsTarget`).
* Request numbers of a failed exchange are not given back. Opening the link fails
  with the size error if and only if fewer than two numbers are left, and then
  always will (`FsuipcOpen`); 1016 attempts that nobody answers lead there
  (`WearOut`).
* A switch from 25 kHz to 8.33 kHz goes unnoticed at a moment when both 8.33 kHz
  readings equal the marker for an unused field (`RefreshNotices`,
  `SilentSwitchGoesUnnoticed`); the last report is then wrong until the next one
  (`MissedShows`, `WorkerThread`).

## Model

| member | source | states |
|---|---|---|
| `Forests.OneDepthPerPair` | BFSGSimCom/TS3Channels.cpp:98-99 | an ancestor is met at one height only, so a closure pair has one depth |
| `Forests.AncestorsComparable` | BFSGSimCom/TS3Channels.cpp:592-610 | two ancestors of one channel are comparable, which the delete join rests on |
| `Forests.ClimbPruned` | BFSGSimCom/TS3Channels.cpp:586-610 | deleting a subtree leaves the whole ancestry of the other channels and nothing else |
| `Forests.PruneIsForest` | BFSGSimCom/TS3Channels.cpp:580-610 | what is left after a deletion is again a forest |
| `Forests.ClimbGrafted` | BFSGSimCom/TS3Channels.cpp:314-324 | adding a leaf gives it its parent's ancestry and changes no other, and no ancestry but itself if the parent is absent |
| `Forests.GraftIsForest` | BFSGSimCom/TS3Channels.cpp:314-324 | adding a channel below another one keeps a forest |
| `Forests.WalkHasAncestor` | BFSGSimCom/TS3Channels.cpp:672-681 | no undirected walk is shorter than the way up to some common ancestor and down again |
| `Forests.LcaIsNearest` | BFSGSimCom/TS3Channels.cpp:672-681 | the way through the lowest common ancestor is a shortest undirected walk |
| `Forests.CommonAncestorAbove` | BFSGSimCom/TS3Channels.cpp:672-681 | every other common ancestor is the same number of steps further for both channels |
| `Forests.LcaExists` | BFSGSimCom/TS3Channels.cpp:672-681 | two channels below `v` have a lowest common ancestor, and it is below `v` too |
| `Forests.ClimbIsBounded` | BFSGSimCom/BFSGSimCom.cpp:501-513 | a channel that reaches the top does so in fewer steps than there are channels, even with cycles elsewhere |
| `ChannelTables.InitRepresents` | BFSGSimCom/TS3Channels.cpp:98-99 | the fresh tables stand for the root channel alone |
| `ChannelTables.ChildrenAreSubtree` | BFSGSimCom/TS3Channels.cpp:580-590 | the subquery over `closure` selects exactly the subtree |
| `ChannelTables.OneRowPerPair` | BFSGSimCom/TS3Channels.cpp:98-99 | `closure` has at most one row for each ordered pair of channels |
| `ChannelTables.SpanEndsBelow` | BFSGSimCom/TS3Channels.cpp:592-601 | a row caught by the four-way join ends in the deleted subtree |
| `ChannelTables.BelowIsDeleted` | BFSGSimCom/TS3Channels.cpp:592-610 | a row that ends in the deleted subtree is caught by the join or by the union |
| `ChannelTables.DeleteJoinIsExact` | BFSGSimCom/TS3Channels.cpp:592-610 | the delete statement removes exactly the closure rows whose child is in the deleted subtree |
| `ChannelTables.DeleteRepresents` | BFSGSimCom/TS3Channels.cpp:580-642 | after deleteChannel the tables stand for the pruned forest: closure, channels and frequencies |
| `ChannelTables.KeyIsFree` | BFSGSimCom/TS3Channels.cpp:344-458 | after the deletion the channel's key is free, so the insert meets no conflict |
| `ChannelTables.NewLinksAreAncestors` | BFSGSimCom/TS3Channels.cpp:318-324 | the second insert selects exactly the new channel's proper ancestors, with their depths, and repeats no row |
| `ChannelTables.InsertRepresents` | BFSGSimCom/TS3Channels.cpp:307-324 | after the inserts the tables stand for the forest with the channel added as a leaf |
| `ChannelTables.ExecuteRepresents` | BFSGSimCom/TS3Channels.cpp:326-498 | each statement keeps the tables and the forest in step and fails on no key |
| `ChannelTables.EveryRunRepresents` | BFSGSimCom/TS3Channels.cpp:326-498 | in every run of initialise, delete and add-or-update no insert fails and the tables stand for the forest that the simple operations give, with every link going to the parent the row names |
| `ChannelTables.CommandDoes` | BFSGSimCom/TS3Channels.cpp:326-498 | what one statement leaves, in terms of the rows before it: which closure rows, channels and frequencies stay, and that a new channel gets the rows of its parent one step deeper unless the parent leaves with it |
| `ChannelTables.InsertedRows` | BFSGSimCom/TS3Channels.cpp:307-324 | what the inserts add, row by row, and that they change no other row |
| `ChannelTables.UpdateKeepsOthersIffLeaf` | BFSGSimCom/TS3Channels.cpp:344 | an update keeps every other channel if and only if the channel has none below it |
| `ChannelTables.UpdateLinksIffParentSurvives` | BFSGSimCom/TS3Channels.cpp:318-344 | an updated channel is linked to its parent if and only if the parent is there and not below the channel itself |
| `ChannelTables.UpdateLosesDescendants` | BFSGSimCom/TS3Channels.cpp:344 | a concrete tree in which an update loses a channel |
| `ChannelStore.TS3Channels.constructor` | BFSGSimCom/TS3Channels.cpp:47-53 | a new store holds the initial tables |
| `ChannelStore.TS3Channels.InitDatabase` | BFSGSimCom/TS3Channels.cpp:59-115 | the tables are replaced by the initial ones |
| `ChannelStore.TS3Channels.DeleteAllChannels` | BFSGSimCom/TS3Channels.cpp:644-648 | everything but the root channel is gone |
| `ChannelStore.TS3Channels.DeleteChannel` | BFSGSimCom/TS3Channels.cpp:612-642 | the subtree's rows leave all three tables, nothing else does, and the refinement is kept |
| `ChannelStore.TS3Channels.AddOrUpdateChannel` | BFSGSimCom/TS3Channels.cpp:326-533 | the forest is pruned and grafted, the channel's row replaces its subtree's, and its frequencies are exactly those its texts or the airport data yield |
| `ChannelStore.TS3Channels.UpdateRootChannelName` | BFSGSimCom/TS3Channels.cpp:881-904 | only the name of channel 0 changes |
| `ChannelStore.TS3Channels.ChannelIsUnderRoot` | BFSGSimCom/TS3Channels.cpp:650-669 | true if and only if the channel is the root or below it |
| `ChannelStore.TS3Channels.GetChannelID` | BFSGSimCom/TS3Channels.cpp:734-797 | NOT_CHILD_OF_ROOT exactly outside the root, NOT_FOUND exactly if inside nothing is eligible, and otherwise a nearest eligible station with its range data |
| `ChannelStore.AnswerIsAhead` | BFSGSimCom/TS3Channels.cpp:734-760 | the station answered is heard, and ahead of every other one heard: nearer in range first if range counts, then fewer steps through the lowest common ancestor, then fewer of them down; spelled out in steps and ranges |
| `ChannelStore.AnswerIffHeard` | BFSGSimCom/TS3Channels.cpp:760-787 | a station is answered if and only if the user is under the root and some channel under it has the frequency row and is not ruled out by its range |
| `ChannelStore.AnswerDescribesStation` | BFSGSimCom/TS3Channels.cpp:753-760 | the answer has the data of the station's row: position, range and maximum range; without a position the station is in range, at its own range |
| `StationQuery.RowGoesVia` | BFSGSimCom/TS3Channels.cpp:672-681 | every row of the subquery goes up to a common ancestor under the root and down to a station under the root with the frequency |
| `StationQuery.ViaIsRow` | BFSGSimCom/TS3Channels.cpp:672-681 | every such way is a row |
| `StationQuery.PlaceUnderRoot` | BFSGSimCom/TS3Channels.cpp:672-681 | two channels under the root have their lowest common ancestor under it, and the way through it is their tree distance |
| `StationQuery.RowIsNoNearer` | BFSGSimCom/TS3Channels.cpp:674-679 | no row of a station is nearer than its tree distance or, at that distance, has other steps down |
| `StationQuery.FirstIsNearest` | BFSGSimCom/TS3Channels.cpp:672-689 | the first row names a station that beats every eligible one by range (if considered), tree distance and steps down, with its true distance; in range if out of range counts as untuned |
| `StationQuery.HeardIsEligible` | BFSGSimCom/TS3Channels.cpp:672-689 | eligible is: under the root, with a row of this frequency and spacing, and within its own range if out of range counts as untuned |
| `StationQuery.NearestIsAhead` | BFSGSimCom/TS3Channels.cpp:742-746 | a nearest station is ahead of every other one heard: by range first if it counts, then by steps, then by steps down |
| `StationQuery.ReachedIsPlaced` | BFSGSimCom/TS3Channels.cpp:674-679 | steps up and down through the lowest common ancestor are the distance and the steps down of the query |
| `StationQuery.OnlyStationIsNearest` | BFSGSimCom/TS3Channels.cpp:742-760 | the only eligible station is the nearest |
| `StationQuery.NoRowsIff` | BFSGSimCom/TS3Channels.cpp:760-787 | there is no row if and only if the user is outside the root or nothing is eligible |
| `StationQuery.ExecuteStep` | BFSGSimCom/TS3Channels.cpp:742-760 | the first row of the ordered result, if there is one |
| `StationExamples.TieGoesUp` | BFSGSimCom/TS3Channels.cpp:742-746 | a concrete database with two stations two steps away, of which the one straight above the user is answered |
| `StationExamples.SelectedRadioDecides` | BFSGSimCom/BFSGSimCom.cpp:246-273 | a concrete database with a station for either radio: with Com2 selected the user is moved to the station of Com2 |
| `PathOrder.HexOrder` | BFSGSimCom/TS3Channels.cpp:829-831 | fixed-width hexadecimal compares like the numbers |
| `PathOrder.PathStringOrder` | BFSGSimCom/TS3Channels.cpp:829-838 | comparing printed paths is comparing the paths as sequences |
| `ChannelListing.TreeRowIsUnique` | BFSGSimCom/TS3Channels.cpp:827-837 | from channel 0 there is one path to each channel |
| `ChannelListing.TreeRowFits` | BFSGSimCom/TS3Channels.cpp:816-837 | sibling numbers never exceed the printed width |
| `ChannelListing.ListingIsSorted` | BFSGSimCom/TS3Channels.cpp:838 | the pre-order walk is in path order |
| `ChannelListing.RowsBehind` | BFSGSimCom/TS3Channels.cpp:827-837 | the rows behind a channel's path are the walk below that channel |
| `ChannelListing.QueryRows` | BFSGSimCom/TS3Channels.cpp:816-838 | the rows of the query from any root are the rows of the walk of that root's tree |
| `ChannelListing.AnswerIsWalk` | BFSGSimCom/TS3Channels.cpp:816-838 | the ordered query has exactly one answer, the pre-order walk |
| `ChannelListing.ListingFlattens` | BFSGSimCom/TS3Channels.cpp:853-868 | what the rows are turned into is the walk with depths |
| `ChannelListing.ListingIsWalk` | BFSGSimCom/TS3Channels.cpp:816-879 | for the tables of a channel tree the list from any channel is its pre-order walk, and names the channels and depths of its closure rows |
| `ChannelChains.EverythingIsUnderTop` | BFSGSimCom/TS3Channels.cpp:816-826 | if every channel is linked to its parent, all are below channel 0 |
| `ChannelChains.ChainsMakeTree` | BFSGSimCom/TS3Channels.cpp:816-837 | parent links and sibling chains in the rows make one tree |
| `ChannelChains.ListingOfChannel` | BFSGSimCom/TS3Channels.cpp:816-879 | from the rows alone: if every channel has a link and siblings are chained through `ordering`, the list from any channel is the walk of one tree in chain order and names exactly its closure rows |
| `ChannelTrees.FlattenIsPreOrder` | BFSGSimCom/config.cpp:38-69 | a walk starts at its depth, never drops below it and deepens by one at a time |
| `ChannelTrees.FlattenIsInjective` | BFSGSimCom/config.cpp:32-73 | a list with depths is the walk of at most one row of trees |
| `ChannelTreeView.AddItem` | BFSGSimCom/config.cpp:48-54 | an entry at the current depth becomes the parent's last item |
| `ChannelTreeView.AddBelow` | BFSGSimCom/config.cpp:58-66 | everything deeper goes below the last item, which is expanded if and only if the selection is there |
| `ChannelTreeView.AddChannel` | BFSGSimCom/config.cpp:32-73 | ends for every list that deepens gradually, consumes exactly the entries at least as deep, shows their trees with exactly the selection's ancestors expanded, and returns the selection's item if it is there: a new item reached through the children |
| `ChannelTreeView.FillLastKeeping` | BFSGSimCom/config.cpp:58-66 | filling in the last item leaves an item found before where it is |
| `ChannelTreeView.MarkShows` | BFSGSimCom/config.cpp:48-69 | the items show the channels of the list in its order |
| `ChannelTreeView.OneItemPerChannel` | BFSGSimCom/config.cpp:48-54 | if no channel is listed twice there is one item for each, at one place |
| `ChannelTreeView.ExpandedIff` | BFSGSimCom/config.cpp:58-66 | an item of the tree is expanded if and only if an item of the selection is below it |
| `ChannelTreeView.SelectionBelow` | BFSGSimCom/config.cpp:58-66 | the selection has an item below if and only if it is listed there |
| `ChannelTreeView.AddChildren` | BFSGSimCom/config.cpp:99-104 | all entries after the first go below the root item |
| `ChannelTreeView.OneTreePerList` | BFSGSimCom/config.cpp:75-110 | the list is the walk of exactly one tree |
| `ChannelTreeView.TreeIsChannelList` | BFSGSimCom/config.cpp:112-119 | the listing of any channel tree is a list the rebuild accepts |
| `ChannelTreeView.TreeWidget.AddChannelList` | BFSGSimCom/config.cpp:75-110 | the widget shows the one tree whose walk is the list, each item is expanded exactly if the selection is below it, and the selected item is reached through the children: the selection's if it is there, else the root, and the only item of its channel if none is listed twice |
| `IpcMessages.DwordRoundTrip` | FSUIPCLibrary/IPCuser.c:299-303 | a double word is read back as it was stored |
| `IpcMessages.BytesAsk` | FSUIPCLibrary/IPCuser.c:299-346 | a message's bytes ask for what was requested: a 1, the offset, the size and the number for a Read, a 2, the offset, the size and the data for a Write, each at its place |
| `IpcMessages.SentAsks` | FSUIPCLibrary/IPCuser.c:220 | the sent buffer asks, request after request, for exactly what was queued |
| `IpcMessages.SentEnds` | FSUIPCLibrary/IPCuser.c:220 | the word behind the last request is zero |
| `IpcMessages.SlotByte` | FSUIPCLibrary/IPCuser.c:253-254 | the byte for a place of memory stands 16 behind the start of its Read |
| `IpcMessages.SerializeAppend` | FSUIPCLibrary/IPCuser.c:299-312 | queueing a message appends its bytes |
| `IpcMessages.SerializedAt` | FSUIPCLibrary/IPCuser.c:299-312 | each message's bytes stand at its start |
| `IpcMessages.FilledIsReadable` | FSUIPCLibrary/IPCuser.c:245-271 | if the simulator changes Read slots only, every message can be parsed and the scan ends behind the last |
| `IpcMessages.UncoveredIsKept` | FSUIPCLibrary/IPCuser.c:253-254 | memory outside every Read's destination is untouched |
| `IpcMessages.LastReadWins` | FSUIPCLibrary/IPCuser.c:253-255 | a byte of memory is what the last Read that covers it brought back |
| `IpcLink.AppendedIsQueued` | FSUIPCLibrary/IPCuser.c:292-312 | the buffer after a request is the serialisation of the longer queue |
| `IpcLink.LinkedAfterRead` | FSUIPCLibrary/IPCuser.c:293-312 | a Read keeps room for the final word, distinct numbers below iIndex that lead to their destinations, and 16 times iIndex within the used part |
| `IpcLink.LinkedAfterWrite` | FSUIPCLibrary/IPCuser.c:332-346 | a Write keeps the same |
| `IpcLink.IpcUser.constructor` | FSUIPCLibrary/IPCuser.c:28-36 | a closed link satisfies the invariant |
| `IpcLink.IpcUser.FsuipcClose` | FSUIPCLibrary/IPCuser.c:43-61 | the view is gone, iIndex is not reset |
| `IpcLink.IpcUser.FsuipcRead` | FSUIPCLibrary/IPCuser.c:283-316 | queues exactly this Read under the next number, or says why not and changes nothing: no link, no numbers left, or less room than 16 bytes, the data and the final word within 32512; while no request was lost it is refused for lack of room only |
| `IpcLink.IpcUser.FsuipcWrite` | FSUIPCLibrary/IPCuser.c:322-350 | queues exactly this Write, or says why not and changes nothing |
| `IpcLink.IpcUser.ScanAnswer` | FSUIPCLibrary/IPCuser.c:245-271 | the scan visits the readable messages in order, copies out the wanted slots and nothing else, and ends |
| `IpcLink.IpcUser.FsuipcProcess` | FSUIPCLibrary/IPCuser.c:202-277 | sends the queue, request by request as it was asked for, with a final zero word; on success delivers the answer and resets iIndex, on failure changes no memory and keeps iIndex; the queue is empty afterwards either way |
| `IpcLink.IpcUser.TryVersions` | FSUIPCLibrary/IPCuser.c:145-170 | a try asks for the three version words, and fails for lack of numbers exactly if fewer than two are left; a failure of any other kind uses up exactly two |
| `IpcLink.IpcUser.OpenView` | FSUIPCLibrary/IPCuser.c:84-140 | opening needs every service of the system, names the first that is missing, and starts with an empty queue |
| `IpcLink.IpcUser.FsuipcOpen` | FSUIPCLibrary/IPCuser.c:69-196 | an open link starts with an empty queue and number 0; the size error occurs exactly if the link was closed, the services are there and fewer than two numbers are left; then none is left, and without numbers no link can be opened again; an exchange that is not answered uses up two |
| `IpcLink.WearOut` | BFSGSimCom/FSUIPCWrapper.cpp:62-65 | opening the link 1016 times while nobody answers uses up all numbers, and then it fails even if the simulator answers |
| `IpcLink.ReadableIsUnique` | FSUIPCLibrary/IPCuser.c:248-271 | what the scan can read of a buffer is determined by the buffer |
| `IpcLink.AnswersComeBack` | FSUIPCLibrary/IPCuser.c:220-276 | round trip: with slots filled in and nothing else changed, every byte of memory is what the last Read covering it asked for, and the rest is untouched |
| `SimPolling.RefreshNotices` | BFSGSimCom/FSUIPCWrapper.cpp:104-139 | a radio's change is noticed if and only if its effective reading differs, but for a switch to 8.33 kHz readings that look unused |
| `SimPolling.SilentSwitchGoesUnnoticed` | BFSGSimCom/FSUIPCWrapper.cpp:104-139 | a concrete switch that goes unnoticed |
| `SimPolling.SwitchSelects` | BFSGSimCom/FSUIPCWrapper.cpp:294-297 | the two highest bits of the switch select the radios, Com1, Com2 or both, and X-Plane has them inverted |
| `SimPolling.CodedIsDecoded` | BFSGSimCom/FSUIPCWrapper.cpp:268-273 | every 25 kHz frequency from 100 to 200 MHz is decoded as itself, though its last digit is not coded |
| `SimPolling.CachedReports` | BFSGSimCom/FSUIPCWrapper.cpp:255-315 | what is built from cached readings shows, field by field, the sample they came from |
| `SimPolling.RefreshCaches` | BFSGSimCom/FSUIPCWrapper.cpp:101-190 | after a poll the cached fields hold exactly the new reading |
| `SimPolling.ComparisonIsExact` | BFSGSimCom/FSUIPCWrapper.cpp:101-190 | the comparison notices a change if and only if the readings differ by more than silent switches |
| `SimPolling.MissedAddUp` | BFSGSimCom/FSUIPCWrapper.cpp:104-190 | changes that are missed one after the other amount to a missed change |
| `SimPolling.MissedShows` | BFSGSimCom/FSUIPCWrapper.cpp:255-297 | a missed change makes the last report wrong, and the sample then has the mark of an unused field in both readings of a radio |
| `SimPolling.FsuipcWrapper.constructor` | BFSGSimCom/FSUIPCWrapper.cpp:37-60 | the loop starts with a first connected pass due |
| `SimPolling.FsuipcWrapper.Compare` | BFSGSimCom/FSUIPCWrapper.cpp:101-190 | blComChanged after the first poll if and only if the reading differs from the last one by more than silent switches |
| `SimPolling.FsuipcWrapper.Track` | BFSGSimCom/FSUIPCWrapper.cpp:192-214 | weight on wheels, the position of the last report and the counter that forces one |
| `SimPolling.FsuipcWrapper.Take` | BFSGSimCom/FSUIPCWrapper.cpp:84-214 | one sample is taken in: the caches, switch, weight on wheels and position are the sample's, and the three changes are those against the last one |
| `SimPolling.FsuipcWrapper.ReportIsSample` | BFSGSimCom/FSUIPCWrapper.cpp:255-315 | a report made then shows the sample and the given changes |
| `SimPolling.FsuipcWrapper.Polled` | BFSGSimCom/FSUIPCWrapper.cpp:84-228 | one successful poll: the report it makes shows the sample field by field, and the plugin then knows the current reading but for silent switches |
| `SimPolling.FsuipcWrapper.Notify` | BFSGSimCom/FSUIPCWrapper.cpp:216-224 | a report is made exactly on a change or a first connected pass, and leaves the plugin up to date |
| `SimPolling.FsuipcWrapper.PollFailed` | BFSGSimCom/FSUIPCWrapper.cpp:229-246 | a lost link is reported once and closed, and the next good poll will be reported |
| `SimPolling.FsuipcWrapper.CheckConnection` | BFSGSimCom/FSUIPCWrapper.cpp:321-344 | a closed link is opened if possible, an open one is kept |
| `SimPolling.FsuipcWrapper.WorkerThread` | BFSGSimCom/FSUIPCWrapper.cpp:37-252 | over any passes: after a successful poll the last report equals what would be reported now if and only if nothing but silent switches changed since (so always if the sample lacks their mark), and never a hundred successful polls pass without one |
| `Frequencies.LongEndingIsTunable` | BFSGSimCom/TS3Channels.cpp:136-137 | the three-decimal endings of the pattern are exactly those of the 8.33 kHz scheme |
| `Frequencies.MatchIsWellFound` | BFSGSimCom/TS3Channels.cpp:136-185 | every match is a channel of its band and spacing, and its class says which radios it suits |
| `Frequencies.SpelledIsFound` | BFSGSimCom/TS3Channels.cpp:136-185 | every civil 8.33 kHz channel is found under its own spelling, once |
| `Frequencies.ShortSpellingIsFound` | BFSGSimCom/TS3Channels.cpp:161-170 | every civil 25 kHz frequency is found under its two-decimal spelling |
| `Frequencies.SearchIsLeftmost` | BFSGSimCom/TS3Channels.cpp:160 | the search finds the leftmost match, and none exactly if there is no match at any place |
| `Frequencies.ScanIsEmptyIff` | BFSGSimCom/TS3Channels.cpp:157-186 | a text yields nothing if and only if the pattern matches nowhere in it |
| `Frequencies.NothingIsOverlooked` | BFSGSimCom/TS3Channels.cpp:144-186 | the texts yield nothing if and only if the pattern matches nowhere in any of them |
| `Frequencies.FirstTextDecides` | BFSGSimCom/TS3Channels.cpp:144-208 | the first text with a match decides what is found |
| `Frequencies.OfferedIsTunable` | BFSGSimCom/TS3Channels.cpp:161-205 | what a text offers to a radio is in the band and can be tuned in that spacing |
| `FrequencyTexts.MatchShift` | BFSGSimCom/TS3Channels.cpp:136-139 | whether and what the pattern matches at a place does not depend on the text in front of it |
| `FrequencyTexts.FoundInText` | BFSGSimCom/TS3Channels.cpp:157-186 | a frequency with three decimals, after any text without digits and before any other text, is found first, and then what the rest yields; in both bands |
| `FrequencyTexts.ShortFoundInText` | BFSGSimCom/TS3Channels.cpp:157-186 | the same for two decimals, if no digit follows |
| `FrequencyTexts.TwoInText` | BFSGSimCom/TS3Channels.cpp:157-186 | two frequencies among other words are both found, in their order |
| `FrequencyTexts.NoDigitsNoMatch` | BFSGSimCom/TS3Channels.cpp:136-139 | a text without digits yields nothing |
| `FrequencyTexts.OneLongServes` | BFSGSimCom/TS3Channels.cpp:188-200 | a single frequency with three decimals serves 8.33 kHz radios, and 25 kHz radios exactly if they can tune it |
| `FrequencyTexts.OneShortServes` | BFSGSimCom/TS3Channels.cpp:188-200 | a single one with two decimals serves both |
| `FrequencyTexts.ShortAndLongServe` | BFSGSimCom/TS3Channels.cpp:188-200 | of one with two decimals and one with three, the first is for 25 kHz radios and the second for the others |
| `FrequencyTexts.NameDecides` | BFSGSimCom/TS3Channels.cpp:350-432 | a channel whose name spells one frequency is tuned to it, whatever its topic, description and airport say |
| `FrequencyTexts.AirportDecides` | BFSGSimCom/TS3Channels.cpp:397-432 | a channel whose texts match nowhere is tuned to the civil frequencies of its airport, each in the spacings that can tune it |
| `Frequencies.WhoIsServed` | BFSGSimCom/TS3Channels.cpp:188-200 | an 8.33 kHz radio is served by any match, a 25 kHz radio exactly if some match is not 8.33-only |
| `Frequencies.CollectMatches` | BFSGSimCom/TS3Channels.cpp:157-186 | the search loop ends and sorts all matches of a string by class, in order |
| `Frequencies.GetFrequenciesFromStrings` | BFSGSimCom/TS3Channels.cpp:132-210 | nothing is returned exactly if the pattern matches nowhere; else the first text with a match decides, and exactly the offered frequencies are returned, tunable in their spacing |
| `Frequencies.DatabaseFrequencies` | BFSGSimCom/TS3Channels.cpp:397-421 | airport frequencies are kept exactly if in the civil band and tunable, by the same rule |
| `Frequencies.ChannelFrequencies` | BFSGSimCom/TS3Channels.cpp:350-432 | a channel is tuned by its texts, and by the airport data only if they name nothing |
| `ChannelRequests.AllChildrenDone` | BFSGSimCom/BFSGSimCom.cpp:501-513 | after the whole list exactly the channels below the parent have been requested |
| `ChannelRequests.NextChildDone` | BFSGSimCom/BFSGSimCom.cpp:503-512 | a child and everything below it is new, and comes parents first |
| `ChannelRequests.SiblingsAreApart` | BFSGSimCom/BFSGSimCom.cpp:503-512 | no channel is below two children of one parent |
| `LoadOrder.LoadedLinks` | BFSGSimCom/TS3Channels.cpp:318-344 | whatever the order of loading, a channel is linked exactly if its parent was loaded before it |
| `LoadOrder.CompleteIffParentsFirst` | BFSGSimCom/TS3Channels.cpp:318-344 | loading gives the server's links if and only if every parent is loaded before its children |
| `LoadOrder.OvertakingLosesTheLink` | BFSGSimCom/BFSGSimCom.cpp:1147-1155 | a concrete order in which a channel is never linked |
| `LoadOrder.PartHasTheAncestry` | BFSGSimCom/BFSGSimCom.cpp:501-536 | the requested part of the server's channels has the server's ancestry |
| `ChannelLoading.PendingIffOpen` | BFSGSimCom/BFSGSimCom.cpp:1140-1155 | in every run a channel is awaited if and only if it was asked for and not answered since |
| `ChannelLoading.InitialisedIff` | BFSGSimCom/BFSGSimCom.cpp:1147-1167 | in every run the plugin is initialised if and only if some awaited answer left nothing awaited |
| `ChannelLoading.InitialisedOnlyWhenAnswered` | BFSGSimCom/BFSGSimCom.cpp:1147-1167 | it is not initialised while a channel it asked for is unanswered |
| `ChannelLoading.LostRequestBlocks` | BFSGSimCom/BFSGSimCom.cpp:1174-1192 | a concrete run: after a reconnection every channel is answered and the plugin still waits for the lost connection |
| `ChannelLoading.DisconnectionEmpties` | BFSGSimCom/BFSGSimCom.cpp:1174-1192 | a disconnection leaves an empty database and forgets no request |
| `ChannelLoading.AnswerStep` | BFSGSimCom/BFSGSimCom.cpp:1147-1155 | one answer: unexpected ones change nothing, awaited ones are loaded next |
| `ChannelLoading.LoadProceeds` | BFSGSimCom/BFSGSimCom.cpp:1147-1167 | without answers to earlier requests, the accepted channels are loaded in order of arrival |
| `ChannelLoading.LoadRun` | BFSGSimCom/BFSGSimCom.cpp:1147-1167 | for a load into an empty database, whatever was awaited before and whatever answers arrive: database, awaited channels and initialisation are those of loading the accepted channels in order of arrival, if and only if no request of an earlier connection is answered |
| `ChannelLoading.ReloadRun` | BFSGSimCom/BFSGSimCom.cpp:1174-1201 | the same after a disconnection at any moment of any run |
| `ChannelLoading.StrayIsMixedIn` | BFSGSimCom/BFSGSimCom.cpp:1147-1155 | a concrete run in which a late answer puts a channel of the lost connection among the new ones |
| `ChannelLoading.AnsweredInOrder` | BFSGSimCom/BFSGSimCom.cpp:1147-1155 | answers in request order are accepted in request order |
| `ChannelLoading.LoadIsCompleteIff` | BFSGSimCom/BFSGSimCom.cpp:1147-1167 | when all requests of the load are answered all channels are there, and with the server's links if and only if parents were answered first |
| `ChannelLoading.LoadInOrder` | BFSGSimCom/BFSGSimCom.cpp:1147-1167 | with answers in request order the load ends with the closure of the server's tree below channel 0 and the server's rows, initialised exactly unless an earlier request is still open |
| `ChannelLoading.LoadThenList` | BFSGSimCom/BFSGSimCom.cpp:1147-1167 | and the channel list is then the pre-order walk of the server's tree, with the server's depths |
| `Plugin.BfsgSimCom.constructor` | BFSGSimCom/BFSGSimCom.cpp:56-62 | the initial state of the plugin |
| `Plugin.BfsgSimCom.RecurseChannelList` | BFSGSimCom/BFSGSimCom.cpp:501-513 | ends for any list of different channels, cycles included, and requests each channel below the parent once, parents first |
| `Plugin.BfsgSimCom.LoadChannels` | BFSGSimCom/BFSGSimCom.cpp:484-536 | requests every channel below 0 and renames the root |
| `Plugin.BfsgSimCom.LoadChannel` | BFSGSimCom/BFSGSimCom.cpp:435-464 | the channel replaces its own subtree, with the client's data and the frequencies of its texts |
| `Plugin.BfsgSimCom.OnChannelMoveEvent` | BFSGSimCom/BFSGSimCom.cpp:1125-1138 | a created or moved channel is loaded |
| `Plugin.BfsgSimCom.OnDelChannelEvent` | BFSGSimCom/BFSGSimCom.cpp:1130-1133 | a deleted channel leaves with its subtree |
| `Plugin.BfsgSimCom.OnUpdateChannelEditedEvent` | BFSGSimCom/BFSGSimCom.cpp:1140-1145 | an edited channel is requested again |
| `Plugin.BfsgSimCom.OnUpdateChannelEvent` | BFSGSimCom/BFSGSimCom.cpp:1147-1167 | an awaited answer is taken in, and the last one ends the initialisation; any other changes nothing |
| `Plugin.BfsgSimCom.OnDisconnected` | BFSGSimCom/BFSGSimCom.cpp:1174-1192 | the database is emptied and the target forgotten; what is awaited stays awaited |
| `Plugin.BfsgSimCom.OnConnectionEstablished` | BFSGSimCom/BFSGSimCom.cpp:1195-1216 | a new load, the target where the user is, and a first decision if the simulator runs |
| `Plugin.BfsgSimCom.Callback` | BFSGSimCom/BFSGSimCom.cpp:118-379 | the target and the request are those of the decision on some answer of the database; nothing when disconnected, disabled or without a change |
| `Plugin.BfsgSimCom.ReportIsFollowed` | BFSGSimCom/BFSGSimCom.cpp:118-379 | the same of the plugin after a report, with the one move that is requested |
| `Plugin.BfsgSimCom.FindTarget` | BFSGSimCom/BFSGSimCom.cpp:221-273 | the question put to the database, with root and current channel adjusted, and its answer |
| `Plugin.BfsgSimCom.MoveToTarget` | BFSGSimCom/BFSGSimCom.cpp:274-365 | the branches of the move decision amount to `Decide` |
| `Plugin.BfsgSimCom.Retarget` | BFSGSimCom/BFSGSimCom.cpp:214-366 | question and decision together |
| `Plugin.BfsgSimCom.OnClientMoveEvent` | BFSGSimCom/BFSGSimCom.cpp:1226-1292 | outside AUTO mode or without the simulator nothing is requested and the reported channel is recorded; in AUTO mode with a target a return to it is requested exactly if the user turns up elsewhere, and the user is taken to be there |
| `Plugin.BfsgSimCom.HandleModeChange` | BFSGSimCom/BFSGSimCom.cpp:1059-1071 | the last report is decided again in the new mode |
| `Plugin.ListedByServer` | BFSGSimCom/BFSGSimCom.cpp:525-530 | the list that is built holds each of the server's channels once, with its parent |
| `Plugin.ChildIsDeeper` | BFSGSimCom/BFSGSimCom.cpp:505-511 | the recursion never goes deeper than there are channels |
| `MoveDecision.MovesAreReal` | BFSGSimCom/BFSGSimCom.cpp:170-335 | never a move when disabled, to no channel, to channel 0 or to the current channel |
| `MoveDecision.MovesStayUnderRoot` | BFSGSimCom/BFSGSimCom.cpp:221-335 | with a root that is there and the untuned channel under it every move goes under the root, and in MANUAL mode a user outside is left alone |
| `MoveDecision.AutoEndsUnderRoot` | BFSGSimCom/BFSGSimCom.cpp:230-335 | in AUTO mode the target is under the root, and the user gets under it exactly unless the target is channel 0, to which no move is made, and the user was outside |
| `MoveDecision.WithoutRootOnlyDownwards` | BFSGSimCom/BFSGSimCom.cpp:221-228 | without a configured root only stations below the current channel are found |
| `MoveDecision.AbsentRootAttracts` | BFSGSimCom/BFSGSimCom.cpp:233-325 | in AUTO mode without an untuned channel, a configured root that does not exist is where the user ends up after every change |
| `MoveDecision.MoveToAbsentIff` | BFSGSimCom/BFSGSimCom.cpp:299-335 | a move goes to a channel that is not in the database exactly if the mode allows a move, no station is found, and the untuned channel or the root to turn to is a valid number that is not there |
| `MoveDecision.RadioIsFollowed` | BFSGSimCom/BFSGSimCom.cpp:230-335 | if a station is eligible the target is a nearest one; otherwise the untuned channel, or where the user is taken to be |
| `MoveDecision.NearestIsFollowed` | BFSGSimCom/BFSGSimCom.cpp:246-273 | a nearest station for the question asked is where the selected radio leads |
| `MoveDecision.SelectedRadioIsFollowed` | BFSGSimCom/BFSGSimCom.cpp:221-335 | with Com1 or Com2 selected, the target is the station heard on that radio's frequency and spacing from the aircraft, ahead of all others under the configured range options, or else the untuned channel or where the user is taken to be; with none or both selected no station is followed |
| `MoveDecision.NearestInRange` | BFSGSimCom/TS3Channels.cpp:742-746 | a nearest station is nearest in range first, if range counts |
| `MoveDecision.NearestToHome` | BFSGSimCom/TS3Channels.cpp:742-746 | from a channel that is eligible itself, only a station nearer in range is found instead |
| `MoveDecision.NearestIsFoundAgain` | BFSGSimCom/TS3Channels.cpp:672-797 | asked again from the station it found, the database answers with the same station, with or without range |
| `MoveDecision.GrantedMoveSettles` | BFSGSimCom/BFSGSimCom.cpp:170-365 | once a requested move is granted the same report requests no further move, in either mode |
| `MoveDecision.ManualGuardMattersIff` | BFSGSimCom/BFSGSimCom.cpp:275-299 | the request differs from the one the comment describes exactly in the stated case |
| `MoveExamples.TwoChannels` | BFSGSimCom/TS3Channels.cpp:326-498 | the database that two updates leave: a lobby and a tower with a frequency |
| `MoveExamples.DeletedRootIsTarget` | BFSGSimCom/BFSGSimCom.cpp:233-335 | a database and a report on which AUTO mode sends the user to a deleted root |
| `MoveExamples.DeletedUntunedIsTarget` | BFSGSimCom/BFSGSimCom.cpp:313-335 | a database and a report on which either mode sends the user to a deleted untuned channel |
| `MoveExamples.ManualMoveIsOverruled` | BFSGSimCom/BFSGSimCom.cpp:210-335 | a database and a report of a new position that moves a user who has left the target by hand |
| `MoveExamples.TargetWithoutMove` | BFSGSimCom/BFSGSimCom.cpp:360-365 | a database and a report after which the target is a channel to which no move was requested |
| `MoveDecision.TargetIsDestinationIff` | BFSGSimCom/BFSGSimCom.cpp:329-365 | the remembered target is where the user is or is being sent, exactly in the stated cases |
| `MoveBack.OwnMoveIsKept` | BFSGSimCom/BFSGSimCom.cpp:1236-1251 | a move the decision asked for is not undone when it is reported |
| `MoveBack.DecisionStartsOnTrack` | BFSGSimCom/BFSGSimCom.cpp:299-357 | after a decision in AUTO mode under a sound root the user is in the target or a request for it is under way, so the run below applies |
| `MoveBack.StepStaysOnTrack` | BFSGSimCom/BFSGSimCom.cpp:1236-1262 | each step keeps a way back under way while the user is not in the target |
| `MoveBack.StepCounts` | BFSGSimCom/BFSGSimCom.cpp:1236-1262 | every step but an outside move brings the end nearer |
| `MoveBack.EveryRunStaysOnTrack` | BFSGSimCom/BFSGSimCom.cpp:1236-1262 | in every run a way back stays under way, and the requests made are the outside moves off the target that have been handled |
| `MoveBack.ReturnConverges` | BFSGSimCom/BFSGSimCom.cpp:1236-1262 | once outside moves stop the run is bounded, and when nothing is under way the user is in the target |

## Left out

- SQLite and its wrapper: each SQL text is a set operation, each transaction atomic, and errors of the database are not modelled; `foreign key` clauses are not enforced, as in the original's default settings.
- Channel numbers: the two largest 64-bit numbers are kept free, as the plugin uses them for its own purposes; a channel that is its own parent is excluded.
- The topic and description columns, and the separate update of a description (BFSGSimCom/TS3Channels.cpp:536-575): no modelled query reads them.
- Idents, positions and airport stations found in a channel's texts, and the range by station type, arrive as one parameter of an update; ICAOData is not part of this model.
- The great-circle distance is an uninterpreted function, both in the query and in the test whether the aircraft has moved; positions are pairs of reals.
- Floating point: frequencies are built from their digits, and the conversion from Hz divides by 1000 exactly; the overload of getChannelID for a `double` is left out.
- A frequency of zero would be stored as two NULL columns; several such rows of one channel are one row here. No text or airport yields one.
- Two equal keys of the channel list's ORDER BY, or of the station query's, may come in any order: all results hold for every choice.
- ListingIsWalk: tables of more than 1000000 channels, for which the list query is cut off, are excluded.
- LoadRun: the answers of one load agree with each other, and nothing but answers arrives during it; channels that change meanwhile are covered by the runs of `InitialisedIff` and `EveryRunRepresents` only.
- FsuipcRead: message sizes do not wrap at 32 bits (nor in FsuipcWrite), since the sum is formed in machine words there; the client's memory is one byte array in which destinations are addresses.
- Windows services: windows, messages, atoms and file mappings succeed or fail as a parameter says; the repeated sending of a message is one reply.
- FsuipcProcess: the simulator is assumed not to spoil the header of a message before the first word that the scan does not know, since the original reads and writes out of bounds otherwise.
- Threads: the polling loop and the client's events are interleaved as whole handlers; no claim is made about data races.
- The TeamSpeak client's own functions succeed, and the plugin's ID on the server is fixed while it is connected.
- The server of the return protocol grants every request and reports moves in order.
- FrequencyMode changes (BFSGSimCom/BFSGSimCom.cpp:1079-1108), which empty the database and load it again, and the start of the plugin while connected: they only combine modelled handlers.
- Qt widgets beyond items, their children, expansion and selection; settings, menus, hotkeys, the information pane and logging.
