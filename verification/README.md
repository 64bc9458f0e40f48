# GNSS-SDR: verified models of the receiver's scheduling, collecting and comparing logic

GNSS-SDR is a software-defined satellite-navigation receiver.  This project models, in Dafny, the
parts of it that have real state or real loops, and proves what they promise for every input,
every run and every interleaving:

* **Acquisition scheduler** (`Signals`, `FlowgraphModel`, `Flowgraph`, `ControlThread`).  The
  state of `GNSSFlowgraph` (channel phases, waiting lists by band, channel signals, the acquisition
  counter) as a class whose methods are proved against functions on its abstract state.  The
  `Flowgraph*` theory modules then prove, over all runs of those functions: no satellite is lost
  (`FlowgraphSafety`), no search meets an empty list (`FlowgraphSupply`, with the exact condition
  in `FlowgraphTight`), the acquisition throttle (`FlowgraphExclusive`), exclusive tracking and
  exactly when it holds (`FlowgraphExclusive`, `FlowgraphUnlisted`, `FlowgraphShared`,
  `FlowgraphDouble`), work conservation and bounded overtaking (`FlowgraphFairness`), what list
  operations do to the order (`FlowgraphOrder`), what searches find and who may stay idle
  (`FlowgraphSearch`), and that pinned satellites stay with their channels (`FlowgraphPinned`).  The eleven near-identical `switch` cases over signal types are one
  list indexed by band.
* **Galileo HAS page collector** (`HasBits`, `HasCollector`, `HasReceiver`).  Pages arrive in any
  order with repeats, and are decoded column by column by a Reed-Solomon erasure decoder, which is
  a parameter with a contract: it corrects up to 223 different erased positions and refuses more
  (src/core/system_parameters/reed_solomon.cc:739-746).  The contract is shown to be realisable
  exactly by codes of full distance.
* **Version comparison and device search** (`VersionOrder`, `UioFpga`).  The table-driven automaton
  is proved equal to lexicographic order on a simple sort key, from which the total order, its
  reading at the first difference, the agreement with numeric order and the result of the device search follow.
* **Concurrent queue** (`ConcurrentQueue`).  The mutex and condition-variable protocol as
  interleaved steps of any number of threads, with spurious wake-ups and time-outs.
* **Kernels**: Clenshaw summation over exact (complex) numbers (`Clenshaw`), the in-place INI line
  parser and its key map (`Ini`, `IniLines`, `IniBuffer`, `IniReader`, `IniFile`), and the GPS C/A code
  generator (`GpsCaCode`), whose delays are proved to select the phases of section 3.3.2.3 of
  IS-GPS-200 (`GpsPhase`).

Verify everything with `dafny verify dfyconfig.toml`.

Events, status maps, the list of visible satellites and the driver names of devices are inputs of
the model: every theorem holds for all of them.  "Well-behaved" events are those a channel really
sends: acquisition failed or succeeded (0, 1) from an acquiring channel only, tracking lost (2)
from a tracking channel only.

Where the code and its own comments or intentions differ, the model follows the code:

* Equality of signals compares satellites only, because the second comparison compares a signal's
  band with itself (src/core/system_parameters/gnss_signal.cc:53-65); list removal inherits this.
* A warm start computes the visible satellites and discards them, so it prioritises with an empty
  list (src/core/receiver/control_thread.cc:937-951); `ControlThread.StartEndsStandby` states it.
* The range check of the C/A generator admits PRN 52, whose index lies one beyond the delay table
  (src/algorithms/libs/gps_sdr_signal_replica.cc:41-60); `GpsCaCode.DelayTableCovers` states it.
* The initial assignment leaves the assigned signals in the waiting lists, so another channel of the
  band can be handed the satellite that a channel is still acquiring, and both can go on with it.
  `FlowgraphDouble.SeparateExactly` says for which configurations this happens: those with more than
  one channel in acquisition, one of which shares its band with another channel, in a band where the
  manager can start channels.
* The satellite that a channel is pinned to is looked up for channels below 200 only, so a failure or loss
  of a pinned channel from 200 on returns its satellite to the shared list.
  `FlowgraphPinned.PinsApartExactly` says that this is the only way, apart from standby, in which a pinned
  satellite gets there.
* A page whose identifier lies between the message size and 32 is stored and counted, but its position
  is not erased, so the erasures exceed what the decoder accepts: at the trigger the message is decoded
  if and only if no such page is stored (`HasCollector.TriggerDecodesExactly`; pages 1 and 3 of a
  message of size 2 are enough, `HasCollector.FailureIsReachable`).  A failed decoding keeps its pages,
  and whatever pages follow, none of the same size is decoded before a page of another size has been
  (`HasCollector.FailedSizeIsDead`).
* `HasSection` works on the joined keys of parsed pairs, so a section without pairs is not seen, and a dot
  in a section name makes the part before it look like a section.  `IniReader.SectionKeyExactly` says
  exactly when a key is taken for one of a section, `IniReader.NestedExactly` for which histories of
  calls the answer is right, and `IniFile.MisleadingFileExactly` and `IniFile.DotFreeFilesExactly` about
  which names it can be wrong for some file, given the lengths and characters that lines can carry.
* The standby gate stops channel events and time-outs but lets commands through;
  `ControlThread.SilenceBreaksExactly` says which of them end the silence.

## Model

| member | source | states |
|---|---|---|
| `FlowgraphSafety.NoSatelliteLost` | src/core/receiver/gnss_flowgraph.cc:1803-2217 | after any sequence of events, standby requests, manager calls and prioritisations, well-behaved or not: every list is duplicate-free and holds only its own band, the counter stays within 0 and the limit, and each configured signal not pinned to a channel is in its list or held by an acquiring or tracking channel |
| `FlowgraphSafety.RunKeeps` | src/core/receiver/gnss_flowgraph.cc:2049-2217 | the inductive form: from any state that meets the invariant and has lost nothing of a pool of unpinned signals, every run ends in such a state |
| `FlowgraphSafety.ManagerKeeps` | src/core/receiver/gnss_flowgraph.cc:1948-2024 | any number of iterations of the manager keep the invariant and lose no signal, even while some signals are pending outside the lists |
| `FlowgraphSafety.FailedKeeps` | src/core/receiver/gnss_flowgraph.cc:2069-2085 | a failed acquisition loses no signal although its signal is pushed back only after the manager has run |
| `FlowgraphSafety.InitialKeeps` | src/core/receiver/gnss_flowgraph.cc:1632-1762 | the initial assignment establishes the invariant and keeps every unpinned signal |
| `FlowgraphSupply.SearchNeverUnderflows` | src/core/receiver/gnss_flowgraph.cc:2738-3048 | with strictly more satellites than channels in every band that has channels, no search in any run of any events takes the front of an empty list, pending failed signals included |
| `FlowgraphSupply.EnoughConfigured` | src/core/receiver/gnss_flowgraph.cc:2282-2661 | more listed satellites than channels leaves, after setting pinned satellites aside, more free signals than free channels in every band |
| `FlowgraphTight.ScarceBandUnderflows` | src/core/receiver/gnss_flowgraph.cc:2069-2143 | on unpinned channels that start unassisted, with any positive number of channels in acquisition, a band with no more satellites than channels has a well-behaved run that takes the front of an empty list |
| `FlowgraphTight.SupplyConditionIsExact` | src/core/receiver/gnss_flowgraph.cc:2049-2147 | in that setting, no well-behaved run underflows if and only if every band with channels has strictly more satellites than channels |
| `FlowgraphExclusive.AcquisitionThrottle` | src/core/receiver/gnss_flowgraph.cc:2049-2147 | in every well-behaved run the counter equals the number of acquiring channels, so at most the configured number acquire at once |
| `FlowgraphExclusive.InitialExact` | src/core/receiver/gnss_flowgraph.cc:2664-2688 | the initial channel states agree with the initial counter |
| `FlowgraphExclusive.StepExclusive` | src/core/receiver/gnss_flowgraph.cc:2049-2147 | the only step that can end exclusive tracking is a success with a signal that another busy channel has |
| `FlowgraphUnlisted.StepUnlisted` | src/core/receiver/gnss_flowgraph.cc:1948-2147 | busy channels that took their signals from the lists keep them to themselves: each is in no list and on no other busy channel, after every well-behaved step |
| `FlowgraphShared.InitialApart` | src/core/receiver/gnss_flowgraph.cc:1659-1678 | with more satellites than channels, the rotating assignment gives different signals to the channels of a band in which the manager cannot start a channel |
| `FlowgraphShared.ExclusiveTracking` | src/core/receiver/gnss_flowgraph.cc:1948-2147 | on separate unpinned channels, whatever their bands, in every reachable state of every well-behaved run a tracked signal is absent from its list and differs from the signal of every other acquiring or tracking channel |
| `FlowgraphDouble.DoubleTracking` | src/core/receiver/gnss_flowgraph.cc:1659-1678 | every unpinned configuration that is not separate, with more satellites than channels, has a well-behaved run that ends with one channel tracking the signal of another busy channel |
| `FlowgraphDouble.SeparateExactly` | src/core/receiver/gnss_flowgraph.cc:1632-2147 | on unpinned channels with more satellites than channels, every well-behaved run tracks exclusively if and only if at most one channel acquires at a time or no channel that acquires from the start shares a band in which the manager can start channels |
| `FlowgraphFairness.VisitsEachChannelOnce` | src/core/receiver/gnss_flowgraph.cc:1950-1953 | every channel is visited in exactly one iteration of the manager, whatever the starting channel |
| `FlowgraphFairness.ManagerWorkConserving` | src/core/receiver/gnss_flowgraph.cc:1963-2021 | a channel left idle below the acquisition limit was, at its visit, refused as an unassisted secondary frequency or found its list empty |
| `FlowgraphFairness.OnlyReluctantStayIdle` | src/core/receiver/gnss_flowgraph.cc:1963-2021 | unless some search underflowed, a channel stays idle below the limit only in a secondary band that starts with assistance alone; a primary channel never does |
| `FlowgraphFairness.BoundedOvertaking` | src/core/receiver/gnss_flowgraph.cc:1803-1866 | over every well-behaved run without prioritisation, a waiting primary signal at position p is among the next p + 1 picks of its band, and until then its position drops by at least one per pick |
| `FlowgraphOrder.FailedSignalGoesLast` | src/core/receiver/gnss_flowgraph.cc:2081-2084 | after a failed acquisition the signal of an unpinned channel is last in its list, once; and unless it was still listed before, the same step hands it to no channel |
| `FlowgraphOrder.PrioritisedFirst` | src/core/receiver/gnss_flowgraph.cc:2150-2217 | prioritisation permutes each list: exactly the signals that visible GPS or Galileo satellites send come first, those of satellites named last in front, and the others follow in the order they had |
| `FlowgraphOrder.PrioritisedLists` | src/core/receiver/gnss_flowgraph.cc:2150-2217 | the same over the state: it holds for the list of every band, and nothing but the lists changes |
| `FlowgraphSearch.SearchExactly` | src/core/receiver/gnss_flowgraph.cc:2738-3048 | what a search finds: the satellite of the first report that helps (GPS L1 C/A for L2C and L5, Galileo E1 for E5a, E5b and E6, never GLONASS or BeiDou), else the front; a popped signal leaves the list with the others in their order, otherwise the list stays when assisted and is rotated when not; an underflow exactly on an empty list |
| `FlowgraphSearch.IdleIsSecondary` | src/core/receiver/gnss_flowgraph.cc:1963-2021 | a channel that stays idle below the limit although no list was empty is one of the seven secondary bands in a receiver that demands assistance |
| `FlowgraphSearch.CallerComesLast` | src/core/receiver/gnss_flowgraph.cc:1950-1963 | the channel that the manager runs for starts only after every other channel that stays idle was refused or starved at its own visit |
| `FlowgraphSearch.AcquiredLeavesList` | src/core/receiver/gnss_flowgraph.cc:2085-2098 | after a success the channel tracks its signal, which is in no list and was given to no other channel in the same step, pinned or not |
| `FlowgraphSearch.LostSearchesAgainExactly` | src/core/receiver/gnss_flowgraph.cc:2100-2128 | a lost satellite is searched again if and only if an acquisition is free; otherwise the channel idles and its signal goes to the back of its list, once, unless pinned |
| `FlowgraphPinned.PinnedStayApart` | src/core/receiver/gnss_flowgraph.cc:1632-2147 | from the start and after any events without a standby request, well-behaved or not, every pinned channel has its satellite, which is in no list and on no channel that is not pinned |
| `FlowgraphPinned.PinsApartExactly` | src/core/receiver/gnss_flowgraph.cc:2054-2084 | this holds for all such runs if and only if only channels below 200 are pinned |
| `FlowgraphPinned.StandbyReturnsAll` | src/core/receiver/gnss_flowgraph.cc:2129-2143 | a standby request puts the signal of every busy channel into its list, pinned or not |
| `FlowgraphPinned.StandbyInOrder` | src/core/receiver/gnss_flowgraph.cc:2129-2143 | signals are returned in channel order: that of the last busy channel of a band ends its list |
| `Signals.RemoveFromGoodList` | src/core/system_parameters/gnss_signal.cc:53-65 | although equality ignores the band, removal from a list of one band removes exactly that signal and keeps the list duplicate-free |
| `FlowgraphModel.AssignOrderComplete` | src/core/receiver/gnss_flowgraph.cc:1635-1656 | the assignment order names every channel |
| `Flowgraph.GnssFlowgraph.constructor` | src/core/receiver/gnss_flowgraph.cc:2664-2688 | the first channels up to the limit start in acquisition, the others idle, and the counter is the limit |
| `Flowgraph.GnssFlowgraph.PushBackSignal` | src/core/receiver/gnss_flowgraph.cc:1803-1866 | the signal ends up once, last in its band's list; nothing else changes |
| `Flowgraph.GnssFlowgraph.RemoveFromList` | src/core/receiver/gnss_flowgraph.cc:1869-1921 | the signal leaves its band's list; nothing else changes |
| `Flowgraph.GnssFlowgraph.SearchNextSignal` | src/core/receiver/gnss_flowgraph.cc:2738-3048 | the assisted signal if a status report helps, else the front, popped or rotated to the back; an empty list is reported |
| `Flowgraph.GnssFlowgraph.ChannelOrder` | src/core/receiver/gnss_flowgraph.cc:1635-1656 | pinned channels in reverse order, then the others in order |
| `Flowgraph.GnssFlowgraph.AssignChannel` | src/core/receiver/gnss_flowgraph.cc:1661-1760 | the loop body: a rotating search for a free channel, a removal for a pinned one |
| `Flowgraph.GnssFlowgraph.AssignChannels` | src/core/receiver/gnss_flowgraph.cc:1632-1762 | the whole assignment refines the state function that the theorems are about |
| `Flowgraph.GnssFlowgraph.OfferAcquisition` | src/core/receiver/gnss_flowgraph.cc:1953-2022 | one visit: start, refuse and push back, or leave alone |
| `Flowgraph.GnssFlowgraph.AcquisitionManager` | src/core/receiver/gnss_flowgraph.cc:1948-2024 | the loop over channels refines the state function `Manager` |
| `Flowgraph.GnssFlowgraph.ApplyReceiverAction` | src/core/receiver/gnss_flowgraph.cc:2049-2147 | events 0, 1, 2 and 10 refine `ApplyAction`; any other event changes nothing |
| `Flowgraph.GnssFlowgraph.FailAcquisition` | src/core/receiver/gnss_flowgraph.cc:2069-2084 | the channel is freed, the manager runs, and only then an unpinned channel's signal is pushed back |
| `Flowgraph.GnssFlowgraph.SucceedAcquisition` | src/core/receiver/gnss_flowgraph.cc:2085-2098 | the signal leaves its list, the channel tracks, the manager runs |
| `Flowgraph.GnssFlowgraph.LoseTracking` | src/core/receiver/gnss_flowgraph.cc:2100-2128 | the same satellite is acquired again if a slot is free, else the channel becomes idle and an unpinned channel's signal is pushed back |
| `Flowgraph.GnssFlowgraph.RequestStandby` | src/core/receiver/gnss_flowgraph.cc:2129-2143 | every busy channel returns its signal and becomes idle, and the counter is zero |
| `Flowgraph.GnssFlowgraph.PriorizeSatellites` | src/core/receiver/gnss_flowgraph.cc:2150-2217 | the loop over visible satellites refines list-wise prioritisation |
| `Flowgraph.GnssFlowgraph.PriorizeOne` | src/core/receiver/gnss_flowgraph.cc:2156-2215 | a GPS satellite moves to the front of the three GPS lists, a Galileo satellite of the four Galileo lists, others of none |
| `Flowgraph.GnssFlowgraph.MoveToFront` | src/core/receiver/gnss_flowgraph.cc:2158-2164 | a signal found in its list is moved to the front, an absent one is not added |
| `ControlThread.StandbyIsSilent` | src/core/receiver/control_thread.cc:273-321 | from a standby request until the next start, whatever channel events from whatever channels, time-outs and other well-formed commands arrive, all can be delivered, every channel stays idle, the counter stays 0 and the lists do not change |
| `ControlThread.StartResumesSearch` | src/core/receiver/control_thread.cc:919-951 | after a cold, hot or warm start the next time-out fills the acquisition slots again, up to channels that need assistance or an empty list |
| `ControlThread.SilenceBreaksExactly` | src/core/receiver/control_thread.cc:289-312 | a message ends the silence of a receiver on standby if and only if it is a start from the control thread or the telecommand system, or a command that passes on a success, a loss while anything may acquire, or a failure after which the manager can start some channel |
| `ControlThread.FlagsFollowCommands` | src/core/receiver/control_thread.cc:899-951 | over any sequence of messages: the receiver stops exactly if some command orders action 0 or 1, restarts exactly if one orders 1, and is on standby exactly if the last of the orders 10 to 13 is 10 |
| `ControlThread.CountersCount` | src/core/receiver/control_thread.cc:273-321 | every message but a time-out is counted as processed, every command to the control thread or the receiver as applied |
| `ControlThread.DispatchAllIsRun` | src/core/receiver/control_thread.cc:273-321 | every sequence of dispatched messages is a run of the scheduler |
| `ControlThread.ReceiverKeepsSatellites` | src/core/receiver/control_thread.cc:273-321 | the safety theorems hold for the whole receiver, through the dispatcher |
| `ControlThread.Controller.ApplyControlAction` | src/core/receiver/control_thread.cc:899-951 | stop, restart, standby and the three starts change exactly their fields and the lists |
| `ControlThread.Controller.EventDispatcher` | src/core/receiver/control_thread.cc:273-321 | routing by message kind and command identifier, behind the standby gate |
| `HasCollector.ArrivalOrderIrrelevant` | src/core/libs/galileo_e6_has_msg_receiver.cc:110-155 | for every sequence of pages of one encoded message, in any order with any repeats: a page is decoded exactly when it completes the set of distinct pages since the last decoding, the output is the bits of the first rows, and the store holds exactly the pages since then |
| `HasCollector.Interleaving` | src/core/libs/galileo_e6_has_msg_receiver.cc:110-155 | message identifiers do not disturb each other: in every interleaving each store and its outcomes are those of its own pages alone |
| `HasCollector.InterleavedMessageDecodes` | src/core/libs/galileo_e6_has_msg_receiver.cc:110-242 | from an empty receiver, whatever pages the other message identifiers receive in between, one message's pages are decoded in any order, with any repeats, exactly as counting its distinct pages predicts |
| `HasCollector.CompletingPageDecodes` | src/core/libs/galileo_e6_has_msg_receiver.cc:137-154 | the page that completes the set is decoded to the message and leaves the store empty |
| `HasCollector.FullStoreDecodes` | src/core/libs/galileo_e6_has_msg_receiver.cc:158-242 | a store with as many valid pages as the message size decodes to that message |
| `HasCollector.StoreCollects` | src/core/libs/galileo_e6_has_msg_receiver.cc:121-131 | storing a page of a message keeps the received rows equal to the message's and adds exactly its identifier |
| `HasCollector.RejectedPage` | src/core/libs/galileo_e6_has_msg_receiver.cc:112-138 | a page with status other than 0 and 1, type other than 1, identifier 0 or an identifier stored already leaves the stored pages as they were; their number is compared with its size all the same |
| `HasCollector.MessageOctets` | src/core/libs/galileo_e6_has_msg_receiver.cc:217-227 | the text of a message is 424 bits per row: the octets of its rows in order, eight bits each |
| `HasCollector.ReceiveTidy` | src/core/libs/galileo_e6_has_msg_receiver.cc:110-155 | in every run, whatever pages of whatever sizes, types, messages and identifiers arrive, every store holds distinct page identifiers and zero rows elsewhere |
| `HasCollector.ErasuresAtTrigger` | src/core/libs/galileo_e6_has_msg_receiver.cc:137-179 | whenever decoding triggers, after any run, the erasures number 223 plus the stored pages with identifiers between the size and 32, so exactly 223 if and only if every stored identifier is valid |
| `HasCollector.PositionsPartition` | src/core/libs/galileo_e6_has_msg_receiver.cc:166-179 | a position is erased exactly when it is neither received nor known to be zero, and the three kinds partition the 255 positions if and only if every stored identifier is valid |
| `HasCollector.DeadUntilDecoded` | src/core/libs/galileo_e6_has_msg_receiver.cc:137-154 | a store that holds more pages than a size, or as many that do not decode, stays so whatever pages of whatever sizes arrive, until a page is decoded; and the first page decoded has another size |
| `HasCollector.OvershotExactly` | src/core/libs/galileo_e6_has_msg_receiver.cc:137-138 | pages of one size never again trigger the decoder if and only if the store holds more pages than the size; otherwise some sequence of them reaches an attempt |
| `HasCollector.FailedSizeIsDead` | src/core/libs/galileo_e6_has_msg_receiver.cc:199-205 | a failed decoding keeps its pages, after which, whatever pages follow, none of the same size is decoded before one of another size has been |
| `HasCollector.ErasuresArePositions` | src/core/libs/galileo_e6_has_msg_receiver.cc:162-179 | the erasures handed to the decoder are positions of the block, each at most once |
| `HasCollector.InvalidPidFails` | src/core/system_parameters/reed_solomon.cc:739-746 | a store with as many pages as the size, one of them with an identifier between the size and 32, never decodes, whatever its rows hold |
| `HasCollector.TriggerDecodesExactly` | src/core/libs/galileo_e6_has_msg_receiver.cc:110-242 | whatever pages of one encoded message have arrived, with any identifiers, in any order and with any repeats: the page that triggers the decoder yields the message if and only if every stored identifier is valid, and otherwise a failure that keeps the store |
| `HasCollector.FailureIsReachable` | src/core/libs/galileo_e6_has_msg_receiver.cc:137-154 | pages 1 and 3 of any message of size 2 end in a failed decoding |
| `HasReceiver.DecoderExistsExactlyAtFullDistance` | src/core/system_parameters/reed_solomon.cc:739-757 | a decoder meeting the assumed contract exists if and only if distinct codewords differ in more than 223 positions |
| `HasReceiver.Receiver.constructor` | src/core/libs/galileo_e6_has_msg_receiver.h:83-85 | every message identifier starts with an empty store |
| `HasReceiver.Receiver.ProcessHasPage` | src/core/libs/galileo_e6_has_msg_receiver.cc:110-155 | the stores, matrices and flags change as the collector's step function says, other message identifiers are untouched, and the content is read from the decoded bits |
| `HasReceiver.Receiver.StorePage` | src/core/libs/galileo_e6_has_msg_receiver.cc:121-131 | a new page is annotated and its bits become its row of octets |
| `HasReceiver.Receiver.ErasurePositions` | src/core/libs/galileo_e6_has_msg_receiver.cc:162-179 | the two loops list the unreceived positions outside the known-zero rows, in order |
| `HasReceiver.Receiver.BuildColumn` | src/core/libs/galileo_e6_has_msg_receiver.cc:191-195 | the column is zero except at the received pages |
| `HasReceiver.Receiver.DecodeMessageType1` | src/core/libs/galileo_e6_has_msg_receiver.cc:158-242 | decoding column by column into a reset message matrix: success empties the store and fills the content; the first failing column leaves the store as it was and the matrix filled up to it |
| `HasReceiver.Receiver.WriteColumn` | src/core/libs/galileo_e6_has_msg_receiver.cc:208-212 | the information part of a decoded column becomes the next column of the message matrix |
| `HasReceiver.Receiver.FormMessage` | src/core/libs/galileo_e6_has_msg_receiver.cc:217-227 | the message is the text of the first rows of the decoded matrix |
| `HasReceiver.Receiver.ReadContent` | src/core/libs/galileo_e6_has_msg_receiver.cc:245-284 | the header fields, and the mask count when the mask flag is set, of the decoded message |
| `HasBits.ReadBody` | src/core/libs/galileo_e6_has_msg_receiver.cc:613-660 | the loop reads a bit string as a binary number modulo the accumulator's width, so exactly when it fits |
| `HasBits.ReadHeaderField` | src/core/libs/galileo_e6_has_msg_receiver.cc:572-610 | a header field is the binary number of its characters, although the bitset is indexed from the other end |
| `HasBits.OctetsOfRowBits` | src/core/libs/galileo_e6_has_msg_receiver.cc:125-130 | the octets read from a page's bits are the octets it was printed from |
| `HasBits.HeaderRoundTrip` | src/core/libs/galileo_e6_has_msg_receiver.cc:245-258 | reading a printed header gives every field back, whatever the reserved bits |
| `HasBits.MostSignificantFirst` | src/core/libs/galileo_e6_has_msg_receiver.cc:613-660 | the first character of a bit string is its most significant bit |
| `HasReceiver.ContentRoundTrip` | src/core/libs/galileo_e6_has_msg_receiver.cc:245-284 | reading a printed content gives back its header and, if the mask flag is set, its mask count |
| `VersionOrder.MyStrverscmp` | src/core/libs/uio_fpga.cc:75-141 | the sign of the result is the order of the sort keys, with both pointers and every table index in bounds |
| `VersionOrder.CompareRunLengths` | src/core/libs/uio_fpga.cc:129-137 | the LEN branch decides by the lengths of the digit runs and then by the first difference |
| `VersionOrder.RemainingStep` | src/core/libs/uio_fpga.cc:113-123 | stepping over an equal character leaves the undecided order as it was |
| `VersionOrder.VerdictIsRemaining` | src/core/libs/uio_fpga.cc:124-140 | at the first difference the packed table decides as the sort keys do, and never with zero |
| `VersionOrder.KeyInjective` | src/core/libs/uio_fpga.cc:75-141 | the sort key determines the string |
| `VersionOrder.TotalOrder` | src/core/libs/uio_fpga.cc:75-148 | the comparison is zero exactly on equal strings, antisymmetric in sign and transitive, on all NUL-terminated strings |
| `VersionOrder.FirstDifference` | src/core/libs/uio_fpga.cc:75-141 | the order read off the first difference of any two strings: longer numbers are greater, behind zeros only a further digit makes a string smaller, and otherwise the character codes decide |
| `UioFpga.NumericOrder` | src/core/libs/uio_fpga.cc:75-148 | after a shared prefix not ending in a digit, decimals without leading zeros compare as their numbers |
| `UioFpga.GetUioNum` | src/core/libs/uio_fpga.cc:30-47 | the number denoted by the first digit run of the path, and 0 without one |
| `UioFpga.UioNumberOfPath` | src/core/libs/uio_fpga.cc:30-47 | a digit-free prefix followed by a printed number yields that number |
| `UioFpga.SortAscending` | src/core/libs/uio_fpga.cc:144-163 | the sorted listing is ascending in the comparison |
| `UioFpga.SortIsUnique` | src/core/libs/uio_fpga.cc:144-163 | any two ascending permutations of a listing are equal, so every correct sort gives the same result |
| `UioFpga.FindUioNum` | src/core/libs/uio_fpga.cc:151-187 | the loop returns what a search over the sorted listing returns, and throws where a name cannot be read |
| `UioFpga.FindsNthDevice` | src/core/libs/uio_fpga.cc:151-187 | for every listing order of distinctly numbered devices: it throws exactly when a device whose name cannot be read comes before the device_num-th match, else returns that match in ascending number, and -1 exactly when fewer match |
| `ConcurrentQueue.FirstInFirstOut` | src/core/receiver/concurrent_queue.h:44-95 | in every interleaving the popped values are a prefix of the pushed values in push order, the queue is exactly the rest, and at most one thread holds the mutex |
| `ConcurrentQueue.PopReturnsOldest` | src/core/receiver/concurrent_queue.h:58-95 | each pop returns the oldest value pushed and not yet popped |
| `ConcurrentQueue.CallsEndAsTheyShould` | src/core/receiver/concurrent_queue.h:58-95 | in every interleaving a wait without time-out never returns without a value, a try never sleeps, and a timed wait sleeps at most once |
| `ConcurrentQueue.EmptyHandedMeansEmpty` | src/core/receiver/concurrent_queue.h:58-95 | a call comes to return without a value only by a test that found the queue empty |
| `ConcurrentQueue.NoLostWakeup` | src/core/receiver/concurrent_queue.h:44-95 | while a waiter sleeps, the queue is no longer than the pending notifications plus the woken threads |
| `ConcurrentQueue.NeverStuck` | src/core/receiver/concurrent_queue.h:44-95 | beside a queued value and a sleeping waiter some thread can take a step of its own |
| `ConcurrentQueue.InternalStepsTerminate` | src/core/receiver/concurrent_queue.h:44-95 | the threads' own steps decrease a weight, so they end without new calls, wake-ups or time-outs |
| `ConcurrentQueue.OwnStepsServeWaiters` | src/core/receiver/concurrent_queue.h:44-95 | from every reachable state, exhausting the threads' own steps takes boundedly many steps and leaves the queue empty or no waiter asleep |
| `Clenshaw.ClSin` | src/algorithms/libs/geofunctions.cc:638-659 | for every degree and coefficients the loop returns the direct sum of coefficients times sines of the multiples of the argument |
| `Clenshaw.ClkSin` | src/algorithms/libs/geofunctions.cc:662-700 | the same for a complex argument, on separate real and imaginary parts |
| `Clenshaw.ComplexRecurrence` | src/algorithms/libs/geofunctions.cc:675-699 | the loop of the complex summation, times the complex sine, is the direct sum |
| `Clenshaw.SineRecurrence` | src/algorithms/libs/geofunctions.cc:647-657 | the sines of multiples, defined by the addition formulas, obey the three-term recurrence the loops rely on |
| `Clenshaw.CarriedStep` | src/algorithms/libs/geofunctions.cc:651-656 | one step of the recurrence leaves the part of the sum still carried as it was |
| `Clenshaw.ZeroImaginaryArgument` | src/algorithms/libs/geofunctions.cc:662-700 | with a zero imaginary argument the complex summation is the real one and its imaginary part is zero |
| `Ini.RoundTrip` | src/core/libs/ini.cc:91-195 | parsing the printed lines of any admissible sections and pairs makes exactly their handler calls in order and returns 0 |
| `Ini.ErrorIsFirstMalformed` | src/core/libs/ini.cc:115-195 | the result is the number of the first malformed line, and 0 exactly when there is none, malformed being said of the raw line |
| `IniLines.PairLine` | src/core/libs/ini.cc:161-189 | a pair makes one call with its name and value whatever spaces stand around the equals sign and after the value and whatever comment follows; only the part up to the end of the value has to fit the line buffer, and 49 characters of the name are remembered |
| `IniLines.ContinuationLine` | src/core/libs/ini.cc:131-143 | a line that starts with space continues the previous name with the rest of the line, comments included, without the spaces at its ends |
| `IniLines.SectionHeading` | src/core/libs/ini.cc:145-160 | a section line opens its section, cut to 49 characters, whatever follows the bracket |
| `IniLines.IgnoredLine` | src/core/libs/ini.cc:131-161 | blank lines and lines that start with a semicolon make no call and change nothing |
| `IniBuffer.RStrip` | src/core/libs/ini.cc:48-56 | the C string in the buffer is trimmed in place, and nothing outside it is written |
| `IniBuffer.LSkip` | src/core/libs/ini.cc:59-66 | the offset of the first character that is not space |
| `IniBuffer.FindCharOrComment` | src/core/libs/ini.cc:70-77 | the offset of the first delimiter, comment or end |
| `IniBuffer.StrNCpy0` | src/core/libs/ini.cc:80-88 | the copy is the source string, truncated to the destination, whatever follows its terminator |
| `IniBuffer.LoadLine` | src/core/libs/ini.cc:119-130 | the buffer holds the raw line, truncated and terminated |
| `IniBuffer.SectionLineInPlace` | src/core/libs/ini.cc:145-160 | a section line in the buffer sets the section or is malformed |
| `IniBuffer.PairLineInPlace` | src/core/libs/ini.cc:161-189 | a pair line is cut by NULs into trimmed name and value |
| `IniBuffer.ParseLineInPlace` | src/core/libs/ini.cc:118-189 | the loop body on the three buffers refines the value-level line parser |
| `IniBuffer.IniParse` | src/core/libs/ini.cc:91-195 | -1 for a file that cannot be opened; else the whole parse refines the value-level parser: same calls in order, same error |
| `IniReader.MakeKey` | src/core/libs/INIReader.cc:65-74 | the joined key, lowered in place |
| `IniReader.KeysEqualExactly` | src/core/libs/INIReader.cc:65-74 | two pairs have one key if and only if their sections and names, joined by a dot, are equal up to the case of the letters A to Z |
| `IniReader.LastCallWins` | src/core/libs/INIReader.cc:77-83 | the map holds for each key the value of the last call with that key, and no other keys |
| `IniReader.Reader.ValueHandler` | src/core/libs/INIReader.cc:77-83 | the pair is recorded and success reported |
| `IniReader.Reader.Get` | src/core/libs/INIReader.cc:47-51 | the last parsed value with a case-insensitively equal key, else the default |
| `IniReader.Reader.HasValue` | src/core/libs/INIReader.cc:99-103 | true exactly when some parsed pair has that key |
| `IniReader.Reader.HasSection` | src/core/libs/INIReader.cc:86-96 | although only the lower bound is inspected, true exactly when some parsed key starts with the section prefix; and, without dots in section names, exactly when some parsed section equals the question up to case |
| `IniReader.PrefixIsInterval` | src/core/libs/INIReader.cc:86-96 | strings with a common prefix are contiguous in the map's order, which is why one lower bound decides |
| `IniReader.SectionKeyExactly` | src/core/libs/INIReader.cc:65-96 | a parsed key counts for a section exactly when the sections are equal up to case, the parsed one is nested in it, or it runs past the parsed section into the name |
| `IniReader.NestedExactly` | src/core/libs/INIReader.cc:86-96 | for a name without dots and any history of handler calls, HasSection is right if and only if the section exists or no parsed section is nested in it |
| `IniFile.OpenReader` | src/core/libs/INIReader.cc:35-38 | the reader of a file holds exactly the calls that parsing its lines makes, with the parser's error; a file that cannot be opened leaves it empty with error -1 |
| `IniFile.WrittenIsRead` | src/core/libs/INIReader.cc:35-51 | for every printed configuration with different keys, each pair is what Get finds under its key |
| `IniFile.FileShape` | src/core/libs/ini.cc:91-195 | every call of every file has a section that a section line can carry and a name that a pair can have: their lengths, and the characters they cannot contain |
| `IniFile.MisleadingFileExactly` | src/core/libs/INIReader.cc:86-96 | some file makes HasSection say true of a section that no pair of it has if and only if a section line can carry the name with a dot, or the name splits at a dot into a section and the beginning of a name |
| `IniFile.DotFreeFilesExactly` | src/core/libs/INIReader.cc:86-96 | HasSection is right about a name for every file whose section names have no dot if and only if the name does not split so at its first dot, in particular if it has none |
| `GpsCaCode.GenerateRegisters` | src/algorithms/libs/gps_sdr_signal_replica.cc:62-79 | the in-place shifts produce, at any length, the sequences of the two feedback recurrences |
| `GpsCaCode.StepRegisters` | src/algorithms/libs/gps_sdr_signal_replica.cc:68-78 | the registers always hold the next ten outputs |
| `GpsCaCode.RegistersNeverZero` | src/algorithms/libs/gps_sdr_signal_replica.cc:62-79 | neither register is ever all zero: any ten consecutive outputs contain a one |
| `GpsPhase.Period` | src/algorithms/libs/gps_sdr_signal_replica.cc:62-79 | both register sequences repeat after 1023 steps |
| `GpsPhase.PhaseSelection` | src/algorithms/libs/gps_sdr_signal_replica.cc:41-100 | for PRN 1 to 32 the delayed second sequence is at every step the sum of the two stages that the standard assigns to the satellite |
| `GpsPhase.StandardCode` | src/algorithms/libs/gps_sdr_signal_replica.cc:81-100 | every chip for PRN 1 to 32 is the sum of the first sequence and the two selected stages |
| `GpsPhase.SbasDelays` | src/algorithms/libs/gps_sdr_signal_replica.cc:41-60 | the delay of each SBAS satellite, PRN 120 to 138 |
| `GpsCaCode.OutputIsRotated` | src/algorithms/libs/gps_sdr_signal_replica.cc:81-100 | without wrap-around the running indices give the unshifted code rotated by the shift, for every delay |
| `GpsCaCode.CaCodeGenInt` | src/algorithms/libs/gps_sdr_signal_replica.cc:25-101 | every chip of the output, for any shift and whatever is read beyond the delay table for PRN 52; for every other accepted satellite and every shift that does not wrap, the unshifted code rotated by the shift; rejected satellites leave the output alone |

## Left out

- The Reed-Solomon decoder itself: it is a parameter with an erasure-correction contract, apart from its guard on the number of erasures; its own algebra is not part of this model.
- HAS page intake: the status and type filters are modelled, but pages reach the collector with a message identifier below 32 and a size from 1 to 32, as the page reader delivers them (src/core/libs/galileo_e6_has_msg_receiver.cc:70-107 publishes and resets the flag, and is not modelled).
- The HAS message body beyond the mask count and its signed 16-bit reader: most of the body reader is commented out.
- The front of an empty list is undefined in the source: the model records an underflow and leaves the channel as it was, so nothing is claimed about runs after one beyond the invariants stated.
- FlowgraphTight.SupplyConditionIsExact: the necessity half is for unpinned channels that start without assistance; pinned satellites return to the lists at standby, and bands that need assistance run dry only if status reports or the initial assignment let their channels acquire. Sufficiency is general (`FlowgraphSupply.SearchNeverUnderflows`).
- FlowgraphDouble.SeparateExactly: says nothing about pinned channels, for which standby pushes the pinned satellites back into the lists.
- FlowgraphDouble.DoubleTracking: in bands that need assistance the run uses a status report of the assisting band; reports are inputs and are not tied to the state of a channel.
- Building the lists of available satellites from the configuration, SBAS bands and the link between bands and signal conditioners: tables and string handling that would only add easy members; the lists are arbitrary inputs.
- Doppler projection, starting and stopping channel hardware, the FPGA paths, monitors and all GNU Radio plumbing: calls into libraries that are not part of this model.
- The geometry of visible satellites, SUPL and XML assistance: I/O and floating point; the list of visible satellites is an input.
- UioFpga.GetUioNum: does not model overflow of the 32-bit conversion, which is undefined in the source for numbers that do not fit.
- The library sort is modelled by insertion sort; `UioFpga.SortIsUnique` shows that this is no restriction. The directory listing and the name files are inputs.
- The `empty` query of the concurrent queue: an observation that may be stale when it returns; it changes nothing.
- Fairness of the thread scheduler: the queue theorems say which steps are possible and that they end, not that the operating system takes them.
- Clenshaw.ClSin: over exact numbers, not floating point; the sine and cosine of the argument are inputs on the unit circle.
- Clenshaw.ClkSin: likewise, with the hyperbolic functions as inputs that meet their identity.
- GpsCaCode.CaCodeGenInt: for PRN 52 the value that the source reads beyond its table is a parameter.
- Reading the INI file: whether it opens, and its lines, are inputs; integer conversion of values is left out.
- The other code generators, the type converters, geodesy iterations and the block factory: same shape as what is modelled, table lookups, or floating-point behaviour.
