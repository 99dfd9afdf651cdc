# MCsim and MacSim DRAM: a verified model

This project models the DRAM side of the MCsim memory-controller simulator, of the Ramulator timing model that it is
built on, and of the MacSim simulator that it plugs into, and proves what their code is for.  All files are checked
together by `dafny verify dfyconfig.toml`.

## The timing tree and DDR3

`DramTiming` and `DramTree` are the tree of `dram/DRAM.h` for any rule table.  Each node keeps an index of earliest
times and a bounded history; an update pushes times to the path of the command and to siblings.  The declarative
side knows only the whole history of commands.  Both agree for every history, address and clock (`CheckIsExact`),
and `get_next` is the least time that passes.  The nodes are objects, updated in place.  `LegalTrace` says what a
legal trace is, `Ddr3` is the DDR3 rule table, and `Ddr3Spacing` says in numbers, without the table, exactly what
the device accepts.  The scope table of DDR3 has 12 rows for 14 commands; the model keeps it as the compiler reads
it, and `BankRulesEnforcedIff` tells exactly for which commands the device check still enforces the rules of the
bank.

## The MCsim pipeline

`Pipeline` is the controller with its device as a state machine on values: request queues, FR-FCFS with the row
table, the open-page command generator, command queues, the scheduler with its countdown timers, the timing tree
(represented by the issued history, which is all it stores), the two data lines, and callbacks.  `MemorySystem`
performs it in place, with the real tree; `PipelineLaws` tells what its parts do by what they find.  `RowProtocol`,
`QueueTimers`, `Ledger` and `Conservation` are the invariants, `SystemRuns`, `DataTiming`, `LoneRequest` and
`Progress` what follows for every run.  The bank protocol is that of section 4 of JEDEC JESD79-3.

Requests of all sizes are covered.  A data packet names no request: it is credited to the first pending one of its
requestor and address, whose remaining size is an unsigned word that wraps.  `Ledger.CalledBackIff` says exactly
when a request is called back.  While the packets of a key do not overflow a word, that is the case if and only if
it and all its predecessors of that key are positive multiples of the bus width and their packets have arrived
(`SystemRuns.EveryRunCallsBackIff`); so a partial request holds up all later ones of its key.  `Progress` shows that
the controller always finishes.

## MacSim's own controller

`MacsimAddress` finds the bank and row of an address, `MacsimBus` is the byte arithmetic of the data bus,
`MacsimBanks` one bank with its buffer, free list and request in service, `MacsimSchedule` a cycle over all banks,
`MacsimDram` the controller updated in place, and `MacsimRuns` all its runs.  `MacsimLaws` tells what the parts of a
cycle do by what they find, and `MacsimService` when every request is served and ends.  `MacsimKinds` follows
demands, prefetches and write-backs through them: no demand is lost and each is answered once.  `MacsimProgress`
shows that the controller never starves, with the bound that keeps its starvation check silent.  Clock values stay
below the simulator's "not yet" constant; that is a hypothesis where it is needed.

## Cache, subarray machine and kernels

`CacheAddress`, `CacheLines` and `Cache` are the set-associative cache against an LRU stack; `Dsarp` the bank and
subarray machine of DSARP behind `decode` and `update_state`; `Histograms` the histogram whose buckets double;
`ClockDomain` the clock crosser; `DelayQueue` the latency and priority queue; `AddressSlicing` the address mapping
and the numbering of queues.  `Numbers` and `Options` are shared by several of them.

Where the code does less than its comments or names suggest, the model follows the code and a lemma says exactly
when it is right: `Ddr3.BankRulesEnforcedIff`, `SystemRuns.EveryRunCallsBackIff`, `Dsarp.AutoPrechargeSafeIff`,
`Dsarp.DecodedKeepsPowerIff`, `CacheLines.VictimIsLruIff`, `CacheLines.InsertKeepsUniqueIff`,
`CacheAddress.Geometry.LinesAreToldIff`, `Histograms.GrowthTotals`, `Histograms.ConvertKeepsExactIff`,
`Histograms.OutKeepsExactIff`, `MacsimAddress.Mapping.LocateIsInjectiveIff`, `AddressSlicing.SeparatesIff`.  That
MacSim's controller drains needs every bank to belong to a channel (`MacsimProgress.NeverDrainsBeyond`).

## Model

| member | source | states |
|---|---|---|
| `DramTiming.NodeAgrees` | dram/DRAM.h:350-406 | For every node and every history of commands: the incremental index (`next`, pushed to by each command from the node's own history or from a sibling's) lets a command through at a clock if and only if every rule of the table, applied to the whole history (which past command, how many back, how long ago, target or sibling), does |
| `DramTiming.PrevIsRecent` | dram/DRAM.h:369-373 | The bounded `prev` queue of a node always holds the most recent issue times of the full history, most recent first, and -1 where there are none |
| `DramTree.Node.constructor` | dram/DRAM.h:189-228 | Building the tree: every node at its path with its fan-out, all subtrees disjoint, every node reflecting the empty history |
| `DramTree.Node.UpdateTiming` | dram/DRAM.h:350-406 | One recursive in-place update brings every node of the tree, on the path, beside it or elsewhere, to the table of the extended history, and touches nothing else |
| `DramTree.Node.GetNext` | dram/DRAM.h:312-322 | The loop form returns the least clock, not before the current one, at which the recursive check passes: for every such clock, the check holds if and only if the clock is at least the result |
| `DramTree.Node.Update` | dram/DRAM.h:324-331 | The timing half of issuing a command: the whole tree is in step with the extended history, for every later check |
| `DramTree.CheckIsExact` | dram/DRAM.h:265-278 | For every history, address and clock: the check of the tree is true if and only if, at every level from the root to the command's scope (or to where the address or the tree ends), every rule holds of the full history |
| `LegalTrace.WindowRule` | dram/DRAM.h:350-406 | In every legal trace a rule of distance n and value v keeps the command and its n-th predecessor on that node at least v cycles apart |
| `Ddr3.DeviceOk` | dram/DDR3.cpp:225-406 | The concrete DDR3 table is well formed (distances are positive, rules between siblings look back by one), so all results about rule tables apply to it; what its rows say is `Ddr3Spacing.AcceptsIff` |
| `Ddr3.FourActivateWindow` | dram/DDR3.cpp:300-301 | In every trace that the DDR3 device accepts, any five activates of one rank span at least nFAW cycles |
| `Ddr3.LastLevelIs` | dram/DDR3.h:48-52 | How deep the check of each DDR3 command looks, given that the scope table has 12 rows for 14 commands and the missing rows read as the first level |
| `Ddr3.BankRulesEnforcedIff` | dram/DDR3.h:48-52 | For every command: acceptance by the device implies the bank's own timing rules for all histories if and only if the command is not ACT, RDA or WRA (the shifted scope table stops these at the rank); the failing direction is shown by a history for each |
| `Ddr3Spacing.AcceptsIff` | dram/DDR3.cpp:225-406 | For every history, command, address and clock: the device accepts the command if and only if every past command is as far away as listed numbers say, pair by pair, on the channel, in the rank, across ranks and in the bank, down to where the check of the command looks, and an activate makes no fifth within nFAW cycles |
| `Ddr3Spacing.LegalIsSpaced` | dram/DDR3.cpp:235-406 | Any two commands of a legal trace are as far apart as those numbers say: nRRD, nCCD, read to write nCL + nCCD + 2 - nCWL, write to read nCWL + nBL + nWTR, the turnarounds between ranks, precharge, refresh, power-down and bank spacings |
| `MemorySystem.MemorySystem.AddRequest` | src/MemoryController.cpp:189-227 | A request enters the queue that its address selects and the pending list of its direction, with its whole size left, and nothing else changes |
| `MemorySystem.MemorySystem.ScheduleFR` | src/RequestScheduler.cpp:66-76 | If the row of some request of the queue is open in its bank, the first such request is picked, and otherwise the first request |
| `PipelineLaws.RowHitFirst` | src/RequestScheduler.cpp:66-76 | For every row table and queue: a row hit is taken whenever there is one, none before it is a hit, and without any the oldest request is taken |
| `MemorySystem.MemorySystem.CommandGenerate` | generalScheduler/CommandGenerator_OPEN.h:13-45 | Appends exactly the commands of the request: activate for a bank used for the first time, precharge and activate for another row, nothing for a row hit, then one column command per full bus width |
| `PipelineLaws.CrackIs` | generalScheduler/CommandGenerator_OPEN.h:20-44 | From the state that the row table claims for the bank: a row hit becomes column commands only, in an idle bank exactly one activate precedes them, with another row open exactly a precharge and an activate; column command x goes to column x of the request's row on |
| `PipelineLaws.OpeningIsShortest` | generalScheduler/CommandGenerator_OPEN.h:20-44 | No shorter sequence of commands that ends in the same column commands keeps the bank protocol |
| `MemorySystem.MemorySystem.RequestSchedule` | system/FRFCFS/RequestScheduler_FRFCFS.h:15-33 | One request of every queue that is not empty is picked, removed and expanded, and the row table follows |
| `MemorySystem.MemorySystem.EnqueueCommands` | src/MemoryController.cpp:284-295 | Moves the whole command buffer into the command queues: each queue gets, in order, exactly the commands of its banks, stamped with the clock |
| `MemorySystem.MemorySystem.IsReadyAndIssuable` | src/CommandScheduler.cpp:102-149 | True exactly for the queues whose head has a timer at zero and is as far behind every issued command as the device wants, in numbers |
| `MemorySystem.MemorySystem.PickCommand` | generalScheduler/CommandScheduler_PUSH.h:14-70 | The two scans return none if and only if no head may be issued, and otherwise the ready head that arrived first, by its stamp, the later queue in a tie |
| `MemorySystem.MemorySystem.RaiseTimers` | src/CommandScheduler.cpp:256-264 | All eleven timers of the queue are raised to the spacing that the sent command imposes, and none is lowered |
| `Packets.CommandTimingIs` | src/Ramulator_DDR3.h:98-273 | The spacing within a queue, for all eleven packet types, listed by the packet that is held back |
| `MemorySystem.MemorySystem.SendCommand` | src/CommandScheduler.cpp:151-366 | Sending the head of a queue: queue, timers, device history, read line and write line change as the model's issue step says |
| `MemorySystem.MemorySystem.ReceiveData` | src/MemoryController.cpp:348-392 | A read packet is credited to the first pending request of its requestor and address: it is called back and removed if one bus width was missing, else its size goes down (unsigned) |
| `MemorySystem.MemorySystem.SendData` | src/MemoryController.cpp:394-441 | The same for write data |
| `MemorySystem.MemorySystem.MoveWriteData` | src/MemoryController.cpp:322-337 | The front of the write line leaves when its counter is zero, and the remaining counters count down |
| `MemorySystem.MemorySystem.TickTimers` | src/CommandScheduler.cpp:373-408 | Every timer counts down by one and stops at zero |
| `MemorySystem.MemorySystem.DeviceUpdate` | src/MemoryDevice.cpp:62-98 | The read line counts down, and its front is handed to the controller when its time is over |
| `MemorySystem.MemoryDevice.CommandCheck` | src/Ramulator_DDR3.h:281-292 | The device's answer, taken from the timing tree, is the declarative rule over everything issued so far, and is yes exactly if every issued command is far enough away, in numbers |
| `MemorySystem.MemoryDevice.ReceiveFromBus` | src/Ramulator_DDR3.h:294-310 | A command extends the history of the tree, and a read starts its latency |
| `MemorySystem.MemorySystem.Update` | src/MemoryController.cpp:280-346 | One whole cycle, in place, is the model's cycle with the oldest ready head; one request has left every queue that was not empty, and no command waits outside the queues |
| `RowProtocol.CrackOpensRow` | generalScheduler/CommandGenerator_OPEN.h:31-40 | From the bank state that the row table claims, the commands generated for a request never break the bank protocol and leave its row open |
| `RowProtocol.ScheduleRows` | src/RequestScheduler.cpp:30-45 | Scheduling a request keeps: replaying everything generated for a bank, issued or not, ends in exactly the state that `bankTable` says, and a bank has no entry if and only if its `first` flag is still set |
| `RowProtocol.EnqueueRows` | src/MemoryController.cpp:229-274 | Moving a command to its queue keeps that invariant: no reordering within a bank |
| `RowProtocol.IssueRows` | src/CommandScheduler.cpp:151-366 | Issuing a head keeps that invariant |
| `RowProtocol.IssuedKeepsProtocol` | src/RequestScheduler.cpp:192-195 | What has been issued to a bank never activates an open bank, precharges an idle one, or accesses a closed or wrong row |
| `RowProtocol.TableIsTrueWhenDrained` | src/RequestScheduler.cpp:192-195 | Once no command of a bank is waiting, the row table is the true state of the bank |
| `QueueTimers.IssueTimers` | src/CommandScheduler.cpp:102-133 | After an issue every timer still equals the time left to the latest deadline that any command ever sent from its queue has set |
| `QueueTimers.FinishTimers` | src/CommandScheduler.cpp:373-404 | The same after the countdown of a whole cycle, and every issued command was ready, accepted by the device and alone in its cycle |
| `QueueTimers.IssuedIsLegal` | src/CommandScheduler.cpp:139-149 | Every history of a disciplined scheduler is a legal trace of the declarative DDR3 rules |
| `QueueTimers.QueueSpacing` | src/Ramulator_DDR3.h:98-273 | Any two commands issued from one queue are at least the pairwise command timing apart, however many lie between |
| `QueueTimers.BankSpacing` | src/Ramulator_DDR3.h:98-273 | Within one bank every pair of commands keeps nRC, nRP, nRAS, nRCD, nRTP or the write recovery, also where the device check misses it: the timers of the bank's queue enforce it |
| `QueueTimers.ActivateWindow` | generalScheduler/CommandScheduler_PUSH.h:14-70 | Any five activates that the controller issues span at least nFAW cycles |
| `QueueTimers.DeviceAllowsIff` | src/Ramulator_DDR3.h:281-292 | For every history of issued commands: the device accepts a command of the controller if and only if it is at least nRRD, nCCD and nBL, nCL + nCCD + 2 - nCWL, nCWL + nBL + nWTR, nRCD, nRAS, nRTP and nCWL + nBL + nWR behind the commands that these concern, and an activate nFAW behind the fourth last one |
| `QueueTimers.QueueReadyIff` | src/CommandScheduler.cpp:102-133 | A queue's timer has run out for a command if and only if everything issued from the queue is as far away as the written numbers say |
| `Ledger.CalledBackIff` | src/MemoryController.cpp:348-392 | For the requests of one requestor, address and direction, of any sizes: they come back in order, and request n has been called back if and only if the delivered packets cover it and all its predecessors, where a request takes the first number of packets that brings its size as an unsigned word |
| `Ledger.CalledBackIffWhole` | src/MemoryController.cpp:348-392 | While the packets do not overflow a word, that is: it and all its predecessors are positive multiples of the bus width, and as many packets have been delivered as they need |
| `Ledger.ZeroWraps` | src/MemoryController.cpp:348-392 | With more packets that fails: a request of size 0 on a bus of 64 bytes is called back by the packet that completes a whole word |
| `Ledger.DrainedIff` | src/MemoryController.cpp:348-392 | With nothing queued or in flight, what has been called back is exactly the longest prefix of whole requests |
| `Conservation.FirstReadyIsFirst` | src/RequestScheduler.cpp:66-76 | First-ready selection never overtakes an earlier request to the same row of the same bank, so requests to one address keep their order |
| `Conservation.AddConserved` | src/MemoryController.cpp:189-227 | A new request of any size keeps, for every requestor, address and direction: packets delivered + column commands and data packets on their way = full bus widths in the requests expanded so far, and only the first pending request has had packets |
| `Conservation.ExpandConserved` | generalScheduler/CommandGenerator_OPEN.h:20-43 | So does expanding a request into commands |
| `Conservation.IssueConserved` | src/CommandScheduler.cpp:151-366 | So does issuing a command: a column command becomes one data packet of its key |
| `Conservation.ArrivedConserved` | src/MemoryController.cpp:348-392 | So does the arrival of a data packet, for its own key and for all others, including requests that are called back |
| `Conservation.FinishConserved` | src/MemoryController.cpp:296-346 | So does the rest of a cycle |
| `SystemRuns.EveryRunIsLegal` | generalScheduler/CommandScheduler_PUSH.h:14-70 | In every run from the initial state, whatever requests arrive and whichever ready queue is picked: the issued trace is legal under the declarative DDR3 rules, keeps the bank protocol in every bank, and is spaced in each queue as the timers demand |
| `SystemRuns.EveryRunIsSpaced` | dram/DDR3.cpp:241-306 | In every run any two commands keep the spacing of the rank, whatever their banks and queues (activates nRRD, reads or writes nCCD and nBL, read to write nCL + nCCD + 2 - nCWL, write to read nCWL + nBL + nWTR), and two of one bank that of the bank |
| `SystemRuns.EveryRunCallsBackOnce` | src/MemoryController.cpp:348-392 | In every run, with requests of any sizes, for every requestor, address and direction: requests are called back in order, each at most once, and request n exactly when the delivered packets cover it and its predecessors, wrap-around of the unsigned sizes included |
| `SystemRuns.EveryRunCallsBackIff` | src/MemoryController.cpp:348-392 | In every run, while the packets of a key do not overflow a word: request n of the key has been called back if and only if it and all its predecessors of that key are positive multiples of the bus width and as many packets have been delivered as they need; other keys do not matter |
| `SystemRuns.EveryRunDrains` | src/MemoryController.cpp:280-346 | In every run a key with nothing queued or in flight has had exactly its longest prefix of whole requests called back |
| `SystemRuns.ShortIfAsked` | src/MemoryController.cpp:189-227 | The packets of a key do not overflow a word if the sizes asked for together do not, which a caller can check beforehand |
| `Progress.CycleIsUnique` | generalScheduler/CommandScheduler_PUSH.h:14-70 | The controller's cycle is deterministic: the oldest ready head is unique |
| `Progress.DeviceAllowsFrom` | dram/DRAM.h:265-278 | For a fixed history the device accepts every command from some clock on |
| `Progress.EverythingEnds` | src/MemoryController.cpp:280-346 | Without new requests the controller's own cycles lead in finitely many steps to a state with all request queues, command queues and data lines empty |
| `Progress.EveryRunFinishes` | src/MemoryController.cpp:280-392 | After every run, once requests stop, the controller reaches an empty state in which, for every key whose packets do not overflow a word, exactly the requests before the first one that is not a positive multiple of the bus width have been called back |
| `LoneRequest.CalledBackIffWhole` | generalScheduler/CommandGenerator_OPEN.h:20-43 | In every run: the only request of its requestor, address and direction, once nothing of it is queued or on its way, has been called back if and only if its size is a positive multiple of the bus width |
| `LoneRequest.HeldUpByPartial` | src/MemoryController.cpp:348-392 | In every run, when the requests of a key are two and the first is not whole, neither is ever called back, whatever the second one's size and however many packets have arrived |
| `DataTiming.FrontArrives` | src/MemoryDevice.cpp:62-79 | When the front of a delay line is due, exactly its packet is delivered, and the others keep exactly the time they have left |
| `DataTiming.IssueOnTime` | src/MemoryDevice.cpp:100-113 | An issued read or write enters its line with its full delay, and everything already in flight stays on time |
| `DataTiming.WriteStageOnTime` | src/MemoryController.cpp:322-337 | A cycle of the write line delivers what is due and no counter ever wraps |
| `DataTiming.ReadStageOnTime` | src/MemoryDevice.cpp:62-79 | A cycle of the read line delivers what is due |
| `DataTiming.EveryRunDeliversOnTime` | src/MemoryDevice.cpp:62-113 | In every run the data delivered so far are, in order, exactly the reads issued at least nCL + nBL cycles ago and the writes issued more than nCWL + nBL cycles ago |
| `MacsimBus.AcquireAdvances` | IntegrationWithMacSim/src/dram.cc:1050-1071 | With position W * ready + (W - avail): a transfer of s bytes started at cycle c advances it by exactly s + W * (c - ready) and keeps 1 <= avail <= W |
| `MacsimBus.PositionIsReady` | IntegrationWithMacSim/src/dram.cc:1050-1071 | The bus state is the position divided by the width: `ready` the quotient, the used bytes the remainder |
| `MacsimBus.NeverFasterThanTheBus` | IntegrationWithMacSim/src/dram.cc:1050-1071 | No run of transfers moves more bytes than the bus width times the cycles passed |
| `MacsimBanks.SortPicksBest` | IntegrationWithMacSim/src/dram.cc:1126-1162 | The entry that FR-FCFS serves is beaten by no buffered entry, and of equals it is the first in the buffer |
| `MacsimLaws.ServedNext` | IntegrationWithMacSim/src/dram.cc:1126-1165 | An idle bank serves, under FR-FCFS, a demand unless all are prefetches, of these a request to the open row if there is one, of these the oldest, and of these the first in the buffer; else simply the first; it leaves the others buffered and asks from that cycle on |
| `MacsimBanks.AcceptIff` | IntegrationWithMacSim/src/dram.cc:431-447 | A request is refused if and only if the bank's buffer is full of requests that are not prefetches, and then nothing was dropped; otherwise the pool is kept and the count grows by one less what was flushed |
| `MacsimLaws.AcceptIs` | IntegrationWithMacSim/src/dram.cc:431-493 | A request that is taken stands last in its bank's buffer with everything it came with, behind all the others, or if there was no room, behind all the others but prefetches |
| `MacsimBanks.FlushConserves` | IntegrationWithMacSim/src/dram.cc:461-476 | Flushing prefetches keeps the bank's pool of entries, and the count drops by their number |
| `MacsimBanks.CompleteConserves` | IntegrationWithMacSim/src/dram.cc:607-694 | Completing a request, with or without merging, keeps the pool, and the count drops by what left |
| `MacsimLaws.CompleteIs` | IntegrationWithMacSim/src/dram.cc:607-694 | A request ends in the cycle in which its data is ready; with merging all buffered requests for its address, and no others, end with it |
| `MacsimBanks.NewConserves` | IntegrationWithMacSim/src/dram.cc:878-911 | Selecting the next request keeps pool and count |
| `MacsimBanks.GiveCommandOk` | IntegrationWithMacSim/src/dram.cc:939-984 | Giving a command keeps the bank machine safe: at most one precharge, then at most one activate, then one column command, the last only with the request's row open |
| `MacsimBanks.CompleteOk` | IntegrationWithMacSim/src/dram.cc:607-694 | A request that completes is in DATA_WAIT and has had exactly one column command |
| `MacsimSchedule.PickOldestIsFirst` | IntegrationWithMacSim/src/dram.cc:939-984 | The arbitration picks a candidate that no other candidate precedes by time stamp, then index |
| `MacsimLaws.CommandSlotIs` | IntegrationWithMacSim/src/dram.cc:939-984 | The command slot of a channel goes to the bank that has asked longest, the first of its equals, and to nobody only if none asks; the bank gets an activate if no row is open, the column access if its request's row is, else a precharge, and is busy for exactly that command's latency |
| `MacsimLaws.DataSlotIsFair` | IntegrationWithMacSim/src/dram.cc:988-1036 | On the data bus no bank overtakes one of its channel that waits with an older stamp |
| `MacsimLaws.StampIsSince` | IntegrationWithMacSim/src/dram.cc:878-911 | After every cycle a bank that asks for a command has asked for it before, with the same stamp, or carries the stamp of that cycle |
| `MacsimSchedule.DataSlotTransfers` | IntegrationWithMacSim/src/dram.cc:988-1036 | The grant loop ends, its transfers are in order on the bus, and if the bus is free afterwards no bank is waiting for it |
| `MacsimSchedule.CycleOk` | IntegrationWithMacSim/src/dram.cc:878-1036 | Every cycle keeps every bank machine safe (finite data-ready exactly in DATA_WAIT; DATA and DATA_WAIT only with the request's row open; commands in order) |
| `MacsimSchedule.AheadShrinks` | IntegrationWithMacSim/src/dram.cc:939-984 | While a bank waits for the command bus, the set of banks ahead of it strictly shrinks every cycle |
| `MacsimSchedule.GrantWithin` | IntegrationWithMacSim/src/dram.cc:939-984 | A waiting bank is granted the command bus within as many cycles as its channel has banks |
| `MacsimDram.DramController.constructor` | IntegrationWithMacSim/src/dram.cc:196-268 | The controller starts empty, every bank with its full free list and every bus with a full width |
| `MacsimAddress.Mapping.LocateIsInjective` | IntegrationWithMacSim/src/dram.cc:399-429 | Without permutation column, bank, row and controller determine the address, for any number of controllers |
| `MacsimAddress.Mapping.LocateIs` | IntegrationWithMacSim/src/dram.cc:399-429 | The address is row, bank before permutation, controller and column, one after the other, each within its width, and permutation flips exactly the bank bits that are set in the address from the shift on |
| `MacsimAddress.Mapping.LocateIsInjectiveIff` | IntegrationWithMacSim/src/dram.cc:399-429 | With a power of two of controllers, and permutation or not: column, bank, row and controller determine every address if and only if the permuting bits are not those of the bank itself |
| `MacsimDram.DramController.InsertNewReq` | IntegrationWithMacSim/src/dram.cc:396-458 | Arrival, in place: the address names an existing bank, and the banks become exactly those of the model, refused or taken; pools and total count stay consistent |
| `MacsimDram.DramController.FlushPrefetch` | IntegrationWithMacSim/src/dram.cc:461-476 | Dropping the prefetches of a full buffer, in place |
| `MacsimDram.DramController.ChannelScheduleCmd` | IntegrationWithMacSim/src/dram.cc:939-984 | The command slots of all channels, in place, are the model's |
| `MacsimDram.DramController.ChannelScheduleData` | IntegrationWithMacSim/src/dram.cc:988-1036 | The data grants of all channels, in place, are the model's, whose requests end as `MacsimService.EveryEndIsTimely` says |
| `MacsimDram.DramController.AcquireDataBus` | IntegrationWithMacSim/src/dram.cc:1050-1071 | The byte arithmetic of one transfer, in place |
| `MacsimDram.DramController.BankScheduleComplete` | IntegrationWithMacSim/src/dram.cc:607-694 | All finished requests leave with those merged into them; what is put out are their answers in bank order, without write-backs |
| `MacsimDram.DramController.BankScheduleNew` | IntegrationWithMacSim/src/dram.cc:878-911 | Idle banks take their next request and waiting ones ask again, in place |
| `MacsimDram.DramController.Schedule` | IntegrationWithMacSim/src/dram.cc:497-531 | A cycle in place is the model's cycle, keeping pools and the request count; what it puts out are the answers to what is done after its grants, in bank order |
| `MacsimRuns.CycleHolds` | IntegrationWithMacSim/src/dram.cc:607-694 | A cycle neither loses nor invents a request: what the banks held is what they hold plus what ended |
| `MacsimRuns.EndsServed` | IntegrationWithMacSim/src/dram.cc:607-694 | What ends is a request with a full service behind it, or one for the same address |
| `MacsimRuns.AnswersAreEnding` | IntegrationWithMacSim/src/dram.cc:641-685 | What the controller puts out in a cycle are, in order, exactly the requests that end in it, merged ones included, except write-backs |
| `MacsimRuns.EveryRunIsSound` | IntegrationWithMacSim/src/dram.cc:396-1071 | In every run, with requests arriving at any time: all bank machines are safe, waiting banks carry past stamps, and as multisets, what was accepted is what is held, has ended and was dropped |
| `MacsimRuns.FinishedOnce` | IntegrationWithMacSim/src/dram.cc:607-694 | A request accepted once is never finished twice, nor both finished and dropped |
| `MacsimKinds.OnlyPrefetchesAreDropped` | IntegrationWithMacSim/src/dram.cc:461-476 | In every run a request that never arrives as a prefetch is never dropped: as often as it was accepted, it is held or has ended |
| `MacsimKinds.EndedIsAnswered` | IntegrationWithMacSim/src/dram.cc:641-685 | In every run a request that never arrives as a write-back is answered exactly as often as it ends, and one that arrives only as a write-back is never answered |
| `MacsimKinds.DemandAnsweredOnce` | IntegrationWithMacSim/src/dram.cc:396-694 | In every run a demand that was accepted once is held, or else has been answered exactly once |
| `MacsimProgress.WorkOrQuiet` | IntegrationWithMacSim/src/dram.cc:497-531 | A cycle in which nothing ends lowers the steps that all banks together have left, unless no bank can do anything in it |
| `MacsimProgress.PotentialFalls` | IntegrationWithMacSim/src/dram.cc:497-531 | While something is held, every cycle in which nothing ends lowers a bound on the cycles until something does |
| `MacsimProgress.NeverStarves` | IntegrationWithMacSim/src/dram.cc:535-550 | In every run, with the banks a multiple of the channels: whenever a cycle is closed the starvation counter is at most 8 * banks * (span + 1) + span + 1, where span covers every latency and the transfer of the largest request |
| `MacsimProgress.ShippedIsSilent` | IntegrationWithMacSim/bin/params.in:106-114 | With the parameters of MacSim's own parameter file and requests up to 192 bytes the counter never reaches the 5000 at which the starvation check fails |
| `MacsimProgress.EveryRunDrains` | IntegrationWithMacSim/src/dram.cc:497-531 | In every run, from any state on: without new requests all banks are empty after as many cycles as the requests held, plus one, times that bound |
| `MacsimProgress.NeverDrainsBeyond` | IntegrationWithMacSim/src/dram.cc:939-960 | Where the banks are no multiple of the channels that fails: a bank beyond those of the last channel that holds a request holds one in all later states of every run |
| `MacsimRuns.GrantedInEveryRun` | IntegrationWithMacSim/src/dram.cc:939-984 | In every run a bank that asks for the command bus gets it within as many cycles as its channel has banks, whatever arrives meanwhile |
| `MacsimSchedule.GrantsOnBus` | IntegrationWithMacSim/src/dram.cc:988-1036 | What a cycle grants on a channel's bus is a list of in-order transfers that leads exactly to the bus state after the cycle |
| `MacsimService.EveryEndIsTimely` | IntegrationWithMacSim/src/dram.cc:607-1071 | In every run a request that ends was served in time: at most a precharge, an activate and the column command, each asked for exactly when the latency of the one before it was over; it was granted a transfer of its own size on its channel after the column latency, and it ends in exactly the cycle in which the last byte of that transfer is handed out, so its size is below the width times the cycles from grant to end |
| `MacsimRuns.EveryRunFitsTheBus` | IntegrationWithMacSim/src/dram.cc:988-1071 | In every run, between any two of its states and on every channel, fewer bytes are granted than the bus width times the cycles handed out |
| `CacheAddress.Log2Int` | IntegrationWithMacSim/src/utils.cc:136-141 | The shift loop computes the logarithm rounded down |
| `CacheAddress.Geometry.TileFormsAgree` | IntegrationWithMacSim/src/cache.cc:172-193 | The shift form for a power-of-two number of tiles, the division form, and the single-tile form are the same function |
| `CacheAddress.Geometry.AddressRecovered` | IntegrationWithMacSim/src/cache.cc:172-193 | Tile and tile-free address together determine the address |
| `CacheAddress.Geometry.BaseIs` | IntegrationWithMacSim/src/cache.cc:475-478 | The base of an address is the multiple of the line size, rounded down to a power of two, that it lies at or behind by less than a line |
| `CacheAddress.Geometry.TagAndSetAre` | IntegrationWithMacSim/src/cache.cc:172-193 | Tag and set together are the number of the line in the address without its tile, the set is its remainder by the number of sets, and the tag the rest |
| `CacheAddress.Geometry.SameLineIff` | IntegrationWithMacSim/src/cache.cc:172-193 | Two addresses of one tile get the same tag and set if and only if they lie in the same line, provided stripes hold whole lines |
| `CacheAddress.Geometry.LinesAreToldIff` | IntegrationWithMacSim/src/cache.cc:172-193 | That holds for all addresses of a tile if and only if there is one tile or the interleave factor is at least the line size; else an alias is given |
| `CacheLines.VictimIsLruIff` | IntegrationWithMacSim/src/cache.cc:259-297 | In a full set the replaced line is the least recently used one if and only if its access time is below MAX_INT or it is way 0 |
| `CacheLines.AccessRefines` | IntegrationWithMacSim/src/cache.cc:197-239 | An access refines touching the LRU stack of the set |
| `CacheLines.InsertRefines` | IntegrationWithMacSim/src/cache.cc:343-417 | An insertion after a miss refines a push, with the bottom dropping out of a full stack |
| `CacheLines.InsertKeepsUniqueIff` | IntegrationWithMacSim/src/cache.cc:343-417 | Tags stay unique under insertion if and only if no line but the replaced one holds the tag |
| `CacheLines.InvalidateRefines` | IntegrationWithMacSim/src/cache.cc:434-471 | An invalidation refines removal from the stack |
| `CacheLines.RankIsUnique` | IntegrationWithMacSim/src/cache.cc:259-297 | The lines of a set determine their order by access time, hence the stack |
| `Cache.SetAssocCache.AccessCache` | IntegrationWithMacSim/src/cache.cc:197-239 | Access in place: hit way, the base address of the line, and exactly the hit line gets its new time; nothing at all in bypass mode |
| `Cache.SetAssocCache.FindReplacementLine` | IntegrationWithMacSim/src/cache.cc:274-297 | The scan finds the first free way, else the first of the oldest below MAX_INT, else way 0 |
| `Cache.SetAssocCache.InsertCache` | IntegrationWithMacSim/src/cache.cc:376-417 | Insertion in place: exactly the victim is overwritten, with the base address of the line, and its own base address is reported if it was valid |
| `Cache.SetAssocCache.InvalidateCacheLine` | IntegrationWithMacSim/src/cache.cc:434-471 | Invalidation in place; the result is the dirty flag of the dropped line |
| `Cache.EveryRunRefines` | IntegrationWithMacSim/src/cache.cc:197-471 | After every run in which the times stamped within one set increase and stay below MAX_INT and insertions happen only on a miss, the valid lines of each set ordered by access time are exactly an LRU stack of depth assoc, with unique tags |
| `Cache.HitsAfterRun` | IntegrationWithMacSim/src/cache.cc:197-239 | After every such run a lookup hits if and only if the line of the address is on its set's stack |
| `Cache.EveryLineIsReal` | IntegrationWithMacSim/src/cache.cc:343-417 | After every run each valid line was inserted: it has the tag of an address of its set and is based at the line that holds that address |
| `Cache.EvictedIsReal` | IntegrationWithMacSim/src/cache.cc:382-397 | So the address that an insertion reports as driven out is that of a line of the same set that was inserted before |
| `Dsarp.Channel.UpdateState` | dram/DRAM.h:334-347 | The state update of a command along its path, down to its scope, with the precharge and power-down loops in place |
| `Dsarp.OpenIffOneSubArray` | dram/DSARP.cpp:232-300 | A bank is open if and only if exactly one of its subarrays is, and no subarray has two open rows |
| `Dsarp.StepKeepsIff` | dram/DSARP.cpp:232-312 | A command keeps one open row per bank if and only if it is not an activate of an open bank (other than of the open row itself), nor a column command with auto-precharge to another subarray of an open bank |
| `Dsarp.StepIsLocal` | dram/DRAM.h:334-347 | A command touches no other rank, bank or subarray than those on its path, accesses and refreshes change nothing, and only power commands change the rank's state |
| `Dsarp.DecodeIs` | dram/DSARP.cpp:129-200 | What decode answers to every request but a bare ACT, RDA or WRA, from the state of the rank, its banks and the subarray: refreshes only with the bank or all banks closed, else precharges, power-down and self-refresh after waking as needed |
| `Dsarp.DecodeIsSafe` | dram/DRAM.h:246-262 | In a safe state decoding any request but a bare ACT, RDA or WRA never runs into an assertion, and issuing its answer keeps the state safe |
| `Dsarp.AutoPrechargeSafeIff` | dram/DSARP.cpp:129-201 | RDA and WRA have no prerequisite: decode returns them unchanged, and they are safe if and only if the bank is closed or the addressed subarray is the open one |
| `Dsarp.EveryRunKeepsOneOpenRow` | dram/DRAM.h:246-262 | In every run that issues what decode returns, every reached state has at most one open row per bank and no assertion fires |
| `Dsarp.EveryRunFromIdle` | dram/DSARP.h:150-153 | In particular all states that such a run reaches from the initial state, with every bank closed and every rank awake |
| `Dsarp.ColumnIsReached` | dram/DRAM.h:246-262 | From any safe state repeated decoding of a read or write asks for exactly: wake up if asleep, precharge if another row is open, activate if needed, then the command; afterwards exactly the requested row is open in the bank |
| `Dsarp.ToColumnIsShort` | dram/DSARP.cpp:129-166 | That chain has at most four commands and the column command only at its end |
| `Dsarp.RestIsReached` | dram/DSARP.cpp:168-200 | From any safe state decoding a refresh of a rank or bank, a power-down or a self-refresh asks for at most one command first, and then leaves the refreshed banks closed in all subarrays, or the rank powered down with the state that tells whether a row is open, or refreshing itself |
| `Dsarp.RowHitIff` | dram/DRAM.h:283-295 | In a rank that is awake `check_row_hit` holds if and only if decoding the column command needs nothing first |
| `Dsarp.PowerDownFormsAgree` | dram/DSARP.cpp:245-311 | The second definition of the power-down effect agrees with the one it overwrites |
| `Dsarp.PowerIsKept` | dram/DSARP.cpp:182-200 | Reads, writes, power-down and self-refresh, through decode, keep: active power-down exactly with a row open, precharge power-down only with none |
| `Dsarp.DecodedKeepsPowerIff` | dram/DRAM.h:246-262 | Any request but a bare ACT, RDA or WRA, through decode, keeps that if and only if the answer is not, in active power-down, a precharge that closes the last open bank: that of all banks, or that of a bank while all others are closed |
| `Dsarp.RefreshKeepsPowerIff` | dram/DSARP.cpp:168-175 | In particular a refresh of the whole rank keeps it if and only if the rank is not in active power-down |
| `Histograms.Histogram.MergeUp` | dram/StatType.cpp:72-92 | The in-place merging of `grow_up` gives, in every bucket, the sum of its two old buckets; its end assertion holds |
| `Histograms.Histogram.MergeConvert` | dram/StatType.cpp:50-70 | The in-place merging of `grow_convert`, including the bucket it loses for an odd number |
| `Histograms.Histogram.MergeOut` | dram/StatType.cpp:11-48 | The in-place merging of `grow_out` in both directions, including the bucket it loses; both end assertions hold |
| `Histograms.Histogram.Sample` | dram/StatType.cpp:115-145 | A sample of any sign: the growth loops end, and exactly the bucket whose interval holds the value grows by `number` |
| `Histograms.Histogram.Add` | dram/StatType.cpp:94-113 | Adding another histogram of the same size and minimum, also itself: both grow to the wider buckets and the counts are added |
| `Histograms.GrowthTotals` | dram/StatType.cpp:11-92 | Growing up keeps the total; converting loses exactly bucket 0 if the number of buckets is odd; growing out loses exactly bucket 0 if it leaves 3 divided by 4 |
| `Histograms.EvenKeepsTotal` | dram/StatType.cpp:115-145 | With an even number of buckets a sample of any sign increases the total by exactly its number |
| `Histograms.FitStops` | dram/StatType.cpp:115-145 | Growing stops as soon as the value fits: it does not fit into what was grown last |
| `Histograms.UpKeepsExact` | dram/StatType.cpp:72-92 | Growing up keeps every bucket equal to the weight of the samples in its interval |
| `Histograms.StreamIsExact` | dram/StatType.cpp:115-145 | After any stream of samples that are not negative every bucket holds exactly the samples of its interval, and the buckets are no wider than the samples need |
| `Histograms.AddIsOneStream` | dram/StatType.cpp:94-113 | Adding the histograms of two such streams is the histogram of one stream after the other |
| `Histograms.ConvertKeepsExactIff` | dram/StatType.cpp:50-70 | The first negative sample leaves the buckets exact if and only if bucket 0 and every second bucket below the top one are empty |
| `Histograms.OutKeepsExactIff` | dram/StatType.cpp:11-48 | Growing outwards leaves the buckets exact, for an odd number of them, if and only if no count is lost, and for an even number if and only if every second bucket has an empty lower half, as the buckets are then shifted by one |
| `ClockDomain.ClockDomainCrosser.Update` | src/ClockDomain.cpp:54-80 | One update in place, with the shortcut for equal clocks; the loop ends for a positive second clock |
| `ClockDomain.CountersStayClose` | src/ClockDomain.cpp:54-80 | After every update both counters are multiples of their clocks and counter1 <= counter2 < counter1 + clock2 |
| `ClockDomain.CallsAfter` | src/ClockDomain.cpp:54-80 | After n updates the callback has run exactly n * clock1 / clock2 times, rounded up |
| `ClockDomain.NeverCalled` | src/ClockDomain.cpp:54-80 | Without a callback nothing is ever called |
| `ClockDomain.BelowCommonMultiple` | src/ClockDomain.cpp:75-79 | Neither counter ever exceeds any common multiple of the clocks, because reaching one resets them |
| `DelayQueue.PriorityQueue.Enqueue` | IntegrationWithMacSim/src/pqueue.h:121-147 | Enqueueing in the ring of buckets is insertion by priority into the last stage |
| `DelayQueue.PriorityQueue.Dequeue` | IntegrationWithMacSim/src/pqueue.h:152-170 | Dequeueing takes the front of the first stage |
| `DelayQueue.PriorityQueue.Advance` | IntegrationWithMacSim/src/pqueue.h:175-187 | Turning the ring moves every stage up by one, unless nothing is queued or the first stage is not empty |
| `DelayQueue.PriorityQueue.Peek` | IntegrationWithMacSim/src/pqueue.h:192-209 | The n-th entry of the stages in order; n equal to the number of entries passes the source's assertion and yields no entry |
| `DelayQueue.EveryStageIsRanked` | IntegrationWithMacSim/src/pqueue.h:121-147 | In every run each stage is ordered by priority and then by arrival, so dequeue returns the oldest of the highest priority of the ready stage |
| `DelayQueue.StepConserves` | IntegrationWithMacSim/src/pqueue.h:121-187 | Nothing is lost or invented: an enqueue adds its entry, a dequeue removes exactly the first entry of the ready stage, an advance changes no order |
| `DelayQueue.ReadyAfterLatency` | IntegrationWithMacSim/src/pqueue.h:175-187 | An entry becomes ready with exactly the latency-th advance that moves the stages: before, it is queued and in no ready stage; with it, it is ready; and without latency it is ready at once |
| `DelayQueue.ReadyStalls` | IntegrationWithMacSim/src/pqueue.h:175-187 | An advance moves the stages if and only if the ready stage is empty and some other stage is not |
| `AddressSlicing.Log2` | src/AddressMapping.h:19-33 | The least number of bits for n values |
| `AddressSlicing.Parse` | src/AddressMapping.cpp:6-22 | The constructor aborts if and only if some digit names no field; else every field gets the bits of its size |
| `AddressSlicing.AddressMapping` | src/AddressMapping.cpp:24-96 | The shift-and-xor loop takes each field from the low end of what the later ones have left; the levels handed on for queue selection are those fields with the rank forced to 0 |
| `AddressSlicing.FieldsAreNarrow` | src/AddressMapping.cpp:24-67 | Every field of a format without repeats is below two to the power of its width |
| `AddressSlicing.SlicingLosesNothing` | src/AddressMapping.cpp:24-67 | The fields of a format without repeats, put side by side, are the 32-bit address modulo two to the power of the total width |
| `AddressSlicing.QueueNumber` | src/MemoryController.cpp:629-644 | The product of the sizes down to the queue level, written out for each of the four levels, or 1 without one |
| `AddressSlicing.DecodeQueue` | src/MemoryController.cpp:646-674 | The queue index is the unit at the queue level plus its size times the product of the upper units that are not zero, or plus 0 if all are |
| `AddressSlicing.QueueExists` | src/MemoryController.cpp:646-674 | An address whose levels are within their sizes always selects a queue below the number of queues |
| `AddressSlicing.AddressHasQueue` | src/MemoryController.cpp:646-674 | With sizes that are powers of two and a format without repeats that names each level from the bank group to the queue level, every address selects a queue below the number of queues |
| `AddressSlicing.FieldInTable` | src/AddressMapping.cpp:24-67 | For sizes that are powers of two every sliced field is within its size |
| `AddressSlicing.SeparatesIff` | src/MemoryController.cpp:646-674 | Different units get different queues if and only if at most one of the levels above the queue level has more than one unit |

## Left out

- Refresh: the refresh machine is fixed to "none" at construction, so no refresh commands enter the pipeline and at most one command is issued per cycle.
- Other schedulers: only FR-FCFS with the open-page generator and the PUSH command scheduler are modelled; round robin, BLISS, per-requestor command queues and non-critical queues are not.
- Write queue and watermark mode, `postCommand` packets, privatization builds and multi-rank row tables: assumed off, with rank 0 throughout the pipeline.
- The command queue of a command is assumed to depend on its bank, as it does for every level from the bank up.
- Request objects: `Request.serial` stands for the identity of the object that the request queue and the pending list share; remaining sizes are kept per serial.
- MemorySystem gathers the controller, its schedulers, its generator and its queues in one class; their separate objects and pointers are not modelled.
- Deallocation, statistics, traces, configuration, printing and floating-point helpers (the ratio constructor of the clock crosser, logarithms and squares of the histogram).
- Histogram counters and samples are integers, where the source uses doubles.
- Histograms: once the buckets are no longer exact, only their totals are followed.
- MacSim's parallel per-bank arrays are gathered in one record per bank, with an added log of the commands given and their times; the network and packet paths, and the additional output latency are not modelled.
- Pipeline.Config: the pipeline is proved for banks below 8, the size of the generator's flag array, and for speed tables in which no pairwise timing is negative; the read delay of `DataTiming` is assumed positive.
- MacSim's channels own equally many banks; banks left over by an uneven division belong to no channel and are never granted, as in the code.
- Cache.SetAssocCache.FindReplacementLine: models least recently used replacement; the pseudo-LRU branch, which picks the first line with a cleared access time and clears them all when there is none, is not.
- Cache.SetAssocCache: partitioned replacement, `invalidate_cache`, the CPU and GPU line counters and the line data are not modelled; a hit returns the way instead of a data pointer.
- DramTree.Node.Update: models the timing half of `update`; the state half depends on the standard and is modelled for DSARP in `Dsarp.Channel.UpdateState`.
- Dsarp: nodes are nested values with methods that update them as one field, since the tree of objects is modelled in `DramTree`; the timing table of DSARP is not instantiated.
- MacsimAddress.Mapping.LocateIsInjectiveIff: bank permutation is settled for a power of two of controllers; other numbers with permutation are not.
- DelayQueue: `flush` is used only when the queue is destroyed.
- AddressSlicing: `addressMap[Row]` and `addressMap[Column]` are beyond the end of the array in the source; only the `row` and `col` fields are modelled.
- Integers are unbounded except request sizes and write counters, which wrap at 32 bits, and addresses, which are cut to 32 bits before slicing.
