# Proofs about the Canary server's self-contained cores

Canary is an MMORPG server. Most of it talks to clients, scripts and a database; what these
files model is the part whose correctness rests on invariants:

- the **asynchronous task protocol** of creatures: shared buckets with a lock and a `scheduled`
  flag, a dispatcher that may refuse, slices that are put back, migration from background to
  visible buckets, rollback, and the flag byte of each creature (`AsyncCreature`,
  `AsyncBucket`, `AsyncProtocol`, `AsyncCarriers`, `AsyncPlaces`, `AsyncPlaceSteps`,
  `AsyncHistory`, `AsyncRouting`, `AsyncTheorems`, `AsyncDrain`, `AsyncDelivery`,
  `AsyncExecution`), and its sibling with an admission counter, the monster **post-think queue**
  (`PostThinkQueue`, `PostThinkTheorems`, `PostThinkOutcomes`);
- the **OTB node-tree parser** and its property reader, against a grammar and a serialiser
  (`NodeTree`, `NodeTreeTheorems`, `NodeTreeRoundTrip`);
- the **batched INSERT builder**, which cuts the text of its rows into statements
  (`BatchInsert`, `BatchInsertTheorems`, `BatchInsertOutcomes`);
- **money**: coin collection from nested containers, payment with change, coins placed, market
  withdrawals and refunds (`Coins`, `Money`, `MoneyGame`, `MoneyRemoval`, `MarketFunds`), and
  the escrow of house auctions and transfers (`HouseEscrow`, `HouseEscrowTheorems`, `HouseBids`);
- the **teleport rate guard** (`TeleportGuard`, `TeleportGuardTheorems`);
- lists with **derived indexes**: monsters and NPCs (`Roster`), conditions (`Conditions`);
- the **trade** state machine (`Trade`), the **transaction wrappers** and the two-purse coin
  removal that runs in one (`Transactions`, `CoinPurses`), and the **call-argument splitter**
  of the binding documentation checker (`CallArguments`).

Two protocols are machines of interleaved steps. Each lock section and each change of a
creature's own fields is one step; an agent is a thread of control between two of its steps.
Everything else follows one pattern: a class whose methods change fields the way the source
does, each method proved equal to a function of the old state, and lemmas about that function
and about whole runs of it. `dafny verify dfyconfig.toml` checks all files.

What the network, the database server, the dispatcher, the scripts or the surrounding game
decide is a parameter: a boolean, or an oracle from the number of a call to its answer.

## Where the code and its promise part

Each of these is stated as an exact condition on the inputs, with a concrete input on the
failing side.

- Writing out a loaded tree and loading it again gives the same tree if and only if that tree is
  not a single node without properties: its file has seven bytes, which the constructor refuses
  (`NodeTreeRoundTrip.ReloadAfterSerialise`, `BareNodeDoesNotReload`).
- In a run of the INSERT builder that succeeds, some statement is longer than `MAX_QUERY_SIZE` if
  and only if one of the texts it splits has a row joint exactly where a cut runs out of room;
  it is then one byte too long (`BatchInsertTheorems.StatementOverIffTight`, `StatementsFit`,
  and `PieceOneByteOver` for a run of the builder at its real size).
- `removeMoney` takes exactly the money if and only if its change is not paid twice: coins may
  not be dropped, the cylinder has no room for all stacks of the change, and it takes something
  of the first one (`MoneyRemoval.RemoveMoney`, `Money.DeliveryExactIff`,
  `PartialDeliveryOverpays`).
- Accepting a house transfer conserves the money if and only if the stored name is spelled
  exactly as the acceptor's, or the limit of a former auction and the rent add up to nothing;
  otherwise the acceptor is paid back a bid nobody made
  (`HouseEscrowTheorems.AcceptConservesIffExact`, `InexactNameCreatesMoney`).
- Removing a monster or NPC leaves every listed name findable if and only if nobody else bears
  its name, or the last one in the list does and is moved up (`Roster.RemoveCompleteIff`,
  `RepeatedNameIsLost`).

Three more facts that a caller may not expect:

- The holder of a house may change the bid only to a value that the balance covers in full, although
  only the difference is taken, since the bank checks the whole bid (`HouseBids.BidDecides`).
- The limits of the teleport guard, 10 in one second and 30 in ten, are those of its fixed
  windows. A sliding span may hold up to 19 and 59, and both are reached
  (`TeleportGuardTheorems.SlidingWindowBounds`, `NineteenInASecond`, `FiftyNineInTenSeconds`).
- A failure reported by `executeWithinTransaction` leaves the tables alone if and only if it is
  not the case that the callback changed them, returned false and was committed
  (`Transactions.CommitAtomicIff`). The callback of `KVSQL::saveAll` can return false after an
  INSERT was sent. The coin removal uses the wrapper that rolls back;
  `CoinPurses.CommittingRemovalAtomicIff` says exactly what that saves it from.

## Model

| member | source | states |
|---|---|---|
| AsyncTheorems.ScheduledIffOneCarrier | src/creatures/creature.cpp:2031-2146 | in every reachable interleaving a bucket is scheduled exactly when one carrier exists (submitter, pending event, run that will reschedule, pending rollback), never two, and a non-empty bucket has one |
| AsyncTheorems.RunningIffOnePlace | src/creatures/creature.cpp:2089-2193 | a live creature has `AsyncTaskRunning` raised exactly when it stands at one place, once, among all buckets, slices in hand and executions; it is marked as executing exactly when a run executes it |
| AsyncTheorems.TasksRunInOrderOrAreHeld | src/creatures/creature.cpp:2148-2193 | the tasks given to a creature that was never found removed are those that ran, in order and once, then those of the current batch, then those in its vector |
| AsyncTheorems.WorkIsQueuedOrRefused | src/creatures/creature.hpp:983-1012 | left-over tasks or flags of an idle live creature mean that it is queued, or that the dispatcher refused its bucket since it was last sent |
| AsyncTheorems.BatchStartsWithOwedFlags | src/creatures/creature.cpp:2148-2193 | a batch starts with exactly the flags raised and not cleared since the previous batch started, in spite of the overwrites of the flag byte |
| AsyncTheorems.RaisedFlagReachesNextBatch | src/creatures/creature.hpp:995-1012 | a flag raised in or out of an execution is in the next batch that starts, however many steps later, unless it is cleared before |
| AsyncTheorems.AgentsNeverBlock | src/creatures/creature.cpp:2031-2146 | in every reachable state an unfinished agent can take its own next step: nobody waits for somebody else |
| AsyncTheorems.QuiescentMeansDrained | src/creatures/creature.cpp:2031-2193 | when every agent is finished all buckets are empty and unscheduled, nothing is marked running, and work still held was refused |
| AsyncDrain.WorkDrains | src/creatures/creature.cpp:2031-2193 | from every reachable state the agents' own steps bring the protocol to rest without new work, with all buckets empty |
| AsyncDrain.MovesBounded | src/creatures/creature.cpp:2056-2146 | a run without new tasks or flags and without empty slices makes at most a fixed number of protocol steps, whatever the dispatcher answers and however the steps interleave |
| AsyncDrain.MoveLess | src/creatures/creature.cpp:2031-2193 | every protocol step but the running of a task, migration, put-back and re-send included, leaves strictly less to do |
| AsyncTheorems.InvAlongRun | src/creatures/creature.cpp:2031-2193 | the three invariants together are kept along every run of steps |
| AsyncCarriers.CarrierStep | src/creatures/creature.cpp:2031-2146 | every step keeps one carrier for a scheduled bucket, none for an unscheduled one, which is empty |
| AsyncPlaceSteps.PlaceStep | src/creatures/creature.cpp:2031-2193 | every step keeps each creature at no more than one place, and the running bit in step with it |
| AsyncPlaces.BucketStepMoves | src/creatures/creature.cpp:2031-2146 | push, take, put-back and rollback move entries between one agent and one bucket and lose or double none |
| AsyncPlaceSteps.MigratePlaces | src/creatures/creature.cpp:2084-2098 | migration takes a creature out of the slice and hands it to one new pusher; it keeps exactly one place |
| AsyncHistory.HistoryStep | src/creatures/creature.cpp:2148-2193 | every step keeps the account of tasks given, run, held, and of flags owed |
| AsyncRouting.EntriesAreRouted | src/creatures/creature.cpp:41-54 | every entry of a bucket is of a creature whose id modulo the number of buckets is the index of that bucket |
| AsyncRouting.VisibleMigrates | src/creatures/creature.cpp:2084-2098 | a creature that a background run finds visible is not executed there but pushed to the visible bucket of the same index, nothing else changing |
| AsyncBucket.PutBackKeepsOrder | src/game/scheduling/dispatcher_policy.hpp:236-247 | a slice partly consumed goes back in front of everything that came later, so nobody overtakes |
| AsyncBucket.AsyncTaskBucket.Push | src/creatures/creature.cpp:2031-2054 | the entry is appended; the caller schedules exactly when the flag was down |
| AsyncBucket.AsyncTaskBucket.TakeSlice | src/creatures/creature.cpp:2056-2080 | the first entries up to the limit leave the bucket, whose flag stays up exactly when entries remain |
| AsyncBucket.AsyncTaskBucket.PutBack | src/creatures/creature.cpp:2100-2108 | the unconsumed suffix is in front again, in order; rescheduling is due when it was already, or the flag was down |
| AsyncBucket.AsyncTaskBucket.Reject | src/creatures/creature.cpp:2132-2146 | all entries leave, the flag goes down |
| AsyncCreature.CreatureTasks.SendAsyncTasks | src/creatures/creature.cpp:2186-2193 | the running bit is raised, and the creature is due exactly when it was not raised yet |
| AsyncCreature.CreatureTasks.AddAsyncTask | src/creatures/creature.hpp:983-989 | the task is appended; it sends only outside an execution and when not yet running |
| AsyncCreature.CreatureTasks.SetAsyncTaskFlag | src/creatures/creature.hpp:995-1012 | raising defers during an execution and sends otherwise; clearing clears the deferred bit too |
| AsyncCreature.CreatureTasks.ExecuteAsyncTasks | src/creatures/creature.cpp:2148-2184 | a whole execution with its tasks and hook, whatever they do to the creature; `AsyncExecution.ExecutionRefines` says what that amounts to |
| AsyncExecution.ExecutionRefines | src/creatures/creature.cpp:2148-2184 | the protocol's steps from taking a live creature to the end of its execution, the effects of every task and of the hook in between, leave the creature and its re-sending as the method does; its whole batch is finished, as run exactly when the creature is neither removed nor dead |
| AsyncExecution.HookFlags | src/creatures/creature.cpp:2161-2166 | the hook starts with exactly the running bit and the flags of the batch, whatever the tasks did to the flag byte |
| AsyncDelivery.EveryTaskRuns | src/creatures/creature.cpp:2031-2193 | over every run in which the dispatcher accepts and the creature stays in the game, once all agents are finished the tasks given along the run have all run, in that order and once each, and no flag is owed |
| AsyncDelivery.RunStaysInLane | src/creatures/creature.cpp:41-50 | while creatures are seen as visible, no entry, event or run ever is in the background lane, and the other way round |
| PostThinkTheorems.AdmissionIsExact | src/game/game.cpp:129-194 | in every interleaving the counter is queued plus reserved-not-pushed plus popped-not-released, and at most the capacity |
| PostThinkTheorems.EveryReleaseSucceeds | src/game/game.cpp:137-141 | every release in a reachable state finds something to release, so no assertion fires |
| PostThinkTheorems.EachTicketHandledOnce | src/game/game.cpp:163-194 | an admitted id is in exactly one place: waiting, in a hand, executed, cancelled or thrown; never two of them |
| PostThinkOutcomes.FateOfEveryId | src/game/game.cpp:129-194 | at rest the ids executed are exactly those that runs took out of the queue, and the ids cancelled exactly those that refused submitters drained |
| PostThinkOutcomes.AcceptedMeansExecuted | src/game/game.cpp:185-189 | while the dispatcher has refused nothing, nothing is cancelled, and at rest every admitted id was executed unless its push threw |
| PostThinkOutcomes.RefusedMeansCancelled | src/game/game.cpp:143-147 | while it has accepted nothing, nothing is executed, and at rest every admitted id was cancelled unless its push threw |
| PostThinkOutcomes.AnsweredBefore | src/game/game.cpp:150-161 | whoever drains the queue was refused before, whoever runs it was accepted |
| PostThinkOutcomes.AdmittedIff | src/game/game.cpp:7694-7699 | an id is turned away exactly when queued, reserved and not yet released ids fill the capacity |
| PostThinkOutcomes.FirstInFirstOut | src/game/game.cpp:163-178 | over any run ids leave the queue in the order in which they were pushed |
| PostThinkTheorems.ScheduledIffOneCarrier | src/game/game.cpp:7694-7717 | the queue is scheduled exactly when one agent will drain it; a non-empty queue is scheduled |
| PostThinkTheorems.QuiescentMeansHandled | src/game/game.cpp:129-194 | when all agents are over, every admitted id was handled exactly as often as admitted, and the counter is zero |
| PostThinkQueue.MonsterPostThinkQueue.TakeBatch | src/game/game.cpp:163-178 | the first ids up to the limit leave the queue, the flag stays up exactly when ids remain |
| PostThinkQueue.MonsterPostThinkQueue.ReleaseBatch | src/game/game.cpp:179-183 | one release for every id taken, all of which succeed |
| PostThinkQueue.MonsterPostThinkQueue.Reserve | src/game/scheduling/dispatcher_policy.hpp:42-50 | admission is granted exactly below the capacity and counts one |
| PostThinkQueue.MonsterPostThinkQueue.Push | src/game/game.cpp:7700-7714 | the id is appended; the caller schedules exactly when the flag was down |
| NodeTreeTheorems.ParseIffDerived | src/io/fileloader.cpp:39-90 | the stack parser returns a tree exactly when the file derives it in the grammar: nested, disjoint child spans, ignored bytes after children and root |
| NodeTreeTheorems.LoadIff | src/io/fileloader.cpp:15-29 | a file loads to a tree exactly when it exceeds the minimum, bears the identifier asked for or four zero bytes, and derives the tree |
| NodeTreeTheorems.ParsedPropsOk | src/io/fileloader.cpp:49-89 | every property slice of a parsed tree is plain bytes and whole ESCAPE pairs inside the file |
| NodeTreeTheorems.ScanSound | src/io/fileloader.cpp:49-89 | whatever the loop returns from a sound stack is derived by the grammar |
| NodeTreeTheorems.ScanNode | src/io/fileloader.cpp:49-89 | the loop reads over a whole node and attaches exactly it to the node below |
| NodeTreeRoundTrip.ParseSerialised | src/io/fileloader.cpp:15-29 | identifier plus serialised tree loads back to the same tree with the same properties whenever it exceeds the minimum, which it does unless it is a bare node |
| NodeTreeRoundTrip.ReloadAfterSerialise | src/io/fileloader.cpp:15-106 | for whatever file that loads, ignored bytes or not, writing its tree and loading that gives the same tree if and only if it is not a bare node |
| NodeTreeRoundTrip.BareNodeDoesNotReload | src/io/fileloader.cpp:15-29 | a file that loads although its tree, written out, is refused |
| NodeTreeRoundTrip.UnescapeEscape | src/io/fileloader.cpp:92-106 | the property reader undoes the escaping of every byte string |
| NodeTree.Loader.ParseTree | src/io/fileloader.cpp:39-90 | the iterator loop with its node stack computes the specified parse on every input, failures included |
| NodeTree.Loader.GetProps | src/io/fileloader.cpp:92-106 | false exactly for an empty slice, else the slice without its escape bytes |
| NodeTree.FilterSnoc | src/io/fileloader.cpp:98-103 | the stateful copy filter, read byte by byte, agrees with the recursive one and its escape state |
| BatchInsertTheorems.StatementsPartitionRows | src/database/database.cpp:415-523 | when the calls of a run report success and it ends with an execute, the statements carry whole rows whose concatenation is exactly the rows added, in order |
| BatchInsertTheorems.StatementsFit | src/database/database.cpp:415-523 | no statement of any run, whatever the rows and the answers, is more than one byte over `MAX_QUERY_SIZE` |
| BatchInsertTheorems.PiecesFit | src/database/database.cpp:491-507 | every piece of a text is at most one byte longer than the room, the comma of its joint being dropped |
| BatchInsertTheorems.JointIsBoundary | src/database/database.cpp:491-505 | for rows without a joint, every joint of the text is where two rows meet |
| BatchInsertTheorems.BoundaryIsJoint | src/database/database.cpp:432-443 | and a joint stands wherever two rows meet, splitting the text into the texts of the two halves |
| BatchInsertTheorems.CutBetweenRows | src/database/database.cpp:491-518 | the cuts are between rows: the pieces are the texts of non-empty groups whose rows, with those left behind, are the rows given |
| BatchInsertTheorems.ExecuteDelivers | src/database/database.cpp:457-523 | a successful execute sends exactly the pending rows and leaves no text |
| BatchInsertTheorems.RunDelivers | src/database/database.cpp:415-523 | along every successful run all rows given so far are in executed statements or pending, in order |
| BatchInsertTheorems.RunKeepsLength | src/database/database.cpp:415-523 | the recorded length is base query plus values text after every run, whatever the database answers |
| BatchInsertTheorems.JoinedInjective | src/database/database.cpp:432-443 | two lists of such rows with the same text are the same list |
| BatchInsertOutcomes.RunOkIff | src/database/database.cpp:415-523 | with a database that answers every query and rows that fit a statement, a run of calls succeeds if and only if every row added fits a packet of its own |
| BatchInsertOutcomes.EveryRowIsDelivered | src/database/database.cpp:415-523 | so such a run that ends with an execute delivers every row, in order |
| BatchInsertOutcomes.AddRowJoins | src/database/database.cpp:415-419 | a row that fits the packet with the pending ones joins them, and nothing is sent |
| BatchInsertOutcomes.AddRowFlushes | src/database/database.cpp:420-429 | a row that does not: the pending rows go out first, all and in order, and the row is taken exactly when they can be sent and it fits a packet alone |
| BatchInsertOutcomes.ExecuteOkIff | src/database/database.cpp:487-523 | `execute` succeeds exactly when the statement without rows is below the query size and the rows fit the rest; on failure the text is kept |
| BatchInsertOutcomes.CompleteIff | src/database/database.cpp:491-507 | a text is cut up completely exactly when the last row fits the room and every other one fits up to its joint |
| BatchInsertOutcomes.CutIsGreedy | src/database/database.cpp:492-501 | a cut takes as many rows as it can: with one more they would not fit |
| BatchInsertOutcomes.StatementParts | src/database/database.cpp:509-513 | a statement is base query, blank, rows and upsert clause, in this order, and nothing else |
| BatchInsertOutcomes.StatementInjective | src/database/database.cpp:509-513 | the rows can be read back from a statement |
| BatchInsertOutcomes.UpsertListSnoc | src/database/database.cpp:465-481 | the columns are listed in order, with comma and blank between two and none at the end |
| BatchInsertOutcomes.UpsertClauseParts | src/database/database.cpp:465-481 | no columns, no clause; otherwise the keyword and the list |
| BatchInsertTheorems.OverIffTight | src/database/database.cpp:491-507 | a piece is longer than the room if and only if some cut of the text falls on a joint that starts exactly where the room ends |
| BatchInsertTheorems.StatementOverIffTight | src/database/database.cpp:415-523 | in a run whose calls succeed, a statement over `MAX_QUERY_SIZE` appears if and only if one of the texts split is tight in that sense |
| BatchInsertTheorems.OverOnlyIfTight | src/database/database.cpp:415-523 | in a run with failed queries too, a statement over the size needs a tight text |
| BatchInsertTheorems.OneByteOver | src/database/database.cpp:415-523 | two rows, the first of which is one byte short of the room, make the builder send a statement of `MAX_QUERY_SIZE` + 1 bytes |
| BatchInsertTheorems.PieceOneByteOver | src/database/database.hpp:25-25 | such rows exist at the real query size, and contain no joint |
| BatchInsert.LastJoint | src/database/database.cpp:494-499 | the joint found is the last that starts at or before the position, and is found if there is one |
| BatchInsert.DBInsert.TakePiece | src/database/database.cpp:491-505 | one turn of the splitting loop: shortens the text and gives the next specified piece, or finds no joint |
| BatchInsert.DBInsert.SendBatches | src/database/database.cpp:491-518 | the loop ends, having sent the specified pieces up to the first failure |
| BatchInsert.DBInsert.Flush | src/database/database.cpp:457-523 | success and new state are those of the specification; text is kept on failure |
| BatchInsert.DBInsert.AddRowText | src/database/database.cpp:415-445 | likewise, with the implicit execute when the packet would overflow and both refusals |
| BatchInsert.DBInsert.UpsertText | src/database/database.cpp:462-481 | the clause lists every column once, with separators only between |
| Coins.FoundIsAll | src/game/game.cpp:3089-3112 | the breadth-first total is the recursive worth of the nested containers, and the sorted entries hold every coin stack with worth as often as it is there |
| Coins.CollectMoney | src/game/game.cpp:3089-3112 | the two loops find exactly that, in breadth-first order |
| Coins.ListMeasures | src/game/game.cpp:3068-3087 | over a list, what is collected plus what waits in bags is what the list holds |
| Coins.InsertKeeps | src/game/game.cpp:3083-3086 | collecting keeps the entries sorted by worth and adds exactly the entry's worth |
| Coins.InsertIsStable | src/game/game.cpp:3083-3086 | stacks of the same worth stay in the order in which they were found |
| Coins.LevelByLevel | src/game/game.cpp:3102-3109 | all containers of one nesting level are searched, in order, before any inside them |
| Money.AddMoneyHonest | src/game/game.cpp:3367-3399 | the total returned is the worth placed in cylinder and map, never above the request; no error exactly when it equals the request; every stack created holds 1 to 100 coins |
| Money.AddCoinsHonest | src/game/game.cpp:3277-3295 | the same of a number of coins of one kind, stacked by the hundred, on every path |
| Money.AddCoinStackHonest | src/game/game.cpp:3235-3275 | the same of one stack, with partial placement and the drop to the map |
| Money.StackPlacedIff | src/game/game.cpp:3235-3275 | what does not fit goes to the map exactly when that is allowed and there is a tile; no error exactly when all is placed, and otherwise which error |
| Money.Breakdown | src/game/game.cpp:3377-3381 | crystal, platinum and gold coins make up the amount, fewer than a hundred of the smaller two |
| Money.DeliveryExactIff | src/game/game.cpp:3136-3160 | a successful delivery is exact if and only if dropping is allowed, or the cylinder does not refuse the stacks of the change for want of room, or it takes nothing of the first of them; otherwise it exceeds the change by what the first attempt placed |
| Money.DeliveryOkIff | src/game/game.cpp:3136-3160 | a delivery succeeds exactly when the first attempt places all, or was refused for capacity or room without leave to drop and the second, with that leave, places all |
| Money.AddMoneyOffers | src/game/game.cpp:3367-3399 | without dropping, `addMoney` ends with what the cylinder says to the first stack it does not take whole, in the order crystal, platinum, gold |
| Money.AllOrNothingIsExact | src/game/game.cpp:3136-3160 | a first attempt that places all or nothing never leads to paying twice |
| Money.PartialDeliveryOverpays | src/game/game.cpp:3136-3160 | a change of 150 that costs 250: the platinum coin fits twice, the gold never does and is dropped |
| MoneyGame.Game.AddMoneyTo | src/game/game.cpp:3367-3399 | coins carried and dropped grow by exactly the reported total, on new stacks or on stacks of a coin worth no more than the money |
| MoneyGame.Game.AddStack | src/game/game.cpp:3235-3275 | cylinder and map gain exactly what the course of one stack says |
| MoneyGame.Game.Deliver | src/game/game.cpp:3136-3160 | the same of a delivery of change with its second attempt |
| MoneyGame.Game.ProcessEntry | src/game/game.cpp:3170-3210 | one stack pays its worth, or exactly what is left with the change coming back and any surplus named; it fails only if the removal or the delivery of that change fails; the change never lands on the stack that is split |
| MoneyGame.CoinsNeeded | src/game/game.cpp:3188-3193 | the coins taken cover the money with less than one coin too much |
| MoneyGame.CeilingCoins | src/game/game.cpp:3188-3193 | rounding the number of coins up covers the money, stays within the stack, and overshoots by less than one coin |
| MoneyGame.WorthPerCoin | src/items/item.cpp:3470-3484 | worth divided by count is the unit worth of the coin |
| MoneyRemoval.RemoveMoney | src/game/game.cpp:3299-3365 | too little money changes nothing; enough returns true exactly when every stack touched is removed and the change delivered; then coins carried, coins dropped and bank fall by exactly the money if and only if that one delivery does not pay twice, else by the money less the surplus |
| MoneyRemoval.TakeEntries | src/game/game.cpp:3317-3334 | the payment loop touches the stacks up to the first that covers what is due, in order of worth, and stops at the first failure |
| MoneyRemoval.LastTurnIff | src/game/game.cpp:3317-3334 | the payment ends on a stack exactly when the coins suffice, and otherwise leaves the difference for the bank |
| MoneyRemoval.CollectedEntriesOk | src/game/game.cpp:3089-3112 | the entries collected stand for different stacks, each with its worth |
| MarketFunds.MarketPlayer.Withdraw | src/game/game.cpp:10617-10643 | on success bank and inventory fall by exactly the amount, bank first, on failure nothing changes, and it fails exactly when both together are short; the stacks left are those of the payment from the inventory |
| MarketFunds.MarketPlayer.RemoveInventoryMoney | src/game/game.cpp:10561-10615 | takes exactly the money from the cheapest stacks of the inventory on, change to the bank, or nothing when the coins are short |
| MarketFunds.MarketPlayer.PayFrom | src/game/game.cpp:10592-10615 | the payment loop over sufficient entries lowers the wealth by exactly the money and says which coins of which stacks go |
| MarketFunds.OnlyInventoryPays | src/game/game.cpp:10561-10615 | only stacks in the inventory lose coins, none gains any or changes its kind, and every other stack is untouched |
| MarketFunds.MarketPlayer.WithdrawAndRefund | src/game/game.cpp:10617-10651 | a withdrawal that is refunded leaves the player as rich as before |
| MarketFunds.ByWorthEntriesOk | src/game/game.cpp:10572-10590 | an inventory listed once per item gives entries for different stacks whose worths sum to the total |
| MarketFunds.ByWorthTotal | src/game/game.cpp:10572-10590 | the collected total is the worth of all coins in the inventory |
| HouseEscrowTheorems.BidsConserve | src/game/game.cpp:12802-12865 | over any run of bids by anybody of any value, balances plus the holder's limit and rent never change |
| HouseBids.BidDecides | src/game/game.cpp:12824-12855 | a first bid wins if it can be paid with the rent, the holder's own if the balance covers it, any other if it is above the bid that holds and can be paid with the rent; the winner is the holder at that value, any other bid leaves holder, limit and accounts as they are, and what each single player owns, escrow included, never changes |
| HouseBids.ShownBid | src/game/game.cpp:12828-12849 | the bid shown is one above the one outbid, or the last lower one, 0 after a first bid |
| HouseBids.EachPlayerKeeps | src/game/game.cpp:12802-12865 | over any run of bids each single player keeps balance plus escrow |
| HouseBids.HeldBidNeverFalls | src/game/game.cpp:12842-12855 | over any run of bids by others the bid that holds never falls |
| HouseBids.HighestBidHolds | src/game/game.cpp:12842-12855 | in the end no bid that could be paid when it was made is above the one that holds |
| HouseBids.BankAccepts | src/game/game.cpp:13081-13088 | the bank accepts exactly covered payments; a sum that wraps around is refused by the second check |
| HouseBids.OfferDecides | src/game/game.cpp:12925-12962 | an offer of the owner of a rented house to somebody else stands with name, price and new owner; any other does nothing |
| HouseBids.AcceptDecides | src/game/game.cpp:13008-13040 | exactly the new owner accepts, once, if price and rent can be paid, and alone pays them |
| HouseBids.EndDecides | src/game/game.cpp:12964-13079 | exactly the owner's cancel and the new owner's reject clear the offer, and a price paid goes back to the one who paid it |
| HouseBids.AcceptThenEndRestores | src/game/game.cpp:12986-13075 | an accepted transfer that is cancelled or rejected leaves every account as it was |
| HouseBids.EachPlayerKeepsPrice | src/game/game.cpp:12925-13079 | over any run of transfer calls with exact names each single player keeps balance plus price paid |
| HouseEscrowTheorems.BidConserves | src/game/game.cpp:12824-12855 | the same of one bid in every branch, and the invariant of the auction is kept |
| HouseEscrowTheorems.ReplaceBid | src/game/game.cpp:13091-13097 | a holder who changes the own bid, also downwards through the wrap-around, moves exactly the difference |
| HouseEscrowTheorems.PayAndRefund | src/game/game.cpp:13081-13111 | outbidding takes bid and rent from one player and gives the other the old limit and rent back |
| HouseEscrowTheorems.TransfersConserve | src/game/game.cpp:12925-13079 | over any run of offers with exact names, accepts, cancels and rejects, balances plus the price paid never change |
| HouseEscrowTheorems.AcceptConservesIffExact | src/game/game.cpp:13031-13036 | an accept conserves the money if and only if the stored name is exact or the stale limit and rent wrap to zero |
| HouseEscrowTheorems.InexactNameCreatesMoney | src/game/game.cpp:13099-13108 | a differently spelled name turns 500 into 560 |
| HouseEscrowTheorems.WithdrawConserves | src/game/game.cpp:12986-13004 | cancel and reject give a paid price back and clear the offer without gain or loss |
| HouseEscrow.HouseAuction.PlayerBid | src/game/game.cpp:12802-12865 | the new bank and house state of a bid, all branches |
| HouseEscrow.HouseAuction.PlayerTransfer | src/game/game.cpp:12925-12962 | the new state of an offer, refused or made |
| HouseEscrow.HouseAuction.PlayerAcceptTransfer | src/game/game.cpp:13008-13040 | the new state of an accept, refused or made |
| HouseEscrow.HouseAuction.PlayerCancelTransfer | src/game/game.cpp:12964-13006 | the new state of a cancel by the owner |
| HouseEscrow.HouseAuction.PlayerRejectTransfer | src/game/game.cpp:13042-13079 | the new state of a reject by the new owner |
| HouseEscrow.HouseAuction.ProcessBankAuction | src/game/game.cpp:13081-13111 | success and new balances, with 64-bit wrap-around |
| TeleportGuardTheorems.SlidingWindowBounds | src/game/game.cpp:313-348 | over any run, for a key never evicted, any half-open 1000 ms holds at most 19 admissions and any 10000 ms at most 59 |
| TeleportGuardTheorems.CountersStaySmall | src/game/game.cpp:324-342 | in such a run the burst count never exceeds 11 and the sustained count never 32 |
| TeleportGuardTheorems.PassesIff | src/game/game.cpp:320-348 | outside a block an attempt passes exactly when it is within 10 in its burst window and 30 in its sustained one |
| TeleportGuardTheorems.BlockLasts | src/game/game.cpp:342-346 | a new block lasts five seconds when the sustained limit is exceeded and one second otherwise, and nothing passes until then |
| TeleportGuardTheorems.BurstBlockEnds | src/game/game.cpp:320-348 | after a burst block the next attempt passes unless the sustained limit forbids it |
| TeleportGuardTheorems.PruneKeepsRecent | src/game/game.cpp:295-311 | what was seen in the last minute stays unless more than 4096 such keys are tracked; a larger table loses every other key, and at most 4096 remain |
| TeleportGuardTheorems.NineteenInASecond | src/game/game.cpp:313-348 | nineteen admissions inside one second do happen |
| TeleportGuardTheorems.FiftyNineInTenSeconds | src/game/game.cpp:313-348 | fifty-nine admissions inside ten seconds do happen |
| TeleportGuardTheorems.TwoWindowBound | src/game/game.cpp:325-340 | two consecutive fixed windows admit at most twice the limit less one in one window length |
| TeleportGuardTheorems.CheckKeepsKey | src/game/game.cpp:313-348 | one check keeps the account of admissions of both windows and extends it exactly when it admits |
| TeleportGuard.GuardTable.ShouldBlock | src/game/game.cpp:313-348 | after pruning, the entry of the key moves as specified and the answer is that of the specification |
| TeleportGuard.GuardTable.Prune | src/game/game.cpp:295-311 | a small table stays; of a large one expired entries go, then any others until it fits, and what stays is unchanged |
| TeleportGuard.GuardTable.RecordBlock | src/game/game.cpp:350-372 | the windows and the block of the key stay as they were, every other entry that stays is unchanged, and the caller learns whether and what to log |
| TeleportGuardTheorems.RecordNeverDecides | src/game/game.cpp:350-372 | recording a block changes no window and no block, so no later decision of the guard |
| TeleportGuardTheorems.LogsAccountForEvents | src/game/game.cpp:350-372 | every recorded block is reported by exactly one log, or still counted as suppressed |
| TeleportGuardTheorems.LogsBackOff | src/game/game.cpp:350-372 | between two logs of a key lies at least a pause that doubles each time up to the longest |
| TeleportGuardTheorems.LogsWhenDue | src/game/game.cpp:358-371 | the next log comes exactly when the pause is over, and the pause doubles up to a minute |
| Roster.RunKeepsConsistent | src/game/game.cpp:11639-11706 | over any run of adds and removes the id index is exactly the position map, and every name entry points in bounds to a live holder of that name |
| Roster.AddIsFound | src/game/game.cpp:11639-11681 | an added creature is found by id and by name, and whoever was findable stays so |
| Roster.DistinctNamesAreFound | src/game/game.cpp:11639-11706 | over any run in which no name is added while listed, every listed creature is found by its name |
| Roster.RemoveKeeps | src/game/game.cpp:11683-11706 | swap-remove repairs both indexes, also when names repeat |
| Roster.RemoveTakesOne | src/game/game.cpp:11683-11706 | exactly the removed one leaves the list |
| Roster.RemoveCompleteIff | src/game/game.cpp:11683-11706 | every listed name stays findable if and only if nobody else bears the removed name or the last in the list does |
| Roster.RepeatedNameIsLost | src/game/game.cpp:11683-11706 | a listed rat that is not found by name |
| Roster.RemovalInBounds | src/game/game.cpp:11646-11669 | the position looked up is in bounds, and there is one exactly for a listed id |
| Roster.CreatureRoster.GetById | src/game/game.cpp:1309-1337 | found exactly when listed, and never for id 0 |
| Roster.CreatureRoster.GetByName | src/game/game.cpp:1368-1376 | what is found is listed and bears the name |
| Roster.CreatureRoster.AddCreature | src/game/game.cpp:11671-11681 | the new list and indexes after an add |
| Roster.CreatureRoster.RemoveCreature | src/game/game.cpp:11683-11706 | the new list and indexes after a swap-remove |
| Conditions.ConditionHolder.RemoveByType | src/creatures/creature.cpp:1412-1433 | all conditions of the type go, the others stay in order, and the counters stay exact |
| Conditions.ConditionHolder.RemoveByTypeAndId | src/creatures/creature.cpp:1435-1467 | the same by type and id, postponed exactly for a paralysed walker that is not forced |
| Conditions.ConditionHolder.AddCondition | src/creatures/creature.cpp:1372-1395 | listed exactly when not suppressed, new and started; no condition is ever listed twice; the counters stay exact |
| Conditions.ConditionHolder.Get | src/creatures/creature.cpp:1513-1525 | the shortcut through the counters finds what a scan of the list finds |
| Conditions.ConditionHolder.Erase | src/creatures/creature.cpp:1486-1498 | exactly the one condition goes and its counter falls |
| Conditions.ConditionHolder.TrackedIffListed | src/creatures/creature.hpp:856-873 | the counter of a type is positive exactly when the list holds the type |
| Conditions.WithoutKeeps | src/creatures/creature.cpp:1412-1467 | a removal takes what matches and nothing else, in order, and creates no repetition |
| Conditions.WithoutLeaves | src/creatures/creature.cpp:1412-1467 | what is left is exactly what is of another type, or of another type or id |
| Trade.RunKeepsConsistent | src/game/game.cpp:5885-6226 | after any run of requests, accepts and closes partners match symmetrically, nobody trades with himself, the states fit partner and item, and the offered items map to their one offerer |
| Trade.RequestKeeps | src/game/game.cpp:5951-5984 | a request keeps all of that, whoever was trading with whom |
| Trade.RequestIff | src/game/game.cpp:5951-5962 | a request takes effect exactly when the item is tradeable and overlaps no offer and both players are free, or the asked one answers |
| Trade.RequestOffers | src/game/game.cpp:5964-5984 | it then offers the item and pairs the two; nobody else changes |
| Trade.CloseEnds | src/game/game.cpp:6187-6226 | a close returns both players to NONE and touches nobody else |
| Trade.AcceptEnds | src/game/game.cpp:5986-6086 | an accept keeps all of that, and the second one returns both to NONE, agreed or not |
| Trade.FirstAccept | src/game/game.cpp:5986-6008 | the first accept marks the acceptor and changes nobody and nothing else |
| Trade.AcceptIgnored | src/game/game.cpp:5986-6004 | an accept out of turn or out of sight changes nothing |
| Trade.BothAcceptsEnd | src/game/game.cpp:5986-6086 | two accepts of partners, whoever is first, put both at ease and withdraw exactly their items |
| Trade.TradeCompletes | src/game/game.cpp:5951-6086 | request, counter-offer and two accepts lead back to the players and offers of before |
| Trade.UndisturbedDuringTransfer | src/game/game.cpp:5986-6086 | while the items of two players are moved, no list of requests, accepts and closes by anybody changes these two, and everyone else's partners and states stay consistent |
| Trade.RunKeepsUnnested | src/game/game.cpp:5885-5919 | over any run no item is offered together with one that it holds or that holds it |
| Trade.TradeGame.OverlapsOffer | src/game/game.cpp:5885-5919 | the loop over the offered items finds an overlap exactly when there is one |
| Trade.OneOffererEach | src/game/game.cpp:5885-5919 | after any run no item is offered by two players |
| Trade.TradeGame.RequestTrade | src/game/game.cpp:5951-5984 | the new state of both players and the offered items |
| Trade.TradeGame.AcceptTrade | src/game/game.cpp:5986-6086 | the new state of both players and the offered items, all branches |
| Trade.TradeGame.CloseTrade | src/game/game.cpp:6187-6226 | the new state of both players and the offered items |
| CoinPurses.RemoveCoinsFrom | src/account/account_repository_db.cpp:144-230 | Ok means both columns together fall by the amount, primary first, with matching ledger rows; anything else leaves purses and ledger as they were and both counters zero; the lock is given back |
| CoinPurses.BodyRemoves | src/account/account_repository_db.cpp:170-220 | the callback returns true exactly when it captured Ok, and then it has removed |
| CoinPurses.WrapperRemoves | src/account/account_repository_db.cpp:170-230 | through the wrapper every failure, that of the commit included, is no change |
| CoinPurses.OkIffEnough | src/account/account_repository_db.cpp:170-200 | with a server that answers, the outcome is Ok exactly when account and coins suffice |
| CoinPurses.CommittingRemovalAtomicIff | src/account/account_repository_db.cpp:170-220 | in the committing wrapper a failed removal would keep the coins if and only if the accounts were updated, a ledger row was then refused, and the next query was answered |
| Transactions.CommitAtomicIff | src/database/database.hpp:233-256 | for every callback: a failure reported by the committing wrapper leaves the tables alone unless it begun, the callback changed them and returned false, and the commit went through |
| Transactions.RollbackIsAtomic | src/database/database.hpp:258-280 | for every callback: a failure reported by the other wrapper leaves the tables alone, and both agree where the callback does not return false |
| Transactions.ExecuteRollbackOnFailure | src/database/database.hpp:258-280 | tables, answer and captured values as specified, the lock released as often as taken, whatever fails or throws |
| Transactions.ExecuteWithinTransaction | src/database/database.hpp:233-256 | the same of the wrapper that commits whatever the callback returned |
| Transactions.DBTransaction.CommitChanges | src/database/database.hpp:317-340 | commits only a started transaction; the state and the lock after success and failure |
| Transactions.DBTransaction.Rollback | src/database/database.hpp:301-315 | rolls back only a started transaction, once |
| Transactions.Database.CommitTransaction | src/database/database.cpp:205-218 | the lock is released unless there was no connection; the tables become visible only on success |
| CallArguments.SplitRecoversArguments | tools/check_lua_api_binding_docs.py:139-207 | any list of trimmed arguments balanced at every prefix, with closed strings and no top-level comma, joined by commas after the call, is recovered exactly |
| CallArguments.SplitIff | tools/check_lua_api_binding_docs.py:139-180 | the splitter succeeds exactly on argument lists and returns their arguments trimmed |
| CallArguments.BracketedIsOneArgument | tools/check_lua_api_binding_docs.py:139-180 | a list in parentheses, brackets or braces is one argument, whatever commas it holds |
| CallArguments.LiteralIsOneArgument | tools/check_lua_api_binding_docs.py:190-198 | so is a string literal with its quotes and backslashes escaped, whatever it holds |
| CallArguments.StripTrims | tools/check_lua_api_binding_docs.py:201-204 | an argument loses all white space at both ends, and only that |
| CallArguments.ScanSound | tools/check_lua_api_binding_docs.py:145-180 | whatever the loop returns, the text was such arguments, commas and a closing bracket |
| CallArguments.SplitCallArguments | tools/check_lua_api_binding_docs.py:139-180 | the loop with its depth, string and escape state computes the specified split on every line |
| CallArguments.ConsumeStringCharacter | tools/check_lua_api_binding_docs.py:190-198 | one character inside a string: appended, with the string and escape state of the specification |
| CallArguments.FindCallOpenIndex | tools/check_lua_api_binding_docs.py:183-187 | the first opening parenthesis behind the first occurrence of the call name, or -1 when there is none |

## Left out

- AsyncExecution.ExecutionRefines: the steps of the execution come in a row; what other agents do in between is covered by the invariants over all runs.
- AsyncCreature.CreatureTasks.ExecuteAsyncTasks: tasks and hook act on this creature only; what other creatures' code does meanwhile is covered by the step machine, where their changes interleave. The methods report that the creature is due instead of calling `enqueueAsyncTask`; in the machine that call is an agent of its own, which allows every order the nested call has and more.
- Creature fields are not synchronised in the source. The machine takes each member function of a creature, up to the lock of the bucket, as one step; a data race inside one is not modelled.
- AsyncTheorems.TasksRunInOrderOrAreHeld: holds of a creature that was never found removed or dead when its batch began, since the source then drops the batch on purpose; a destroyed creature loses its tasks likewise.
- AsyncTheorems.RaisedFlagReachesNextBatch: `AsyncTaskRunning` is excluded as an argument; in the source only the rollback passes it to `setAsyncTaskFlag`, to clear it, which is a step of its own.
- Exceptions in the async sections: one thrown by a task would leave the creature marked as executing, and one from container growth an entry out of its bucket; tasks are taken to return. Dispatcher lanes and deadlines are left out; when a run stops consuming is left to the interleaving.
- AsyncDrain.MovesBounded: a slice limit of zero, under which a bucket would be rescheduled for ever, is excluded, as are new tasks and flags.
- PostThinkTheorems.EachTicketHandledOnce: an id counts as executed when its turn comes; whether the monster still exists, and what its think does, is not part of this model. The compare-exchange loops of the counter are one step each, and one of the two queues is modelled.
- NodeTree.Loader.ParseTree: a node is attached to its parent when it ends, not when it starts, since nodes are values here and not storage with pointers into it; a parse that fails returns nothing in both. `FileStream`, the memory-mapped file and the reads of `PropStream` are not part of this model.
- BatchInsertTheorems.StatementsPartitionRows: speaks of runs in which every call reports success. After a failed statement the text is kept although earlier pieces were sent; `SendBatches` says exactly what was sent. Retries inside the database client are one answer here.
- TeleportGuardTheorems.SlidingWindowBounds: a key that pruning evicts starts afresh, so it is excluded; 64-bit overflow of the times and 32-bit overflow of the log counters are not modelled. The computation of keys and the log texts are left out.
- HouseEscrowTheorems.BidsConserve: like the results of `HouseBids` on bids, needs all the money and the rent once more to fit into 64 bits, unique non-empty names, and a rent that stays the same during the auction. `playerCyclopediaHouseBid` checks neither the state of the house nor stops after a failed permission check, so there is no precondition for either; the settlement at the end of an auction is left out.
- HouseEscrowTheorems.TransfersConserve: offers name the new owner as stored; `AcceptConservesIffExact` says what happens otherwise. The checks of vocation, premium and other bids are a boolean.
- MoneyGame.Game.InternalAddItem: `internalAddItem` itself is not modelled; on success it places all but the remainder, merged or not, and on an error nothing. The amounts are unbounded, so 64-bit overflow is not modelled.
- MoneyRemoval.RemoveMoney: when it returns false after a removal or a delivery failed, coins may be gone, as in the source; how many is not stated.
- MarketFunds.MarketPlayer.Withdraw: removals from the inventory are taken to succeed, and the ceiling of a division of doubles is taken exactly.
- Roster.CreatureRoster.GetById: the bounds check of the monster lookup is kept; the NPC lookup has none and needs none by `RunKeepsConsistent`. `updateMonster`, which renames a listed monster, is left out.
- CallArguments.SplitIff: Python strings are sequences of characters without surrogates; brackets are not matched by kind, as in the source.
- Trade.AcceptEnds: item moves, sight, distance and event handlers are booleans; which items then change hands is not part of this model. Calls that handlers make while items are moved are covered by `UndisturbedDuringTransfer`, calls made before that are not.
- Trade.RunKeepsUnnested: which item is inside which stays the same during a run.
- Transactions.Database.CommitTransaction: a commit that reports failure is taken not to have been applied. Reconnects are left out.
- Transactions.ExecuteRollbackOnFailure: `Threw` stands for a `std::exception`, which is all that the source catches; anything else thrown would pass through with the database lock held, and is not modelled. The same holds for `ExecuteWithinTransaction`.
- Conditions.ConditionHolder.AddCondition: counters have 16 bits, so at most 65535 conditions; the callbacks of a condition, its merging and its timing are left out.
- Combat formulas, Lua bindings, client messages, maps, outfits, configuration tables and highscores.
