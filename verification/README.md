# OmniCoin2 core in Dafny

A model of the parts of OmniCoin2 (a Graphene chain) where state, rounding and rollback interact, with proofs of what
they promise.

- `UndoState`, `UndoDatabase`, `UndoRuns`: nested undo sessions, merge, commit; runs against a database with copies.
- `Blocks`, `ForkDatabase`, `ForkRuns`, `ChainDatabase`: the block tree, branch search, pushing blocks, switching forks
  and taking failed switches back.
- `MarketState`, `MarketFills`, `MarketMatch`, `MarketIndex`, `MarketCallPrice`, `MarketInvariant`, `MarketSwan`,
  `Market`, `MarketOperations`, `MarketBids`, `MarketForced`, `MarketRuns`, `MarketMargin`: limit orders, margin
  calls, forced and global settlement, the settlement fund, bids and revival, as one state machine over balances,
  orders, positions, bids and asset records. `MarketInvariant.Inv` is what every operation keeps;
  `MarketInvariant.Conserved` says that what is held of every asset changes exactly as its supply does.
- `Vesting`, `CoreSupply`: vesting balances; fees, pay and budget of the core asset.
- `Irreversible`, `Schedule`, `Sync`: the last irreversible block, slots and the witness shuffle, the blockchain synopsis.
- `AccountIndex`: the secondary indexes over accounts.
- `Common`, `Sums`, `Arithmetic`: optional values and orders, sums over maps, rounding.

How the source is represented:

- An object whose methods change its fields is a class; tables of objects are maps in fields. Pure functions describe a
  step on values, methods are proved to do exactly that step, and lemmas say what the step keeps.
- An exception is a result (`ok`, `None`, `Thrown`). An operation that throws is undone by its session, so a failed
  operation leaves the state as it was.
- A transaction, a block and the hash part of an id are abstract: applying a block is any deterministic partial function,
  and a block id determines its block.
- Clock, randomness and permissions are parameters. All hard forks are taken as passed. Integers are unbounded except in
  the witness shuffle, which works on 64-bit words.
- Amount times price is rounded down, as the comments on rounding in db_market.cpp describe it.

Where code and documentation differ, the model follows the code:

- get_block_ids starts its answer with the last block it recognizes; its comment says after it.
- A linear vesting balance accepts deposits, although its documentation says it does not.
- force_settlement orders may have a zero amount; the pass cancels them when it comes to them.
- An account put back by undo is not reported to the secondary indexes, and an escrow agent that changed its name could
  leave a stale entry in the list of agents. Neither happens in normal operation: names are assigned only when an account
  is created, and accounts are removed only at genesis or by debug updates. `AccountIndex.Run` is about what does happen.
- The black-swan check looks at the position with the lowest call price, its comment says the least collateralized one
  (`SwanUnseen`); and a black swan does not need an offer, although the comment says so.
- A withdrawal from a coin-day balance delays the rest of it: a full period without deposits is not enough.

What the code guarantees only under a condition is stated with the condition, in both directions where not said
otherwise, and with an input where it fails: `Database.StartSession` (`StartIsLost`), `Tree.Remove`
(`RemovalBreaksALink`), `SharedEndIsATip` (`AncestorTipIsPassed`), `MakerGetsItsPrice` (`MakerLosesRemainder`),
`WhenEveryPositionCanPay` (`RoundedCheckPasses`), `NoSwanAtAll` (`SwanUnseen`; `WhenOneStandsForAnother` has both directions),
`ProcessBids` and `ReviveBitasset` (`WorthlessIsStuck`), `RevivedPositionIsNotCalled` (`ProcessCloseBid`; its
condition is sufficient, `WhenLastIsNotCalled` has both directions), `SwitchIsSafe` (`OldBranchLost`; sufficient,
`SwitchResult` is exact), `SlotsMoveDown` (`GenesisOffTheGrid`), `WhenAllIsVested` (`WithdrawingSetsBack`), `Deposit`
(`LinearDepositVestsEarly`), `Accounts.Modify` (`RenamedPastAnother`) and `Accounts.PutBack`.

## Model

| member | source | states |
|---|---|---|
| UndoState.RollbackExact | libraries/db/undo_database.cpp:95-123 | Rolling back a delta that records the way from one store to another gives back the first store exactly: objects and next-id counters. |
| UndoState.CreateRecorded | libraries/db/undo_database.cpp:47-58 | After a creation the delta still records the way back to the start of the session; the id is new. |
| UndoState.ModifyRecorded | libraries/db/undo_database.cpp:60-71 | After a modification the delta still records the way back, whatever happened to the object before in the session. |
| UndoState.RemoveRecorded | libraries/db/undo_database.cpp:73-93 | After a removal the delta still records the way back: new objects are forgotten, others kept with their oldest value. |
| UndoState.MergeRecorded | libraries/db/undo_database.cpp:125-244 | If one delta records s0 to s1 and the next s1 to s2, the merged delta records s0 to s2. |
| UndoState.MergeIsComposition | libraries/db/undo_database.cpp:125-244 | Undoing a merged state is undoing child and then parent. |
| UndoState.MergeCellsReachable | libraries/db/undo_database.cpp:144-175 | For consecutive deltas the cells marked N/A in the merge table do not occur, because ids are not reused. |
| UndoState.UnwindExact | libraries/db/undo_database.cpp:95-123 | Undoing the top k nested states restores exactly the store at the start of the k-th of them. |
| UndoDatabase.MergeDeltas | libraries/db/undo_database.cpp:180-241 | The cell-by-cell loops of merge compute the merged delta. |
| UndoDatabase.MergeUpdated | libraries/db/undo_database.cpp:180-197 | Of two old values the older one is kept; objects new in the older state need none. |
| UndoDatabase.MergeCounters | libraries/db/undo_database.cpp:203-218 | Of two recorded counters the older one is kept. |
| UndoDatabase.MergeRemoved | libraries/db/undo_database.cpp:220-241 | A removal of a new object leaves nothing; otherwise the oldest value is kept as removed. |
| UndoDatabase.Database.Create | libraries/db/include/graphene/db/index.hpp:272-279 | Creates under the next id, never a live or used one; the undo stack stays exact. |
| UndoDatabase.Database.Modify | libraries/db/include/graphene/db/index.hpp:289-297 | Replaces one object; the undo stack stays exact. |
| UndoDatabase.Database.Remove | libraries/db/include/graphene/db/index.hpp:281-287 | Removes one object; the undo stack stays exact. |
| UndoDatabase.Database.StartSession | libraries/db/undo_database.cpp:33-46 | Drops the oldest states beyond the maximum and opens one for the present store; every active session keeps its state if and only if the maximum is at least the number of sessions active before. |
| UndoDatabase.Database.TrimStack | libraries/db/undo_database.cpp:40-41 | Exactly the oldest states beyond the maximum are dropped. |
| UndoDatabase.Database.RollBackTop | libraries/db/undo_database.cpp:101-120 | The four loops together restore exactly the store at the start of the top state. |
| UndoDatabase.Database.Undo | libraries/db/undo_database.cpp:95-123 | Restores exactly the store at the start of the newest state, and drops that; throws exactly when disabled or without a session. |
| UndoDatabase.Database.Merge | libraries/db/undo_database.cpp:125-244 | Leaves the store alone and folds the newest state into the one below, from which an undo goes back to the older start; throws exactly without a session, or without a second state unless the only session is to be dropped. |
| UndoDatabase.Database.Commit | libraries/db/undo_database.cpp:245-249 | Ends the newest session and keeps its state on the stack. |
| UndoDatabase.Database.PopCommit | libraries/db/undo_database.cpp:251-287 | Takes back the newest committed state exactly. |
| UndoRuns.Run | libraries/db/undo_database.cpp:33-287 | Over every run of changes and of sessions started, undone, merged, committed and popped, the database does what one would do that keeps a copy of the store for every state. |
| UndoRuns.UndoneExact | libraries/db/undo_database.cpp:95-123 | After any run, undoing k times restores the k-th copy from the end. |
| UndoRuns.SessionRestores | libraries/db/undo_database.cpp:33-123 | Whatever is done in a session, and whatever older states are dropped below it, undoing the states opened since its start restores the store at its start, as long as no start within it finds more of these states than there is room for. |
| UndoRuns.NestedSessionsRestore | libraries/db/undo_database.cpp:33-244 | With nested sessions that are undone or merged, and room for those active together, undoing the active sessions restores the start of the outermost. |
| UndoRuns.Session | libraries/db/undo_database.cpp:33-123 | The same of the database itself, which counts the states as it goes. |
| UndoRuns.CommittedStateIsUndoneFirst | libraries/db/undo_database.cpp:245-249 | After a nested commit the next undo goes back to the start of the committed session only. |
| UndoRuns.StartIsLost | libraries/db/undo_database.cpp:40-44 | With room for one state, the third of three nested sessions costs the first one its state. |
| ForkDatabase.Tree.PushBlock | libraries/chain/fork_database.cpp:58-105 | A block is accepted exactly if it is less than the window below the head and its parent known; it is linked to its parent; the head rises, and then just the blocks in the window stay. Above the trimming floor, which becomes the highest window floor so far, every block but a root keeps its parent. |
| ForkDatabase.WindowIs | libraries/chain/fork_database.cpp:128-140 | The window of a block has the numbers that it is no more than the window size above. |
| ForkDatabase.PushedLaws | libraries/chain/fork_database.cpp:58-105 | The block is in the index, linked to its parent if new; the head only rises; only blocks that the window has passed are lost. |
| ForkDatabase.Tree.SetMaxSize | libraries/chain/fork_database.cpp:128-157 | Exactly the blocks below the window leave; links above the floor stay whole, and the floor rises to that of the window at most. |
| ForkDatabase.Tree.Trim | libraries/chain/fork_database.cpp:96-100 | Exactly the blocks below the limit leave; links above the floor stay whole. |
| ForkDatabase.Tree.LowerTo | libraries/chain/fork_database.cpp:213-224 | Follows parents down to a height along a branch, or stops above it at a dead end. |
| ForkDatabase.Tree.LowerBoth | libraries/chain/fork_database.cpp:225-233 | Walks down on both sides from the same height to the first pair of blocks with the same previous, or stops at a dead end without having passed such a pair. |
| ForkDatabase.Tree.StartBlock | libraries/chain/fork_database.cpp:47-52 | The block becomes the head without a parent link. |
| ForkDatabase.Tree.PopBlock | libraries/chain/fork_database.cpp:39-45 | The head moves to its live parent; throws exactly when there is none. |
| ForkDatabase.Tree.SetHead | libraries/chain/fork_database.cpp:242-245 | The head is set, links are not touched. |
| ForkDatabase.Tree.Remove | libraries/chain/fork_database.cpp:247-250 | The block leaves; links stay whole if and only if no block above the floor builds on it. |
| ForkDatabase.RemovalBreaksALink | libraries/chain/fork_database.cpp:247-250 | An input where a removal breaks a link. |
| ForkDatabase.Tree.FetchBranchFrom | libraries/chain/fork_database.cpp:198-240 | Succeeds if and only if both blocks are known and branches from them meet, and then finds these branches. |
| ForkDatabase.BranchesAreUnique | libraries/chain/fork_database.cpp:198-240 | There is only one pair of branches to find. |
| ForkDatabase.Tree.CommonAncestorMeets | libraries/chain/fork_database.cpp:198-240 | In a linked tree two blocks with a known common ancestor, above the floor and the roots, have such branches. |
| ForkRuns.Run | libraries/chain/fork_database.cpp:30-250 | Over every run of pushes, starts, window changes, pops and removals, the fork database and the highest window floor are those of a simple form of the steps; unless a block is removed that another one is linked to, every block above the floor but a root keeps its parent. |
| ForkRuns.FloorIsLow | libraries/chain/fork_database.cpp:128-157 | The floor never passes the smallest window below the highest block. |
| ForkRuns.FloorOfPushes | libraries/chain/fork_database.cpp:74-105 | With pushes alone the floor never passes the window below the head. |
| ForkRuns.OneRoot | libraries/chain/fork_database.cpp:74-105 | Unless blocks are started, the first block is the only root. |
| ForkRuns.RunFromStart | libraries/chain/fork_database.cpp:30-250 | In a tree built from nothing every block within the smallest window below the highest block keeps its parent, roots excepted; with pushes alone every block in the window of the head does, the first excepted. |
| ForkRuns.FetchAfterRun | libraries/chain/fork_database.cpp:198-240 | In such a tree the branches of two blocks with a common ancestor in that window are found, if no root comes above it. |
| ForkDatabase.AncestorTipIsPassed | libraries/chain/fork_database.cpp:225-238 | An input where one tip is an ancestor of the other and the search ends below it. |
| ForkDatabase.Tree.DeadEndIsRootOrFloor | libraries/chain/fork_database.cpp:204-232 | In a linked tree only started blocks, a first block, children of the zero id and blocks at the floor have no live parent. |
| ForkDatabase.MeetingBranchesAreDisjoint | libraries/chain/fork_database.cpp:198-240 | The two paths share no block but possibly the last. |
| ForkDatabase.MeetsAtLowestCommonAncestor | libraries/chain/fork_database.cpp:198-240 | When the paths end in different blocks, every common ancestor of the tips is at or below the common previous. |
| ForkDatabase.SharedEndIsATip | libraries/chain/fork_database.cpp:198-240 | The paths end in the same block if and only if one tip is an ancestor of the other. |
| ChainDatabase.ReplayIsLinked | libraries/chain/db_block.cpp:774-776 | A chain that replays is linked by previous and ends at the head. |
| ChainDatabase.Chain.HeadsOfOldBranch | libraries/chain/db_block.cpp:150-154 | Popping from the head down to the common previous takes off exactly the old branch, whose blocks are all known. |
| ChainDatabase.Chain.TryApply | libraries/chain/db_block.cpp:161-167 | A block that applies extends the chain, the state and the undo history; one that does not leaves state and chain as they were. |
| ChainDatabase.Chain.PopBlock | libraries/chain/db_block.cpp:516-528 | Takes the last block off the chain and restores the state before it; fails exactly when the head block, a live fork parent or an undo state is missing. |
| ChainDatabase.Chain.PopTo | libraries/chain/db_block.cpp:152-154 | Pops the n blocks above a block if and only if there are n undo states and n live ancestors of the fork head; otherwise how many are popped, and where the fork head is left. |
| ChainDatabase.Chain.PopOldBranch | libraries/chain/db_block.cpp:152-154 | The old branch is popped if and only if undo states and ancestors of the fork head last; otherwise what the pops up to there leave. |
| ChainDatabase.Chain.ApplyBranch | libraries/chain/db_block.cpp:156-169 | Applies a branch from its lowest block; succeeds if and only if the branch replays, and otherwise stops right below the first block that does not apply. What is left of undo states and of the fork database follows from the windows set. |
| ChainDatabase.Chain.RemoveBadBlocks | libraries/chain/db_block.cpp:171-176 | The bad block and those above it leave the fork database, no others. |
| ChainDatabase.Chain.BackToFork | libraries/chain/db_block.cpp:172-181 | The rejected block and those above it leave the fork database, and the applied part of the new branch is popped, if and only if undo states and live ancestors of the old tip last; otherwise the chain ends on that part. |
| ChainDatabase.Chain.Restore | libraries/chain/db_block.cpp:168-192 | After an invalid block the old branch is back on the old base, if and only if there are undo states for the blocks applied and as many live ancestors of the old tip; otherwise the chain ends on the new branch. Fork head, windows and block store afterwards. |
| ChainDatabase.Chain.Climb | libraries/chain/db_block.cpp:156-195 | From the fork point on: which of the three endings occurs, as a function of the state before, and what each leaves. |
| ChainDatabase.Chain.SwitchTo | libraries/chain/db_block.cpp:147-195 | Which of the four endings occurs, as a function of the state before the call, and exactly what each leaves: chain, undo states, windows, fork database and block store. A rejected switch restores chain and state. |
| ChainDatabase.SwitchIsSafe | libraries/chain/db_block.cpp:147-195 | With windows that grow with the new branch, and ancestors of the old tip in the fork database that they reach, a thrown switch leaves everything as it was. |
| ChainDatabase.UndoStatesLeft | libraries/chain/db_update.cpp:100-101 | Windows that grow with the blocks leave an undo state for every block applied. |
| ChainDatabase.LinksLeft | libraries/chain/db_update.cpp:100-101 | Windows leave the part of the fork database that they reach. |
| ChainDatabase.IrreversibleBelow | libraries/chain/db_update.cpp:100-101 | The windows of the chain grow so, as long as the last irreversible block does not pass the fork point. |
| ChainDatabase.StillThere | libraries/chain/db_block.cpp:150 | A block of the branches found is still found as a parent after it has been trimmed or removed. |
| ChainDatabase.StoringReplaces | libraries/chain/block_database.cpp:78-95 | A block that is stored takes the place of the one with its number. |
| ChainDatabase.OnlyUndoStatesMatter | libraries/chain/db_block.cpp:152-154 | The old branch can be popped if and only if there are undo states for it, when the fork head is the item of the index. |
| ChainDatabase.OneBlockLonger | libraries/chain/db_block.cpp:179-181 | For a branch one block longer that means growing windows and the block at the fork point in the fork database. |
| ChainDatabase.OldBranchLost | libraries/chain/db_block.cpp:168-192 | An input where a switch to an invalid branch loses the old one. |
| ChainDatabase.Chain.SwitchForks | libraries/chain/db_block.cpp:147-195 | The search fails if and only if no branches meet; otherwise the switch ends as SwitchTo says. |
| ChainDatabase.Chain.PushBlock | libraries/chain/db_block.cpp:133-212 | Which result occurs, as a function of the state before: refused by the fork database, applied or rejected on top, not switched, or one of the endings of a switch; and exactly what each leaves of chain, undo states, windows, fork database and block store, also after pops that failed half-way. After every push, successful or thrown, the state is the replay of a linked chain ending at the head. |
| ChainDatabase.Chain.ApplyOnTop | libraries/chain/db_block.cpp:200-209 | The block is applied, or leaves the fork database again and the state as it was. |
| MarketFills.MarketFee | libraries/chain/db_market.cpp:658-676 | The percentage of the amount, rounded down, or the maximum fee if that is less; never more than the amount. |
| MarketFills.CancelLimitTotals | libraries/chain/db_market.cpp:194-216 | Cancelling an order changes no total. |
| MarketFills.CancelLimitPays | libraries/chain/db_market.cpp:194-216 | The seller, and nobody else, gets back what is left of the order and its deferred fee. |
| MarketFills.FillLimitTotals | libraries/chain/db_market.cpp:382-424 | A fill takes `pays` out and brings `receives` in, counting market fee, deferred fee and a cancelled rest; no other total changes. |
| MarketFills.FillLimitPays | libraries/chain/db_market.cpp:382-424 | The seller, and nobody else, gets what the order earns less the market fee, which goes to the issuer of that asset, and the rest of an order too small to stay; its deferred fee becomes a pending fee. |
| MarketFills.TooSmallMeans | libraries/chain/db_market.cpp:218-242 | An order is culled exactly if what it sells is worth less than one unit at its own price. |
| MarketFills.FillLimitFrame | libraries/chain/db_market.cpp:382-424 | What is left of the order, when it goes, and what a fill does not touch. |
| MarketFills.FillCallTotals | libraries/chain/db_market.cpp:426-479 | Debt and supply go down together by what is received; collateral paid and freed adds up. |
| MarketFills.FillCallPays | libraries/chain/db_market.cpp:426-479 | The owner of the position, and nobody else, gets back what is left of the collateral once the debt is paid. |
| MarketFills.FillSettleTotals | libraries/chain/db_market.cpp:481-506 | A settlement fill takes `pays` out and brings `receives` in, market fee included. |
| MarketFills.FillSettlePays | libraries/chain/db_market.cpp:481-506 | The owner of the order, and nobody else, gets what it earns less the market fee. |
| MarketFills.CancelSettlePays | libraries/chain/db_market.cpp:179-192 | The owner of a settlement order, and nobody else, gets it back. |
| MarketIndex.FirstLimitIsBest | libraries/chain/include/graphene/chain/market_object.hpp:82-88 | The first order of the price index asks for the least, and is the oldest that does; and only that one. |
| MarketIndex.FirstCallIsLowest | libraries/chain/include/graphene/chain/market_object.hpp:181-187 | The first position of the price index has the lowest call price. |
| MarketIndex.LeastCoveredIsLeast | libraries/chain/include/graphene/chain/market_object.hpp:194-199 | The first position by collateralization has the least collateral for its debt. |
| MarketIndex.FirstBidIsBest | libraries/chain/include/graphene/chain/market_object.hpp:235-242 | The first bid offers the most collateral for the debt. |
| MarketInvariant.CrossesMeans | libraries/chain/db_market.cpp:260-262 | Orders cross exactly if each asks for no more than the other one offers. |
| MarketMatch.MatchAmounts | libraries/chain/db_market.cpp:301-331 | Neither side pays more than it has, and one side is used up. |
| MarketMatch.MatchIsAtMakersPrice | libraries/chain/db_market.cpp:301-341 | One side gives all it has and the other what that is worth at the price of the maker, rounded down. |
| MarketMatch.MakerGetsItsPrice | libraries/chain/db_market.cpp:307-331 | The maker gets its price if and only if it is not sold out or the division is exact. |
| MarketMatch.MakerLosesRemainder | libraries/chain/db_market.cpp:307-331 | An input where it does not. |
| MarketMatch.TakerLosesLessThanAUnit | libraries/chain/db_market.cpp:307-331 | A taker gets less than it asked for by under one unit. |
| MarketMatch.TakerGetsNothing | libraries/chain/db_market.cpp:307-331 | Exactly when a taker pays something for nothing. |
| MarketMatch.CallAmounts | libraries/chain/db_market.cpp:599-629 | If the whole debt can be bought for the collateral so can any part: a margin fill never pays more than the position has. |
| MarketCallPrice.CallPrice | libraries/chain/protocol/asset.cpp:120-131 | The call price is positive and both sides are legal amounts. |
| MarketCallPrice.Reduced | libraries/chain/protocol/asset.cpp:123-125 | A fraction in lowest terms has the same value. |
| MarketCallPrice.ReducedIsLowest | libraries/chain/protocol/asset.cpp:123-125 | No number but one divides both sides of the fraction. |
| MarketCallPrice.GcdIsGreatest | libraries/chain/protocol/asset.cpp:123-125 | Every common divisor divides the greatest one. |
| MarketCallPrice.Fit | libraries/chain/protocol/asset.cpp:127-128 | Halving ends with two legal amounts, and leaves a fraction that fits as it is. |
| MarketCallPrice.CallPriceMeaning | libraries/chain/protocol/asset.cpp:120-131 | As long as the fraction fits without halving, a position is above its call price if and only if its collateral at the feed is worth more than the required ratio of its debt. |
| MarketCallPrice.FitIsNear | libraries/chain/protocol/asset.cpp:127-128 | Halving, however often, moves each side by less than two units of its final scale, and that scale is bounded by the size of the fraction. |
| MarketCallPrice.CallPriceNear | libraries/chain/protocol/asset.cpp:120-131 | Also with halving: a position is above its call price if its collateral is worth more than the required ratio by 4 parts in 10^15 - 1 of the larger amount, and is not if it is worth less by as much. |
| MarketCallPrice.CallPriceTests | libraries/chain/protocol/asset.cpp:120-131 | Comparing the call price with the feed tests the collateral ratio: exactly without halving, and with it whenever there is a clear difference. |
| MarketCallPrice.SqueezePrice | libraries/chain/protocol/asset.cpp:169-179 | Positive, with both sides legal amounts. |
| MarketCallPrice.SqueezeMeaning | libraries/chain/protocol/asset.cpp:169-179 | As long as the fraction fits without halving, an offer is within the squeeze price if and only if it is within the squeeze ratio of the feed. |
| Market.Engine.AdjustBalance | libraries/chain/db_balance.cpp:53-79 | Adds to a balance; throws exactly when it would become negative. |
| Market.Engine.PayMarketFees | libraries/chain/db_market.cpp:678-694 | The fee goes to the accumulated fees of the asset received. |
| Market.Engine.CancelLimitOrder | libraries/chain/db_market.cpp:194-216 | The rest and the deferred fee go back to the seller. |
| Market.Engine.FillLimitOrder | libraries/chain/db_market.cpp:382-424 | Exactly the fill described by FillLimit; reports whether the order is gone. |
| Market.Engine.FillCallOrder | libraries/chain/db_market.cpp:426-479 | Exactly the fill described by FillCall; reports whether the position is gone. |
| Market.Engine.GloballySettleAsset | libraries/chain/db_market.cpp:43-93 | Every position of the asset is closed for its debt at the price or all its collateral; what is gathered is the fund; the supply is as before; no fill fails; totals and laws are kept. Throws exactly if settled. |
| MarketSwan.SettledTerms | libraries/chain/db_market.cpp:43-93 | Every position gives back to its owner what it does not pay, no other balance changes, and the settlement price is the whole supply for the whole fund. |
| MarketSwan.PaysItsWorth | libraries/chain/db_market.cpp:62-78 | A position pays what its debt is worth, rounded down, or all it has if that is less. |
| MarketSwan.PaysAt | libraries/chain/db_market.cpp:68-71 | A position never pays more than its collateral. |
| MarketSwan.SettledLifeCycle | libraries/chain/db_market.cpp:79-91 | A settled asset has no debts, a solvent fund, and everything held adds up to its supply. |
| Market.HighestOffer | libraries/chain/db_update.cpp:356-363 | The maximum of the feed and the first offer stands for the feed and every offer. |
| Market.Engine.FindBlackSwan | libraries/chain/db_update.cpp:330-363 | Finds a black swan if and only if neither the feed nor any offer would buy the first position's debt with its collateral. |
| Market.Engine.CheckForBlackSwan | libraries/chain/db_update.cpp:324-379 | Settles at the swan price exactly on a black swan; throws exactly when that is not allowed; otherwise changes nothing. |
| Market.Engine.FindMarginCall | libraries/chain/db_market.cpp:559-581 | Finds the first position and the first offer not yet passed, if and only if the offer can be met. |
| Market.Engine.MarginCallTurn | libraries/chain/db_market.cpp:559-641 | One turn: the first position buys from the offer at the offer's price, or the asset is settled; laws, totals and other tables are kept; something is used up. |
| Market.Engine.CheckCallOrders | libraries/chain/db_market.cpp:521-644 | Terminates; what happens is a series of margin calls, each of the first position at the first offer in range not yet passed, ended by a settlement for a black swan or if a call cannot be paid; throws on a black swan that is not allowed; keeps laws, totals and collateral in every position; changes nothing when there is nothing to do; executes a call if and only if one can be; afterwards no position at all can be called at the offer it has come to. |
| Market.NobodyCalled | libraries/chain/db_market.cpp:553-580 | If the first position cannot be called at an offer, no position can. |
| Market.MarginCalledPays | libraries/chain/db_market.cpp:599-640 | What a margin call moves: the debt bought is burned, the offer is paid at its price less the market fee, and the owner of a position without debt gets the rest of its collateral; nobody else gets anything. |
| MarketMargin.SoldOutIsPassed | libraries/chain/db_market.cpp:607-640 | The iterator moves on exactly once an offer has been sold out, and from then on after every call. |
| MarketMargin.InRangeMeans | libraries/chain/db_market.cpp:536-549 | Offers in range are those that ask for no more than the squeeze ratio over the feed. |
| MarketMargin.ProtectedMeans | libraries/chain/db_market.cpp:575-578 | The feed protects a position whose collateral is worth more than the required ratio of its debt. |
| MarketMargin.MarginCallsBypass | libraries/chain/db_market.cpp:521-644 | Margin calls never touch an offer out of range, a position of another asset or one that the feed protects. |
| MarketMargin.SwanIsFirst | libraries/chain/db_update.cpp:356-363 | A black swan is a first position whose debt neither the feed nor any offer would sell for its collateral. |
| MarketMargin.NoSwanAtAll | libraries/chain/db_update.cpp:315-324 | As long as all call prices are current for one ratio, without a black swan no position is one. |
| MarketMargin.WhenOneStandsForAnother | libraries/chain/db_update.cpp:349-363 | A position stands for another, whatever feed and offers are, if and only if it has no more collateral for its debt. |
| MarketMargin.CurrentWhenSet | libraries/chain/protocol/asset.cpp:120-131 | A call price that needs no halving is exactly the one for its amounts when it is set. |
| MarketMargin.SwanUnseen | libraries/chain/db_update.cpp:349-363 | A good state with call prices for two ratios where a position that cannot be covered goes unseen. |
| MarketMargin.SwanPaysAll | libraries/chain/db_update.cpp:375-376 | At the price of a black swan settlement the position pays just its collateral. |
| Market.Engine.MatchOrders | libraries/chain/db_market.cpp:301-341 | Exactly a match at the maker's price; each seller gets what the other gives less the market fee and nobody else gets anything; one of the two orders is gone; other orders are untouched. |
| Market.Engine.MatchAll | libraries/chain/db_market.cpp:260-271 | The resting orders that cross the new one are met in index order until it is filled or none is left. |
| Market.Engine.ApplyOrder | libraries/chain/db_market.cpp:239-288 | A new order leaves an uncrossed book uncrossed; without margin calls the outcome is exactly matching and culling; totals and laws are kept. |
| Market.Engine.CheckBoth | libraries/chain/db_market.cpp:248-251 | Margin calls in both assets of an order; nothing changes when both have nothing to do. |
| Market.Engine.CullIfSmall | libraries/chain/db_market.cpp:218-237 | An order too small to ask for anything is taken back. |
| MarketOperations.CreateLimitOrder | libraries/chain/market_evaluator.cpp:41-98 | Fails and changes nothing, or enters, matches and charges the order; succeeds whenever the seller has amount and fee and it is not fill-or-kill; a fill-or-kill order is gone afterwards. |
| MarketOperations.CancelOrder | libraries/chain/market_evaluator.cpp:100-126 | Succeeds exactly for the seller; the order is gone and refunded, margin calls follow. |
| MarketOperations.UpdateCallOrder | libraries/chain/market_evaluator.cpp:128-276 | Fails and changes nothing, or leaves the position with the amounts asked for and not up for a call, or bought out in a series of margin calls; never a global settlement: it fails if the update makes a black swan; succeeds exactly when covered, if there is no swan and no call. |
| MarketOperations.UpdatedPays | libraries/chain/market_evaluator.cpp:150-236 | What is borrowed is issued to the owner, who gives the collateral; what is repaid is burned; no other account or position is concerned. |
| MarketOperations.CoveredMeans | libraries/chain/market_evaluator.cpp:258-270 | The position is let stand if its collateral at the feed is worth more than the required ratio of its debt. |
| MarketOperations.Reposition | libraries/chain/market_evaluator.cpp:168-222 | Exactly the new amounts, supply and balances, with the call price that goes with them. |
| MarketOperations.UpdatedLaws | libraries/chain/market_evaluator.cpp:168-229 | Borrowing and repaying change debt, supply and holdings together. |
| MarketOperations.FundSuffices | libraries/chain/asset_evaluator.cpp:488-503 | A solvent fund can always pay a redemption and stays solvent; with the last of the supply it is empty. |
| MarketOperations.RedeemedWithin | libraries/chain/asset_evaluator.cpp:488-503 | The check that the fund suffices never fails for anyone who holds the amount. |
| MarketOperations.SettleAsset | libraries/chain/asset_evaluator.cpp:461-515 | Succeeds exactly for a holder of the amount if the asset is settled, or can be forced and has a feed; redeems from the fund at once, for the settlement price's worth rounded down or the whole fund for the whole supply, or places a settlement order. |
| MarketOperations.SettleGlobally | libraries/chain/asset_evaluator.cpp:434-459 | Succeeds exactly for the issuer of an asset with a supply at a price the least covered position can pay; then the asset is globally settled. |
| MarketOperations.WhenEveryPositionCanPay | libraries/chain/asset_evaluator.cpp:444-449 | All conceivable positions covered at least as well as a given one can pay in full, if and only if that one can pay without rounding. |
| MarketOperations.EveryPositionPays | libraries/chain/asset_evaluator.cpp:444-449 | If the least covered position of a state passes the test without rounding, every position of the asset pays its debt in full. |
| MarketOperations.RoundedCheckPasses | libraries/chain/asset_evaluator.cpp:444-449 | A state where the rounded check passes and a position pays two units of three. |
| MarketOperations.TwoPositionsAreGood | libraries/chain/asset_evaluator.cpp:444-449 | That state satisfies the invariant. |
| MarketOperations.BidCollateral | libraries/chain/market_evaluator.cpp:278-333 | Succeeds exactly on a settled asset with enough collateral; the bidder has given what the new bid holds and got back what the old one held. |
| MarketBids.Execute | libraries/chain/db_market.cpp:157-177 | Exactly a new position with the bid's collateral and a share of the fund; the bid is gone. |
| MarketBids.CancelBidsAndRevive | libraries/chain/db_market.cpp:119-140 | All bids on the asset are refunded to their bidders, and the settlement and fund are gone. |
| MarketBids.NewLife | libraries/chain/db_market.cpp:119-140 | When the new positions cover the supply and hold the fund, the life cycle starts anew and nothing is created or destroyed. |
| MarketBids.ReviveBitasset | libraries/chain/db_market.cpp:95-117 | Succeeds exactly unless the issuer has a bid or the fund is empty with a supply; the issuer takes over supply and fund; the empty-fund check never fails. |
| MarketBids.SelectBids | libraries/chain/db_maint.cpp:925-940 | The best bids by price, all acceptable, each still needed; ends because the supply is covered, no bid is left, or the next one is not acceptable. |
| MarketBids.BestBidsChosen | libraries/chain/db_maint.cpp:925-940 | No bid that is left out is better than one that is chosen. |
| MarketBids.AcceptableMeans | libraries/chain/db_maint.cpp:931-936 | A bid is acceptable if its collateral with its share of the fund is worth more than the required ratio of its debt. |
| MarketBids.RevivedByBidsHarmless | libraries/chain/db_maint.cpp:915-964 | A revival by bids concerns the bidders only. |
| MarketBids.ExecuteBids | libraries/chain/db_maint.cpp:942-961 | The chosen bids take over exactly the supply and exactly the fund, the last one the rest: the two final checks never fail. |
| MarketBids.RevivedPositionIsCovered | libraries/chain/db_maint.cpp:945-959 | No revived position is covered less well than its bid was found to be. |
| MarketBids.RevivedPositionIsWorthMore | libraries/chain/db_maint.cpp:928-937 | At exact call prices such a position is worth more than the required ratio of its debt. |
| MarketBids.RevivedPositionIsNotCalled | libraries/chain/db_maint.cpp:928-937 | So the call price of a revived position is below the feed; for the last one if its call price and that of its bid need no halving, or its collateral is worth clearly more than the required ratio. |
| MarketBids.WhenLastIsNotCalled | libraries/chain/db_maint.cpp:945-959 | The last position, if its own call price needs no halving, is not up for a margin call if and only if its collateral is worth more than the required ratio of its debt; with halving it is not, or is, if there is a clear difference. |
| MarketBids.NothingCalledAfterRevival | libraries/chain/db_maint.cpp:915-964 | Right after a revival by bids no margin call can be executed, under that condition. |
| MarketBids.AcceptedBidIsCalled | libraries/chain/db_maint.cpp:928-937 | However a certain good state is revived, its bid becomes a position that is up for a margin call: halving made the bid acceptable. |
| MarketBids.CloseBidIsGood | libraries/chain/db_maint.cpp:928-937 | That state satisfies the invariant. |
| MarketBids.CloseBidIsChosen | libraries/chain/db_maint.cpp:928-937 | Its bid is the one to be chosen. |
| MarketBids.ProcessCloseBid | libraries/chain/db_maint.cpp:915-964 | Processing its bids revives the asset and leaves a margin call to be executed. |
| MarketBids.ProcessBids | libraries/chain/db_maint.cpp:915-964 | Throws exactly when the settlement price is worth nothing; revives if and only if the selected bids cover the supply; all other bids are refunded. |
| MarketBids.WorthlessIsStuck | libraries/chain/db_maint.cpp:915-937 | A good state with an asset settled for nothing, which neither bids nor its issuer can revive. |
| MarketBids.PublishFeed | libraries/chain/asset_evaluator.cpp:517-595 | Accepted exactly when its revival is possible; a changed feed revives a settled asset whose fund is enough, and then a series of margin calls follows. |
| MarketBids.FundIsEnoughMeans | libraries/chain/asset_evaluator.cpp:560-590 | The fund is enough if it is worth more than the required ratio of the supply, or there is no supply. |
| MarketForced.Cap | libraries/chain/asset_object.cpp:33-44 | At most the supply before any of it was settled. |
| MarketForced.CapIsShare | libraries/chain/asset_object.cpp:33-44 | The given percentage of the supply before any of it was settled, rounded down. |
| MarketForced.OffsetIsTaken | libraries/chain/db_update.cpp:507-512 | The price of a forced settlement is the worth of the order at the feed, rounded down, less the offset, rounded down. |
| MarketForced.FilledInOneMatch | libraries/chain/db_update.cpp:507-546 | An order that one position can fill is filled at once, and its owner gets just that price less the market fee. |
| MarketForced.ForcedFillPays | libraries/chain/db_market.cpp:349-380 | The owner of the order is paid by the position, the owner of a position without debt gets the rest of the collateral, and nobody else gets anything. |
| MarketForced.EarliestIsDueFirst | libraries/chain/include/graphene/chain/market_object.hpp:214-220 | Of the orders of an asset the one due first is taken, the oldest of those. |
| MarketForced.MatchSettle | libraries/chain/db_market.cpp:349-380 | The position pays the order at the order's price for what both sides and the limit allow; a swan if and only if it could not pay; then nothing changes. |
| MarketForced.FillSettleOrder | libraries/chain/db_market.cpp:481-506 | Exactly the fill described by FillSettle. |
| MarketForced.CancelSettleOrder | libraries/chain/db_market.cpp:179-192 | The balance goes back to the owner. |
| MarketForced.PositionExists | libraries/chain/db_update.cpp:517-523 | There is always a position to settle against below the cap, because supply is debt. |
| MarketForced.FillMatured | libraries/chain/db_update.cpp:507-546 | The least covered positions fill the order in turn; afterwards it is gone or the cap is reached exactly; never more. |
| MarketForced.PassTurn | libraries/chain/db_update.cpp:440-547 | Exactly what a turn does with an order: cancel, wait or fill. |
| MarketForced.NextAsset | libraries/chain/db_update.cpp:419-435 | The next asset with orders, if there is one. |
| MarketForced.PassStep | libraries/chain/db_update.cpp:438-505 | A turn with the first order in index order makes progress: an order goes, a later asset is reached, or the cap is. |
| MarketForced.ClearSettlements | libraries/chain/db_update.cpp:412-548 | Terminates; every order left is not due or its asset is at its cap; no order of a settled asset is left; orders not due are untouched; volume and supply change by opposite amounts and stay within the cap. |
| MarketRuns.Run | libraries/chain/db_market.cpp:43-644 | Over every run of operations: nothing is created or destroyed, no two orders cross, every position has collateral, and the life cycle of market-issued assets holds; an account that does not act loses nothing, and if it has no order, position or bid, none of its balances changes. |
| MarketInvariant.StartIsGood | libraries/chain/db_init.cpp:535-683 | A market as genesis leaves it, with supplies tallied from balances, fees and collateral and market-issued assets owed by positions, satisfies the invariant. |
| MarketInvariant.StartExists | libraries/chain/db_init.cpp:535-683 | There are such markets. |
| Market.Engine.constructor | libraries/chain/db_init.cpp:535-683 | A market begins in such a state. |
| MarketRuns.RunFromStart | libraries/chain/db_market.cpp:43-644 | Over every run from there all that is held of any asset is its supply. |
| MarketRuns.WhereEverythingIs | libraries/chain/asset_evaluator.cpp:479-515 | The life cycle spelled out: unsettled, debts are the supply and there is no fund; settled, there are no debts and the fund covers the supply. |
| CoreSupply.CutFee | libraries/chain/account_object.cpp:34-45 | A percentage of an amount, rounded down. |
| CoreSupply.Treasury.DepositLazyVesting | libraries/chain/db_balance.cpp:81-130 | Adds to the given vesting balance if it suits and otherwise starts one, with the coin-seconds either calls for; the owner's vested total grows by exactly the amount; all balances stay consistent. |
| CoreSupply.Treasury.AddToVesting | libraries/chain/vesting_balance_object.cpp:207-219 | Coin-seconds earned so far are kept, and those of vested funds added. |
| CoreSupply.AddedCanBeWithdrawn | libraries/chain/db_balance.cpp:81-130 | Of what is added, all can be withdrawn at once if it need not vest, and nothing if it must. |
| CoreSupply.Treasury.DepositCashback | libraries/chain/db_balance.cpp:132-185 | The account's vested total grows by the amount, in the vesting balance that its next cashback will go to as well; for accounts of the chain the amount leaves the supply instead. |
| CoreSupply.Treasury.PayFee | libraries/chain/account_object.cpp:98-104 | A fee moves from a balance to the pending fees of its kind. |
| CoreSupply.Treasury.PayFbaFee | libraries/chain/evaluator.cpp:107-120 | The fee moves from a balance to the accumulator, or to the pending fees if the asset is not set up. |
| CoreSupply.Treasury.Owe | libraries/chain/account_object.cpp:98-104 | A fee above the threshold will have to vest, a smaller one will not. |
| CoreSupply.Treasury.PayOutFees | libraries/chain/account_object.cpp:57-86 | Network, referrer and registrar get their shares, which add up to the fee. |
| CoreSupply.FeeShares | libraries/chain/account_object.cpp:57-86 | The network gets its percentage, the referrer its percentage of the rest, the registrar what is left, and nobody else anything. |
| CoreSupply.Treasury.ProcessFees | libraries/chain/account_object.cpp:53-96 | All pending fees of the account are paid out to the last unit, first those that have to vest; others are untouched. |
| CoreSupply.Treasury.SplitFba | libraries/chain/db_maint.cpp:752-830 | The accumulated fees are split between reserve, buyback account and issuer, to the last unit; the amounts never exceed the total. |
| CoreSupply.Treasury.PayWitness | libraries/chain/db_update.cpp:104-125 | The signer is paid from the witness budget as far as it goes, into a vesting balance that the next pay goes to as well. |
| CoreSupply.Treasury.PayWorker | libraries/chain/worker_evaluator.cpp:105-125 | Where the pay of each kind of worker goes. |
| CoreSupply.Treasury.PayWorkers | libraries/chain/db_maint.cpp:113-154 | Approved workers are paid in order of votes; one who gets less than requested, or nothing, does so because nothing was left by those before. The reserve, the null account and every vesting balance get exactly what their workers were paid. |
| CoreSupply.MostVotesFirst | libraries/chain/db_maint.cpp:113-154 | A worker with more votes is never passed over for one with fewer. |
| CoreSupply.Requested | libraries/chain/db_maint.cpp:137-146 | The pay per day for the elapsed time, rounded down. |
| CoreSupply.Treasury.PayInTurn | libraries/chain/db_maint.cpp:134-153 | The loop: what is paid adds up to what is missing from the budget. |
| CoreSupply.Treasury.PayNext | libraries/chain/db_maint.cpp:136-150 | The first of the remaining workers gets what the elapsed time calls for, or what is left. |
| CoreSupply.TotalBudget | libraries/chain/db_maint.cpp:564-590 | 17 / 2^32 of the reserve for every second since the last budget, rounded up, and never more than the reserve. |
| CoreSupply.NoUntouchableReserve | libraries/chain/db_maint.cpp:581-586 | While there is a reserve some of it can be spent. |
| CoreSupply.WitnessBudget | libraries/chain/db_maint.cpp:630-634 | Never more than the budget. |
| CoreSupply.BlocksToMaintenance | libraries/chain/db_maint.cpp:621-634 | Pay for as many blocks as the time until maintenance has room for, as far as the budget goes. |
| CoreSupply.WorkerBudget | libraries/chain/db_maint.cpp:636-646 | The pay per day for the time until maintenance, rounded down, or the rest of the budget if that is less. |
| CoreSupply.Treasury.ProcessBudget | libraries/chain/db_maint.cpp:598-692 | The supply changes exactly as what is held and never passes its maximum; what the witnesses and the workers get stays within the budget, goes to the workers in order of votes and to each payee in full. |
| CoreSupply.Treasury.Run | libraries/chain/db_maint.cpp:547-692 | Over every run of fees, payouts, splits, pay, budgets, new workers and votes, supply minus holdings is constant and the supply within its maximum. |
| CoreSupply.Treasury.constructor | libraries/chain/db_init.cpp:605-772 | A treasury begins with balances, vesting balances and accumulators, whose tally is the supply, and with workers of any kind. |
| CoreSupply.GenesisExists | libraries/chain/db_init.cpp:709-772 | There is such a beginning, with a worker paid into a vesting balance and three empty accumulators. |
| CoreSupply.Treasury.HireWorker | libraries/chain/worker_evaluator.cpp:53-68 | A new worker to be paid into a vesting balance gets an empty one. |
| CoreSupply.Treasury.RunFromStart | libraries/chain/db_maint.cpp:547-692 | Over every run from there the supply is exactly what the chain keeps. |
| Irreversible.OffsetIsThreshold | libraries/chain/db_update.cpp:137-143 | The witnesses counted are the least number that is seven tenths of all. |
| Irreversible.NthElement | libraries/chain/db_update.cpp:145-149 | Partitions in place around the position and keeps every witness once. |
| Irreversible.PartitionIsHighest | libraries/chain/db_update.cpp:145-151 | The number at that position is the highest confirmed by all but the offset. |
| Irreversible.Consensus.UpdateLastIrreversible | libraries/chain/db_update.cpp:127-160 | Never moves back; where it moves to is the highest number confirmed by enough active witnesses. |
| Irreversible.Consensus.ApplyBlock | libraries/chain/db_update.cpp:119-124 | The signer confirms the new head; the last irreversible block stays at or below the head. |
| Irreversible.ListWitnesses | libraries/chain/db_update.cpp:132-135 | Every active witness once. |
| Irreversible.Run | libraries/chain/db_update.cpp:104-160 | Over every run of blocks by known witnesses, active or not, and of elections, in any order, the last irreversible block never moves back and never passes the head. |
| Vesting.AllowedWithinBalance | libraries/chain/vesting_balance_object.cpp:37-119 | No policy allows more than the balance or a negative amount: its assertions hold. |
| Vesting.TouchingIsHarmless | libraries/chain/vesting_balance_object.cpp:90-109 | Updating at an intermediate time changes nothing that can be withdrawn later. |
| Vesting.TouchingOftenIsHarmless | libraries/chain/vesting_balance_object.cpp:90-109 | However often. |
| Vesting.FullPeriodVestsAll | libraries/chain/vesting_balance_object.cpp:111-119 | One full period after the last deposit or withdrawal, and once claims have started, the whole balance can be withdrawn. |
| Vesting.WhenAllIsVested | libraries/chain/vesting_balance_object.cpp:90-119 | The whole balance can be withdrawn if and only if it is empty, or claims have started and its coin-seconds have reached the cap. |
| Vesting.WithdrawingSetsBack | libraries/chain/vesting_balance_object.cpp:131-142 | An input with a full period without deposits where a withdrawal keeps the rest from having vested. |
| Vesting.LinearVestsAll | libraries/chain/vesting_balance_object.cpp:37-68 | After cliff and duration the whole linear balance can be withdrawn. |
| Vesting.LinearVestsEvenly | libraries/chain/vesting_balance_object.cpp:37-68 | Nothing before the cliff, and then evenly over the duration, rounded down; withdrawals count against it. |
| Vesting.CoinsVestEvenly | libraries/chain/vesting_balance_object.cpp:90-119 | Coins that have earned nothing yet vest evenly over the period, rounded down. |
| Vesting.WithdrawalsAdd | libraries/chain/vesting_balance_object.cpp:132-142 | Withdrawing in two parts is withdrawing at once. |
| Vesting.VestingBalance.Deposit | libraries/chain/vesting_balance_object.cpp:207-212 | The new funds have to vest: what can be withdrawn does not change; a linear balance stays consistent if and only if it ends up with no more than it began with. |
| Vesting.LinearDepositVestsEarly | libraries/chain/vesting_balance_object.cpp:207-212 | An input where a deposit makes a linear balance inconsistent, and can be withdrawn too early. |
| Vesting.VestingBalance.DepositVested | libraries/chain/vesting_balance_object.cpp:214-219 | Just as much more can be withdrawn at once; throws exactly for a linear balance. |
| Vesting.VestingBalance.Withdraw | libraries/chain/vesting_balance_object.cpp:226-232 | Allowed exactly up to the allowed amount, which falls by as much; what has been earned never goes below zero. |
| Vesting.Run | libraries/chain/vesting_balance_object.cpp:90-142 | Over every run a coin-day balance has never earned more than its whole, and holds what was deposited and not withdrawn; all of it can be withdrawn one period after the last change. |
| Sync.PicksEndHigh | libraries/app/application.cpp:837-851 | Without appended ids a synopsis ends with exactly the highest block and has floor(log2(n)) + 1 entries. |
| Sync.PicksInRange | libraries/app/application.cpp:837-851 | The entries are strictly increasing from the lowest block on. |
| Sync.PicksLeaveSpace | libraries/app/application.cpp:837-851 | With appended ids the synopsis is the first part of the synopsis of the whole. |
| Sync.OverlapIsShort | libraries/app/application.cpp:701-708 | What a peer sends again is never more than what we have beyond the last common block. |
| Sync.AlphabetExample | libraries/app/application.cpp:701-702 | Of 26 blocks the synopsis has a, n, u, x and z. |
| Sync.GetSynopsis | libraries/app/application.cpp:738-855 | The ids at exactly those numbers of the chain to summarize; throws exactly for a reference block that is not linked or forked off too early. |
| Sync.SummarizedChain | libraries/app/application.cpp:776-830 | The chain summarized for a reference block on a fork is numbered from 1 on and ends in the reference block. |
| Sync.BranchIsForkHistory | libraries/chain/db_block.cpp:94-110 | The history of a fork is the branch found for it with the block it builds on. |
| Sync.Pick | libraries/app/application.cpp:837-849 | Ids come from our chain up to the fork and from the fork above it. |
| Sync.FindScope | libraries/app/application.cpp:741-830 | Where to begin, and up to where our chain and then the fork is followed. |
| Sync.ForkLacksFinalBlock | libraries/app/application.cpp:804-812 | A fork is refused exactly if it lacks a block that cannot be undone. |
| Sync.LowestIsLastFinal | libraries/app/application.cpp:741-760 | The synopsis begins with the last block that cannot be undone, or the first. |
| Sync.GetBlockIds | libraries/app/application.cpp:609-654 | From the last entry recognized, a contiguous run up to the limit and the right remaining count; throws exactly when none is found. |
| Sync.AnswerIsARun | libraries/app/application.cpp:644-654 | Ids in a row, no more than the limit; with what remains they reach the head, and something remains only if the limit was reached. |
| Sync.WhatIsRecognized | libraries/app/application.cpp:632-642 | The zero id and the blocks of the preferred chain, and no others. |
| Sync.FindLast | libraries/app/application.cpp:632-642 | The last entry recognized, unless one that cannot be looked up comes first. |
| Sync.Collect | libraries/app/application.cpp:644-651 | A contiguous run of ids and the number of blocks after it. |
| Sync.PeerRecognizes | libraries/app/application.cpp:630-643 | What a peer that shares our chain up to a block makes of an entry: recognized if and only if it is up to that block, and failing if and only if the peer knows it and it is above its head. |
| Sync.LastCommonEntry | libraries/app/application.cpp:630-643 | The last entry recognized is the greatest common one, if and only if the peer knows no entry above its head. |
| Sync.SynopsisForPeer | libraries/app/application.cpp:630-643 | Nothing is recognized if and only if no entry is common or the peer knows one above its head. |
| Sync.Exchange | libraries/app/application.cpp:609-855 | Throws if and only if no entry is common or the peer knows one above its head; otherwise the answer starts at the greatest entry in common, which is no further back than we are ahead. |
| Schedule.SlotRoundTrip | libraries/chain/db_witness_schedule.cpp:42-78 | The slot at the time of slot k is k. |
| Schedule.SlotBrackets | libraries/chain/db_witness_schedule.cpp:72-78 | Every time from the first slot on is bracketed by the times of its slot and the next; earlier times have none. |
| Schedule.SlotsInTheFuture | libraries/chain/db_witness_schedule.cpp:42-70 | Every slot is after the head block. |
| Schedule.SlotsMoveDown | libraries/chain/db_witness_schedule.cpp:42-70 | A block in slot k moves later slots down by k at the same times, except after genesis if and only if the genesis time is not on a slot. |
| Schedule.GenesisOffTheGrid | libraries/chain/db_witness_schedule.cpp:42-70 | An input where they do not keep their times. |
| Schedule.EveryWitnessOnce | libraries/chain/db_witness_schedule.cpp:34-40 | Any n consecutive slots under one schedule give each witness exactly one. |
| Schedule.SlotsInOrder | libraries/chain/db_witness_schedule.cpp:34-40 | The slots go through the schedule in its order, over and over. |
| Schedule.ShuffleIsPermutation | libraries/chain/db_witness_schedule.cpp:101-116 | The shuffle lists every active witness once, whatever the time. |
| Schedule.Shuffle | libraries/chain/db_witness_schedule.cpp:101-116 | The swaps in place compute the shuffle. |
| Schedule.TargetIsRemainder | libraries/chain/db_witness_schedule.cpp:112-113 | A position is swapped with one from it on, by the remainder of the random number. |
| Schedule.KeyExamples | libraries/chain/db_witness_schedule.cpp:106-110 | Three values of the random number. |
| Schedule.WitnessSchedule.Update | libraries/chain/db_witness_schedule.cpp:86-119 | Every n blocks a new schedule, determined by the active witnesses and the time alone; otherwise unchanged. |
| Schedule.NextMaintenanceIsNext | libraries/chain/db_maint.cpp:1098-1126 | The next maintenance is in the future, at most one interval away, and a whole number of intervals on. |
| AccountIndex.Accounts.Insert | libraries/chain/account_object.cpp:136-285 | After an insertion every index equals its recomputation from the accounts. |
| AccountIndex.Accounts.LookupsTell | libraries/chain/account_object.cpp:106-134 | The lookups give just the accounts with a key, an address or an account in their authorities or as memo key, and those referred. |
| AccountIndex.FirstDifference | libraries/chain/account_object.cpp:331-335 | Names are in lexicographic order. |
| AccountIndex.Accounts.Remove | libraries/chain/account_object.cpp:154-297 | After a removal every index equals its recomputation. |
| AccountIndex.Accounts.ChangeLookups | libraries/chain/account_object.cpp:172-275 | After a modification the lookups by key, address, account and referrer equal their recomputation. |
| AccountIndex.AddTo | libraries/chain/account_object.cpp:141-151 | The account is added under every item and nowhere else. |
| AccountIndex.EraseFrom | libraries/chain/account_object.cpp:159-169 | The account is erased under every item and nowhere else. |
| AccountIndex.ChangeMembers | libraries/chain/account_object.cpp:188-206 | Erasing only what was lost and adding only what is new gives the right lookup. |
| AccountIndex.DropMembers | libraries/chain/account_object.cpp:154-170 | The lookup without the removed account. |
| AccountIndex.AddReferral | libraries/chain/account_object.cpp:250-254 | The lookup by referrer with the new account. |
| AccountIndex.EraseReferral | libraries/chain/account_object.cpp:255-267 | The lookup by referrer without the account, and without empty entries. |
| AccountIndex.Accounts.Modify | libraries/chain/account_object.cpp:299-328 | The list of escrow agents follows if and only if the account was not listed or its new name keeps its place; in particular when names are fixed. |
| AccountIndex.RenamedPastAnother | libraries/chain/account_object.cpp:299-328 | A name that does not keep its place. |
| AccountIndex.Run | libraries/db/include/graphene/db/index.hpp:272-297 | Over every run of insertions, removals and changes that keep names, every index agrees with the accounts. |
| AccountIndex.Accounts.PutBack | libraries/db/undo_database.cpp:117-118 | An account put back by undo is missing from the lookup of its memo key, and from the list of agents exactly if it is one. |
| AccountIndex.PlaceKept | libraries/chain/account_object.cpp:303-328 | When exactly the old entry is found under the new name. |
| AccountIndex.ReinsertionUnnoticed | libraries/db/undo_database.cpp:117-118 | An object put back by undo is unknown to the indexes: lookups by key are wrong for every account, the list of agents exactly for agents. |
| AccountIndex.LowerBound | libraries/chain/account_object.cpp:331-335 | Binary search for the place of a name. |
| AccountIndex.MatchingIsRun | libraries/chain/account_object.cpp:337-368 | The names with a prefix are a run that starts at the place of the prefix. |
| AccountIndex.Accounts.FilterByName | libraries/chain/account_object.cpp:337-368 | Exactly the matching entries from `start` on, up to `limit`. |

## Left out

- Networking, the wallet, RPC, genesis beyond the tally of supplies, signatures, authorities, hashing and merkle roots.
- The OmniBazaar escrow, listing, bonus and exchange evaluators.
- Account white- and blacklists, transfer restrictions and asset flags: permissions are boolean parameters.
- The median of price feeds: a feed is given as the median it leads to.
- total_core_in_orders, operation history and virtual operations: bookkeeping that no modelled step reads.
- Expired limit orders are cancelled by the cancel operation; the loop over expirations is not modelled.
- Overflow of 64-bit and 128-bit integers, and the check that two deposits stay below the maximum share supply.
- Market.Engine.CheckCallOrders: an offer that is culled while the iterator points to it is simply skipped here, where the source would use an invalid iterator.
- MarketOperations.SettleGlobally: for an asset that is settled already the source reads past the end of an index in the check of the least covered position; here the operation fails.
- MarketBids.WhenLastIsNotCalled: within 4 parts in 10^15 of the required ratio nothing is said about a halved call price; it can fall on the wrong side, as in CloseCallPrices.
- The reset of forced-settlement volumes at maintenance, voting, committee and worker elections, and proposals.
- Undo of changes to secondary indexes beyond what PutBack and Run state, and the creation of assets during a run.
