# Verification of the mdh exchange core and the Chase-Lev thread pool

This project models two systems and proves properties of the models.

**The exchange core.** A command arrives at the order-entry gateway as bytes, is given a sequence number and queued for
the matching thread, passes the risk gate, and is matched against a book. The events it causes settle balances in the
ledger, go back to the account's session as execution reports, and are published as market data from which a trader
rebuilds the book. Commands are journalled and can be replayed; books can be snapshotted.

**The thread pool.** Workers with Chase-Lev deques fed by a single-producer, multi-consumer queue, and a destructor that
drains what is left.

## How it is organised

One pure model of the exchange, and the source's own objects proved against it.

| files | what they hold |
|---|---|
| `exchange_types` | ids, orders, commands, events |
| `matching_model` | every command as a function on two priority-ordered queues per instrument and a directory by (account, client order id) |
| `matching_invariants`, `matching_theorems`, `command_theorems` | what each operation, each command and each run keeps; greedy matching; fill-or-kill |
| `admission_theorems` | which commands are answered with what, what an accepted order takes and leaves resting, which replaces keep their place |
| `side_index`, `book_queues`, `matching_book` | the book as built: slab, free list, doubly linked queues, banded ladder, three bitmap levels, overflow map; it refines the two queues |
| `matching_engine`, `engine_snapshot` | the engine as built: registry by id, one book per instrument, directory of handles; it refines the command model |
| `ledger_model`, `ledger_theorems`, `gate_model`, `gate_theorems`, `ledger` | balances and holds driven by events, the risk checks, and solvency of the three together |
| `risk_theorems` | who is turned away and who is let through, and the order size limit over every run |
| `feed_model`, `feed_theorems`, `feed_publisher`, `trade_prints` | the public feed, a subscriber's depth by order id, and the trades it is shown |
| `trader_levels`, `trader_book`, `trader_feed`, `trader_agreement`, `trader_order` | the trader's books, queues and all, following the feed; what they show, and exactly when their queues stand in the exchange's order |
| `exchange_runs` | the exchange from the day it opens, in terms an outsider can check |
| `byte_codec`, `wire_codes`, `journal_codec`, `order_entry_codec`, `market_data_codec`, `wire_layout`, `journal`, `journal_damage`, `packet`, `book_snapshot`, `gateway_framing` | bytes: three message formats and where their fields stand, the journal and its replay whole or damaged, datagrams, snapshots, stream framing |
| `gateway_routing`, `gateway_delivery`, `client_view` | sessions and the routing of private reports, every interleaving; where each report goes, whose an order is, and what a client knows from its reports |
| `ring_index`, `spsc_queue`, `matching_pipeline` | the single-producer queue and the matching pipeline, every interleaving |
| `worker_deque`, `spmc_queue`, `worker_pool`, `pool_machine` | the deque, the shared queue, the pool over atomic queues, and the pool over the queues as they are, access by access; every interleaving |

Three findings. A replace never checks that its new client order id is free (`matching_engine.cpp:512-518`, `546-549`;
`ledger.cpp:143`). Taking the id of another live order leaves that order in the book with nothing to find it by, and
leaves money reserved that no hold accounts for. `CommandTheorems.DirectoryStaysComplete` and
`GateTheorems.GateKeepsSound` say exactly which replaces do this, each with a concrete instance. The engine's own
comment at `matching_engine.cpp:89-90` ("every order on a book has an entry here") is therefore not unconditional, and
`MatchingEngine.Snapshot` says when `orders_.at` would fail.

And the trader's book sends an order to the back of its level on every modify, even one that only reduces it
(`order_book.cpp:60-80`), while the exchange keeps the order in place. So the two queues part when, and only when, the
exchange reduces an order that has another behind it at its price: the last order a matching pass trades with, if only
part of it is taken, or an order replaced in place. `TraderOrder.OrderKeptExactly` says this for every command, as a
condition on the state before it; `TraderOrder.QueueOrderMayDiffer` is a run of three orders that parts them. Prices,
totals and counts never differ, whatever happens.

And a replace that keeps its client order id loses its session: the gateway files the owner under the new id and then
erases the old one, which is the same (`order_entry_gateway.cpp:446-451`). The comment at lines 309-315 promises that
no other session takes the report stream of a live order from the live session that placed it; after such a replace
the next reports go to whichever live session of the account bound first. `GatewayDelivery.OwnerKeptExactly` and
`ReplacedOrderStaysExactly` say when an order stays with its session, and `ReplaceUnderItsOwnIdLosesOwner` is a run in
which it does not.

## Model

| member | source | states |
|---|---|---|
| ExchangeRuns.NeverCrossed | mdh/src/exchange/matching/matching_engine.cpp:192-303 | from opening, after any deposits and commands, every resting bid is priced below every resting ask of its instrument |
| ExchangeRuns.NobodyOverdrawn | mdh/src/exchange/risk/risk_gated_engine.cpp:10-50 | from opening, while deposits are not negative and no replace takes another live order's id, every account has 0 <= reserved <= owned in cash and in every instrument, and reserved is the sum of its holds' claims |
| ExchangeRuns.HoldsAreTheOrders | mdh/src/exchange/ledger/ledger.cpp:119-179 | under the same conditions a hold is open for a key if and only if an order with that key rests, and it has that order's instrument, side, limit and remaining quantity |
| ExchangeRuns.NothingCreatedOrLost | mdh/src/exchange/ledger/ledger.cpp:8-12 | over every run, whatever replaces do, all cash and all units of each instrument equal what was deposited |
| ExchangeRuns.TradersSeeTheExchange | mdh/src/exchange/market_data/market_data_publisher.cpp:33-91 | after any deposits and commands, a trader whose books heard every message since opening has had none refused, and those books show for each instrument and side exactly the exchange's ladder of prices, totals and counts |
| MatchingModel.MatchLoop | mdh/src/exchange/matching/matching_engine.cpp:192-271 | a pass ends, changes nothing of the incoming order but its remaining quantity, and keeps the instrument's book registered |
| MatchingTheorems.MatchIsGreedy | mdh/src/exchange/matching/matching_engine.cpp:192-271 | a pass trades with a prefix of the contra side in price-time order, each at the resting price and within the limit, at most the last one partially, filling the smaller of the quantity and all that is crossable |
| MatchingTheorems.MatchKeeps | mdh/src/exchange/matching/matching_engine.cpp:192-271 | a whole pass keeps books ordered and uncrossed, directory entries sound, and a complete directory complete |
| MatchingTheorems.NoneReachable | mdh/src/exchange/matching/matching_engine.cpp:197-205 | when the loop stops with quantity left, no resting order is within the incoming order's limit |
| MatchingTheorems.CrossableQuantityExact | mdh/src/exchange/matching/matching_book.cpp:413-433 | the walk that stops early reaches the quantity asked for exactly when all crossable quantity does, and otherwise reports all of it |
| MatchingTheorems.FillOrKillVerdict | mdh/src/exchange/matching/matching_engine.cpp:357-372 | an otherwise valid FOK is accepted if and only if crossable quantity covers it; rejected, it changes no book and no entry and emits one InsufficientLiquidity |
| MatchingTheorems.CoveredIsFilled | mdh/src/exchange/matching/matching_engine.cpp:192-271 | a pass whose contra side covers the order leaves nothing of it and takes exactly its quantity off the contra side |
| MatchingTheorems.FillOrKillFills | mdh/src/exchange/matching/matching_engine.cpp:357-404 | an accepted FOK takes exactly its quantity off the contra side and leaves its own side and the set of live keys without it |
| MatchingInvariants.InsertKeepsBooks | mdh/src/exchange/matching/matching_engine.cpp:273-302 | resting a fresh order keeps every book in order and ids unique, and rests exactly one order more |
| MatchingInvariants.RemoveKeepsBooks | mdh/src/exchange/matching/matching_engine.cpp:436-438 | taking an order out keeps every book in order, and what rests is what rested but that one |
| MatchingInvariants.EditKeepsBooks | mdh/src/exchange/matching/matching_engine.cpp:512-514 | editing an order where it stands keeps every book in order, and swaps exactly that order for the edited one |
| CommandTheorems.ProcessKeeps | mdh/src/exchange/matching/matching_engine.cpp:305-583 | every command keeps books ordered, positive and uncrossed and every directory entry pointing at an order that answers to its key |
| CommandTheorems.DirectoryStaysComplete | mdh/src/exchange/matching/matching_engine.cpp:457-583 | after any command every resting order still has its entry if and only if the command is not a replace that files under another live id |
| CommandTheorems.DirectoryCompleteOverRuns | mdh/src/exchange/matching/matching_engine.cpp:249-302 | over a run without such replaces, orders and directory entries stay in one-to-one correspondence |
| CommandTheorems.ReplaceOntoLiveIdOrphansAnOrder | mdh/src/exchange/matching/matching_engine.cpp:512-518 | a concrete book and replace after which a resting order has no entry |
| CommandTheorems.MatchErasesReachable | mdh/src/exchange/matching/matching_engine.cpp:249-251 | a pass that leaves something of the incoming order erases exactly the entries of the orders within its reach |
| CommandTheorems.ProcessNumbers | mdh/src/exchange/matching/matching_engine.cpp:163-184 | event numbers are consecutive over everything a command emits, rejections included |
| AdmissionTheorems.NewOrderAccepted | mdh/src/exchange/matching/matching_engine.cpp:305-404 | a new order is answered first with an acceptance that repeats its account, id, instrument, side, price, quantity, type and time in force, if and only if its instrument is known, price and quantity are positive, its key is not live, and, for FOK, all crossable quantity covers it |
| AdmissionTheorems.NewOrderRefused | mdh/src/exchange/matching/matching_engine.cpp:305-372 | any other new order gets one rejection with the reason of the first condition it fails, and nothing but the event counter changes |
| AdmissionTheorems.AcceptedOrderEnters | mdh/src/exchange/matching/matching_engine.cpp:374-404 | an accepted order takes the contra side greedily under the next exchange id; what a GTC order has left joins its side behind everything at its price or better, gets its entry and is announced last; other books, entries and sides stay |
| AdmissionTheorems.AcceptedOrderTrades | mdh/src/exchange/matching/matching_engine.cpp:192-271 | the contra side loses the smaller of the order quantity and everything crossable |
| AdmissionTheorems.AcceptedIocRestsNothing | mdh/src/exchange/matching/matching_engine.cpp:273-278 | an accepted IOC or FOK leaves its own side and no entry of itself |
| AdmissionTheorems.AcceptedGtcRestsTheRest | mdh/src/exchange/matching/matching_engine.cpp:273-303 | an accepted GTC rests exactly what it could not trade, at its own price and with its own id, account and side, in its place; nothing if all traded |
| AdmissionTheorems.CancelRefused | mdh/src/exchange/matching/matching_engine.cpp:406-434 | a cancel of an unknown instrument or of no live order of that instrument changes nothing and says which |
| AdmissionTheorems.CancelRemoves | mdh/src/exchange/matching/matching_engine.cpp:436-455 | a cancel of a live order takes out that order and its entry alone, and says so to its owner and to the public |
| AdmissionTheorems.ReplaceRefused | mdh/src/exchange/matching/matching_engine.cpp:457-493 | a replace that fails a check changes nothing and carries the reason of the first check it fails |
| AdmissionTheorems.ReplaceInItsPlace | mdh/src/exchange/matching/matching_engine.cpp:510-540 | a replace at the same price for no more than is left keeps exchange id and place; quantity, client id and entry change, nothing else does |
| AdmissionTheorems.ReplaceEntersAnew | mdh/src/exchange/matching/matching_engine.cpp:542-583 | any other replace takes the old order out for good and sends the new terms in like a new order, under the next exchange id, the same side and GTC |
| AdmissionTheorems.ReplaceGoesToTheBack | mdh/src/exchange/matching/matching_engine.cpp:542-583 | of such a replace only what it cannot trade rests, at the new price, behind every other order of its side at that price or better |
| AdmissionTheorems.KeepsItsIdExactly | mdh/src/exchange/matching/matching_engine.cpp:510-511 | a replace with valid terms leaves the old exchange id in the book if and only if the price is the same and the quantity is at most what is left |
| SideIndexes.HighestBit | mdh/src/exchange/matching/matching_book.cpp:95-102 | the largest position set in a non-empty word |
| SideIndexes.SideIndex.SetOccupied | mdh/src/exchange/matching/matching_book.cpp:69-74 | marks one tick and no other, and keeps the three bitmap levels coherent |
| SideIndexes.SideIndex.ClearOccupied | mdh/src/exchange/matching/matching_book.cpp:76-89 | unmarks one tick and no other, and keeps the three levels coherent |
| SideIndexes.SideIndex.HighestOccupied | mdh/src/exchange/matching/matching_book.cpp:95-102 | the greatest occupied tick, or the band width when the ladder is empty |
| SideIndexes.SideIndex.LowestOccupied | mdh/src/exchange/matching/matching_book.cpp:104-111 | the least occupied tick, or the band width |
| SideIndexes.SideIndex.NothingBetweenBelow | mdh/src/exchange/matching/matching_book.cpp:113-137 | the climb through the three levels skips no occupied tick below the one given |
| SideIndexes.SideIndex.NothingBetweenAbove | mdh/src/exchange/matching/matching_book.cpp:139-159 | the climb skips no occupied tick above the one given |
| SideIndexes.SideIndex.Anchor | mdh/src/exchange/matching/matching_book.cpp:55-67 | re-anchoring an empty side puts the price inside the band and creates no level |
| SideIndexes.SideIndex.LevelFor | mdh/src/exchange/matching/matching_book.cpp:161-178 | the price has a level afterwards, empty if it is new, and every other level is as it was, in or out of the band |
| SideIndexes.SideIndex.EraseLevel | mdh/src/exchange/matching/matching_book.cpp:189-195 | removes this price's level and no other |
| SideIndexes.SideIndex.BestPrice | mdh/src/exchange/matching/matching_book.cpp:197-212 | the best of all prices with a level, in the ladder or outside it |
| SideIndexes.SideIndex.NextPrice | mdh/src/exchange/matching/matching_book.cpp:239-287 | the best price strictly worse than the one given, or none exactly when none is worse |
| SideIndexes.SideIndex.WalkPrices | mdh/src/exchange/matching/matching_book.cpp:197-287 | best price and then next price until there is none, on the index itself: every price with a level once, no other, in strict priority order, and it stops |
| MatchingBooks.MatchingBook.AcquireSlot | mdh/src/exchange/matching/matching_book.cpp:300-309 | the slot holds the order, was not in use, is the head of the free list if there is one, and every live order keeps its slot |
| MatchingBooks.MatchingBook.Add | mdh/src/exchange/matching/matching_book.cpp:342-348 | the order joins its side behind everything at its price or better; its handle was free, other handles still name their orders, and the other side is untouched |
| MatchingBooks.MatchingBook.RemoveAt | mdh/src/exchange/matching/matching_book.cpp:350-362 | takes exactly the order the handle names out of its side, returns it, and keeps every other handle's order |
| MatchingBooks.MatchingBook.ReduceAt | mdh/src/exchange/matching/matching_book.cpp:364-366 | changes that order's quantity where it stands in the queue and nothing else |
| MatchingBooks.MatchingBook.SetClientOrderIdAt | mdh/src/exchange/matching/matching_book.cpp:368-370 | changes that order's client id where it stands and nothing else |
| MatchingBooks.MatchingBook.BestPriceOf | mdh/src/exchange/matching/matching_book.cpp:374-386 | the price of the first order in priority order, or none for an empty side |
| MatchingBooks.MatchingBook.FrontOfBest | mdh/src/exchange/matching/matching_book.cpp:388-394 | the first order in priority order, or none for an empty side |
| MatchingBooks.MatchingBook.ReduceFront | mdh/src/exchange/matching/matching_book.cpp:396-399 | changes the first order's quantity and nothing else |
| MatchingBooks.MatchingBook.RemoveFront | mdh/src/exchange/matching/matching_book.cpp:401-411 | drops the first order of the side, its level too if that empties, and nothing else |
| MatchingBooks.MatchingBook.CrossableQuantityOn | mdh/src/exchange/matching/matching_book.cpp:413-433 | the early-stopping total over the priority order, by walking levels and links |
| MatchingBooks.MatchingBook.AllOf | mdh/src/exchange/matching/matching_book.cpp:435-448 | every order of the side, best price first and in queue order within a price |
| MatchingBooks.MatchingBook.LiveStandsOnce | mdh/include/exchange/matching/matching_book.hpp:76-100 | a live handle's slot is in the queue of its own order's side and price and in no other queue, once in its side's priority order |
| MatchingEngines.BandIsAffordable | mdh/src/exchange/matching/matching_book.cpp:225-237 | the band is zero or a power of two within its limits, and two ladders of it for every instrument fit the budget |
| MatchingEngines.BandIsWidest | mdh/src/exchange/matching/matching_book.cpp:225-237 | no wider power of two within the limits would fit the budget |
| MatchingEngines.MatchingEngine.constructor | mdh/src/exchange/matching/matching_engine.cpp:20-58 | every valid distinct instrument gets an empty book, whatever band the universe affords |
| MatchingEngines.MatchingEngine.RegisterInstrument | mdh/src/exchange/matching/matching_engine.cpp:63-86 | true exactly when the id is in range and new; then one empty book more, and no order moves; the band never widens |
| MatchingEngines.MatchingEngine.MatchIncoming | mdh/src/exchange/matching/matching_engine.cpp:192-271 | the loop over the slab book leaves the state, the incoming order and the events of the model's pass |
| MatchingEngines.MatchingEngine.RestRemainderIfApplicable | mdh/src/exchange/matching/matching_engine.cpp:273-303 | only a GTC remainder rests; book, directory entry and event are the model's |
| MatchingEngines.MatchingEngine.HandleNewOrder | mdh/src/exchange/matching/matching_engine.cpp:305-404 | state and events are those of the model's new order, whose acceptance, reasons and outcome AdmissionTheorems states without it |
| MatchingEngines.MatchingEngine.HandleCancel | mdh/src/exchange/matching/matching_engine.cpp:406-455 | state and events are the model's for every cancel |
| MatchingEngines.MatchingEngine.HandleReplace | mdh/src/exchange/matching/matching_engine.cpp:457-583 | state and events are those of the model's replace, whose two outcomes, and when each, AdmissionTheorems states without it |
| MatchingEngines.MatchingEngine.RenameEntry | mdh/src/exchange/matching/matching_engine.cpp:512-518 | the order keeps its place with its new quantity and id, and its entry moves to the new key |
| MatchingEngines.MatchingEngine.Handle | mdh/src/exchange/matching/matching_engine.cpp:148-161 | the engine built of slab books refines the model on every command, and stays valid; the band is not observable |
| MatchingEngines.MatchingEngine.Snapshot | mdh/src/exchange/matching/matching_engine.cpp:88-146 | lists instruments in id order with their orders in priority order, omitting empty ones; there is none exactly when some resting order lost its entry |
| MatchingEngines.RegisterKeeps | mdh/src/exchange/matching/matching_engine.cpp:63-86 | registration keeps books, entries and a complete directory |
| EngineSnapshots.SnapshotUnique | mdh/src/exchange/matching/matching_engine.cpp:129-138 | engines with the same orders and directory have equal snapshots, whatever empty books they also have |
| EngineSnapshots.SnapshotDeterminesBooks | mdh/src/exchange/matching/matching_engine.cpp:114-146 | engines with equal snapshots hold the same orders in the same priority |
| LedgerTheorems.OpenHoldExact | mdh/src/exchange/ledger/ledger.cpp:52-69 | opening a hold keeps reservations the sum of the holds if and only if the key had no hold |
| LedgerTheorems.CloseHoldExact | mdh/src/exchange/ledger/ledger.cpp:71-81 | releasing a hold keeps reservations the sum of the holds that are left |
| LedgerTheorems.SettleLegExact | mdh/src/exchange/ledger/ledger.cpp:83-117 | settling one side of a trade keeps reservations the sum of the holds |
| LedgerTheorems.SettleSupply | mdh/src/exchange/ledger/ledger.cpp:83-117 | one leg moves the total of cash and of the instrument by the trade's amounts, with the sign of its side, and nothing else |
| LedgerTheorems.ApplyConserves | mdh/src/exchange/ledger/ledger.cpp:156-179 | no event changes the total of any commodity over all accounts |
| LedgerTheorems.TradeMovesExactly | mdh/src/exchange/ledger/ledger.cpp:83-117 | for every account and commodity: a trade moves quantity times price from buyer to seller and the quantity from seller to buyer, and frees what each order had locked for it, the buyer at its own limit |
| LedgerTheorems.OrderEventMovesExactly | mdh/src/exchange/ledger/ledger.cpp:119-159 | for every account and commodity: any other event moves nothing owned, and acceptance, cancel and replace move exactly the reservation of the order they are about |
| Ledgers.Ledger.Observe | mdh/src/exchange/ledger/ledger.cpp:161-179 | every event updates balances and holds as the ledger model says, and no other state |
| Ledgers.Ledger.SettleOneLeg | mdh/src/exchange/ledger/ledger.cpp:83-117 | one leg of a trade, with or without a hold behind it |
| Ledgers.Ledger.OpenHoldFor | mdh/src/exchange/ledger/ledger.cpp:52-69 | the hold and the reservation behind it |
| Ledgers.Ledger.ReleaseHold | mdh/src/exchange/ledger/ledger.cpp:71-81 | the reservation is given back at the hold's own limit and the hold is gone |
| Ledgers.RiskGatedEngine.CheckNewOrder | mdh/src/exchange/risk/risk_engine.cpp:7-24 | the reason of the first failing check, which RiskTheorems.NewOrderAtTheGate states condition by condition |
| Ledgers.RiskGatedEngine.CheckReplacement | mdh/src/exchange/risk/risk_engine.cpp:26-54 | the reason the first failing check of a replace gives, with the old hold credited |
| Ledgers.RiskGatedEngine.Handle | mdh/src/exchange/risk/risk_gated_engine.cpp:10-50 | engine and ledger objects together refine the gate model on every command |
| RiskTheorems.NewOrderAtTheGate | mdh/src/exchange/risk/risk_engine.cpp:7-24 | a new order is turned away at the first of unknown instrument, quantity over the limit, cash or units short, leaving books, directory and ledger; otherwise the engine sees it, exact equality included |
| RiskTheorems.LetThroughExactly | mdh/src/exchange/risk/risk_engine.cpp:12-21 | within the limit, a new order is let through if and only if its account would have nothing below zero available after reserving for all of it |
| RiskTheorems.AcceptedExactly | mdh/src/exchange/risk/risk_gated_engine.cpp:10-50 | gate and engine accept a new order if and only if the engine can take it, it is within the limit and its account can reserve for it |
| RiskTheorems.ReplaceAtTheGate | mdh/src/exchange/risk/risk_engine.cpp:26-54 | a replace is turned away at the first of unknown instrument, quantity over the limit, too little available for what it needs beyond the old hold; one that names no hold is left to the engine |
| RiskTheorems.ReplaceLetThroughExactly | mdh/src/exchange/risk/risk_engine.cpp:38-51 | for an account not overdrawn a replace is let through if and only if the new terms are affordable once the old hold is given back |
| RiskTheorems.CancelAtTheGate | mdh/src/exchange/risk/risk_gated_engine.cpp:10-50 | a cancel is never turned away by the gate |
| RiskTheorems.GateKeepsTheLimit | mdh/src/exchange/risk/risk_engine.cpp:8-10 | no command makes the exchange accept or replace an order above the limit, and no order comes to rest above it |
| RiskTheorems.LimitKeptFromOpening | mdh/src/exchange/risk/risk_engine.cpp:26-29 | from opening, nothing above the limit is ever accepted and no order ever rests above it |
| GateTheorems.BackedFillNeverLowers | mdh/src/exchange/ledger/ledger.cpp:83-117 | a fill backed by a hold at a limit no worse than the trade price never lowers what its account has available, of anything |
| GateTheorems.BackedMatchNeverLowers | mdh/src/exchange/ledger/ledger.cpp:83-159 | nothing available to anyone falls over a whole pass of a GTC order |
| GateTheorems.FillAffords | mdh/src/exchange/risk/risk_engine.cpp:7-24 | one trade overdraws nobody, and leaves an order without a hold able to pay for the rest of itself at its limit |
| GateTheorems.OneOrderPerKey | mdh/include/exchange/matching/matching_engine.hpp:178-189 | with a complete directory no two resting orders, of any instruments, answer to one account and client id |
| GateTheorems.MatchKeepsSound | mdh/src/exchange/matching/matching_engine.cpp:192-271 | a whole pass keeps holds following orders and the ledger exact and solvent after every one of its events, self-trades and unbacked sweeps included |
| GateTheorems.ReplacedLedgerSound | mdh/src/exchange/ledger/ledger.cpp:126-145 | after its OrderReplaced the ledger is exact and solvent if and only if the replace does not take another live id |
| GateTheorems.GateKeepsSound | mdh/src/exchange/risk/risk_gated_engine.cpp:10-50 | for every command: exact and solvent at every event if and only if it is not such a replace; and then holds are again exactly the resting orders |
| GateTheorems.SoundOverRuns | mdh/src/exchange/risk/risk_gated_engine.cpp:10-50 | the same over any run of deposits and commands without such a replace |
| GateTheorems.ConservedOverRuns | mdh/src/exchange/ledger/ledger.cpp:83-159 | over any run at all, every commodity's total changes by what was deposited and nothing else |
| GateTheorems.ReplaceOntoHeldIdLeaksReservation | mdh/src/exchange/ledger/ledger.cpp:126-145 | a concrete sound exchange and a replace after which 45 of cash is reserved with no hold to account for it |
| FeedTheorems.FillKeepsUp | mdh/src/exchange/market_data/market_data_publisher.cpp:62-91 | a subscriber in step stays in step over one fill, partial or full |
| FeedTheorems.MatchKeepsUp | mdh/src/exchange/market_data/market_data_publisher.cpp:33-91 | and over a whole matching pass |
| FeedTheorems.SubscriberKeepsUp | mdh/src/replay/replay_engine.cpp:20-45 | and over every command: no message is refused and the subscriber again knows exactly the resting orders, by id, side, price and quantity |
| FeedTheorems.SubscriberKeepsUpOverRuns | mdh/src/replay/replay_engine.cpp:20-45 | and over every run |
| FeedPublishers.MarketDataPublisher.Publish | mdh/src/exchange/market_data/market_data_publisher.cpp:33-48 | the message is the event's translation under the current number, which moves only if there is one; SubscriberKeepsUp and PrintsAreTheTrades say what the translation means |
| FeedPublishers.FeedNumbers | mdh/src/exchange/market_data/market_data_publisher.cpp:50-91 | published messages are numbered consecutively, whatever private events lie between |
| TradePrints.PrintsAreTheTrades | mdh/src/exchange/market_data/market_data_publisher.cpp:82-91 | the trade messages of a feed are one for one and in order the trades of the events, with their instrument, price, quantity and aggressor side |
| TradePrints.PassShows | mdh/src/exchange/market_data/market_data_publisher.cpp:82-91 | the prints of a pass show a prefix of the contra side at the resting prices, the incoming side as aggressor, whole orders but for the last, and in all what the pass filled |
| TradePrints.NewOrderShows | mdh/src/exchange/market_data/market_data_publisher.cpp:82-91 | and for an accepted new order they show in all the smaller of its quantity and what it can reach |
| TradePrints.ReplaceShows | mdh/src/exchange/market_data/market_data_publisher.cpp:82-91 | and so for a replace that gives up its place |
| TraderBooks.OrderBook.AddOrder | mdh/src/book/order_book.cpp:35-47 | refuses a bad price, a bad quantity or a known id without change; else the order joins the back of its level and the index |
| TraderBooks.OrderBook.CancelOrder | mdh/src/book/order_book.cpp:49-58 | refuses an unknown id without change; else removes that order, and its level if that empties |
| TraderBooks.OrderBook.ModifyOrder | mdh/src/book/order_book.cpp:60-80 | refuses without change; else the order leaves its place and joins the back of the level at the new price |
| TraderBooks.OrderBook.ApplyMessage | mdh/src/replay/replay_engine.cpp:20-45 | a feed message does to the book's orders what the feed model says, trades doing nothing |
| TraderBooks.OrderBook.Best | mdh/src/book/order_book.cpp:88-102 | none for an empty side; else the best price with its level's total and count |
| TraderBooks.OrderBook.Top | mdh/src/book/order_book.cpp:104-120 | the first n lines of the side's ladder, or all if there are fewer |
| TraderBooks.OrderBook.All | mdh/src/book/order_book.cpp:122-140 | every order, level by level from the best, in queue order |
| TraderLevels.AddedLevelOk | mdh/include/book/price_level.hpp:25-29 | an order joining the back of a level keeps the running aggregate the sum of what is queued |
| TraderLevels.RemovedLevelOk | mdh/include/book/price_level.hpp:31-34 | an order leaving from any place keeps it the sum of what is left |
| TraderLevels.HeardContents | mdh/src/replay/replay_engine.cpp:20-45 | a message applied to the queues changes the orders by id as the feed model says, refusals included |
| TraderFeeds.BookManager.BookFor | mdh/include/book/book_manager.hpp:28 | the instrument's book, empty if it is new, and no other book changes |
| TraderFeeds.BookManager.ApplyEvent | mdh/src/replay/replay_engine.cpp:20-45 | one message changes the book it names as heard, and no other; a trade changes none; refused exactly when the depth model refuses it |
| TraderFeeds.BookManager.ApplyAll | mdh/src/replay/replay_engine.cpp:106-133 | a whole feed, in sequence: books and number of refusals are those of the model |
| TraderFeeds.HeardAllHolds | mdh/src/replay/replay_engine.cpp:20-45 | after any feed the books hold, by id, what the depth model makes of the same feed |
| TraderAgreement.FollowingPutsInStep | mdh/src/replay/replay_engine.cpp:20-45 | a book with the contents the feed gives holds what the exchange's book holds |
| TraderAgreement.LevelsAgree | mdh/src/book/order_book.cpp:88-120 | at every price the two books have the same orders, the same total and the same count |
| TraderAgreement.DisplayedDepthIsExact | mdh/src/book/order_book.cpp:88-120 | the ladder a trader shows is, line for line, the exchange's |
| TraderOrder.ModifyKeepsPlaceOnlyAtTheBack | mdh/src/book/order_book.cpp:60-80 | an order modified at its own price keeps its place if and only if it was the last of its queue |
| TraderOrder.AddAgrees | mdh/src/book/order_book.cpp:7-17 | a newcomer leaves every queue as the exchange has it |
| TraderOrder.RemoveAgrees | mdh/src/book/order_book.cpp:19-33 | so does an order leaving from any place |
| TraderOrder.EditAgrees | mdh/src/book/order_book.cpp:60-80 | an order edited in place on the exchange leaves every queue as the exchange has it if and only if no order of its price is behind it |
| TraderOrder.FillInOrder | mdh/src/exchange/matching/matching_engine.cpp:249-269 | one fill keeps every queue in the exchange's order if and only if it takes all of the front order, or nothing of that price is behind it |
| TraderOrder.MatchInOrder | mdh/src/exchange/matching/matching_engine.cpp:249-269 | a matching pass keeps every queue in the exchange's order if and only if it does not end by reducing an order with another behind it at its price |
| TraderOrder.OrderKeptExactly | mdh/src/replay/replay_engine.cpp:20-45 | after any command every queue is the exchange's, order for order, if and only if the command reduces no such order, by fill or by replace |
| TraderOrder.OrderKeptOverRuns | mdh/src/replay/replay_engine.cpp:20-45 | over a run without such commands every queue stays the exchange's, order for order |
| TraderOrder.QueueOrderMayDiffer | mdh/src/book/order_book.cpp:60-80 | from opening, two offers at one price and a bid for part of the first: in order before the bid, not after |
| ByteCodec.GetPut | mdh/include/common/byte_io.hpp:31-46 | reading the big-endian bytes of a value that fits gives it back |
| ByteCodec.PutGet | mdh/include/common/byte_io.hpp:69-97 | any bytes are the big-endian spelling of the value read from them, which fits |
| ByteCodec.PutBytes | mdh/include/common/byte_io.hpp:36-46 | the shift loop appends the big-endian bytes |
| ByteCodec.ByteReader.Get | mdh/include/common/byte_io.hpp:56-108 | reads one field and moves past it, or reads nothing and stays when the span is too short |
| ByteCodec.RecordRoundTrip | mdh/include/common/byte_io.hpp:27-108 | records of fields decode to what was encoded, signed fields included |
| ByteCodec.RecordReverse | mdh/include/common/byte_io.hpp:27-108 | and re-encode to the bytes they were decoded from |
| JournalCodec.DecodeEncode | mdh/src/exchange/persistence/command_decoder.cpp:40-168 | every in-range frame, followed by anything, decodes to itself |
| JournalCodec.EncodeDecode | mdh/src/exchange/persistence/command_encoder.cpp:13-67 | every accepted frame re-encodes to its bytes, but for the sequence field a registration discards |
| OrderEntryCodec.DecodeEncode | mdh/src/protocol/order_entry/decoder.cpp:69-292 | every in-range message of the eight types, followed by anything, decodes to itself |
| OrderEntryCodec.EncodeDecode | mdh/src/protocol/order_entry/encoder.cpp:32-112 | every accepted message re-encodes to the bytes it was read from |
| MarketDataCodec.DecodeEncode | mdh/src/protocol/decoder.cpp:28-164 | every in-range feed message, followed by anything, decodes to itself |
| MarketDataCodec.EncodeDecode | mdh/src/protocol/encoder.cpp:24-63 | every accepted feed frame re-encodes to the bytes it was read from |
| WireLayout.JournalLayout | mdh/src/exchange/persistence/command_encoder.cpp:13-67 | each journal frame is these fields, of these widths, back to back, each most significant byte first |
| WireLayout.EntryLayout | mdh/src/protocol/order_entry/encoder.cpp:32-112 | so each order-entry message |
| WireLayout.FeedLayout | mdh/src/protocol/encoder.cpp:24-63 | so each feed frame |
| WireLayout.DatagramLayout | mdh/src/net/packet.cpp:9-24 | a datagram is its header, magic, version, count, number and length, and then its frames |
| WireLayout.SnapshotLayout | mdh/src/replay/snapshot.cpp:32-61 | a snapshot file is its header, magic, version, number and count, and then a frame per order |
| Journals.JournalWriter.constructor | mdh/src/exchange/persistence/command_journal_writer.cpp:7-20 | the file starts with one registration frame per instrument, in order |
| Journals.JournalWriter.Write | mdh/src/exchange/persistence/command_journal_writer.cpp:22-26 | the file is longer by the command's frame |
| Journals.JournalReader.Next | mdh/src/exchange/persistence/command_journal_reader.cpp:10-38 | one frame or error at the front of what is left, none at a clean end, and the bytes it consumed |
| Journals.ReadWritten | mdh/src/exchange/persistence/command_journal_reader.cpp:10-38 | reading in front of a written frame gives the frame and leaves what follows |
| Journals.RunCommandReplay | mdh/src/exchange/persistence/command_replay.cpp:21-49 | for any bytes, the replayed engine, events and counts are those of the replay function, stopping or skipping at errors as asked |
| Journals.ReplayReproduces | mdh/src/exchange/persistence/command_replay.cpp:21-49 | replaying a written journal gives the state and events of an engine built with the universe and given the commands |
| JournalDamage.JournalThen | mdh/src/exchange/persistence/command_replay.cpp:21-49 | whatever follows a journal, replay runs all of its commands, counts them and the new instruments, and goes on from there |
| JournalDamage.TornJournal | mdh/src/exchange/persistence/command_journal_reader.cpp:10-38 | a journal whose last frame was cut short anywhere replays to the run of the commands written whole, and stops early if errors are to stop it |
| JournalDamage.SpoiledJournal | mdh/src/exchange/persistence/command_replay.cpp:28-37 | a spoiled frame in the middle costs only itself when errors are skipped and ends the replay where it stands when they are not |
| Journals.ReplayedSnapshotAgrees | mdh/src/exchange/matching/matching_engine.cpp:114-146 | and the same snapshot, though the two engines size their ladders differently |
| Packets.UnpackPack | mdh/src/net/packet.cpp:9-93 | unpacking a packed batch gives it back if and only if it has from 1 to 65535 messages |
| Packets.PackUnpack | mdh/src/net/packet.cpp:26-93 | a datagram accepted with every frame good is the packing of those messages, byte for byte |
| Packets.EachFrameItsOwn | mdh/src/net/packet.cpp:60-93 | a datagram is accepted for its framing alone: each frame carries its own result, and one that does not decode spoils no other |
| Packets.PackFrames | mdh/src/net/packet.cpp:9-24 | header with truncated count, then the frames |
| Packets.UnpackFrames | mdh/src/net/packet.cpp:26-93 | the frames, bad ones in place as errors, or the first reason to refuse the datagram |
| BookSnapshots.AppendSide | mdh/src/replay/snapshot.cpp:14-28 | one frame per order of the side, in listing order |
| BookSnapshots.ReadBooks | mdh/src/replay/snapshot.cpp:92-125 | the books the entries rebuild, or none at the first entry that is short, malformed, not an add, or refused |
| BookSnapshots.RebuildBook | mdh/src/replay/snapshot.cpp:116-125 | adding a book's listing to an empty book is never refused and rebuilds every queue in order |
| BookSnapshots.ReadAfterWrite | mdh/src/replay/snapshot.cpp:32-128 | reading a written snapshot gives its sequence number and, for every instrument, the same queues in the same order |
| BookSnapshots.FileAcceptedExactly | mdh/src/replay/snapshot.cpp:63-128 | a file is accepted as a snapshot if and only if it is a header with the right magic, version and zero word followed by as many AddOrder frames as it says, all taken by fresh books |
| BookSnapshots.SameQueuesSameContents | mdh/src/book/order_book.cpp:122-140 | books with the same queues know the same orders by id |
| GatewayFraming.DrainInTwo | mdh/src/exchange/gateway/order_entry_gateway.cpp:130-147 | draining early and again when more has arrived is draining once at the end |
| GatewayFraming.AnyTwoChunkings | mdh/src/exchange/gateway/order_entry_gateway.cpp:116-147 | any two ways of slicing one stream into reads give the same messages and the same leftover bytes |
| GatewayFraming.MalformedDropsOnlyItself | mdh/src/exchange/gateway/order_entry_gateway.cpp:141-146 | a frame with a sound header and bad content costs nothing but itself |
| GatewayFraming.UnknownTypeHoldsTheRest | mdh/src/exchange/gateway/order_entry_gateway.cpp:129-134 | a header of an unknown type is waited on for good: what came before it is read, nothing after it ever is, however sliced |
| GatewayFraming.ClientToGateway | mdh/src/exchange/gateway/order_entry_gateway.cpp:113-147 | what a client encoded is what the gateway reads, with nothing left over, however it was sliced |
| GatewayFraming.Connection.OnRead | mdh/src/exchange/gateway/order_entry_gateway.cpp:116-147 | one read appends, takes every complete frame and ends; messages and buffer are the drain's |
| GatewayRouting.StepKeeps | mdh/src/exchange/gateway/order_entry_gateway.cpp:187-467 | every step of any session or of the matching thread keeps the routing maps and queues in order |
| GatewayRouting.ReportsReachOnlyTheirAccount | mdh/src/exchange/gateway/order_entry_gateway.cpp:353-467 | in every reachable state, queued reports name the account their session is bound to, the maps name only sessions bound to the right account, and reports are retained only while all of an account's listed sessions are closed |
| GatewayRouting.BindingIsForever | mdh/src/exchange/gateway/order_entry_gateway.cpp:187-205 | no step ever rebinds a bound session |
| GatewayRouting.UnbindLists | mdh/src/exchange/gateway/order_entry_gateway.cpp:207-231 | unbinding takes the session, and only it, out of its account's list |
| GatewayRouting.FirstLiveIs | mdh/src/exchange/gateway/order_entry_gateway.cpp:376-389 | the fallback is a live session of the list, and there is none only if none is live |
| GatewayDelivery.ReportGoesTo | mdh/src/exchange/gateway/order_entry_gateway.cpp:353-421 | a report goes to the live owner of its order, else to the live session of the account that bound first, else is retained as the newest of at most the capacity; a full queue drops it; nothing else changes |
| GatewayDelivery.BindHandsOver | mdh/src/exchange/gateway/order_entry_gateway.cpp:187-205 | the next session to bind is handed all retained reports of its account in order |
| GatewayDelivery.ClosedHearsNoMore | mdh/src/exchange/gateway/order_entry_gateway.cpp:364-389 | a closed session never comes back and is handed no further report; what waits for it only leaves from the front |
| GatewayDelivery.ClaimTakesFree | mdh/src/exchange/gateway/order_entry_gateway.cpp:269-317 | a first claim makes an unowned id the session's own, a later one changes nothing |
| GatewayDelivery.OwnerKeptExactly | mdh/src/exchange/gateway/order_entry_gateway.cpp:423-467 | an order keeps its session over a step if and only if the step is not that session unbinding, the order rejected with nothing held, cancelled, filled or replaced, or another session's order replaced under its id |
| GatewayDelivery.ReportsFollowTheOrder | mdh/src/exchange/gateway/order_entry_gateway.cpp:309-317 | over any run without such a step, every report about the order is handed to the session that placed it while that lives |
| GatewayDelivery.ReplacedOrderStaysExactly | mdh/src/exchange/gateway/order_entry_gateway.cpp:441-451 | a replaced order stays with its session under the new id if and only if that differs from the old id |
| GatewayDelivery.ReplaceUnderItsOwnIdLosesOwner | mdh/src/exchange/gateway/order_entry_gateway.cpp:446-451 | a concrete run in which a replace that keeps its id takes the order from its live session, so that another is told of its next fill |
| ClientViews.ClientKnowsItsOrders | mdh/src/exchange/gateway/order_entry_gateway.cpp:511-585 | from opening, while no replace takes a live id, an account that notes its reports knows exactly which of its orders rest, with instrument, side, limit and what is left |
| ClientViews.BothPartiesTold | mdh/src/exchange/gateway/order_entry_gateway.cpp:560-583 | both parties to a trade are told of it about their own orders, with the instrument, price and quantity of the public print |
| ClientViews.ReportsNameTheOrder | mdh/src/exchange/gateway/order_entry_gateway.cpp:514-559 | any other report is of the kind of its event, under the same ids |
| RingIndexes.WrapThenMask | mdh/include/common/spsc_queue.hpp:48-51 | masking a wrapped index is masking the index, because the capacity divides the word |
| RingIndexes.SlotsApart | mdh/include/common/spsc_queue.hpp:65-96 | indices less than a capacity apart live in different cells |
| SpscQueues.NextPowerOfTwo | mdh/include/common/spsc_queue.hpp:117-123 | the least power of two not below the capacity asked for, 0 counting as 1 |
| SpscQueues.StepKeeps | mdh/include/common/spsc_queue.hpp:67-96 | every access by either side, stale view or not, keeps the ring in order |
| SpscQueues.PopsAPrefix | mdh/include/common/spsc_queue.hpp:67-114 | in every interleaving, what is popped is a prefix of what is pushed, and occupancy <= high-water mark <= capacity, across index wrap |
| SpscQueues.EmptyExactly | mdh/include/common/spsc_queue.hpp:86-91 | a pop answers empty if and only if everything pushed has been popped, across index wrap |
| SpscQueues.FullExactly | mdh/include/common/spsc_queue.hpp:67-72 | a push answers full if and only if pushed less popped is the capacity |
| SpscQueues.PushGoesThrough | mdh/include/common/spsc_queue.hpp:67-82 | a push that finds room publishes its item in the producer accesses alone |
| SpscQueues.PopGoesThrough | mdh/include/common/spsc_queue.hpp:86-96 | a pop that finds an item returns the oldest one in the consumer accesses alone |
| SpscQueues.SlotsAreOwned | mdh/include/common/spsc_queue.hpp:73-94 | the producer constructs only in an empty cell, never the one the consumer is on, and the consumer always finds a value |
| MatchingPipelines.ProcessedInSequence | mdh/src/exchange/sequencing/matching_pipeline.cpp:16-34 | in every interleaving the processed commands carry 1..k with no gap, are a prefix of those pushed, and state and events are the engine's on them |
| MatchingPipelines.RecheckNeverFails | mdh/src/exchange/sequencing/matching_pipeline.cpp:45-69 | after the size check passes, the push always finds room: no sequence number is wasted |
| MatchingPipelines.RefusedExactlyWhenFull | mdh/src/exchange/sequencing/matching_pipeline.cpp:45-56 | submit refuses a command if and only if the queue holds as many as it can |
| MatchingPipelines.SubmitGoesThrough | mdh/src/exchange/sequencing/matching_pipeline.cpp:45-69 | a command submitted while there is room is queued behind all others under the next number |
| MatchingPipelines.MatcherGetsOn | mdh/src/exchange/sequencing/matching_pipeline.cpp:16-34 | a matching thread that is popping while a command is queued processes the next command in order by its own accesses alone |
| WorkerDeques.StepRefines | ChaseLevThreadPool/WorkerDeque.hpp:37-124 | each memory access is an atomic push at one end, pop at the same end, steal at the other, or nothing |
| WorkerDeques.StepConserves | ChaseLevThreadPool/WorkerDeque.hpp:60-124 | after each access the pushed items are those queued, in hand and taken, each once |
| WorkerDeques.EveryItemTakenAtMostOnce | ChaseLevThreadPool/WorkerDeque.hpp:37-124 | in every interleaving of one owner and any number of thieves, no item is taken twice, and every pushed item is taken, in hand or queued |
| WorkerDeques.NothingOverwrittenUnclaimed | ChaseLevThreadPool/WorkerDeque.hpp:40-46 | a push never stores over an item that is still queued |
| WorkerDeques.StaleCheckIsSafe | ChaseLevThreadPool/WorkerDeque.hpp:33-43 | with any stale top the check passes only if there is room; with a fresh one it fails only if there is none |
| WorkerDeques.StealGivesUpExactly | ChaseLevThreadPool/WorkerDeque.hpp:106-114 | a steal whose top is current gives up if and only if nothing is queued but what a pop under way has drawn bottom back over |
| WorkerDeques.StealGoesThrough | ChaseLevThreadPool/WorkerDeque.hpp:106-124 | left alone with an item and no pop under way, a thief takes the front one |
| SpmcQueues.ConsumersTakeAPrefix | ChaseLevThreadPool/GlobalSPMCQueue.hpp:29-67 | in every interleaving the items taken are a prefix of those pushed, in order, each once, and the rest are intact in the ring |
| SpmcQueues.StepRefines | ChaseLevThreadPool/GlobalSPMCQueue.hpp:29-67 | each memory access is an atomic push at the back, a pop at the front, or nothing |
| SpmcQueues.EmptyMeansEmpty | ChaseLevThreadPool/GlobalSPMCQueue.hpp:54-57 | a consumer answers empty only when the ring was empty as it looked |
| SpmcQueues.FreshCheckIsExact | ChaseLevThreadPool/GlobalSPMCQueue.hpp:29-40 | a push let through has room, and one that saw the latest top is refused if and only if the ring is full |
| SpmcQueues.FreshLookIsExact | ChaseLevThreadPool/GlobalSPMCQueue.hpp:48-57 | a consumer whose position is current answers empty if and only if the ring is empty |
| SpmcQueues.PopGoesThrough | ChaseLevThreadPool/GlobalSPMCQueue.hpp:48-67 | left alone on a ring with an item it takes the oldest |
| WorkerPools.StepConserves | ChaseLevThreadPool/WorkerPool.hpp:191-246 | over atomic queues, every step of worker, producer or destructor keeps each submitted task in exactly one place |
| WorkerPools.ExecutedExactlyOnce | ChaseLevThreadPool/WorkerPool.hpp:67-246 | over atomic queues, no task is executed twice, and when the destructor is done every submitted task has been executed once |
| WorkerPools.WorkersStay | ChaseLevThreadPool/WorkerPool.hpp:191-194 | no worker leaves its loop before the destructor has begun |
| WorkerPools.LoneWorkerGetsOn | ChaseLevThreadPool/WorkerPool.hpp:191-238 | while any task is queued, a worker left alone executes one: its own newest, else the oldest submitted, else the oldest of the nearest neighbour that has any |
| WorkerPools.DrainShrinks | ChaseLevThreadPool/WorkerPool.hpp:88-127 | every step of the destructor's drain leaves less to do |
| PoolMachines.PopDecides | ChaseLevThreadPool/WorkerDeque.hpp:60-98 | a pop is decided at one access, and whatever happens until it returns it returns what was decided |
| PoolMachines.StepKeeps | ChaseLevThreadPool/WorkerPool.hpp:67-246 | every single access of every thread to ring and deques, stale reads and failed races included, keeps queues and threads in order |
| PoolMachines.StepFollows | ChaseLevThreadPool/WorkerPool.hpp:191-238 | each such access is one step of the pool over atomic queues, or none |
| PoolMachines.PopsForCause | ChaseLevThreadPool/WorkerPool.hpp:195-200 | in the pool of accesses a worker goes past its own deque only when its pop found nothing, and otherwise runs what the pop won |
| PoolMachines.TakesForCause | ChaseLevThreadPool/WorkerPool.hpp:201-203 | it goes past the shared ring only when that is empty, and otherwise takes the front item |
| PoolMachines.PushesForCause | ChaseLevThreadPool/WorkerPool.hpp:204-211 | it keeps a task to itself only when its deque has no room by the top it saw, and otherwise queues it and pops again |
| PoolMachines.StealsForCause | ChaseLevThreadPool/WorkerPool.hpp:218-232 | it goes past a peer only when the item it looked at was claimed, there was none, or a pop under way has drawn bottom back over the only one; otherwise it runs the front task |
| PoolMachines.ExecutedExactlyOnce | ChaseLevThreadPool/WorkerPool.hpp:67-246 | in every interleaving of every access, no task is executed twice and none that was not submitted, and when the destructor has returned each submitted task has been executed exactly once |
| PoolMachines.WorkerCanMove | ChaseLevThreadPool/WorkerPool.hpp:191-238 | a worker still in its loop always has a next access it can make, whatever the other threads are doing |
| PoolMachines.DestructorCanMove | ChaseLevThreadPool/WorkerPool.hpp:67-128 | once begun, the destructor always has a next access or decision, unless it waits for a worker to leave its loop |
| PoolMachines.DrainShrinks | ChaseLevThreadPool/WorkerPool.hpp:88-127 | every access and decision of the drain, but a compare-and-swap failing for no reason, leaves less to do, so the drain ends |

## Left out

- Machine integers: prices, quantities, ids and balances are unbounded; `quantity * price`, `base_ + band_ticks_ - 1` and the sums over a level do not overflow. The slab stays below 2^32 - 1 slots, `kNil` is -1, and bitmap words are sets of positions 0 to 63. Only the codecs, the packet count and the ring indices carry their widths.
- Event sinks: an operation returns the list of its events instead of calling a sink. The engine never reads the ledger, so applying events after the command is applying them one by one; the state after every single event is still covered by `SoundThroughout`.
- Allocation: memory pools, reservations of capacity, hash functions, alignment and object lifetimes.
- `out_of_band_levels`, `state_hash`, replay statistics and progress: introspection.
- `std::list` and `std::map` iterators in the trader's book: an order's location is found by its id. Trade statistics of the book manager. `BookSnapshots.ReadBooks` fills a map of book values rather than of book objects.
- Sequence validation and gap recovery on the trader's side, positions, strategies, risk on the trader's side: short one-branch logic.
- Sockets, files, threads, clocks, HTTP, the user interface, applications and benchmarks: files and streams are byte sequences, clocks are a function parameter.
- Memory ordering: the queues' steps are sequentially consistent, except that a capacity check may read any older position of the other side, and a consumer may start from any older position, where the source says that is harmless.
- Exceptions from tasks and futures are not modelled; `submit` does not race destruction, as the source requires.
- `MatchingPipeline.stop` draining everything queued: the loop pops first and looks at the stop request afterwards (`matching_pipeline.cpp:19-26`), so a push followed by a stop between those two is missed. The processed-prefix property is what holds.
- Gateway grain: each region under `sessions_mutex_` is one step, and `closed` is read inside it. Account-mismatch rejections through `session_outbound` and the writer's socket are left out.
- `order_owner_` as exactly the live orders: discarded IOC remainders emit no closing event, so entries can linger. `GatewayDelivery.OwnerKeptExactly` says what each step does to an entry. A retained report arriving before a live one is not claimed either, because the writer checks the two queues in separate steps.
- Simulated matching delay and custom processors of the pipeline.
- The other programs of the repository: `LimitOrderBook`, `OrderManagementSystem`, the mutex-based `ThreadPool` and the container exercises. The book and the pool here supersede the first and third; the rest would only add easy members.
- The trader's listings are grouped by level, where the source returns one flat list in the same order.
