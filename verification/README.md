# Lighter market-data ingestor: a verified model

The service keeps one order book per Lighter market from WebSocket messages, stores every message
and periodic book snapshots in a table, stores trades, and polls settled funding. This project
models that logic in Dafny and proves what a reader of the tables relies on, over every run: message
loss, repeats and reordering, reconnects, and a crash at any point.

Check everything with `dafny verify dfyconfig.toml --resource-limit 2000000`.

## How the model is built

| module | content |
|---|---|
| `Decimals` | exact decimals with their text form; integer comparison against a real-number meaning |
| `Levels` | one side of a book as a map from price value to level; what snapshots and deltas mean on it |
| `Book` | the two ordered maps as objects updated in place (`Side`, `OrderBook`), proved against `Levels` |
| `Ingest` | messages, rows, one loop turn (`Step`), a process with all its reconnects (`Run`) |
| `Messages` | when a message is applied and what it leaves, field by field; which rows a run emits |
| `Session` | the ingestion objects as they run (`MarketBook`, `Ingestor`), proved against `Step` and `Run` |
| `Log`, `Reader` | how a symbol's rows link up; replay, the reader's nonce check, lost rows, crashes |
| `Exchange`, `Truth` | agreement of every live book and row with the exchange's book; readers of truthful rows |
| `Projection`, `Spelling` | independence of markets; independence of how decimals are written |
| `Export` | `(time, id)` order and the hours cut |
| `Trades`, `Writer`, `Pipeline` | insert-or-ignore, the writer task and its channel, and the whole path to the durable table |
| `Calendar` | the range of timestamps in years |
| `Hours`, `Funding`, `RateLimit` | the hourly grid, page validation, the poller with its paging loop and its sleep, pacing |
| `GapFree`, `FundingServer` | stored history without gaps, and a server for every history that meets what is assumed there |
| `Quoting` | the symbol filter's quoting against an SQL literal lexer |

A row that is emitted carries, for the proofs, the market state in memory at that moment (`Emit`).
`Run` is total: a failed step ends the connection and the next one starts without books. The state
kept in memory is a map keyed by price value, so equal prices written differently are one key. A
`Life` or a `Process` is one process that may die at any time; the table is what all of them
committed, in id order.

Assumptions are hypotheses of the lemmas that need them, never built in: that market ids map to
different symbols (`Injective`, from the unique columns of `symbols`), that messages are truthful
(`Truthful`), that deltas raise nonces (`DeltasRaiseNonces`, only for some incomplete logs), that a
timer visits each live market once (`Legal`), that the funding server appends to an hour-aligned
history and answers with the first page of the window (`Honest`, `Settled`), and that clocks are
bounded or do not run backwards where a lemma says so. `FundingServer` shows that the assumptions
about the funding server can be met for every history, and follows a poll of two pages through a
history that grows between them.

Three findings about the code:

- `README.md:74` of the repository tells readers to replay in `(time, id)` order. That order is the
  emission order exactly when no connect snapshot is older than the row of its symbol before it
  (`Export.ExportIsEmissionOrderIff`); the code does not compare the times of connect snapshots, and
  a reconnect can break the order (`Export.ReconnectCanReorder`). Within the rows of one connect
  snapshot the order always holds, and id order always replays. For truthful messages a replay in
  any order that passes the nonce check is still the exchange's book (`Truth.CheckedTableReplays`).
- The nonce check of an incomplete log is sound exactly when every delta fits each earlier row that
  carries its begin nonce (`Reader.CheckIsSoundIff`); the code compares a delta with the row before
  it only. Two runs of the service break it: nonces that return within a connection
  (`Reader.ReusedNoncesDefeatCheck`), and a lost connect snapshot after a reconnect
  (`Reader.LostConnectSnapshotDefeatsCheck`). It is sound when deltas raise the nonce and no connect
  snapshot is lost in front of a kept delta (`Reader.CheckedSubLogReplays`), and for any loss when
  nonces never return over the whole log except with the same book
  (`Reader.NoncesThatNeverReturnFit`).
- The next funding start is the first hour after the newest row unless that row lies in the last
  second before an hour (`Hours.NextStartIff`); settlements carry whole seconds, so this never
  happens.

## Model

| member | source | states |
|---|---|---|
| Decimals.CompareIsValueOrder | src/book.rs:45-51 | comparing two decimals at a common scale orders them exactly by value, so keys are totally ordered up to equality of value |
| Decimals.PointTextParses | src/book.rs:45-51 | a number written with any sign, leading zeros and exactly k digits after the point, zeros among them included, is read as that number |
| Decimals.WholeTextParses | src/book.rs:45-51 | a whole number written with any sign and leading zeros is read as that number |
| Decimals.DecimalIff | src/book.rs:45-51 | which texts are decimals: sign, digits with at most one point, optional exponent, scale within 64 bits; all others fail |
| Decimals.ZeroIsValueZero | src/book.rs:57 | a size is zero in any spelling exactly when its value is zero |
| Decimals.TrailingZerosKeepValue | src/book.rs:120-125 | zeros appended to a fraction, or a fraction of zeros on a whole number, with or without exponent, spell the same number as long as the scale fits |
| Decimals.ExponentScales | src/book.rs:120-125 | an exponent multiplies by its power of ten, so zero stays zero with any exponent |
| Levels.LevelIsRead | src/book.rs:45-51 | a level is readable iff price and size text both are decimals; the price gives the key, and it removes iff the value of its size is zero |
| Levels.WrittenLevel | src/book.rs:45-51 | for levels written with a point, key and size are the written numbers |
| Levels.ApplySideIsLastWriteWins | src/book.rs:65-75 | a delta succeeds iff every level can be read; at every price it leaves the last mention, nothing for a zero, the old level otherwise, and on failure the same for the readable prefix |
| Levels.SnapshotIsLastMention | src/book.rs:53-63 | a side is built iff every level can be read and has a size other than zero, and it then holds exactly the last mention of each price |
| Levels.DeltasCompose | src/book.rs:65-75 | applying two deltas is applying their concatenation, with the failure of the first stopping the second |
| Levels.DeltaIsIdempotent | src/book.rs:65-75 | a readable delta applied twice changes nothing the second time |
| Levels.DisjointDeltasCommute | src/book.rs:65-75 | deltas that mention no common price commute |
| Levels.LaterDeltaAbsorbs | src/book.rs:65-75 | a later delta hides an earlier one whose prices it mentions again |
| Levels.ListingsAreOrdered | src/book.rs:34-42 | bids are listed strictly downwards and asks strictly upwards by price value |
| Levels.ListingRebuilds | src/book.rs:53-63 | a snapshot listing a side in any order rebuilds exactly that side |
| Levels.RespellingKeepsPrices | src/book.rs:53-75 | respelling prices or zero sizes changes neither success nor which prices exist |
| Book.Side.Insert | src/book.rs:71 | the sorted entries stay sorted and denote the map with this one price set |
| Book.Side.Remove | src/book.rs:69 | the sorted entries stay sorted and denote the map without this price, also when it is absent |
| Book.SideFromSnapshot | src/book.rs:53-63 | the loop builds the snapshot's side, the last duplicate winning, and fails on an unreadable level or a zero size |
| Book.ApplyLevels | src/book.rs:65-75 | the in-place loop leaves the side and the outcome of the delta, including the partial side of a failure |
| Book.SnapshotBookIs | src/book.rs:22-27 | a snapshot makes a book iff all levels of both sides can be read and have sizes; bids and asks are their own last mentions |
| Book.DeltaBookIs | src/book.rs:29-32 | a delta succeeds iff all levels can be read; otherwise exactly the levels before the first unreadable one count, asks only after all bids |
| Book.OrderBook.FromSnapshot | src/book.rs:22-27 | a book exists iff both sides can be built |
| Book.OrderBook.ApplyDelta | src/book.rs:29-32 | bids change first; a bad ask fails after the bids have changed |
| Book.OrderBook.Bids | src/book.rs:35-37 | the bids of the book from the highest price down |
| Book.OrderBook.Asks | src/book.rs:40-42 | the asks of the book from the lowest price up |
| Book.SnapshotRoundTrip | src/book.rs:22-42 | writing a book out and reading it back as a snapshot gives the same book |
| Ingest.ChannelRoundTrip | crates/lighter-rs-types/src/orderbook.rs:74-83 | the id after the first colon of a channel is read back, negative ones too, whatever stands before and after a second colon, and is refused beyond 32 bits |
| Ingest.FailureIsConfined | src/ws.rs:344-381 | a failed message changes nothing, except that an unreadable delta level may change the book of its own market |
| Messages.MessageIsApplied | src/ws.rs:319-397 | a message is applied iff its time is valid and, for a snapshot, all levels have sizes, for a delta, its begin nonce is the stored one, its time not older and all levels readable; row and state then carry its own time, nonces and levels |
| Messages.MessageIsRefused | src/ws.rs:344-371 | any other message changes nothing, but for the levels of its market in front of an unreadable one |
| Messages.FrameIsHandled | src/ws.rs:294-314 | a frame without market id fails, one of an unknown market is skipped and the connection goes on, any other leaves one row iff its message is applied |
| Messages.RowsAreMessages | src/ws.rs:170-243 | apart from periodic rows a run emits exactly one row per applied frame, in order, with the fields of its message |
| Messages.MicrosRange | src/ws.rs:457-460 | the accepted times reach from the start of the year -262143 to the end of 262142 |
| Ingest.MissingBooksInOrder | src/ws.rs:246-252 | each subscription without a book is listed in its place and as often as it was asked for |
| Ingest.MissingBooksShrink | src/ws.rs:246-252 | within a connection books are never lost, so the set of markets to resubscribe only shrinks |
| Session.MarketBook.SnapshotRow | src/ws.rs:282-292 | the row shows the book with the nonce and source time of the last applied message |
| Session.MarketBook.Advance | src/ws.rs:367-372 | nonce and time move only when the whole delta was applied |
| Session.Ingestor.ApplyOrderbookMessage | src/ws.rs:319-382 | the in-place code computes the books and the row of `ApplyMessage`, leaving other markets alone |
| Session.Ingestor.HandleFrame | src/ws.rs:294-314 | one frame is one `Step`: unknown markets are skipped, a success sends one row |
| Session.Ingestor.WritePeriodicSnapshots | src/ws.rs:264-280 | the loop sends the rows of a tick in iteration order and changes no book |
| Session.Ingestor.Serve | src/main.rs:174-191 | the process sends exactly the rows of `Run`, with fresh books after each failure |
| Log.RunTracks | src/ws.rs:170-243 | in every run each symbol's rows are linked and the last row of a live market shows its book |
| Log.LiveBooksListInOrder | src/ws.rs:282-292 | the periodic row of any live book is in strict price order without zero sizes and reads back as that book |
| Reader.DurableLogReplays | README.md:66-74 | over all processes, reconnects and crashes: snapshot first, unbroken nonce chain, and replay from any snapshot to any later row gives the book in memory at that row |
| Reader.EmitsShowMemory | src/ws.rs:264-314 | the state noted with each row is the market's book after the step that emitted it |
| Reader.CheckIsSoundIff | src/ws.rs:354-373 | every sub-log that passes the nonce check replays to the book in memory iff each delta fits every earlier row that carries its begin nonce |
| Reader.CheckedSubLogReplays | migrations/2026-10-27-000006_orderbook_begin_nonce/up.sql:1-4 | if deltas raise the nonce, a sub-log that passes the check replays exactly whatever rows of its connections are lost, as long as no connect snapshot is lost in front of a kept delta |
| Reader.NoncesThatNeverReturnFit | README.md:68 | if nonces never return over all connections, other than with the same book, any rows can be lost |
| Reader.ReusedNoncesDefeatCheck | src/ws.rs:354-360 | a run of four messages on one connection whose nonces return defeats the check |
| Reader.LostConnectSnapshotDefeatsCheck | src/ws.rs:167-170 | a run with a reconnect defeats the check although nonces rise within each connection |
| Reader.PeriodicRowsAreRedundant | src/ws.rs:261-280 | dropping periodic rows changes neither the check nor the replayed book |
| Reader.FailedFrameLeavesNoTrace | src/ws.rs:167-170 | a failed frame, even half applied, affects no later row and no later book: the run equals one whose connection just ended there |
| Exchange.LiveBooksAgree | crates/lighter-rs-types/src/orderbook.rs:58-63 | under any loss, repeat or reordering of truthful messages every live book and every emitted row equals the exchange's book at its nonce |
| Truth.CheckedTruthReplays | README.md:74 | truthful rows of one market, in any order and with any losses and repeats, that pass the nonce check replay to the exchange's book at the last nonce |
| Truth.CheckedTableReplays | README.md:66-74 | so do any rows of the durable table after all processes and crashes, if the messages were truthful |
| Truth.CheckedExportReplays | README.md:74 | so does the table in `(time, id)` order, with or without the hours cut, even where a reconnect reordered rows |
| Projection.RunSeen | src/ws.rs:264-382 | any run restricted to one market is that market's own run: same books, rows, order and connections |
| Projection.TickCoversLiveMarkets | src/ws.rs:264-280 | a tick never fails on an unknown market and writes exactly one row for each live market |
| Spelling.RunSpelling | src/book.rs:45-75 | runs whose messages differ only in decimal spelling emit the same rows and hold the same prices throughout |
| Spelling.SamePricesSameOrder | src/book.rs:34-42 | books with the same prices list them in the same order |
| Export.ExportListsEachRowOnce | src/export.rs:62-64 | every row at or after the cutoff is listed once, and rows stand by time, then id |
| Export.SegmentsKeepEmissionOrder | src/export.rs:239 | from each connect snapshot to the next, `(time, id)` order is emission order |
| Export.ExportIsEmissionOrderIff | src/export.rs:239 | a symbol's export is in emission order iff its connect snapshots never go back in time |
| Export.CutExportReplays | src/export.rs:57-70 | under that condition replay from any snapshot of the export, with or without the hours cut, is exact |
| Export.ExportShowsSuffix | src/export.rs:62-64 | under that condition the hours cut leaves a suffix of a symbol's rows, and no cut leaves all |
| Export.DurableExport | src/export.rs:57-70 | the results on order, cut and replay hold of the durable table after any processes and crashes |
| Export.ReconnectCanReorder | src/ws.rs:326-342 | a reconnect with an older snapshot violates that condition |
| Trades.BatchingDoesNotMatter | src/lib.rs:45-52 | any flush schedule leaves the table of inserting all rows at once |
| Trades.TableHoldsFirstRows | migrations/2026-09-21-000002_trades_ws_and_dedup/up.sql:1-8 | a row is stored iff no row before it has the same time, symbol and trade id, and no two stored rows agree in all three |
| Writer.WriterTask.Flush | src/ws.rs:89-128 | the batch is split by kind and written, trades first, and is empty afterwards |
| Writer.SplitOne | src/ws.rs:94-101 | each message is one row of its kind, handed on unchanged |
| Writer.WriterTask.Take | src/ws.rs:65-86 | a message waits in the batch until it is the 128th; a timer tick or the closed channel flushes |
| Writer.MessagesInOrder | src/ws.rs:65-86 | messages before the channel closes count once and in order, and nothing after |
| Writer.StepsFollowTask | src/ws.rs:65-128 | the steps of the action system batch and flush as the task does |
| Writer.TradesAreStoredFirst | src/ws.rs:106-112 | at every crash point the order-book table is that of some first messages sent whose trades are all stored |
| Writer.CrashCanLoseAll | src/ws.rs:57-128 | the bound of 128 + 1024 lost rows is reached |
| Writer.WriterTask.Run | src/ws.rs:57-87 | tables and batch together hold all received messages in order; the batch stays below capacity and is empty after close |
| Writer.PipelineConserves | src/ws.rs:57-128 | in every interleaving, for each kind: committed, being written, batched and queued rows are the rows sent, in order |
| Writer.CrashKeepsPrefix | src/main.rs:155 | a crash leaves a prefix of the rows sent and loses at most 128 + 1024 of them |
| Pipeline.StoredRowsReplay | README.md:66-70 | the stored table after any lives of the service, in id order, passes the check per symbol and replays to the books held in memory |
| Pipeline.StoredRowsReplayInTimeOrder | README.md:74 | in `(time, id)` order it is the same sequence iff connect snapshots never go back in time, and then it passes the check and replays to the books held in memory |
| Hours.FloorHourIsGreatest | src/funding.rs:134-137 | the greatest whole hour at or below any instant, negative and sub-second ones included |
| Hours.CeilHourIsLeast | src/funding.rs:139-146 | the least whole hour at or above any instant |
| Hours.NextStartIff | src/funding.rs:118-126 | the next start is the first hour after the newest row iff the row is not in the last second before an hour |
| Hours.NextStartAfterSettlement | src/funding.rs:110-112 | for whole-second settlements it always is |
| Hours.RequestsAreAccepted | src/funding.rs:130-132 | a request that passes the hour check has a rounded end at or after its rounded start |
| Funding.ParsingIsAllOrNothing | src/funding.rs:47-78 | a response is accepted iff its code is 200, its resolution is 1h and every entry has a time in range, a decimal rate and a direction; row i then has entry i's own time, rate and direction |
| Funding.StoredRowsWereAnswered | src/funding.rs:45-78 | against any server, every stored row has the time, rate and direction of an entry answered for its symbol, not before the window asked for and not in the future |
| Funding.RefusedPageFails | src/funding.rs:187-188 | a failed request or a page that is out of range or not strictly increasing fails the poll and stores nothing |
| Hours.AcceptedIff | src/funding.rs:114-117 | rounding a window inwards leaves it non-empty iff some whole hour lies in it |
| Funding.ValidatePage | src/funding.rs:83-108 | accepts exactly the pages that increase strictly and lie between start and now |
| Funding.PollingEnds | src/funding.rs:183-214 | against any server, a bounded clock bounds the number of requests and the loop ends by itself |
| Funding.EveryRequestIsAccepted | src/funding.rs:114-117 | with a non-decreasing clock no request of any poll has an empty window |
| Funding.FundingPoller.FetchPage | src/funding.rs:217-246 | one request is sent and logged, and before the next can be sent the sleep has passed, unless the request failed |
| Funding.FundingPoller.Poll | src/funding.rs:172-215 | the loop computes the poll of `PollMarket`, run to its end, and keeps its requests spaced |
| Funding.FundingPoller.PollMarkets | src/funding.rs:164-166 | one round visits the markets in order, stops at the first failure, and is a part of the service's life |
| Funding.FundingPoller.Serve | src/funding.rs:152-170 | over all rounds, markets and pages no 60-second window holds more than 55 requests, 56 with the symbol request at startup |
| GapFree.PageKeepsNoGaps | src/funding.rs:181-213 | storing one page extends the stored history without a gap and the next start continues it |
| GapFree.FundingHasNoGaps | README.md:56 | in every reachable state the stored rows are exactly the server's settlements from the anchor hour to the newest stored one |
| GapFree.PollStoresEverything | src/funding.rs:183-214 | against a fixed history with n settlements left, the paging loop ends, stores all of them and makes at most n / 750 + 1 requests |
| GapFree.PollCatchesUp | src/funding.rs:172-215 | one poll from any stored state without gaps leaves exactly the whole history from the anchor on, and other markets' rows alone |
| FundingServer.HonestServerExists | src/funding.rs:1-8 | every readable history that only grows has a server as `GapFree.FundingHasNoGaps` assumes, one that answers every request it must accept |
| FundingServer.SettledServerExists | src/funding.rs:1-8 | every readable fixed history has a server as `GapFree.PollStoresEverything` assumes |
| FundingServer.GrowingHistoryIsPaged | src/funding.rs:181-214 | one poll stores all 1001 settlements of a history that grows between its two pages |
| RateLimit.RequestRateIsBounded | src/funding.rs:25-27 | requests spaced as the poller spaces them are at most 55 in any 60-second window, 56 with the symbol request |
| RateLimit.WindowCanHoldAll | src/funding.rs:25-27 | 55 requests at the exact spacing do fit into one window |
| Quoting.ConditionRoundTrip | src/export.rs:89-94 | lexing the rendered filter as SQL literals yields exactly the requested names |

## Left out

- WebSocket, TLS, HTTP, JSON and task scheduling: a frame is a parsed message or a failure, and scheduling is any choice of the next step.
- Trade frames and ping frames in the receive loop: they touch no book; a trade frame that fails counts as `Unreadable`, and trade rows enter the model at the writer's channel.
- Trade prices and sizes are reals: floating-point rounding is not modelled.
- The database beyond its contracts: atomic statements, ids in insertion order, key conflicts ignored, exact `max(time)`, the trade type check; data retention is not modelled.
- A failing `tx.send`: the writer stops only with the process.
- Symbol synchronisation and the symbol table: only the map from market id to symbol id is used.
- The sequence column is an integer here because the code always fills it; rows written before the nonce migration are not modelled.
- Digit separators in decimals (underscores), which the decimal library also accepts, and the overflow check of very large exponents beyond the 64-bit scale.
- The ordered map's inner tree: entries are a sorted sequence.
- The panic of hour rounding at the very ends of the timestamp range.
- Funding.FundingPoller.Serve: runs any finite number of rounds, not one endless loop; the pause between rounds is part of the arbitrary time before a request.
- Parquet writing, file handling and the check that requested symbol names exist.
- Session.Ingestor.Serve: takes its events as a list, so it covers every finite run, not one infinite run.
