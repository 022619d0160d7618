# Packet logger: a Dafny model

The packet logger is a proxy plugin. It counts every intercepted network packet by
packet name, in a window of time. At a fixed interval it writes the window's
counters into the SQLite table `batched_packets`. It also records once per packet
name whether that name is sent by the server (outgoing) or by the client
(incoming), in the table `packet_bound`. A Python script reads both tables back.
It sums the counts per packet name and per minute or hour, and it draws them as
stacked bars.

This project models the core of both halves and proves properties of them.

- `CommitRule.dfy` models the commit rule of `BatchedPacketsService.flush`, where it
  commits and what a failure leaves behind. It is generic in the row type.
- `PacketLog.dfy` holds the values the service works on: packets, counters, bound
  writes and rows. It also holds what `add` and `flush` compute, stated as
  functions: the tally of a window, the first sightings of a history, and the rows
  of a flush. The lemmas about them are here too.
- `PacketService.dfy` models `BatchedPacketsService` as a class that changes its
  state step by step.
  - Its fields are the packet-name cache (`packetBoundCache`), the packet queue
    (`packetQueue`) and the submitted bound writes.
  - The database is a `Store` object. It holds committed rows and rows staged since
    the last commit.
  - The invariant `Valid` ties the fields to the ghost history of packets and to the
    current window.
- `StringOrder.dfy` models Python's ordering of `str` and insertion into a sorted
  list. It proves that the sorted list of a set of keys is unique.
- `Graph.dfy` models the data shaping of `scripts/graph.py`:
  - the query text for a filter and a granularity;
  - grouping the result rows into `period -> name -> total`;
  - the zero-filled series per name over the sorted periods;
  - the checks at the script's entry point.

Some things the real system depends on are parameters of the model:

- the iteration order of the queue's key set;
- the point at which `flush` meets an `SQLException` (`CommitRule.Fault`);
- the flush timestamp `nowMs`;
- the rows the database returns for a query text.

A flush is not one transaction. `flush` commits after rows 1, 16, 31, … and
once more at the end, so an `SQLException` rolls back only the rows staged since
the last commit. `CommitRule.PartialFlush` states the consequence: a failure at
any row after the first leaves a non-empty proper prefix of the window's rows
committed.

`flush` does not swap the queue atomically: it iterates over the keys and then
clears the map. The model does the same.

## Model

| member | source | states |
|---|---|---|
| PacketLog.RecordOf | src/main/java/me/tech/packetlogger/BatchedPacketsService.java:60 | The record `computeIfAbsent` yields for a name: the stored one, or the zero record of the no-argument constructor when the name has none. |
| PacketLog.Tally | src/main/java/me/tech/packetlogger/BatchedPacketsService.java:60-62 | The packet queue after a window of `add`s: each packet of the window counted in order, from the empty queue that the last `clear` left. |
| PacketLog.FirstSightings | src/main/java/me/tech/packetlogger/BatchedPacketsService.java:54-58 | The jobs `add` submits over a history: one `(name, outgoing)` for each packet whose name no earlier packet had, in submission order. |
| PacketLog.FlushRows | src/main/java/me/tech/packetlogger/BatchedPacketsService.java:89-98 | The rows one flush builds, one per name of the iteration order: the name, its amount and size from the queue, and `nowMs`. There are exactly as many rows as names. |
| CommitRule.CommitsAfter | src/main/java/me/tech/packetlogger/BatchedPacketsService.java:100 | The loop commits right after the row at 0-based position `i` exactly when `i % 15 == 0`, the value the counter had before its increment. |
| CommitRule.LoopCommits | src/main/java/me/tech/packetlogger/BatchedPacketsService.java:89-104 | The commits the loop has made after staging rows `0 .. i-1`: one for each position where the rule fired, holding the rows staged since the previous commit. |
| CommitRule.FlushCommits | src/main/java/me/tech/packetlogger/BatchedPacketsService.java:88-114 | The commits of a whole flush by failure point. None when connecting fails. Those made before the failing row when a row fails. All of the loop's commits, without the final one, when the final commit fails. The loop's commits and then the final batch otherwise. |
| Graph.Select | scripts/graph.py:20-27 | The SELECT … FROM … JOIN text: the packet name, `SUM(amount)` as `total_amount`, and `collected_at` in milliseconds, converted to seconds and formatted by the given `strftime` format, as `time_period`. |
| Graph.Query | scripts/graph.py:20-34 | The whole query for a granularity and a filter: the SELECT for the granularity's format, the filter's WHERE clause, then GROUP BY/ORDER BY. |
| Graph.Grouped | scripts/graph.py:39-46 | The nested map `period -> name -> total` the loop builds from the rows in order. A period's inner map is created empty on its first row, and a later row for the same pair overwrites the earlier total. |
| Graph.AllNames | scripts/graph.py:59-61 | Every packet name that is a key of some period's inner map. |
| Graph.GetOrZero | scripts/graph.py:71 | `dict.get(name, 0)`: the period's total for the name, or 0 when it has none. |
| StringOrder.Less | scripts/graph.py:64 | Python's `<` on `str`, the order `sorted` uses: compare by code point at the first difference, and a proper prefix comes first. |
| PacketService.BatchedPacketsService.constructor | src/main/java/me/tech/packetlogger/BatchedPacketsService.java:32-33 | A new service has an empty name cache, an empty queue and no bound writes, and its invariant holds. |
| PacketService.BatchedPacketsService.Add | src/main/java/me/tech/packetlogger/BatchedPacketsService.java:49-63 | `add` keeps the invariant and appends the packet to the history and to the window. The name joins the cache. Exactly one bound write with this packet's direction is submitted when the name was new, and none otherwise. The queue becomes `Count` of the old queue with this packet. |
| PacketService.SightName | src/main/java/me/tech/packetlogger/BatchedPacketsService.java:54-58 | The cache gains the name. A bound write `(name, outgoing)` is appended exactly when the name was not in the cache. |
| PacketService.CountPacket | src/main/java/me/tech/packetlogger/BatchedPacketsService.java:60-62 | `computeIfAbsent` followed by the two increments gives the queue `Count(queue, p)`. |
| PacketLog.Count | src/main/java/me/tech/packetlogger/BatchedPacketsService.java:60-62 | Counting a packet adds its name to the keys. It raises that name's amount by one and its size by the packet's bytes, starting from the zero record when the name is absent. Every other entry is unchanged. |
| PacketLog.FirstAddRecord | src/main/java/me/tech/packetlogger/BatchedPacketsService.java:213-216 | A name's first `add` starts from the zero record and leaves `(1, size)`. |
| PacketLog.TallyCounts | src/main/java/me/tech/packetlogger/BatchedPacketsService.java:60-62 | After a window, the queue has an entry for a name iff the name occurs in the window. The entry's amount is the number of packets with that name, and its size is the sum of their bytes. |
| PacketLog.FirstSightingsOnePerName | src/main/java/me/tech/packetlogger/BatchedPacketsService.java:54-58 | The bound writes carry pairwise different names, and their names are exactly the names ever added. |
| PacketLog.FirstSightingsCount | src/main/java/me/tech/packetlogger/BatchedPacketsService.java:54-58 | The number of bound writes equals the number of distinct names, which is at most the number of packets added. |
| PacketLog.FirstDirectionWins | src/main/java/me/tech/packetlogger/BatchedPacketsService.java:54-58 | Each packet that is the first with its name yields a bound write with that packet's direction. Every bound write comes from such a first packet. |
| PacketService.Store.AddBatch | src/main/java/me/tech/packetlogger/BatchedPacketsService.java:94-98 | Adding to the batch stages one more row and commits nothing. |
| PacketService.Store.ExecuteAndCommit | src/main/java/me/tech/packetlogger/BatchedPacketsService.java:101-102 | Execute followed by commit makes every staged row durable, in order, after the rows committed before. |
| PacketService.Store.Rollback | src/main/java/me/tech/packetlogger/BatchedPacketsService.java:109-110 | Rollback drops the staged rows and keeps the committed ones. |
| PacketService.BatchedPacketsService.Flush | src/main/java/me/tech/packetlogger/BatchedPacketsService.java:80-120 | `flush` keeps the invariant and leaves the cache, the bound writes and the history unchanged. It empties the queue and the window, whatever happened. It appends to the committed rows exactly the concatenation of the commits `FlushCommits` prescribes for the fault, which is the prefix of the flush rows of length `PersistedCount`. |
| PacketService.BatchedPacketsService.WriteRows | src/main/java/me/tech/packetlogger/BatchedPacketsService.java:81-117 | The database part of `flush` ends with no open transaction. The committed rows grow by the first `PersistedCount` flush rows. |
| PacketService.BatchedPacketsService.StageRow | src/main/java/me/tech/packetlogger/BatchedPacketsService.java:89-104 | One loop pass stages row `i`. It commits exactly when the rule fires after `i`. Afterwards the committed rows are the rows before `ChunkStart(i + 1)` and the staged rows are the rest up to `i`. |
| PacketLog.FlushRowAt | src/main/java/me/tech/packetlogger/BatchedPacketsService.java:89-98 | Row `i` of a flush carries the `i`-th name, its amount and size from the queue, and `nowMs`. |
| PacketLog.OneRowPerKey | src/main/java/me/tech/packetlogger/BatchedPacketsService.java:89-98 | For an iteration order of the queue's keys, the rows have pairwise different names. A name has a row iff it is in the queue. Each row carries that key's counters and the same `collected_at`. |
| PacketLog.CountRaisesSumByOne | src/main/java/me/tech/packetlogger/BatchedPacketsService.java:61 | Counting a packet whose name is listed once raises the sum of the flushed amounts by exactly one. |
| PacketLog.SameSumAwayFrom | src/main/java/me/tech/packetlogger/BatchedPacketsService.java:61 | Counting a packet whose name is not listed leaves the sum of the flushed amounts unchanged. |
| PacketLog.FlushedAmountsTotal | src/main/java/me/tech/packetlogger/BatchedPacketsService.java:61-95 | The `amount` column of one flush adds up to the number of packets added in the window. No packet is counted twice or lost. |
| CommitRule.ChunkStart | src/main/java/me/tech/packetlogger/BatchedPacketsService.java:100 | The rows committed before row `i` is staged are never more than `i`. |
| CommitRule.ChunkStartClosedForm | src/main/java/me/tech/packetlogger/BatchedPacketsService.java:100-103 | Chunks open at positions 0, 1, 16, 31, …. The open chunk never holds 15 or more rows before row `i`. |
| CommitRule.LoopCommitsShape | src/main/java/me/tech/packetlogger/BatchedPacketsService.java:100-103 | After `i` rows the loop has committed `ceil(i / 15)` times. The first commit holds one row and every later one holds 15. |
| CommitRule.LoopCommitsConcat | src/main/java/me/tech/packetlogger/BatchedPacketsService.java:89-104 | The loop's commits hold, in order and once each, exactly the rows before the open chunk. |
| CommitRule.FlushCommitsComplete | src/main/java/me/tech/packetlogger/BatchedPacketsService.java:89-108 | Without a failure, the commits of a flush together hold every row exactly once, in order. |
| CommitRule.PersistedCount | src/main/java/me/tech/packetlogger/BatchedPacketsService.java:100-110 | A flush never commits more rows than it builds. |
| CommitRule.FlushCommitsPrefix | src/main/java/me/tech/packetlogger/BatchedPacketsService.java:88-114 | Whatever the failure, a flush commits a prefix of its rows, of length `PersistedCount`. |
| CommitRule.PartialFlush | src/main/java/me/tech/packetlogger/BatchedPacketsService.java:100-110 | A failure at row `k >= 1` leaves at least one row and at most `k` rows committed, so not all of them. Fewer than 15 of the rows reached are rolled back. |
| Graph.TimeFormat | scripts/graph.py:19 | The format is per minute iff the granularity is `"minute"`, and per hour otherwise. |
| Graph.WhereClause | scripts/graph.py:29-32 | The outgoing clause comes iff the filter is `"outgoing"`, and the incoming clause iff it is `"incoming"`. Any other filter, `None` and `"all"` included, adds nothing. |
| Graph.BuildQuery | scripts/graph.py:20-34 | The appended query is the SELECT for the granularity's format, then the filter's clause, then GROUP BY/ORDER BY. |
| Graph.QueryDetermines | scripts/graph.py:19-34 | Equal query texts imply equal formats and equal WHERE clauses. |
| Graph.GroupOrderLast | scripts/graph.py:34 | Every query ends with the GROUP BY/ORDER BY tail. |
| Graph.GroupRows | scripts/graph.py:39-46 | The grouping loop builds `Grouped(rows)`. |
| Graph.GroupedKeys | scripts/graph.py:39-46 | A period is an outer key iff some row has it. A name is under that period iff some row has both. |
| Graph.GroupedLastWins | scripts/graph.py:44-46 | The stored total for a period and name is the total of the last row with that pair. |
| Graph.CollectNames | scripts/graph.py:59-61 | The collected names are exactly the keys of all inner maps. |
| StringOrder.LessIrreflexive | scripts/graph.py:64 | No string sorts before itself. |
| StringOrder.LessTransitive | scripts/graph.py:64 | The string order is transitive. |
| StringOrder.LessTotal | scripts/graph.py:64 | Two strings differ iff one sorts before the other, and never both ways. |
| StringOrder.Insert | scripts/graph.py:64 | Inserting into a strictly sorted list keeps it strictly sorted. The elements gain exactly the inserted key. |
| StringOrder.SortKeys | scripts/graph.py:64 | `sorted(keys)` is strictly ascending and holds exactly the keys, each once. |
| StringOrder.SortedUnique | scripts/graph.py:64 | Two strictly sorted lists with the same elements are equal, so the sorted periods do not depend on how they are computed. |
| StringOrder.SortedLength | scripts/graph.py:64 | A strictly sorted list is as long as its set of elements. |
| Graph.ZeroFill | scripts/graph.py:65-71 | There is one series per name, each as long as the periods. Entry `j` is that name's total at period `j`, or 0. |
| Graph.FillPeriod | scripts/graph.py:69-71 | One period appends to each name's series that period's total for the name, or 0. |
| Graph.PlottedValue | scripts/graph.py:39-71 | When each period and name has at most one row, the plotted value for the pair is that row's total, or 0 when no row has the pair. |
| Graph.GetPacketTotals | scripts/graph.py:5-48 | The totals are the grouping of the rows the database returns for the built query. |
| Graph.PlotSeries | scripts/graph.py:58-71 | The periods are the sorted keys. The series are keyed by all names and zero-filled over the periods. |
| Graph.Validate | scripts/graph.py:135-138 | The answers are accepted iff the filter is one of `all`, `outgoing`, `incoming` and the granularity is `minute` or `hour`. The filter message comes first, then the granularity message. |
| Graph.RunScript | scripts/graph.py:135-148 | The script rejects iff validation fails, and prints that message. Otherwise it plots the sorted, zero-filled totals of the query for the given granularity and filter. |

## Left out

- Reading the packet name, readable bytes and direction from the packet event is
  left out: `add` takes them as arguments.
- The SQLite database is abstracted as a `Store` of committed and staged rows:
  - Statement parameters and SQL types are not modelled.
  - `flush` only ever executes and commits together, so a batch that was executed
    but not committed is not told apart from a batch that was only added.
- Where an `SQLException` strikes is the parameter `Fault`. The model does not
  cover:
  - a `rollback` that itself throws;
  - `setAutoCommit(true)` in `finally`;
  - the printed stack traces.
- `addPacketBound` is modelled only as the queue of submitted bound writes
  (`boundJobs`). Its insert into `packet_bound` and that insert's own failures run
  on the executor and are not modelled.
- `createSqlite` is left out: directory, file and table creation are I/O. The same
  goes for `getConnection`, `getDBFilePath`, `startPublish` and the scheduler.
- Concurrency is left out. Every call runs to completion before the next one
  starts, so the model misses two races:
  - two packet threads can both pass the `contains` check and submit two bound
    writes for one name;
  - an `add` that lands between the iteration in `flush` and its `clear` is lost.
- Java integer widths are left out. Amounts and sizes are unbounded; the source's
  `int` amount and `long` size counters could overflow.
- `PacketLoggerPlugin.java`, `Constants.java` and the build file are not part of
  this model. They only wire the listener, the configuration and the file names.
- The script's interactive parts are parameters:
  - `input()` and `strip().lower()`: the model takes the two answers already
    normalised;
  - `print`: the message becomes the `Rejected` result.
- The figure is left out: Plotly traces, hover templates, titles and layout. The
  model stops at the periods and series the figure is drawn from.
- SQLite's evaluation of the query is left out. The database is a function from
  query text to rows. The model does not check that SQLite's `GROUP BY` gives one
  row per period and name; `Graph.PlottedValue` assumes it.
- The SELECT text is built from its SQL tokens separated by single spaces, with
  the source's leading and trailing whitespace dropped. SQLite does not tell the
  two texts apart.
