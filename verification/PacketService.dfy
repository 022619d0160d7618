/**
 * `BatchedPacketsService` as a sequential state machine.
 *
 * The SQLite database behind the JDBC connection is abstracted as a `Store`:
 * the `batched_packets` rows that are committed, and the rows staged since
 * the last commit (added to the statement's batch or executed in the open
 * transaction; `flush` always executes and commits together, so the two
 * are not told apart).
 *
 * The source shares `packetBoundCache` and `packetQueue` between the packet
 * threads and the executor thread. This model runs every call to completion
 * before the next one starts, so it does not capture two races the source
 * has: two threads can both pass the `contains` check before either `add`s
 * the name (two bound writes for one name), and an `add` landing between
 * `flush`'s iteration over the keys and its final `clear` is lost.
 */
module PacketService {
  import opened PacketLog
  import opened CommitRule

  /** The `batched_packets` table seen through one connection with auto-commit off. */
  class Store {
    /** Rows made durable by a commit, in commit order. */
    var committed: seq<Row>
    /** Rows staged since the last commit: the statement's batch and the open transaction. */
    var uncommitted: seq<Row>

    /** True between flushes: nothing is staged. */
    ghost predicate Idle()
      reads this
    {
      uncommitted == []
    }

    constructor ()
      ensures Idle() && committed == []
    {
      committed, uncommitted := [], [];
    }

    /** `statement.addBatch()` with the row's four parameters set. */
    method AddBatch(r: Row)
      modifies this
      ensures uncommitted == old(uncommitted) + [r]
      ensures committed == old(committed)
    {
      uncommitted := uncommitted + [r];
    }

    /** `statement.executeBatch()` followed by `conn.commit()`: everything staged becomes durable. */
    method ExecuteAndCommit()
      modifies this
      ensures committed == old(committed) + old(uncommitted) && uncommitted == []
    {
      committed := committed + uncommitted;
      uncommitted := [];
    }

    /** `conn.rollback()` after the statement is closed: everything staged is dropped, commits stay. */
    method Rollback()
      modifies this
      ensures uncommitted == [] && committed == old(committed)
    {
      uncommitted := [];
    }
  }

  /**
   * The first half of `add`: a name not in the bound cache is added to it and
   * one bound write with the packet's direction is submitted.
   */
  method SightName(cache: set<string>, jobs: seq<BoundWrite>, p: Packet) returns (cache': set<string>, jobs': seq<BoundWrite>)
    ensures cache' == cache + {p.name}
    ensures p.name in cache ==> jobs' == jobs
    ensures p.name !in cache ==> jobs' == jobs + [BoundWrite(p.name, p.outgoing)]
  {
    cache', jobs' := cache, jobs;
    if p.name !in cache' {
      cache' := cache' + {p.name};
      jobs' := jobs' + [BoundWrite(p.name, p.outgoing)];
    }
  }

  /**
   * The second half of `add`: `computeIfAbsent` a zero record for the name,
   * then raise its amount by one and its size by the packet's bytes.
   */
  method CountPacket(queue: map<string, PacketRecord>, p: Packet) returns (updated: map<string, PacketRecord>)
    ensures updated == Count(queue, p)
  {
    updated := queue;
    if p.name !in updated {
      updated := updated[p.name := EmptyRecord];
    }
    var record := updated[p.name];
    assert record == RecordOf(queue, p.name);
    record := record.(amount := record.amount + 1);
    record := record.(size := record.size + p.size);
    OverwriteRecord(queue, p.name, EmptyRecord, record);
    updated := updated[p.name := record];
  }

  class BatchedPacketsService {
    /** Names whose direction has been handed to the executor. */
    var packetBoundCache: set<string>
    /** The counters of the current window, by packet name. */
    var packetQueue: map<string, PacketRecord>
    /** The `addPacketBound` jobs submitted to the executor, in submission order. */
    var boundJobs: seq<BoundWrite>
    /** The database the connections reach. */
    const store: Store

    /** Every packet added since construction. */
    ghost var history: seq<Packet>
    /** The packets added since the last flush. */
    ghost var window: seq<Packet>

    /**
     * The service invariant: the bound cache holds exactly the names ever
     * added, the jobs are the first sightings of the history, the queue is
     * the tally of the current window, and no transaction is open.
     */
    ghost predicate Valid()
      reads this, store
    {
      && packetBoundCache == NamesOf(history)
      && boundJobs == FirstSightings(history)
      && packetQueue == Tally(window)
      && store.Idle()
    }

    /** A fresh service over `store`; creating the tables is not part of this model. */
    constructor (store: Store)
      requires store.Idle()
      ensures Valid() && this.store == store
      ensures packetBoundCache == {} && packetQueue == map[] && boundJobs == []
      ensures history == [] && window == []
    {
      this.store := store;
      packetBoundCache, packetQueue, boundJobs := {}, map[], [];
      history, window := [], [];
    }

    /**
     * `add`: on the first sighting of `name`, remember it and submit one bound
     * write carrying this packet's direction; then count the packet in the
     * queue, creating a zero record first when the name has none.
     */
    method Add(name: string, size: nat, outgoing: bool)
      requires Valid()
      modifies this
      ensures Valid()
      ensures history == old(history) + [Packet(name, size, outgoing)]
      ensures window == old(window) + [Packet(name, size, outgoing)]
      ensures packetBoundCache == old(packetBoundCache) + {name}
      ensures name !in old(packetBoundCache) ==> boundJobs == old(boundJobs) + [BoundWrite(name, outgoing)]
      ensures name in old(packetBoundCache) ==> boundJobs == old(boundJobs)
      ensures packetQueue == Count(old(packetQueue), Packet(name, size, outgoing))
    {
      var p := Packet(name, size, outgoing);
      AddStep(history, window, p);
      var cache, jobs := SightName(packetBoundCache, boundJobs, p);
      var queue := CountPacket(packetQueue, p);
      packetBoundCache, boundJobs, packetQueue := cache, jobs, queue;
      history, window := history + [p], window + [p];
    }

    /**
     * `flush`: write one row per queued name, in the iteration order `order`,
     * all stamped `nowMs`, committing after rows 1, 16, 31, ... and once at the
     * end; an SQLException where `fault` says rolls back only what follows the
     * last commit. The queue is cleared whatever happened, so a failed
     * window's counts are dropped, not retried.
     */
    method Flush(order: seq<string>, nowMs: int, fault: Fault)
      requires Valid()
      requires IsEnumeration(order, packetQueue.Keys)
      modifies this, store
      ensures Valid()
      ensures packetQueue == map[] && window == []
      ensures packetBoundCache == old(packetBoundCache) && boundJobs == old(boundJobs) && history == old(history)
      ensures store.committed == old(store.committed) + Concat(FlushCommits(FlushRows(old(packetQueue), order, nowMs), fault))
      ensures var rows := FlushRows(old(packetQueue), order, nowMs);
        store.committed == old(store.committed) + rows[..PersistedCount(|rows|, fault)]
    {
      WriteRows(order, nowMs, fault);
      FlushCommitsPrefix(FlushRows(packetQueue, order, nowMs), fault);
      packetQueue := map[];
      window := [];
    }

    /**
     * The database part of `flush`: open a connection, stage one row per name
     * of `order` from the queue, commit under the commit rule, roll back the
     * open transaction on an SQLException. Only the store changes.
     */
    method WriteRows(order: seq<string>, nowMs: int, fault: Fault)
      requires store.Idle()
      modifies store
      ensures store.Idle()
      ensures var rows := FlushRows(packetQueue, order, nowMs);
        store.committed == old(store.committed) + rows[..PersistedCount(|rows|, fault)]
    {
      ghost var rows := FlushRows(packetQueue, order, nowMs);
      ghost var before := store.committed;
      if fault == ConnectFails {
        return;
      }
      // the loop runs until the row whose staging throws, if any
      var reached := if fault.RowFails? && fault.k < |order| then fault.k else |order|;
      var i := 0;
      while i < reached
        invariant 0 <= i <= reached
        invariant store.committed == before + rows[..ChunkStart(i)]
        invariant store.uncommitted == rows[ChunkStart(i)..i]
      {
        var name := order[i];
        var record := RecordOf(packetQueue, name);
        FlushRowAt(packetQueue, order, nowMs, i);
        StageRow(rows, before, i, Row(name, record.amount, record.size, nowMs));
        i := i + 1;
      }
      if reached < |order| || fault == FinalFails {
        // the SQLException: roll back what followed the last commit
        store.Rollback();
      } else {
        // flush the final batch
        store.ExecuteAndCommit();
        CommitChunk(before, rows, ChunkStart(i), i);
        assert rows[..i] == rows;
      }
    }

    /**
     * One pass of the loop body of `flush`: add row `i` to the batch, and
     * execute and commit when the commit rule fires after it.
     */
    method StageRow(ghost rows: seq<Row>, ghost before: seq<Row>, i: nat, r: Row)
      requires i < |rows| && rows[i] == r
      requires store.committed == before + rows[..ChunkStart(i)]
      requires store.uncommitted == rows[ChunkStart(i)..i]
      modifies store
      ensures store.committed == before + rows[..ChunkStart(i + 1)]
      ensures store.uncommitted == rows[ChunkStart(i + 1)..i + 1]
    {
      SliceSnoc(rows, ChunkStart(i), i);
      ChunkStartStep(i);
      store.AddBatch(r);
      if CommitsAfter(i) {
        store.ExecuteAndCommit();
        CommitChunk(before, rows, ChunkStart(i), i + 1);
      }
    }
  }
}
