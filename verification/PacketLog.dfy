/**
 * The values `BatchedPacketsService` works on, and what its `add` and `flush`
 * compute, as functions: a window of packets tallied into the packet queue,
 * the first-sighting bound writes over the whole history, and the rows one
 * flush builds from the queue.
 */
module PacketLog {

  /** One intercepted packet as `add` reads it from the event: name, readable bytes, direction. */
  datatype Packet = Packet(name: string, size: nat, outgoing: bool)

  /** A packet's running counters: `amount` packets seen, `size` bytes accumulated. */
  datatype PacketRecord = PacketRecord(amount: nat, size: nat)

  /** The record made by `PacketRecord`'s no-argument constructor. */
  const EmptyRecord := PacketRecord(0, 0)

  /** A job handed to the executor: insert `(name, outgoing)` into `packet_bound`. */
  datatype BoundWrite = BoundWrite(name: string, outgoing: bool)

  /** One `batched_packets` row: `(packet_name, amount, size_bytes, collected_at)`. */
  datatype Row = Row(packetName: string, amount: nat, sizeBytes: nat, collectedAt: int)

  /** The record of `name`, or the zero record when `name` has none yet (`computeIfAbsent`). */
  function RecordOf(queue: map<string, PacketRecord>, name: string): PacketRecord {
    if name in queue then queue[name] else EmptyRecord
  }

  /** The packet queue after one more packet `p` has been counted. */
  function Count(queue: map<string, PacketRecord>, p: Packet): (q: map<string, PacketRecord>)
    ensures q.Keys == queue.Keys + {p.name}
    ensures q[p.name].amount == RecordOf(queue, p.name).amount + 1
    ensures q[p.name].size == RecordOf(queue, p.name).size + p.size
    ensures forall n :: n in queue && n != p.name ==> q[n] == queue[n]
  {
    var r := RecordOf(queue, p.name);
    queue[p.name := PacketRecord(r.amount + 1, r.size + p.size)]
  }

  /** Creating the zero record and then replacing it leaves only the replacement. */
  lemma OverwriteRecord(queue: map<string, PacketRecord>, name: string, first: PacketRecord, second: PacketRecord)
    ensures queue[name := first][name := second] == queue[name := second]
  {
  }

  /** The packet queue built by counting every packet of a window, in order, from empty. */
  function Tally(window: seq<Packet>): map<string, PacketRecord> {
    if window == [] then map[]
    else Count(Tally(window[..|window| - 1]), window[|window| - 1])
  }

  /** How many packets of `window` are named `name`. */
  function Occurrences(window: seq<Packet>, name: string): nat {
    if window == [] then 0
    else Occurrences(window[..|window| - 1], name) + (if window[|window| - 1].name == name then 1 else 0)
  }

  /** The total byte count of the packets of `window` named `name`. */
  function BytesOf(window: seq<Packet>, name: string): nat {
    if window == [] then 0
    else BytesOf(window[..|window| - 1], name) + (if window[|window| - 1].name == name then window[|window| - 1].size else 0)
  }

  /**
   * The queue after a window holds an entry exactly for the names that occur
   * in it, counting that name's packets and adding up their bytes.
   */
  lemma {:induction false} TallyCounts(window: seq<Packet>, name: string)
    ensures name in Tally(window) <==> Occurrences(window, name) > 0
    ensures RecordOf(Tally(window), name) == PacketRecord(Occurrences(window, name), BytesOf(window, name))
  {
    if window != [] {
      TallyCounts(window[..|window| - 1], name);
    }
  }

  /** A single `add` of a name the queue does not hold leaves the record `(1, size)`. */
  lemma FirstAddRecord(queue: map<string, PacketRecord>, p: Packet)
    requires p.name !in queue
    ensures Count(queue, p)[p.name] == PacketRecord(1, p.size)
  {
  }

  /** The names of the packets of `history`. */
  function NamesOf(history: seq<Packet>): set<string> {
    set i | 0 <= i < |history| :: history[i].name
  }

  lemma NamesOfSnoc(history: seq<Packet>, p: Packet)
    ensures NamesOf(history + [p]) == NamesOf(history) + {p.name}
  {
    var h := history + [p];
    assert h[|history|].name == p.name;
    forall n | n in NamesOf(history)
      ensures n in NamesOf(h)
    {
      var i :| 0 <= i < |history| && history[i].name == n;
      assert h[i] == history[i];
    }
  }

  /**
   * The bound-write jobs `add` hands to the executor over `history`: one for
   * each packet whose name has not been seen before it, carrying that packet's
   * direction.
   */
  function FirstSightings(history: seq<Packet>): seq<BoundWrite> {
    if history == [] then []
    else
      var h, p := history[..|history| - 1], history[|history| - 1];
      FirstSightings(h) + (if p.name in NamesOf(h) then [] else [BoundWrite(p.name, p.outgoing)])
  }

  /** One more packet: how the names, the first sightings and the tally grow. */
  lemma AddStep(history: seq<Packet>, window: seq<Packet>, p: Packet)
    ensures NamesOf(history + [p]) == NamesOf(history) + {p.name}
    ensures FirstSightings(history + [p])
         == FirstSightings(history) + (if p.name in NamesOf(history) then [] else [BoundWrite(p.name, p.outgoing)])
    ensures Tally(window + [p]) == Count(Tally(window), p)
  {
    NamesOfSnoc(history, p);
    assert (history + [p])[..|history|] == history;
    assert (window + [p])[..|window|] == window;
  }

  /** True when the packet at position `k` is the first of `history` with its name. */
  predicate IsFirstSighting(history: seq<Packet>, k: nat)
    requires k < |history|
  {
    forall j :: 0 <= j < k ==> history[j].name != history[k].name
  }

  /** The names the bound writes `writes` insert. */
  function WriteNames(writes: seq<BoundWrite>): set<string> {
    set i | 0 <= i < |writes| :: writes[i].name
  }

  lemma WriteNamesSnoc(writes: seq<BoundWrite>, w: BoundWrite)
    ensures WriteNames(writes + [w]) == WriteNames(writes) + {w.name}
  {
    var ws := writes + [w];
    assert ws[|writes|].name == w.name;
    forall n | n in WriteNames(writes)
      ensures n in WriteNames(ws)
    {
      var i :| 0 <= i < |writes| && writes[i].name == n;
      assert ws[i] == writes[i];
    }
  }

  /**
   * Exactly one bound write per distinct name: the bound writes carry
   * pairwise different names, and those names are exactly the names of `history`.
   */
  lemma {:induction false} FirstSightingsOnePerName(history: seq<Packet>)
    ensures var fs := FirstSightings(history);
      && (forall i, j :: 0 <= i < j < |fs| ==> fs[i].name != fs[j].name)
      && WriteNames(fs) == NamesOf(history)
  {
    if history != [] {
      var h, p := history[..|history| - 1], history[|history| - 1];
      assert history == h + [p];
      FirstSightingsOnePerName(h);
      NamesOfSnoc(h, p);
      var fs := FirstSightings(history);
      var fh := FirstSightings(h);
      if p.name !in NamesOf(h) {
        var w := BoundWrite(p.name, p.outgoing);
        assert fs == fh + [w];
        WriteNamesSnoc(fh, w);
        forall i | 0 <= i < |fh|
          ensures fh[i].name != p.name
        {
          assert fh[i].name in WriteNames(fh);
        }
      } else {
        assert fs == fh;
      }
    }
  }

  /** Hence the number of bound writes is the number of distinct names, never more than the packets added. */
  lemma {:induction false} FirstSightingsCount(history: seq<Packet>)
    ensures |FirstSightings(history)| == |NamesOf(history)| <= |history|
  {
    if history != [] {
      var h, p := history[..|history| - 1], history[|history| - 1];
      assert history == h + [p];
      FirstSightingsCount(h);
      NamesOfSnoc(h, p);
      if p.name in NamesOf(h) {
        assert FirstSightings(history) == FirstSightings(h);
        assert NamesOf(history) == NamesOf(h);
      } else {
        assert |FirstSightings(history)| == |FirstSightings(h)| + 1;
        assert |NamesOf(history)| == |NamesOf(h)| + 1;
      }
    }
  }

  /**
   * The first direction wins: every bound write comes from the first packet
   * with its name, with that packet's direction, and every first sighting
   * yields a bound write.
   */
  lemma {:induction false} FirstDirectionWins(history: seq<Packet>)
    ensures forall k :: 0 <= k < |history| && IsFirstSighting(history, k) ==>
              BoundWrite(history[k].name, history[k].outgoing) in FirstSightings(history)
    ensures forall w :: w in FirstSightings(history) ==>
              exists k :: 0 <= k < |history| && IsFirstSighting(history, k) && w == BoundWrite(history[k].name, history[k].outgoing)
  {
    if history != [] {
      var h, p := history[..|history| - 1], history[|history| - 1];
      assert history == h + [p];
      FirstDirectionWins(h);
      var last := |history| - 1;
      forall k | 0 <= k < |history| && IsFirstSighting(history, k)
        ensures BoundWrite(history[k].name, history[k].outgoing) in FirstSightings(history)
      {
        if k < last {
          assert IsFirstSighting(h, k);
        }
      }
      forall w | w in FirstSightings(history)
        ensures exists k :: 0 <= k < |history| && IsFirstSighting(history, k) && w == BoundWrite(history[k].name, history[k].outgoing)
      {
        if w in FirstSightings(h) {
          var k :| 0 <= k < |h| && IsFirstSighting(h, k) && w == BoundWrite(h[k].name, h[k].outgoing);
          assert IsFirstSighting(history, k);
        } else {
          assert w == BoundWrite(p.name, p.outgoing) && p.name !in NamesOf(h);
          forall j | 0 <= j < last
            ensures history[j].name != p.name
          {
            assert history[j].name == h[j].name;
          }
          assert IsFirstSighting(history, last);
        }
      }
    }
  }

  /** True when no name appears twice in `names`. */
  predicate Distinct(names: seq<string>) {
    forall i, j :: 0 <= i < j < |names| ==> names[i] != names[j]
  }

  /** True when `order` lists every key of `keys` exactly once (an iteration order of a key set). */
  predicate IsEnumeration(order: seq<string>, keys: set<string>) {
    && Distinct(order)
    && (forall n :: n in keys ==> n in order)
    && (forall i :: 0 <= i < |order| ==> order[i] in keys)
  }

  /** The rows one flush builds, one per name of `order`, all stamped with `nowMs`. */
  function FlushRows(queue: map<string, PacketRecord>, order: seq<string>, nowMs: int): (rows: seq<Row>)
    ensures |rows| == |order|
  {
    if order == [] then []
    else
      var n := order[|order| - 1];
      FlushRows(queue, order[..|order| - 1], nowMs) + [Row(n, RecordOf(queue, n).amount, RecordOf(queue, n).size, nowMs)]
  }

  /** Row `i` of a flush is the counters of the `i`-th name, stamped `nowMs`. */
  lemma {:induction false} FlushRowAt(queue: map<string, PacketRecord>, order: seq<string>, nowMs: int, i: nat)
    requires i < |order|
    ensures FlushRows(queue, order, nowMs)[i] == Row(order[i], RecordOf(queue, order[i]).amount, RecordOf(queue, order[i]).size, nowMs)
  {
    if i < |order| - 1 {
      FlushRowAt(queue, order[..|order| - 1], nowMs, i);
    }
  }

  /**
   * For an iteration order of the queue's keys, the flush rows are one per key,
   * carry that key's counters, and share one `collected_at`.
   */
  lemma OneRowPerKey(queue: map<string, PacketRecord>, order: seq<string>, nowMs: int)
    requires IsEnumeration(order, queue.Keys)
    ensures var rows := FlushRows(queue, order, nowMs);
      && (forall i, j :: 0 <= i < j < |rows| ==> rows[i].packetName != rows[j].packetName)
      && (forall n :: n in queue <==> exists i :: 0 <= i < |rows| && rows[i].packetName == n)
      && (forall i :: 0 <= i < |rows| ==>
            && rows[i].packetName in queue
            && rows[i].amount == queue[rows[i].packetName].amount
            && rows[i].sizeBytes == queue[rows[i].packetName].size
            && rows[i].collectedAt == nowMs)
  {
    var rows := FlushRows(queue, order, nowMs);
    forall i | 0 <= i < |rows|
      ensures rows[i] == Row(order[i], RecordOf(queue, order[i]).amount, RecordOf(queue, order[i]).size, nowMs)
    {
      FlushRowAt(queue, order, nowMs, i);
    }
    forall n | n in queue
      ensures exists i :: 0 <= i < |rows| && rows[i].packetName == n
    {
      var i :| 0 <= i < |order| && order[i] == n;
      assert rows[i].packetName == n;
    }
  }

  /** The sum of the `amount` column over some rows. */
  function SumAmounts(rows: seq<Row>): nat {
    if rows == [] then 0 else SumAmounts(rows[..|rows| - 1]) + rows[|rows| - 1].amount
  }

  /** Peeling the last name off `order` peels its record's amount off the sum. */
  lemma SumFlushSnoc(queue: map<string, PacketRecord>, order: seq<string>, nowMs: int)
    requires order != []
    ensures SumAmounts(FlushRows(queue, order, nowMs))
         == SumAmounts(FlushRows(queue, order[..|order| - 1], nowMs)) + RecordOf(queue, order[|order| - 1]).amount
  {
    var rows := FlushRows(queue, order, nowMs);
    assert rows[..|rows| - 1] == FlushRows(queue, order[..|order| - 1], nowMs);
  }

  /** Peeling the last name off a list without repeats leaves a list without repeats that misses it. */
  lemma DistinctPeel(order: seq<string>)
    requires order != [] && Distinct(order)
    ensures Distinct(order[..|order| - 1])
    ensures order[|order| - 1] !in order[..|order| - 1]
  {
  }

  /** A name of `order` other than the last one is in the front part. */
  lemma InFront(order: seq<string>, name: string)
    requires name in order && name != order[|order| - 1]
    ensures name in order[..|order| - 1]
  {
    assert order == order[..|order| - 1] + [order[|order| - 1]];
  }

  /** Counting `p` changes only the amount of `p.name`, and raises it by one. */
  lemma AmountAfterCount(queue: map<string, PacketRecord>, p: Packet, name: string)
    ensures RecordOf(Count(queue, p), name).amount
         == RecordOf(queue, name).amount + (if name == p.name then 1 else 0)
  {
  }

  /** Counting one packet raises the flushed amounts by exactly one when its name is listed once. */
  lemma {:induction false} CountRaisesSumByOne(queue: map<string, PacketRecord>, p: Packet, order: seq<string>, nowMs: int)
    requires Distinct(order)
    requires p.name in order
    ensures SumAmounts(FlushRows(Count(queue, p), order, nowMs)) == SumAmounts(FlushRows(queue, order, nowMs)) + 1
  {
    var front, n := order[..|order| - 1], order[|order| - 1];
    SumFlushSnoc(queue, order, nowMs);
    SumFlushSnoc(Count(queue, p), order, nowMs);
    AmountAfterCount(queue, p, n);
    DistinctPeel(order);
    if n == p.name {
      SameSumAwayFrom(queue, p, front, nowMs);
    } else {
      InFront(order, p.name);
      CountRaisesSumByOne(queue, p, front, nowMs);
    }
  }

  /** Counting a packet whose name is not listed leaves the flushed amounts alone. */
  lemma {:induction false} SameSumAwayFrom(queue: map<string, PacketRecord>, p: Packet, order: seq<string>, nowMs: int)
    requires p.name !in order
    ensures SumAmounts(FlushRows(Count(queue, p), order, nowMs)) == SumAmounts(FlushRows(queue, order, nowMs))
  {
    if order != [] {
      var front, n := order[..|order| - 1], order[|order| - 1];
      SumFlushSnoc(queue, order, nowMs);
      SumFlushSnoc(Count(queue, p), order, nowMs);
      AmountAfterCount(queue, p, n);
      SameSumAwayFrom(queue, p, front, nowMs);
    }
  }

  /**
   * No packet counted twice or lost: for an order listing each name of the
   * window once, the rows of one flush add up to the number of packets added.
   */
  lemma {:induction false} FlushedAmountsTotal(window: seq<Packet>, order: seq<string>, nowMs: int)
    requires Distinct(order)
    requires forall n :: n in Tally(window) ==> n in order
    ensures SumAmounts(FlushRows(Tally(window), order, nowMs)) == |window|
  {
    if window == [] {
      ZeroSum(order, nowMs);
    } else {
      var w, p := window[..|window| - 1], window[|window| - 1];
      FlushedAmountsTotal(w, order, nowMs);
      CountRaisesSumByOne(Tally(w), p, order, nowMs);
    }
  }

  lemma {:induction false} ZeroSum(order: seq<string>, nowMs: int)
    ensures SumAmounts(FlushRows(map[], order, nowMs)) == 0
  {
    if order != [] {
      SumFlushSnoc(map[], order, nowMs);
      ZeroSum(order[..|order| - 1], nowMs);
    }
  }
}
