/** The log collector in place. */
module LogBuffers {
  import opened Buckets
  import opened LogKeys
  import opened LogCollector

  predicate InTimeOrder(batch: seq<Entry>) {
    forall i, j :: 0 <= i < j < |batch| ==> batch[i].timestamp <= batch[j].timestamp
  }

  function Placed(e: Entry, batch: seq<Entry>): seq<Entry> {
    if batch == [] || e.timestamp < batch[0].timestamp then [e] + batch else [batch[0]] + Placed(e, batch[1..])
  }

  function Sorted(batch: seq<Entry>): seq<Entry> {
    if batch == [] then [] else Placed(batch[|batch| - 1], Sorted(batch[..|batch| - 1]))
  }

  lemma {:induction false} PlacedKeepsAll(e: Entry, batch: seq<Entry>)
    ensures multiset(Placed(e, batch)) == multiset(batch) + multiset{e}
  {
    if batch != [] && e.timestamp >= batch[0].timestamp {
      PlacedKeepsAll(e, batch[1..]);
      assert batch == [batch[0]] + batch[1..];
    }
  }

  lemma InTimeOrderCons(e: Entry, batch: seq<Entry>)
    requires InTimeOrder(batch) && forall x :: x in multiset(batch) ==> e.timestamp <= x.timestamp
    ensures InTimeOrder([e] + batch)
  {
  }

  lemma {:induction false} PlacedKeepsOrder(e: Entry, batch: seq<Entry>)
    requires InTimeOrder(batch)
    ensures InTimeOrder(Placed(e, batch))
  {
    if batch != [] {
      if e.timestamp < batch[0].timestamp {
        InTimeOrderCons(e, batch);
      } else {
        PlacedKeepsOrder(e, batch[1..]);
        PlacedKeepsAll(e, batch[1..]);
        InTimeOrderCons(batch[0], Placed(e, batch[1..]));
      }
    }
  }

  lemma MultisetSnoc(batch: seq<Entry>, init: seq<Entry>, last: Entry)
    requires batch == init + [last]
    ensures multiset(batch) == multiset(init) + multiset{last}
  {
  }

  /** Sorting a batch by time loses and invents nothing. */
  lemma {:induction false} SortedIsAPermutation(batch: seq<Entry>)
    ensures InTimeOrder(Sorted(batch)) && multiset(Sorted(batch)) == multiset(batch)
  {
    if batch != [] {
      var init, last := batch[..|batch| - 1], batch[|batch| - 1];
      SortedIsAPermutation(init);
      PlacedKeepsOrder(last, Sorted(init));
      PlacedKeepsAll(last, Sorted(init));
      MultisetSnoc(batch, init, last);
    }
  }

  function Entries(buffer: seq<Buffered>): (entries: seq<Entry>)
    ensures |entries| == |buffer|
  {
    seq(|buffer|, i requires 0 <= i < |buffer| => buffer[i].entry)
  }

  /** A batch handed out for a due buffer: the same entries, by time. */
  predicate IsBatchOf(batch: seq<Entry>, buffer: seq<Buffered>) {
    InTimeOrder(batch) && multiset(batch) == multiset(Entries(buffer))
  }

  method MakeBatch(buffer: seq<Buffered>) returns (batch: seq<Entry>)
    ensures IsBatchOf(batch, buffer)
  {
    batch := [];
    for i := 0 to |buffer|
      invariant batch == Entries(buffer)[..i]
    {
      batch := batch + [buffer[i].entry];
    }
    assert batch == Entries(buffer);
    SortedIsAPermutation(batch);
    batch := Sorted(batch);
  }

  /** The buffers after some names were visited: the due ones among them are gone. */
  function Undrained(buffers: Buckets<Buffered>, cfg: Config, now: int, visited: set<string>): Buckets<Buffered> {
    map name | name in buffers && !(name in visited && Due(cfg, buffers[name], now)) :: buffers[name]
  }

  /** These names were visited: what is left, and one batch for each buffer that was due. */
  ghost predicate Drained(buffers: Buckets<Buffered>, cfg: Config, now: int, visited: set<string>,
                    left: Buckets<Buffered>, batches: map<string, seq<Entry>>) {
    && left == Undrained(buffers, cfg, now, visited)
    && (forall name :: name in batches <==> name in buffers && name in visited && Due(cfg, buffers[name], now))
    && (forall name :: name in batches ==> IsBatchOf(batches[name], buffers[name]))
  }

  lemma DrainNext(buffers: Buckets<Buffered>, cfg: Config, now: int, visited: set<string>,
                  left: Buckets<Buffered>, batches: map<string, seq<Entry>>, source: string)
    requires Drained(buffers, cfg, now, visited, left, batches) && source in buffers && source !in visited
    ensures source in left && left[source] == buffers[source]
    ensures !Due(cfg, buffers[source], now) ==> Drained(buffers, cfg, now, visited + {source}, left, batches)
    ensures Due(cfg, buffers[source], now) ==>
      forall batch :: IsBatchOf(batch, buffers[source]) ==>
        Drained(buffers, cfg, now, visited + {source}, left - {source}, batches[source := batch])
  {
  }

  lemma DrainEnds(
    buffers: Buckets<Buffered>, cfg: Config, now: int, left: Buckets<Buffered>, batches: map<string, seq<Entry>>)
    requires Drained(buffers, cfg, now, buffers.Keys, left, batches)
    ensures left == OtherBuffers(buffers, cfg, now) && batches.Keys == DueBuffers(buffers, cfg, now).Keys
  {
  }

  method Drain(buffers: Buckets<Buffered>, cfg: Config, now: int, order: seq<string>)
    returns (left: Buckets<Buffered>, batches: map<string, seq<Entry>>)
    requires ListsOnce(order, buffers.Keys)
    ensures Drained(buffers, cfg, now, buffers.Keys, left, batches)
  {
    left, batches := buffers, map[];
    for k := 0 to |order|
      invariant Drained(buffers, cfg, now, Visited(order, k), left, batches)
    {
      var source := order[k];
      VisitNext(order, buffers.Keys, k);
      DrainNext(buffers, cfg, now, Visited(order, k), left, batches, source);
      var entries := left[source];
      if |entries| == 0 {
        continue;
      }
      var age := now - entries[0].ingested;
      var readyByInterval := age >= cfg.reportInterval;
      var readyByMaxAge := age >= cfg.maxAge;
      var readyBySize := |entries| >= cfg.maxEntries;
      if !readyByInterval && !readyByMaxAge && !readyBySize {
        continue;
      }
      var batch := MakeBatch(entries);
      batches := batches[source := batch];
      left := left - {source};
    }
    VisitedAll(order, buffers.Keys);
  }

  class Collector {
    const cfg: Config
    var buffers: Buckets<Buffered>
    var cooldowns: map<Repeat, int>
    var total: nat
    var dropped: nat

    ghost function View(): State
      reads this
    {
      State(buffers, cooldowns, total, dropped)
    }

    constructor (cfg: Config)
      ensures View() == EMPTY && this.cfg == Defaulted(cfg) && this.cfg.Valid()
    {
      this.cfg := Defaulted(cfg);
      buffers, cooldowns, total, dropped := map[], map[], 0, 0;
    }

    method Ingest(entry: Entry, clock: Clock)
      modifies this
      ensures View() == Step(old(View()), cfg, Command.Ingest(entry, clock))
    {
      total := total + 1;
      var bufferKey := BuildKey(entry);
      if bufferKey == "" {
        dropped := dropped + 1;
        return;
      }
      var buffer := if bufferKey in buffers then buffers[bufferKey] else [];
      if |buffer| >= cfg.maxBuffer {
        dropped := dropped + 1;
        return;
      }
      var key := Repeat(bufferKey, entry.severity, entry.message);
      if key in cooldowns && clock.checked - cooldowns[key] < cfg.cooldown {
        return;
      }
      buffers := buffers[bufferKey := buffer + [Buffered(entry, clock.buffered)]];
      cooldowns := cooldowns[key := clock.cooled];
    }

    /** The buffers are visited in the given order. */
    method CollectExpiredBatches(now: int, order: seq<string>) returns (batches: map<string, seq<Entry>>)
      requires ListsOnce(order, buffers.Keys)
      modifies this
      ensures View() == Step(old(View()), cfg, Collect(now))
      ensures batches.Keys == DueBuffers(old(buffers), cfg, now).Keys
      ensures forall name :: name in batches ==> IsBatchOf(batches[name], old(buffers)[name])
    {
      ghost var before := buffers;
      buffers, batches := Drain(buffers, cfg, now, order);
      DrainEnds(before, cfg, now, buffers, batches);
    }
  }
}
