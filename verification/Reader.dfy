/** The user-space end of the ring buffer: batch draining, the queue to the aggregator and
    shutdown (`reader_loop` in `ncda/src/bpf.rs`, `handle_aggregator_batch` in
    `ncda/src/main.rs`). */
module Reader {
  import opened Saturating
  import opened Records

  const MAX_BATCH_EVENTS := 4096

  /** What parsing keeps of some records. */
  function Parsed(records: seq<Bytes>): (events: seq<BpfEvent>)
    ensures |events| <= |records|
  {
    if records == [] then []
    else
      var event := Parse(records[|records| - 1]);
      Parsed(records[..|records| - 1]) + if event.Some? then [event.value] else []
  }

  function Flat(queue: seq<seq<BpfEvent>>): seq<BpfEvent> {
    if queue == [] then [] else queue[0] + Flat(queue[1..])
  }

  lemma ParsedNext(records: seq<Bytes>, n: nat)
    requires n < |records|
    ensures var event := Parse(records[n]);
            Parsed(records[..n + 1]) == Parsed(records[..n]) + if event.Some? then [event.value] else []
  {
    assert records[..n + 1][..n] == records[..n];
  }

  lemma {:induction false} ParsedConcat(a: seq<Bytes>, b: seq<Bytes>)
    ensures Parsed(a + b) == Parsed(a) + Parsed(b)
    decreases |b|
  {
    hide Parse;
    if b == [] {
      assert a + b == a;
    } else {
      assert (a + b)[..|a + b| - 1] == a + b[..|b| - 1];
      ParsedConcat(a, b[..|b| - 1]);
    }
  }

  lemma {:induction false} FlatLast(queue: seq<seq<BpfEvent>>, batch: seq<BpfEvent>)
    ensures Flat(queue + [batch]) == Flat(queue) + batch
  {
    if queue != [] {
      FlatLast(queue[1..], batch);
      assert (queue + [batch])[1..] == queue[1..] + [batch];
    }
  }

  lemma FlatFirst(queue: seq<seq<BpfEvent>>)
    requires queue != []
    ensures Flat(queue) == queue[0] + Flat(queue[1..])
  {
  }

  /** Records as the kernel side writes them are all kept, in order. */
  lemma {:induction false} NothingUnparsed(records: seq<Record>, data: seq<Bytes>)
    requires |records| == |data|
    requires forall i :: 0 <= i < |records| ==> WellFormed(records[i]) && data[i] == Layout(records[i])
    ensures |Parsed(data)| == |records|
    ensures forall i :: 0 <= i < |records| ==> Means(records[i], Parsed(data)[i])
  {
    hide Means, WellFormed, Parse, Layout;
    if records != [] {
      var n := |records| - 1;
      NothingUnparsed(records[..n], data[..n]);
      ParseLayout(records[n]);
    }
  }

  class Pipeline {
    var ring: seq<Bytes>
    var queue: seq<seq<BpfEvent>>
    var ingested: seq<BpfEvent>
    var parseDrops: u64
    var queueDrops: u64
    var shutdownDiscarded: u64
    ghost var arrived: seq<Bytes>
    ghost var unparsed: nat
    ghost var unqueued: nat
    ghost var discarded: nat

    /** Every record that ever arrived is in the ring, in the queue, ingested, or counted. */
    ghost predicate Accounted()
      reads this
    {
      && |arrived| == |ring| + |Flat(queue)| + |ingested| + unparsed + unqueued + discarded
      && parseDrops == Min(unparsed, U64_MAX) && queueDrops == Min(unqueued, U64_MAX)
      && shutdownDiscarded == Min(discarded, U64_MAX)
    }

    /** As long as neither the queue closes nor anything is discarded, the state ingests
        exactly the events that arrive, in order. */
    ghost predicate InOrder()
      reads this
    {
      unqueued == 0 && discarded == 0 ==> ingested + Flat(queue) + Parsed(ring) == Parsed(arrived)
    }

    ghost predicate Valid()
      reads this
    {
      Accounted() && InOrder()
    }

    constructor ()
      ensures Valid() && ring == [] && queue == [] && ingested == [] && arrived == []
    {
      ring, queue, ingested, arrived := [], [], [], [];
      parseDrops, queueDrops, shutdownDiscarded := 0, 0, 0;
      unparsed, unqueued, discarded := 0, 0, 0;
    }

    /** The kernel writes a record. */
    method Arrive(record: Bytes)
      requires Valid()
      modifies `ring, `arrived
      ensures Valid() && ring == old(ring) + [record] && arrived == old(arrived) + [record]
    {
      hide Parse, Flat;
      ParsedConcat(ring, [record]);
      ParsedConcat(arrived, [record]);
      ring, arrived := ring + [record], arrived + [record];
    }

    /** The loop of `drain_ring_batch`, before the batch is sent. */
    method DrainRingBatch() returns (batch: seq<BpfEvent>, drained: bool)
      modifies `ring, `parseDrops, `unparsed
      ensures var n := Min(|old(ring)|, 4096);
              && batch == Parsed(old(ring)[..n]) && ring == old(ring)[n..]
              && unparsed == old(unparsed) + n - |batch|
      ensures old(parseDrops) == Min(old(unparsed), U64_MAX) ==> parseDrops == Min(unparsed, U64_MAX)
      ensures drained <==> |old(ring)| < 4096
    {
      hide Parse, Parsed;
      ghost var all := ring;
      batch := [];
      NothingParsed();
      assert all[..0] == [];
      for i := 0 to MAX_BATCH_EVENTS
        invariant i <= |all| && ring == all[i..] && batch == Parsed(all[..i])
        invariant unparsed == old(unparsed) + i - |batch|
        invariant old(parseDrops) == Min(old(unparsed), U64_MAX) ==> parseDrops == Min(unparsed, U64_MAX)
      {
        if ring == [] {
          return batch, true;
        }
        var data := ring[0];
        ring := ring[1..];
        ParsedNext(all, i);
        var event := Parse(data);
        if event.Some? {
          batch := batch + [event.value];
        } else {
          parseDrops := SatAdd(parseDrops, 1);
          unparsed := unparsed + 1;
        }
      }
      drained := false;
    }

    lemma NothingParsed()
      ensures Parsed([]) == []
    {
    }

    /** A closed queue loses the batch and ends the reader. */
    method SendBatch(batch: seq<BpfEvent>, receiving: bool) returns (alive: bool)
      modifies `queue, `queueDrops, `unqueued
      ensures alive <==> batch == [] || receiving
      ensures queue == if batch != [] && receiving then old(queue) + [batch] else old(queue)
      ensures unqueued == old(unqueued) + if alive then 0 else |batch|
      ensures old(queueDrops) == Min(old(unqueued), U64_MAX) ==> queueDrops == Min(unqueued, U64_MAX)
    {
      if batch == [] {
        return true;
      }
      if !receiving {
        queueDrops := SatAdd(queueDrops, |batch|);
        unqueued := unqueued + |batch|;
        return false;
      }
      queue := queue + [batch];
      return true;
    }

    /** One round of the reader. */
    method DrainAndSend(receiving: bool) returns (alive: bool, drained: bool)
      requires Valid()
      modifies `ring, `queue, `parseDrops, `queueDrops, `unparsed, `unqueued
      ensures Valid()
      ensures ring == old(ring)[Min(|old(ring)|, 4096)..]
      ensures drained <==> |old(ring)| < 4096
      ensures alive ==> Flat(queue) + Parsed(ring) == Flat(old(queue)) + Parsed(old(ring)) && unqueued == old(unqueued)
      ensures receiving ==> alive
    {
      hide Parsed, Flat;
      ghost var n, all := Min(|ring|, MAX_BATCH_EVENTS), ring;
      ParsedConcat(all[..n], all[n..]);
      assert all[..n] + all[n..] == all;
      var batch;
      batch, drained := DrainRingBatch();
      FlatLast(queue, batch);
      if batch == [] { assert Flat(queue) + batch == Flat(queue); }
      assert Flat(queue) + (batch + Parsed(ring)) == Flat(queue) + batch + Parsed(ring);
      assert ingested + (Flat(queue) + batch + Parsed(ring)) == ingested + Flat(queue) + (batch + Parsed(ring));
      assert ingested + (Flat(queue) + batch) + Parsed(ring) == ingested + (Flat(queue) + batch + Parsed(ring));
      alive := SendBatch(batch, receiving);
    }

    /** The last drain, when no more records can arrive: nothing stays in the ring unless the
        queue closes, which may happen at any time. */
    method FinalDrain() returns (alive: bool)
      requires Valid()
      modifies `ring, `queue, `parseDrops, `queueDrops, `unparsed, `unqueued
      ensures Valid()
      ensures alive ==> ring == [] && Flat(queue) == Flat(old(queue)) + Parsed(old(ring)) && unqueued == old(unqueued)
    {
      hide Parsed, Flat, Accounted, InOrder;
      alive := true;
      var drained := false;
      while alive && !drained
        invariant Valid() && (drained ==> ring == [])
        invariant alive ==> Flat(queue) + Parsed(ring) == Flat(old(queue)) + Parsed(old(ring)) && unqueued == old(unqueued)
        decreases |ring|, !drained
      {
        var receiving: bool := *;
        alive, drained := DrainAndSend(receiving);
      }
      NothingParsed();
      assert Flat(queue) + [] == Flat(queue);
    }

    /** `handle_aggregator_batch` for the batch at the front of the queue. */
    method HandleBatch(discard: bool)
      requires Valid() && queue != []
      modifies `queue, `ingested, `shutdownDiscarded, `discarded
      ensures Valid() && queue == old(queue)[1..]
      ensures ingested == old(ingested) + if discard then [] else old(queue)[0]
      ensures discarded == old(discarded) + if discard then |old(queue)[0]| else 0
    {
      hide Parsed, Flat;
      var batch := queue[0];
      FlatFirst(queue);
      assert ingested + (batch + Flat(queue[1..])) == ingested + batch + Flat(queue[1..]);
      if batch == [] { assert ingested + batch == ingested; }
      queue := queue[1..];
      if discard {
        shutdownDiscarded := SatAdd(shutdownDiscarded, |batch|);
        discarded := discarded + |batch|;
      } else {
        ingested := ingested + batch;
      }
    }

    /** Shutdown: the reader drains the ring, then the aggregator counts what is queued. Only
        what a closed queue left in the ring is neither ingested nor counted. */
    method Shutdown() returns (alive: bool)
      requires Valid()
      modifies this
      ensures Valid() && queue == [] && ingested == old(ingested) && arrived == old(arrived)
      ensures |arrived| == |ingested| + unparsed + unqueued + discarded + |ring|
      ensures alive ==> ring == []
    {
      alive := FinalDrain();
      while queue != []
        invariant Valid() && ingested == old(ingested) && arrived == old(arrived) && (alive ==> ring == [])
        decreases |queue|
      {
        HandleBatch(true);
      }
    }
  }
}
