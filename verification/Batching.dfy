/** The exporter's event loop: records are collected into batches for the encoder. */
module Batching {
  import opened Text

  /**
   What the loop's `select` can find: a record, a tick, or a closed channel. `now` is
   the clock at the tick, `after` the clock read after a flush.
   */
  datatype Event<T> = Recv(rec: T, after: int) | Tick(now: int, after: int) | Closed

  datatype Cause = Full | Idle | End

  /** A slice passed to `Encode`, why, and at which event. */
  datatype Batch<T> = Batch(recs: seq<T>, cause: Cause, at: nat)

  /** One second, in nanoseconds. */
  const MAX_IDLE := 1_000_000_000

  /** The records that arrive before the channel is closed. */
  function Arrived<T>(events: seq<Event<T>>): seq<T>
  {
    if events == [] || events[0].Closed? then []
    else (if events[0].Recv? then [events[0].rec] else []) + Arrived(events[1..])
  }

  predicate HasClosed<T>(events: seq<Event<T>>)
  {
    exists i :: 0 <= i < |events| && events[i].Closed?
  }

  function Slices<T>(batches: seq<Batch<T>>): seq<seq<T>>
  {
    seq(|batches|, i requires 0 <= i < |batches| => batches[i].recs)
  }

  function Contents<T>(batches: seq<Batch<T>>): seq<T>
  {
    Flatten(Slices(batches))
  }

  /** The size at which a batch is passed on: a buffer of less than one record counts as one. */
  function Limit(eventBuffer: int): nat
  {
    if eventBuffer < 1 then 1 else eventBuffer
  }

  predicate BatchOk<T>(b: Batch<T>, eventBuffer: int)
  {
    match b.cause
    case Full => |b.recs| == Limit(eventBuffer)
    case _ => 0 < |b.recs| < Limit(eventBuffer)
  }

  lemma ContentsAppend<T>(batches: seq<Batch<T>>, b: Batch<T>)
    ensures Contents(batches + [b]) == Contents(batches) + b.recs
  {
    assert Slices(batches + [b]) == Slices(batches) + [b.recs];
    FlattenConcat(Slices(batches), [b.recs]);
    assert Flatten([b.recs]) == b.recs + Flatten([b.recs][1..]);
    assert [b.recs][1..] == [] && b.recs + [] == b.recs;
  }

  lemma NoCloseTail<T>(events: seq<Event<T>>, k: nat)
    requires 0 < k <= |events| && !HasClosed(events[..k])
    ensures !events[0].Closed? && !HasClosed(events[1..][..k - 1])
  {
    assert !events[..k][0].Closed?;
    var tail := events[1..][..k - 1];
    forall i | 0 <= i < |tail| ensures !tail[i].Closed? {
      assert !events[..k][i + 1].Closed?;
    }
  }

  lemma NoCloseNext<T>(events: seq<Event<T>>, k: nat)
    requires k < |events| && !HasClosed(events[..k]) && !events[k].Closed?
    ensures !HasClosed(events[..k + 1])
  {
    var more := events[..k + 1];
    forall i | 0 <= i < |more| ensures !more[i].Closed? {
      assert i < k ==> !events[..k][i].Closed?;
    }
  }

  lemma {:induction false} ArrivedStep<T>(events: seq<Event<T>>, k: nat)
    requires k < |events| && !HasClosed(events[..k])
    ensures Arrived(events[..k + 1]) == Arrived(events[..k]) + if events[k].Recv? then [events[k].rec] else []
  {
    if k > 0 {
      NoCloseTail(events, k);
      assert events[..k + 1][1..] == events[1..][..k] && events[..k][1..] == events[1..][..k - 1];
      ArrivedStep(events[1..], k - 1);
    }
  }

  lemma {:induction false} ArrivedUpToClose<T>(events: seq<Event<T>>, k: nat)
    requires k < |events| && events[k].Closed? && !HasClosed(events[..k])
    ensures Arrived(events) == Arrived(events[..k])
  {
    if k > 0 {
      NoCloseTail(events, k);
      assert events[..k][1..] == events[1..][..k - 1];
      ArrivedUpToClose(events[1..], k - 1);
    }
  }

  /** No more batches than records: a batch is never empty. */
  lemma {:induction false} BatchesBounded<T>(batches: seq<Batch<T>>, eventBuffer: int)
    requires forall i :: 0 <= i < |batches| ==> BatchOk(batches[i], eventBuffer)
    ensures |batches| <= |Contents(batches)| <= |batches| * Limit(eventBuffer)
  {
    if batches != [] {
      var init, last := batches[..|batches| - 1], batches[|batches| - 1];
      BatchesBounded(init, eventBuffer);
      ContentsAppend(init, last);
      assert batches == init + [last];
      assert |batches| * Limit(eventBuffer) == |init| * Limit(eventBuffer) + Limit(eventBuffer);
    }
  }

  // ------------------------------------------------------------------
  // When a batch is passed on.

  /**
   At event `k` a flush is due, if the last one was before event `begin` and at time
   `since`: the buffer is full, or it has been idle too long, or the channel is closed,
   and something has arrived.
   */
  predicate Due<T>(events: seq<Event<T>>, eventBuffer: int, begin: nat, since: int, k: nat)
    requires begin <= k < |events|
  {
    match events[k]
    case Recv(_, _) => |Arrived(events[begin..k + 1])| >= eventBuffer
    case Tick(now, _) => now - since > MAX_IDLE && Arrived(events[begin..k]) != []
    case Closed => Arrived(events[begin..k]) != []
  }

  function CauseOf<T>(e: Event<T>): Cause
  {
    match e
    case Recv(_, _) => Full
    case Tick(_, _) => Idle
    case Closed => End
  }

  /** Where what follows the first `i` batches begins. */
  function Begin<T>(batches: seq<Batch<T>>, i: nat): nat
    requires i <= |batches|
  {
    if i == 0 then 0 else batches[i - 1].at + 1
  }

  /** When the last of the first `i` batches was passed on. */
  function Since<T>(events: seq<Event<T>>, start: int, batches: seq<Batch<T>>, i: nat): int
    requires i <= |batches|
  {
    if i == 0 || batches[i - 1].at >= |events| || events[batches[i - 1].at].Closed? then start
    else events[batches[i - 1].at].after
  }

  ghost predicate NotDue<T(!new)>(events: seq<Event<T>>, eventBuffer: int, begin: nat, since: int, end: nat)
    requires end <= |events|
  {
    forall k :: begin <= k < end ==> !Due(events, eventBuffer, begin, since, k)
  }

  /** Batch `i` is passed on at the first event after the batch before at which a flush is due, with all that arrived in between. */
  ghost predicate IsBatch<T(!new)>(events: seq<Event<T>>, eventBuffer: int, start: int, batches: seq<Batch<T>>, i: nat, end: nat)
    requires i < |batches| && end <= |events|
  {
    var b, begin, since := batches[i], Begin(batches, i), Since(events, start, batches, i);
    begin <= b.at < end && Due(events, eventBuffer, begin, since, b.at) && NotDue(events, eventBuffer, begin, since, b.at)
    && b.recs == Arrived(events[begin..b.at + 1]) && b.cause == CauseOf(events[b.at])
  }

  /** These are the batches of the first `end` events. */
  ghost predicate AreBatches<T(!new)>(events: seq<Event<T>>, eventBuffer: int, start: int, batches: seq<Batch<T>>, end: nat)
    requires end <= |events|
  {
    (forall i :: 0 <= i < |batches| ==> IsBatch(events, eventBuffer, start, batches, i, end))
    && NotDue(events, eventBuffer, Begin(batches, |batches|), Since(events, start, batches, |batches|), end)
  }

  /** At an event where no flush is due, nothing changes. */
  lemma NoBatchHere<T(!new)>(events: seq<Event<T>>, eventBuffer: int, start: int, batches: seq<Batch<T>>, k: nat)
    requires k < |events| && AreBatches(events, eventBuffer, start, batches, k)
    requires var begin := Begin(batches, |batches|);
             begin <= k && !Due(events, eventBuffer, begin, Since(events, start, batches, |batches|), k)
    ensures AreBatches(events, eventBuffer, start, batches, k + 1)
  {
    var next := k + 1;
    forall i | 0 <= i < |batches| ensures IsBatch(events, eventBuffer, start, batches, i, next) {
      assert IsBatch(events, eventBuffer, start, batches, i, k);
    }
  }

  lemma EarlierBatch<T(!new)>(events: seq<Event<T>>, eventBuffer: int, start: int, batches: seq<Batch<T>>, b: Batch<T>, i: nat, k: nat)
    requires k < |events| && i < |batches| && IsBatch(events, eventBuffer, start, batches, i, k)
    ensures IsBatch(events, eventBuffer, start, batches + [b], i, k + 1)
  {
    assert Begin(batches + [b], i) == Begin(batches, i) && Since(events, start, batches + [b], i) == Since(events, start, batches, i);
  }

  lemma BatchHere<T(!new)>(events: seq<Event<T>>, eventBuffer: int, start: int, batches: seq<Batch<T>>, b: Batch<T>, k: nat)
    requires k < |events| && AreBatches(events, eventBuffer, start, batches, k) && b.at == k
    requires var begin := Begin(batches, |batches|);
             begin <= k && Due(events, eventBuffer, begin, Since(events, start, batches, |batches|), k)
             && b.recs == Arrived(events[begin..k + 1]) && b.cause == CauseOf(events[k])
    ensures AreBatches(events, eventBuffer, start, batches + [b], k + 1)
  {
    var more, n, next := batches + [b], |batches|, k + 1;
    assert Begin(more, n) == Begin(batches, n) && Since(events, start, more, n) == Since(events, start, batches, n);
    assert IsBatch(events, eventBuffer, start, more, n, next);
    forall i | 0 <= i < |more| ensures IsBatch(events, eventBuffer, start, more, i, next) {
      if i < n {
        assert IsBatch(events, eventBuffer, start, batches, i, k);
        EarlierBatch(events, eventBuffer, start, batches, b, i, k);
      }
    }
  }

  /** One more event of a stretch in which nothing is closed. */
  lemma ArrivedMore<T>(events: seq<Event<T>>, begin: nat, k: nat)
    requires begin <= k < |events| && !HasClosed(events[..k])
    ensures Arrived(events[begin..k + 1]) == Arrived(events[begin..k]) + if events[k].Recv? then [events[k].rec] else []
  {
    var part := events[begin..];
    var init := part[..k - begin];
    assert init == events[begin..k] && part[..k - begin + 1] == events[begin..k + 1];
    forall i | 0 <= i < |init| ensures !init[i].Closed? {
      assert !events[..k][begin + i].Closed?;
    }
    ArrivedStep(part, k - begin);
  }

  class Exporter<T(!new)> {
    const eventBuffer: int
    var recs: seq<T>
    var counter: int
    var lastFlush: int
    /** The batches passed to `Encode`. */
    var encoded: seq<Batch<T>>

    constructor (eventBuffer: int)
      ensures this.eventBuffer == eventBuffer && recs == [] && counter == 0 && encoded == []
    {
      this.eventBuffer := eventBuffer;
      recs, counter, encoded := [], 0, [];
      lastFlush := 0;
    }

    method Pass(cause: Cause, at: nat)
      modifies this`encoded
      ensures encoded == old(encoded) + [Batch(recs, cause, at)]
      ensures Contents(encoded) == Contents(old(encoded)) + recs
    {
      ContentsAppend(encoded, Batch(recs, cause, at));
      encoded := encoded + [Batch(recs, cause, at)];
    }

    /** The state at the head of the loop. */
    ghost predicate Valid()
      reads this
    {
      counter == |recs| < Limit(eventBuffer)
      && forall i :: 0 <= i < |encoded| ==> BatchOk(encoded[i], eventBuffer)
    }

    /** What has been passed on and what is held after the first `k` events. */
    ghost predicate UpTo(events: seq<Event<T>>, start: int, k: nat)
      reads this
      requires k <= |events|
    {
      AreBatches(events, eventBuffer, start, encoded, k) && Begin(encoded, |encoded|) <= k
      && recs == Arrived(events[Begin(encoded, |encoded|)..k]) && lastFlush == Since(events, start, encoded, |encoded|)
    }

    /** The buffer is passed on at event `k` and is empty afterwards. */
    method Flush(events: seq<Event<T>>, ghost start: int, k: nat)
      requires k < |events| && !HasClosed(events[..k]) && !events[k].Closed?
      requires counter == |recs| > 0 && forall i :: 0 <= i < |encoded| ==> BatchOk(encoded[i], eventBuffer)
      requires BatchOk(Batch(recs, CauseOf(events[k]), k), eventBuffer)
      requires AreBatches(events, eventBuffer, start, encoded, k) && Begin(encoded, |encoded|) <= k
      requires recs == Arrived(events[Begin(encoded, |encoded|)..k + 1])
      requires Due(events, eventBuffer, Begin(encoded, |encoded|), Since(events, start, encoded, |encoded|), k)
      modifies this
      ensures Valid() && UpTo(events, start, k + 1)
      ensures Contents(encoded) + recs == old(Contents(encoded) + recs)
    {
      ghost var before := encoded;
      BatchHere(events, eventBuffer, start, encoded, Batch(recs, CauseOf(events[k]), k), k);
      Pass(CauseOf(events[k]), k);
      recs := [];
      counter := 0;
      lastFlush := events[k].after;
      assert events[k + 1..k + 1] == [];
    }

    /** One record is received. */
    method Receive(events: seq<Event<T>>, ghost start: int, k: nat)
      requires k < |events| && events[k].Recv? && !HasClosed(events[..k])
      requires Valid() && UpTo(events, start, k)
      modifies this
      ensures Valid() && UpTo(events, start, k + 1)
      ensures Contents(encoded) + recs == old(Contents(encoded) + recs) + [events[k].rec]
    {
      ArrivedMore(events, Begin(encoded, |encoded|), k);
      counter := counter + 1;
      recs := recs + [events[k].rec];
      if counter >= eventBuffer {
        Flush(events, start, k);
      } else {
        NoBatchHere(events, eventBuffer, start, encoded, k);
      }
    }

    /** The ticker fires. */
    method Ticked(events: seq<Event<T>>, ghost start: int, k: nat)
      requires k < |events| && events[k].Tick? && !HasClosed(events[..k])
      requires Valid() && UpTo(events, start, k)
      modifies this
      ensures Valid() && UpTo(events, start, k + 1)
      ensures Contents(encoded) + recs == old(Contents(encoded) + recs)
    {
      ArrivedMore(events, Begin(encoded, |encoded|), k);
      if events[k].now - lastFlush > MAX_IDLE && counter > 0 {
        Flush(events, start, k);
      } else {
        NoBatchHere(events, eventBuffer, start, encoded, k);
      }
    }

    /** The channel is closed: what is left is passed on. */
    method Finish(events: seq<Event<T>>, ghost start: int, k: nat)
      requires k < |events| && events[k].Closed? && !HasClosed(events[..k])
      requires Valid() && UpTo(events, start, k)
      modifies this`encoded
      ensures Valid() && AreBatches(events, eventBuffer, start, encoded, k + 1)
      ensures Contents(encoded) == old(Contents(encoded) + recs)
    {
      ArrivedMore(events, Begin(encoded, |encoded|), k);
      if counter > 0 {
        BatchHere(events, eventBuffer, start, encoded, Batch(recs, End, k), k);
        Pass(End, k);
      } else {
        NoBatchHere(events, eventBuffer, start, encoded, k);
        assert Contents(encoded) + [] == Contents(encoded);
      }
    }

    /**
     `Process`: every record that arrived before the close is passed on once, in order;
     no batch is empty or over the limit; and a batch is passed on exactly at the events
     at which a flush is due.
     */
    method Process(events: seq<Event<T>>, start: int)
      requires recs == [] && counter == 0 && encoded == []
      modifies this
      ensures counter == |recs| < if eventBuffer < 1 then 1 else eventBuffer
      ensures forall i :: 0 <= i < |encoded| ==> BatchOk(encoded[i], eventBuffer)
      ensures HasClosed(events) ==> Contents(encoded) == Arrived(events)
      ensures HasClosed(events) ==>
                exists k :: 0 <= k < |events| && events[k].Closed? && !HasClosed(events[..k])
                            && AreBatches(events, eventBuffer, start, encoded, k + 1)
      ensures !HasClosed(events) ==> Contents(encoded) + recs == Arrived(events)
      ensures !HasClosed(events) ==> AreBatches(events, eventBuffer, start, encoded, |events|)
    {
      lastFlush := start;
      assert events[0..0] == [];
      var k := 0;
      while k < |events|
        invariant 0 <= k <= |events| && Valid() && !HasClosed(events[..k])
        invariant UpTo(events, start, k)
        invariant Contents(encoded) + recs == Arrived(events[..k])
      {
        ArrivedStep(events, k);
        match events[k] {
          case Recv(_, _) =>
            Receive(events, start, k);
          case Tick(_, _) =>
            Ticked(events, start, k);
          case Closed =>
            Finish(events, start, k);
            ArrivedUpToClose(events, k);
            return;
        }
        NoCloseNext(events, k);
        k := k + 1;
      }
      assert events[..|events|] == events;
    }
  }
}
