/** The shared half of the asynchronous task protocol: a bucket of queued creatures and the
    `scheduled` flag, changed only in the four sections that hold the bucket's lock. */
module AsyncBucket {

  /** A weak reference, known by the id of the creature it was made from. */
  type CreatureId = nat

  datatype Bucket = Bucket(queue: seq<CreatureId>, scheduled: bool)

  const EMPTY := Bucket([], false)

  function Min(a: nat, b: nat): nat { if a <= b then a else b }

  function Enqueue(b: Bucket, c: CreatureId): Bucket {
    Bucket(b.queue + [c], true)
  }

  function SliceSize(b: Bucket, limit: nat): (n: nat)
    ensures n <= |b.queue| && n <= limit && (n == |b.queue| || n == limit)
  {
    Min(|b.queue|, limit)
  }

  function Slice(b: Bucket, limit: nat): seq<CreatureId> {
    b.queue[..SliceSize(b, limit)]
  }

  function AfterSlice(b: Bucket, limit: nat): Bucket {
    var rest := b.queue[SliceSize(b, limit)..];
    Bucket(rest, rest != [])
  }

  function Requeue(b: Bucket, rest: seq<CreatureId>): Bucket {
    Bucket(rest + b.queue, true)
  }

  function EnqueueAll(b: Bucket, cs: seq<CreatureId>): Bucket
    decreases |cs|
  {
    if cs == [] then b else EnqueueAll(Enqueue(b, cs[0]), cs[1..])
  }

  lemma {:induction false} EnqueueAllQueue(b: Bucket, cs: seq<CreatureId>)
    ensures EnqueueAll(b, cs).queue == b.queue + cs
    decreases |cs|
  {
    if cs == [] {
      assert b.queue + cs == b.queue;
    } else {
      EnqueueAllQueue(Enqueue(b, cs[0]), cs[1..]);
      assert b.queue + [cs[0]] + cs[1..] == b.queue + cs;
    }
  }

  /** A slice of which `n` entries were consumed goes back to where it was: nobody who came
      later, not even while the slice was out, overtakes an entry of it. */
  lemma PutBackKeepsOrder(b: Bucket, limit: nat, n: nat, later: seq<CreatureId>)
    requires n <= SliceSize(b, limit)
    ensures Requeue(EnqueueAll(AfterSlice(b, limit), later), Slice(b, limit)[n..]).queue == b.queue[n..] + later
  {
    EnqueueAllQueue(AfterSlice(b, limit), later);
    assert Slice(b, limit)[n..] + b.queue[SliceSize(b, limit)..] == b.queue[n..];
  }

  /** The mutable bucket. Every method is one lock section. */
  class AsyncTaskBucket {
    var creatures: seq<CreatureId>
    var scheduled: bool

    ghost function View(): Bucket reads this { Bucket(creatures, scheduled) }

    constructor ()
      ensures View() == EMPTY
    {
      creatures, scheduled := [], false;
    }

    /** The section of `enqueueAsyncTask`. */
    method Push(c: CreatureId) returns (shouldSchedule: bool)
      modifies this
      ensures View() == Enqueue(old(View()), c)
      ensures shouldSchedule == !old(scheduled)
    {
      shouldSchedule := false;
      creatures := creatures + [c];
      if !scheduled {
        scheduled := true;
        shouldSchedule := true;
      }
    }

    /** The first section of `processAsyncTaskBucket`. */
    method TakeSlice(batchLimit: nat) returns (pending: seq<CreatureId>, shouldReschedule: bool)
      modifies this
      ensures pending == Slice(old(View()), batchLimit)
      ensures View() == AfterSlice(old(View()), batchLimit)
      ensures shouldReschedule == scheduled
    {
      var batchSize := Min(|creatures|, batchLimit);
      pending := [];
      var i := 0;
      while i < batchSize
        invariant i <= batchSize
        invariant pending == old(creatures)[..i]
        invariant creatures == old(creatures)[i..]
      {
        pending := pending + [creatures[0]];
        creatures := creatures[1..];
        i := i + 1;
      }
      shouldReschedule := creatures != [];
      scheduled := shouldReschedule;
    }

    /** The second section of `processAsyncTaskBucket`: the unconsumed suffix of the slice
        goes back to the front, last entry first. */
    method PutBack(slice: seq<CreatureId>, consumed: nat, reschedule: bool)
      returns (requeued: nat, shouldReschedule: bool)
      requires consumed < |slice|
      modifies this
      ensures View() == Requeue(old(View()), slice[consumed..])
      ensures requeued == |slice| - consumed
      ensures shouldReschedule == (reschedule || !old(scheduled))
    {
      requeued := |slice| - consumed;
      var index := |slice|;
      while index > consumed
        invariant consumed <= index <= |slice|
        invariant creatures == slice[index..] + old(creatures)
        invariant scheduled == old(scheduled)
      {
        creatures := [slice[index - 1]] + creatures;
        assert slice[index - 1..] == [slice[index - 1]] + slice[index..];
        index := index - 1;
      }
      shouldReschedule := reschedule;
      if !scheduled {
        scheduled := true;
        shouldReschedule := true;
      }
    }

    /** The section of `rollbackAsyncTaskBucket`. */
    method Reject() returns (rejected: seq<CreatureId>)
      modifies this
      ensures rejected == old(creatures)
      ensures View() == EMPTY
    {
      scheduled := false;
      rejected := creatures;
      creatures := [];
    }
  }
}
