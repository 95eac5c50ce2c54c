/**
 * The local worker's commands over the packed log: a batch is issued, written
 * and published in one go, a flush fences and syncs what is published, and any
 * failure fails the image for good.
 */
module LocalWorker {
  import opened Units
  import opened IntervalIndex
  import opened PackedLog
  import opened LocalOrder

  function Changes(writes: seq<Write>): (c: seq<Change>)
    ensures |c| == |writes|
  {
    seq(|writes|, i requires 0 <= i < |writes| => writes[i].change)
  }

  class Worker {
    const log: Log
    /** The image's shared failure. */
    var failed: bool

    /** Nothing issued is unpublished and no fence is open. */
    ghost predicate Quiet()
      reads this, log, log.index
    {
      log.Valid() && (!failed ==> !log.failed && log.cohort.None? && log.issued == log.published)
    }

    constructor (log: Log)
      requires log.Valid() && !log.failed && log.cohort.None? && log.issued == log.published
      ensures this.log == log && !failed && Quiet()
    {
      this.log, failed := log, false;
    }

    /** The batch holds something, surely fits the index and leaves the numbers in range. */
    predicate Fits(writes: seq<Write>)
      reads this, log, log.index
    {
      && writes != [] && log.issued + |writes| <= 0xFFFF_FFFF_FFFF_FFFF
      && |log.index.tree| + 2 * (log.pending + |writes|) <= log.index.limit
    }

    /** `wrote` is whether the batch's bytes reached the segment. */
    method Append(writes: seq<Write>, wrote: bool) returns (ok: bool)
      requires Quiet() && Sound(Changes(writes))
      modifies this, log, log.index
      ensures Quiet() && (failed <==> old(failed) || !ok)
      ensures log.durable == old(log.durable) && log.compacted == old(log.compacted)
      ensures ok <==> !old(failed) && wrote && old(Fits(writes))
      ensures ok ==> log.history == old(log.history) + Changes(writes) && log.published == |log.history|
      ensures !ok ==> log.published == old(log.published)
    {
      hide Overlay, Disjoint, Backed, Sound;
      if failed { return false; }
      var batch := Changes(writes);
      var issued := log.PrepareAppend(batch);
      if issued.Err? || !wrote {
        if issued.Ok? { log.Fail(); }
        failed := true;
        return false;
      }
      assert issued.value.changes == log.history[issued.value.first - 1..issued.value.first - 1 + |batch|];
      var published := log.PublishAppend(issued.value);
      ok := true;
    }

    /** `covered` says a synced fence already covers what is published. */
    method Flush(covered: bool, synced: bool) returns (ok: bool)
      requires Quiet() && (covered ==> log.durable == log.published)
      modifies this, log
      ensures Quiet() && (failed <==> old(failed) || !ok)
      ensures log.history == old(log.history) && log.published == old(log.published)
      ensures log.compacted == old(log.compacted)
      ensures ok <==> !old(failed) && (covered || synced)
      ensures ok ==> log.durable == log.published == |log.history|
      ensures !ok ==> log.durable == old(log.durable)
    {
      hide Overlay, Disjoint, Backed, Sound;
      if failed { return false; }
      if covered { return true; }
      var fence := log.PrepareFence();
      if !synced {
        log.Fail();
        failed := true;
        return false;
      }
      var done := log.CompleteSync(fence.value);
      ok := true;
    }
  }
}
