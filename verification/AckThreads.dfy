/** The sender's and the receiver's inner loops, as they run on a view. */
module AckThreads {
  import opened AckPipeline

  datatype RegionBlock = RegionBlock(handle: int, size: nat, hint: nat)

  /** What the user callback sees: a pointer into the region. */
  datatype UserBlock = UserBlock(ptr: int, size: nat, hint: nat)

  function ToUser(base: int, b: RegionBlock): UserBlock { UserBlock(base + b.handle, b.size, b.hint) }

  function ToUsers(base: int, bs: seq<RegionBlock>): seq<UserBlock> {
    seq(|bs|, i requires 0 <= i < |bs| => ToUser(base, bs[i]))
  }

  /** Number of batches needed for `n` blocks. */
  function Batches(n: nat): nat { (n + BUNCH - 1) / BUNCH }

  class AckView {
    var fBlocksToFree: seq<RegionBlock>

    constructor ()
      ensures fBlocksToFree == []
    {
      fBlocksToFree := [];
    }

    /** Queues a block; `wake` says whether the sender is notified. */
    method ReleaseBlock(b: RegionBlock) returns (wake: bool)
      modifies this
      ensures fBlocksToFree == old(fBlocksToFree) + [b]
      ensures wake <==> |old(fBlocksToFree)| + 1 >= 256
    {
      fBlocksToFree := fBlocksToFree + [b];
      wake := |fBlocksToFree| >= BUNCH;
    }

    /** Moves the last blocks of the list, at most a bunch, into the buffer. */
    method TakeBatch(blocks: array<RegionBlock>) returns (n: nat)
      requires blocks.Length == BUNCH
      modifies this, blocks
      ensures n == Taken(old(fBlocksToFree)) && n == if |old(fBlocksToFree)| < 256 then |old(fBlocksToFree)| else 256
      ensures fBlocksToFree + blocks[..n] == old(fBlocksToFree)
    {
      n := Min(|fBlocksToFree|, BUNCH);
      var first := |fBlocksToFree| - n;
      var i := 0;
      while i < n
        invariant 0 <= i <= n && fBlocksToFree == old(fBlocksToFree)
        invariant blocks[..i] == fBlocksToFree[first..first + i]
      {
        blocks[i] := fBlocksToFree[first + i];
        i := i + 1;
      }
      fBlocksToFree := fBlocksToFree[..first];
    }

    /**
     * The sender loop once the view has stopped and nothing new is released; `accepts(k)` says whether
     * the queue takes the k-th batch.  The loop ends, with the list empty and every block accounted for.
     */
    method SendAcksStopped(blocks: array<RegionBlock>, accepts: nat -> bool)
      returns (sent: seq<seq<RegionBlock>>, dropped: seq<seq<RegionBlock>>)
      requires blocks.Length == BUNCH
      modifies this, blocks
      ensures fBlocksToFree == []
      ensures |sent| + |dropped| == Batches(|old(fBlocksToFree)|)
      ensures forall k | 0 <= k < |sent| :: BatchOk(sent[k])
      ensures forall b :: Times(old(fBlocksToFree), b) == Times(Flatten(sent), b) + Times(Flatten(dropped), b)
    {
      sent, dropped := [], [];
      while true
        invariant forall k | 0 <= k < |sent| :: BatchOk(sent[k])
        invariant |sent| + |dropped| + Batches(|fBlocksToFree|) == Batches(|old(fBlocksToFree)|)
        invariant forall b :: Times(old(fBlocksToFree), b)
                              == Times(fBlocksToFree, b) + Times(Flatten(sent), b) + Times(Flatten(dropped), b)
        decreases |fBlocksToFree|
      {
        ghost var before := fBlocksToFree;
        var n := TakeBatch(blocks);
        if n == 0 { break; }
        var batch := blocks[..n];
        forall b ensures Times(before, b) == Times(fBlocksToFree, b) + Times(batch, b) {
          TimesAppend(fBlocksToFree, batch, b);
        }
        if accepts(|sent| + |dropped|) {
          FlattenTimes(sent, batch);
          sent := sent + [batch];
        } else {
          FlattenTimes(dropped, batch);
          dropped := dropped + [batch];
        }
      }
    }
  }

  lemma FlattenTimes(q: seq<seq<RegionBlock>>, batch: seq<RegionBlock>)
    ensures forall b :: Times(Flatten(q + [batch]), b) == Times(Flatten(q), b) + Times(batch, b)
  {
    FlattenAppend(q, batch);
    forall b ensures Times(Flatten(q + [batch]), b) == Times(Flatten(q), b) + Times(batch, b) {
      TimesAppend(Flatten(q), batch, b);
    }
  }

  /** Which callback the region was created with; the bulk one wins. */
  datatype Callback = Bulk | Single | NoCallback

  /**
   * Turns one received batch into callbacks.  With a bulk callback the whole batch arrives in one call,
   * otherwise every block arrives on its own; the blocks and their order are the same.
   */
  method Dispatch(base: int, blocks: seq<RegionBlock>, callback: Callback) returns (calls: seq<seq<UserBlock>>)
    ensures !callback.NoCallback? ==> Flatten(calls) == ToUsers(base, blocks) && |Flatten(calls)| == |blocks|
    ensures !callback.NoCallback? ==> forall k | 0 <= k < |blocks| ::
              Flatten(calls)[k] == UserBlock(base + blocks[k].handle, blocks[k].size, blocks[k].hint)
    ensures callback.NoCallback? ==> calls == []
    ensures callback.Bulk? ==> |calls| == 1
    ensures callback.Single? ==> |calls| == |blocks| && forall k | 0 <= k < |calls| :: |calls[k]| == 1
  {
    calls := [];
    if callback.Bulk? {
      var result: seq<UserBlock> := [];
      for i := 0 to |blocks|
        invariant result == ToUsers(base, blocks[..i])
      {
        result := result + [ToUser(base, blocks[i])];
      }
      assert blocks[..|blocks|] == blocks;
      FlattenAppend<UserBlock>([], result);
      calls := [result];
      assert [] + [result] == [result];
    } else if callback.Single? {
      for i := 0 to |blocks|
        invariant Flatten(calls) == ToUsers(base, blocks[..i])
        invariant |calls| == i && forall k | 0 <= k < |calls| :: |calls[k]| == 1
      {
        FlattenAppend(calls, [ToUser(base, blocks[i])]);
        calls := calls + [[ToUser(base, blocks[i])]];
      }
      assert blocks[..|blocks|] == blocks;
    }
  }
}
