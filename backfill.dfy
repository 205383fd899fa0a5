/**
 * What `_fetch_message_history` does to the cog's state, given the batch the
 * history request returned (bot.py, lines 120-157): the batch is appended to
 * the channel's buffer; a batch of five or more is sorted and scanned, the
 * buffer is replaced by the scan's unresolved tail, a checkpoint is committed
 * when some transition happened, and the emitted chunks go to the summarizer.
 */
module Backfill {
  import opened Messages
  import opened State
  import opened Windowing

  /** Line 123: only a batch of at least five messages is scanned. */
  predicate Scans(batch: seq<Message>)
  {
    |batch| >= MinCluster
  }

  /** Lines 124-148: the scan over the sorted batch. */
  function Scanned(rev: Revision, batch: seq<Message>): Scan
  {
    Run(rev, Sort(batch))
  }

  /** Line 151: a checkpoint is committed when the scan recorded a candidate. */
  predicate Commits(rev: Revision, batch: seq<Message>)
  {
    Scans(batch) && Scanned(rev, batch).validateStamp.Some?
  }

  /** Lines 120 and 157: the buffers after the fetch. */
  function BuffersAfterFetch(rev: Revision, b: Buffers, g: GuildKey, c: int, batch: seq<Message>): Buffers
  {
    if Scans(batch) then WithBuffer(b, g, c, Scanned(rev, batch).current)
    else WithBuffer(b, g, c, BufferOf(b, g, c) + batch)
  }

  /** Lines 151-154: the checkpoints after the fetch. */
  function CheckpointsAfterFetch(rev: Revision, cps: Checkpoints, c: int, batch: seq<Message>): Checkpoints
  {
    if Commits(rev, batch) then
      var st := Scanned(rev, batch);
      cps[StrId(c) := ChannelStatus(st.validateStamp.value, st.inConversation)]
    else cps
  }

  /** Lines 160-166: the chunks handed to the summarizer, in order. */
  function ChunksOfFetch(rev: Revision, batch: seq<Message>): seq<seq<Message>>
  {
    if Scans(batch) then Scanned(rev, batch).chunks else []
  }

  /** The fetch's effect on a scanned batch, in terms of the scan's outputs `st`. */
  lemma ScannedEffect(rev: Revision, b: Buffers, cps: Checkpoints, g: GuildKey, c: int, batch: seq<Message>, st: Scan)
    requires Scans(batch) && st == Run(rev, Sort(batch))
    ensures BuffersAfterFetch(rev, b, g, c, batch) == WithBuffer(b, g, c, st.current)
    ensures CheckpointsAfterFetch(rev, cps, c, batch) ==
            if st.validateStamp.Some? then cps[StrId(c) := ChannelStatus(st.validateStamp.value, st.inConversation)] else cps
    ensures ChunksOfFetch(rev, batch) == st.chunks
    ensures Commits(rev, batch) == st.validateStamp.Some?
  {
  }

  /** `x` occurs in `s` as a contiguous run. */
  ghost predicate IsSliceOf(x: seq<Message>, s: seq<Message>)
  {
    exists lo, hi :: 0 <= lo <= hi <= |s| && x == s[lo..hi]
  }

  /** `x` is a suffix of `s`. */
  ghost predicate IsSuffixOf(x: seq<Message>, s: seq<Message>)
  {
    |x| <= |s| && x == s[|s| - |x|..]
  }

  /** Each chunk is a sorted contiguous run of more than five messages of `s`. */
  ghost predicate ChunksAreSlices(s: seq<Message>, chunks: seq<seq<Message>>)
  {
    forall j :: 0 <= j < |chunks| ==> |chunks[j]| > MinCluster && IsSliceOf(chunks[j], s) && Sorted(chunks[j])
  }

  /** Each chunk, and then the tail, begins no earlier than the chunk before it ends. */
  ghost predicate Chronological(chunks: seq<seq<Message>>, tail: seq<Message>)
  {
    && (forall i, j :: 0 <= i < j < |chunks| && j == i + 1 ==>
          |chunks[i]| > 0 && |chunks[j]| > 0 &&
          chunks[i][|chunks[i]| - 1].timestamp <= chunks[j][0].timestamp)
    && (|chunks| > 0 && |tail| > 0 ==>
          var last := chunks[|chunks| - 1];
          |last| > 0 && last[|last| - 1].timestamp <= tail[0].timestamp)
  }

  /**
   * The tail begins right after the last chunk: the message just before the
   * tail in `s` is the last chunk's final message, so nothing lies between them.
   */
  ghost predicate FollowsLastChunk(s: seq<Message>, chunks: seq<seq<Message>>, tail: seq<Message>)
  {
    && |chunks| > 0
    && var last := chunks[|chunks| - 1];
       |last| > 0 && |tail| < |s| && s[|s| - |tail| - 1] == last[|last| - 1]
  }

  /**
   * A batch of fewer than five messages is only appended: the buffer becomes
   * the old buffer followed by the batch, no checkpoint changes, nothing is emitted.
   */
  lemma SmallBatchAppends(rev: Revision, b: Buffers, cps: Checkpoints, g: GuildKey, c: int, batch: seq<Message>)
    requires |batch| < MinCluster
    ensures BufferOf(BuffersAfterFetch(rev, b, g, c, batch), g, c) == BufferOf(b, g, c) + batch
    ensures CheckpointsAfterFetch(rev, cps, c, batch) == cps
    ensures ChunksOfFetch(rev, batch) == []
  {
  }

  /** A scanned batch replaces the channel's buffer by the scan's tail, whatever the buffer held. */
  lemma ScannedReplaces(rev: Revision, b: Buffers, g: GuildKey, c: int, batch: seq<Message>)
    requires Scans(batch)
    ensures BufferOf(BuffersAfterFetch(rev, b, g, c, batch), g, c) == Scanned(rev, batch).current
    ensures ChunksOfFetch(rev, batch) == Scanned(rev, batch).chunks
  {
  }

  /** Every other channel's buffer and checkpoint is left as it was. */
  lemma FetchFrame(rev: Revision, b: Buffers, cps: Checkpoints, g: GuildKey, c: int, batch: seq<Message>)
    ensures forall h, d :: (h, d) != (g, c) ==>
              BufferOf(BuffersAfterFetch(rev, b, g, c, batch), h, d) == BufferOf(b, h, d)
    ensures forall k :: k in cps && k != StrId(c) ==> CheckpointsAfterFetch(rev, cps, c, batch)[k] == cps[k]
    ensures CheckpointsAfterFetch(rev, cps, c, batch).Keys <= cps.Keys + {StrId(c)}
  {
    if Scans(batch) {
      WithBufferFrame(b, g, c, Scanned(rev, batch).current);
    } else {
      WithBufferFrame(b, g, c, BufferOf(b, g, c) + batch);
    }
  }

  /** The slice facts of `ScannedSlices`, over a sorted sequence and any state satisfying the scan's invariant. */
  lemma SlicesFromInvariant(s: seq<Message>, st: Scan, ends: seq<int>)
    requires Sorted(s) && ScanInvariant(s, st, ends)
    ensures ChunksAreSlices(s, st.chunks)
  {
    forall j | 0 <= j < |st.chunks| ensures IsSliceOf(st.chunks[j], s) && Sorted(st.chunks[j]) {
      assert st.chunks[j] == s[ends[j] - |st.chunks[j]|..ends[j]];
      SliceSorted(s, ends[j] - |st.chunks[j]|, ends[j]);
    }
  }

  /** The time-order facts of `ScannedSlices`, over any state satisfying the scan's invariant. */
  lemma ChronologicalFromInvariant(s: seq<Message>, st: Scan, ends: seq<int>)
    requires TimesSorted(s) && ScanInvariant(s, st, ends)
    ensures Chronological(st.chunks, st.current)
  {
    forall i, j | 0 <= i < j < |st.chunks| && j == i + 1
      ensures st.chunks[i][|st.chunks[i]| - 1].timestamp <= st.chunks[j][0].timestamp
    {
      assert st.chunks[i][|st.chunks[i]| - 1] == s[ends[i] - 1];
      assert st.chunks[j][0] == s[ends[j] - |st.chunks[j]|];
    }
    if |st.chunks| > 0 && |st.current| > 0 {
      var e := ends[|ends| - 1];
      assert st.chunks[|st.chunks| - 1][|st.chunks[|st.chunks| - 1]| - 1] == s[e - 1];
      assert st.current[0] == s[|s| - |st.current|];
    }
  }

  /**
   * The scan yields slices of the sorted batch: each emitted chunk is a
   * sorted contiguous run of more than five messages, the chunks follow each
   * other in time, and the tail is a suffix of the sorted batch that starts no
   * earlier than the last chunk ends.
   */
  lemma ScannedSlices(rev: Revision, batch: seq<Message>)
    ensures ChunksAreSlices(Sort(batch), Scanned(rev, batch).chunks)
    ensures Chronological(Scanned(rev, batch).chunks, Scanned(rev, batch).current)
    ensures IsSuffixOf(Scanned(rev, batch).current, Sort(batch))
  {
    var s := Sort(batch);
    var ends := RunTiles(rev, s);
    SlicesFromInvariant(s, Run(rev, s), ends);
    SortedTimes(s);
    ChronologicalFromInvariant(s, Run(rev, s), ends);
  }

  /** The checkpoint facts behind lines 151-154, over any state satisfying the scan's invariant. */
  lemma StampFromInvariant(s: seq<Message>, st: Scan, ends: seq<int>)
    requires ScanInvariant(s, st, ends)
    ensures st.validateStamp.None? ==> st.chunks == [] && st.current == s
    ensures st.inConversation ==> |st.current| >= MinCluster && st.validateStamp == Some(st.current[0].timestamp)
    ensures st.validateStamp.Some? && !st.inConversation ==>
              && FollowsLastChunk(s, st.chunks, st.current)
              && var last := st.chunks[|st.chunks| - 1];
                 st.validateStamp == Some(last[|last| - 1].timestamp)
  {
    if st.validateStamp.Some? && !st.inConversation {
      var e := ends[|ends| - 1];
      var last := st.chunks[|st.chunks| - 1];
      assert last[|last| - 1] == s[e - 1];
    }
  }

  // The checkpoint rule of lines 151-154, one lemma per outcome of the scan.

  /**
   * Without a transition the checkpoint is untouched and nothing is emitted,
   * although the buffer is still replaced, by the whole sorted batch.
   */
  lemma NoTransitionKeepsCheckpoint(rev: Revision, cps: Checkpoints, c: int, batch: seq<Message>)
    requires Scans(batch) && !Commits(rev, batch)
    ensures CheckpointsAfterFetch(rev, cps, c, batch) == cps
    ensures ChunksOfFetch(rev, batch) == []
    ensures Scanned(rev, batch).current == Sort(batch)
  {
    var s := Sort(batch);
    var ends := RunTiles(rev, s);
    StampFromInvariant(s, Run(rev, s), ends);
  }

  /**
   * A scan that ends inside a conversation keeps at least five messages
   * buffered and checkpoints the channel as active at its first buffered message.
   */
  lemma CommitInConversation(rev: Revision, cps: Checkpoints, c: int, batch: seq<Message>)
    requires Commits(rev, batch) && Scanned(rev, batch).inConversation
    ensures var tail := Scanned(rev, batch).current;
            && |tail| >= MinCluster
            && CheckpointsAfterFetch(rev, cps, c, batch) == cps[StrId(c) := ChannelStatus(tail[0].timestamp, true)]
  {
    var s := Sort(batch);
    var ends := RunTiles(rev, s);
    StampFromInvariant(s, Run(rev, s), ends);
  }

  /**
   * A scan that ends outside a conversation after a transition emitted at
   * least one chunk; it checkpoints the channel as idle at the message that
   * ended the last chunk, and the tail is exactly the messages after it.
   */
  lemma CommitAfterEnd(rev: Revision, cps: Checkpoints, c: int, batch: seq<Message>)
    requires Commits(rev, batch) && !Scanned(rev, batch).inConversation
    ensures var st := Scanned(rev, batch);
            && FollowsLastChunk(Sort(batch), st.chunks, st.current)
            && var last := st.chunks[|st.chunks| - 1];
               CheckpointsAfterFetch(rev, cps, c, batch) == cps[StrId(c) := ChannelStatus(last[|last| - 1].timestamp, false)]
  {
    var s := Sort(batch);
    var ends := RunTiles(rev, s);
    StampFromInvariant(s, Run(rev, s), ends);
  }
}
