/**
 * The conversation-chunking scan that `_fetch_message_history` runs over a
 * freshly fetched, sorted batch (bot.py, lines 123-148).
 *
 * The scan grows a current chunk one message at a time. Once the chunk holds
 * at least five messages it compares the message four places back (the
 * chunk's fifth-from-last, `current_chunk[-5]`) with the new one: outside a
 * conversation this may START one, collapsing the chunk to its last five
 * messages; inside one it may END it, emitting the whole chunk. Every
 * transition records a candidate checkpoint timestamp.
 */
module Windowing {
  import opened Messages
  import opened State

  /** The start test written at line 135, and its corrected direction. */
  predicate StartFires(rev: Revision, back: int, now: int)
  {
    match rev
    case AsWritten => back < now - StartDiff
    case Corrected => back > now - StartDiff
  }

  /** The end test written at line 142, and its corrected direction. */
  predicate EndFires(rev: Revision, back: int, now: int)
  {
    match rev
    case AsWritten => back > now - EndDiff
    case Corrected => back < now - EndDiff
  }

  /** The scan's local variables: `conversation_chunks`, `current_chunk`, `in_conversation`, `validate_stamp`. */
  datatype Scan = Scan(
    chunks: seq<seq<Message>>,
    current: seq<Message>,
    inConversation: bool,
    validateStamp: Option<int>)

  /** The values the variables hold before the loop (lines 125-128). */
  const Initial: Scan := Scan([], [], false, None)

  /** One iteration of the loop body (lines 131-148) for the message `m`. */
  function Step(rev: Revision, st: Scan, m: Message): Scan
  {
    var cur := st.current + [m];
    if |cur| < MinCluster then
      st.(current := cur)
    else if !st.inConversation then
      var back := cur[|cur| - MinCluster];
      if StartFires(rev, back.timestamp, m.timestamp) then
        Scan(st.chunks, cur[|cur| - MinCluster..], true, Some(back.timestamp))
      else
        st.(current := cur)
    else if EndFires(rev, cur[|cur| - MinCluster].timestamp, m.timestamp) then
      Scan(st.chunks + [cur], [], false, Some(m.timestamp))
    else
      st.(current := cur)
  }

  /** The variables after the loop has consumed all of `s`, oldest first. */
  function Run(rev: Revision, s: seq<Message>): Scan
  {
    if |s| == 0 then Initial else Step(rev, Run(rev, s[..|s| - 1]), s[|s| - 1])
  }

  /** The positions in `s` just past each emitted chunk, that is, past the message that ended it. */
  ghost function ChunkEnds(rev: Revision, s: seq<Message>): seq<int>
  {
    if |s| == 0 then []
    else
      var p := s[..|s| - 1];
      if |Run(rev, s).chunks| > |Run(rev, p).chunks| then ChunkEnds(rev, p) + [|s|]
      else ChunkEnds(rev, p)
  }

  /** Chunk `j` is the slice of `s` that ends just before position `ends[j]`. */
  ghost predicate SlicesOf(s: seq<Message>, chunks: seq<seq<Message>>, ends: seq<int>)
  {
    && |ends| == |chunks|
    && forall j :: 0 <= j < |chunks| ==>
         |chunks[j]| <= ends[j] <= |s| && chunks[j] == s[ends[j] - |chunks[j]|..ends[j]]
  }

  /** The slices do not overlap and come in the order of `s`. */
  ghost predicate InOrder(chunks: seq<seq<Message>>, ends: seq<int>)
  {
    && |ends| == |chunks|
    && forall j :: 0 < j < |chunks| ==> ends[j - 1] <= ends[j] - |chunks[j]|
  }

  /** `current` is a suffix of `s` that begins after the last chunk. */
  ghost predicate TailOf(s: seq<Message>, ends: seq<int>, current: seq<Message>)
  {
    && |current| <= |s| && current == s[|s| - |current|..]
    && (|ends| > 0 ==> ends[|ends| - 1] <= |s| - |current|)
  }

  /** Every emitted chunk holds more than `MinCluster` messages. */
  ghost predicate AllLarge(chunks: seq<seq<Message>>)
  {
    forall j :: 0 <= j < |chunks| ==> |chunks[j]| > MinCluster
  }

  /** What the candidate checkpoint and the conversation flag say about the current chunk. */
  ghost predicate StampFacts(s: seq<Message>, st: Scan, ends: seq<int>)
  {
    && (st.inConversation ==>
          |st.current| >= MinCluster && st.validateStamp == Some(st.current[0].timestamp))
    && (!st.inConversation && st.validateStamp.Some? ==>
          && |ends| > 0
          && var e := ends[|ends| - 1];
             0 < e <= |s| && st.validateStamp == Some(s[e - 1].timestamp) && st.current == s[e..])
    && (st.validateStamp.None? ==> st.chunks == [] && !st.inConversation && st.current == s)
  }

  /**
   * What the scan guarantees after consuming `s`:
   * - the chunks are disjoint contiguous slices of `s` in order, and `current`
   *   is a suffix of `s` after the last of them;
   * - every emitted chunk holds more than five messages;
   * - inside a conversation the current chunk holds at least five messages and
   *   the candidate checkpoint is the timestamp of its first message;
   * - outside a conversation, a candidate checkpoint is the timestamp of the
   *   message that ended the last chunk, and the current chunk is everything after it;
   * - with no candidate checkpoint, no transition happened: nothing was
   *   emitted and the current chunk is all of `s`.
   */
  ghost predicate ScanInvariant(s: seq<Message>, st: Scan, ends: seq<int>)
  {
    && SlicesOf(s, st.chunks, ends)
    && InOrder(st.chunks, ends)
    && TailOf(s, ends, st.current)
    && AllLarge(st.chunks)
    && StampFacts(s, st, ends)
  }

  lemma SlicesExtend(s: seq<Message>, chunks: seq<seq<Message>>, ends: seq<int>)
    requires |s| > 0 && SlicesOf(s[..|s| - 1], chunks, ends)
    ensures SlicesOf(s, chunks, ends)
  {
    var p := s[..|s| - 1];
    forall j | 0 <= j < |chunks| ensures chunks[j] == s[ends[j] - |chunks[j]|..ends[j]] {
      assert s[ends[j] - |chunks[j]|..ends[j]] == p[ends[j] - |chunks[j]|..ends[j]];
    }
  }

  /** A step that changes no flag only appends the last message of `s` to the current chunk. */
  lemma QuietStepPreserves(s: seq<Message>, st: Scan, ends: seq<int>)
    requires |s| > 0 && ScanInvariant(s[..|s| - 1], st, ends)
    ensures ScanInvariant(s, st.(current := st.current + [s[|s| - 1]]), ends)
  {
    var p := s[..|s| - 1];
    var st' := st.(current := st.current + [s[|s| - 1]]);
    SlicesExtend(s, st.chunks, ends);
    assert st'.current == s[|s| - |st'.current|..];
    if st.validateStamp.Some? && !st.inConversation {
      var e := ends[|ends| - 1];
      assert s[e..] == p[e..] + [s[|s| - 1]];
    }
  }

  /** A start keeps the chunks and collapses the current chunk to the last five messages of `s`. */
  lemma StartStepPreserves(s: seq<Message>, st: Scan, ends: seq<int>)
    requires |s| > 0 && ScanInvariant(s[..|s| - 1], st, ends)
    requires |st.current| + 1 >= MinCluster
    ensures var cur := st.current + [s[|s| - 1]];
            ScanInvariant(s,
              Scan(st.chunks, cur[|cur| - MinCluster..], true, Some(cur[|cur| - MinCluster].timestamp)), ends)
  {
    var cur := st.current + [s[|s| - 1]];
    SlicesExtend(s, st.chunks, ends);
    assert cur == s[|s| - |cur|..];
    assert cur[|cur| - MinCluster..] == s[|s| - MinCluster..];
  }

  /** A suffix of `s` appended as a chunk ending at `|s|` keeps the chunks slices of `s`. */
  lemma SlicesAppend(s: seq<Message>, chunks: seq<seq<Message>>, ends: seq<int>, cur: seq<Message>)
    requires |s| > 0 && SlicesOf(s[..|s| - 1], chunks, ends)
    requires |cur| <= |s| && cur == s[|s| - |cur|..]
    ensures SlicesOf(s, chunks + [cur], ends + [|s|])
  {
    SlicesExtend(s, chunks, ends);
    var chunks' := chunks + [cur];
    var ends' := ends + [|s|];
    forall j | 0 <= j < |chunks'| ensures |chunks'[j]| <= ends'[j] <= |s| && chunks'[j] == s[ends'[j] - |chunks'[j]|..ends'[j]] {
      if j < |chunks| {
        assert chunks'[j] == chunks[j] && ends'[j] == ends[j];
      }
    }
  }

  /** An end appends the whole current chunk, the last message of `s` included, as the chunk ending at `|s|`. */
  lemma EndStepPreserves(s: seq<Message>, st: Scan, ends: seq<int>)
    requires |s| > 0 && ScanInvariant(s[..|s| - 1], st, ends)
    requires st.inConversation
    ensures ScanInvariant(s, Scan(st.chunks + [st.current + [s[|s| - 1]]], [], false, Some(s[|s| - 1].timestamp)),
              ends + [|s|])
  {
    var cur := st.current + [s[|s| - 1]];
    assert cur == s[|s| - |cur|..];
    var chunks' := st.chunks + [cur];
    var ends' := ends + [|s|];
    SlicesAppend(s, st.chunks, ends, cur);
    assert InOrder(chunks', ends');
    assert AllLarge(chunks');
    assert s[|s|..] == [];
    assert TailOf(s, ends', []);
  }

  /** One step of the scan keeps the invariant; `s` is the batch so far, its last message the one consumed. */
  lemma StepPreservesInvariant(rev: Revision, s: seq<Message>, st: Scan, ends: seq<int>)
    requires |s| > 0 && ScanInvariant(s[..|s| - 1], st, ends)
    ensures var st' := Step(rev, st, s[|s| - 1]);
            ScanInvariant(s, st', if |st'.chunks| > |st.chunks| then ends + [|s|] else ends)
  {
    var m := s[|s| - 1];
    var cur := st.current + [m];
    if |cur| >= MinCluster && !st.inConversation
       && StartFires(rev, cur[|cur| - MinCluster].timestamp, m.timestamp) {
      assert Step(rev, st, m) ==
             Scan(st.chunks, cur[|cur| - MinCluster..], true, Some(cur[|cur| - MinCluster].timestamp));
      StartStepPreserves(s, st, ends);
    } else if |cur| >= MinCluster && st.inConversation
       && EndFires(rev, cur[|cur| - MinCluster].timestamp, m.timestamp) {
      assert Step(rev, st, m) == Scan(st.chunks + [cur], [], false, Some(m.timestamp));
      EndStepPreserves(s, st, ends);
    } else {
      assert Step(rev, st, m) == st.(current := cur);
      QuietStepPreserves(s, st, ends);
    }
  }

  /** The scan's invariant holds after every prefix of the batch, by induction on its length. */
  lemma {:induction false} RunInvariant(rev: Revision, s: seq<Message>)
    ensures ScanInvariant(s, Run(rev, s), ChunkEnds(rev, s))
  {
    if |s| > 0 {
      RunInvariant(rev, s[..|s| - 1]);
      StepPreservesInvariant(rev, s, Run(rev, s[..|s| - 1]), ChunkEnds(rev, s[..|s| - 1]));
    }
  }

  /** The chunk positions of `RunInvariant`, handed out as a value so callers need not unfold `ChunkEnds`. */
  lemma RunTiles(rev: Revision, s: seq<Message>) returns (ends: seq<int>)
    ensures ScanInvariant(s, Run(rev, s), ends)
  {
    RunInvariant(rev, s);
    ends := ChunkEnds(rev, s);
  }

  /** Over a sorted sequence, the chunks and the tail that the scan's invariant describes are sorted. */
  lemma SortedFromInvariant(s: seq<Message>, st: Scan, ends: seq<int>)
    requires Sorted(s) && ScanInvariant(s, st, ends)
    ensures forall j :: 0 <= j < |st.chunks| ==> Sorted(st.chunks[j])
    ensures Sorted(st.current)
  {
    forall j | 0 <= j < |st.chunks| ensures Sorted(st.chunks[j]) {
      SliceSorted(s, ends[j] - |st.chunks[j]|, ends[j]);
    }
    SliceSorted(s, |s| - |st.current|, |s|);
  }

  /** Over a sorted batch every emitted chunk and the tail are sorted, as the summarizer receives them. */
  lemma RunOutputsSorted(rev: Revision, s: seq<Message>)
    requires Sorted(s)
    ensures forall j :: 0 <= j < |Run(rev, s).chunks| ==> Sorted(Run(rev, s).chunks[j])
    ensures Sorted(Run(rev, s).current)
  {
    var ends := RunTiles(rev, s);
    SortedFromInvariant(s, Run(rev, s), ends);
  }

  /**
   * The loop of lines 130-148, run over the sorted batch `messages`: its
   * outputs are those of `Run`, so they tile the batch as `RunInvariant` says.
   */
  method ChunkScan(rev: Revision, messages: seq<Message>)
    returns (chunks: seq<seq<Message>>, current: seq<Message>, inConversation: bool, validateStamp: Option<int>)
    ensures Scan(chunks, current, inConversation, validateStamp) == Run(rev, messages)
  {
    chunks, current, inConversation, validateStamp := [], [], false, None;
    for i := 0 to |messages|
      invariant Scan(chunks, current, inConversation, validateStamp) == Run(rev, messages[..i])
    {
      var msg := messages[i];
      ghost var before := Scan(chunks, current, inConversation, validateStamp);
      assert messages[..i + 1][..i] == messages[..i];
      assert Run(rev, messages[..i + 1]) == Step(rev, before, msg);
      current := current + [msg];
      if |current| < MinCluster {
      } else if !inConversation {
        if StartFires(rev, current[|current| - MinCluster].timestamp, msg.timestamp) {
          inConversation := true;
          current := current[|current| - MinCluster..];
          validateStamp := Some(current[0].timestamp);
        }
      } else {
        if EndFires(rev, current[|current| - MinCluster].timestamp, msg.timestamp) {
          chunks := chunks + [current];
          current := [];
          inConversation := false;
          validateStamp := Some(msg.timestamp);
        }
      }
    }
    assert messages[..|messages|] == messages;
  }

  // ---------------------------------------------------------------------------
  // The direction of the two window tests.
  //
  // The comments at lines 136 and 143, and the idle sweep (lines 278 and 284),
  // treat "five messages within fifteen minutes" as the start of a
  // conversation and "the fifth-from-last message over an hour old" as its
  // end. The tests at lines 135 and 142 compare the other way round.
  // ---------------------------------------------------------------------------

  /** Timestamps of a five-message batch that spans less than fifteen minutes. */
  predicate DenseBurst(s: seq<Message>)
  {
    |s| == MinCluster && s[0].timestamp > s[MinCluster - 1].timestamp - StartDiff
  }

  lemma RunFive(rev: Revision, s: seq<Message>)
    requires |s| == MinCluster
    ensures Run(rev, s) == Step(rev, Scan([], s[..4], false, None), s[4])
  {
    assert s[..4][..3] == s[..3];
    assert s[..3][..2] == s[..2];
    assert s[..2][..1] == s[..1];
    assert s[..1][..0] == [];
    assert Run(rev, s[..1]) == Scan([], s[..1], false, None);
    assert Run(rev, s[..2]) == Scan([], s[..2], false, None) by { assert s[..1] + [s[1]] == s[..2]; }
    assert Run(rev, s[..3]) == Scan([], s[..3], false, None) by { assert s[..2] + [s[2]] == s[..3]; }
    assert Run(rev, s[..4]) == Scan([], s[..4], false, None) by { assert s[..3] + [s[3]] == s[..4]; }
  }

  /** As written: a burst of five messages within fifteen minutes starts no conversation and sets no checkpoint. */
  lemma DenseBurstIgnoredAsWritten(s: seq<Message>)
    requires DenseBurst(s)
    ensures Run(AsWritten, s) == Scan([], s, false, None)
  {
    RunFive(AsWritten, s);
    assert s[..4] + [s[4]] == s;
  }

  /** Corrected: the same burst starts a conversation whose checkpoint is the first message's timestamp. */
  lemma DenseBurstStartsCorrected(s: seq<Message>)
    requires DenseBurst(s)
    ensures Run(Corrected, s) == Scan([], s, true, Some(s[0].timestamp))
  {
    RunFive(Corrected, s);
    assert s[..4] + [s[4]] == s;
    assert (s[..4] + [s[4]])[0..] == s;
  }

  /**
   * As written, a conversation ends on a message that arrives while it is
   * still busy (the fifth-from-last message is less than an hour older) and
   * goes on when the channel has been quiet for over an hour.
   */
  lemma EndTestAsWritten(st: Scan, m: Message)
    requires st.inConversation && |st.current| >= MinCluster
    ensures var back := (st.current + [m])[|st.current| + 1 - MinCluster].timestamp;
            Step(AsWritten, st, m).inConversation <==> back <= m.timestamp - EndDiff
  {
  }

  /** Corrected, it ends exactly when the fifth-from-last message is more than an hour older than `m`. */
  lemma EndTestCorrected(st: Scan, m: Message)
    requires st.inConversation && |st.current| >= MinCluster
    ensures var back := (st.current + [m])[|st.current| + 1 - MinCluster].timestamp;
            !Step(Corrected, st, m).inConversation <==> back < m.timestamp - EndDiff
  {
  }
}
