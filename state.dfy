/**
 * The state the summarizer cog keeps: per-channel checkpoints, the optional
 * whitelist of tracked channels, and the in-memory message buffers, together
 * with the constants that drive the windowing.
 */
module State {
  import opened Messages

  /** One microsecond is the unit of time; a `timedelta` becomes a whole number of microseconds. */
  const Minute: int := 60_000_000
  /** `START_DIFF`: fifteen minutes. */
  const StartDiff: int := 15 * Minute
  /** `END_DIFF`: one hour. */
  const EndDiff: int := 60 * Minute
  /** The three-hour fallback lookback used when a channel has no usable checkpoint. */
  const FallbackLookback: int := 180 * Minute
  /** The number of messages the windowing needs before it classifies anything. */
  const MinCluster: nat := 5

  datatype Option<T> = None | Some(value: T)

  /**
   * A key of the checkpoint dictionary or of the tracked set. The source
   * writes both with `str(channel.id)` but tests membership (and removes from
   * the set) with the integer `channel.id`; a Python `int` never equals a
   * `str`, so the two are kept apart. `StrId(n)` stands for the decimal text
   * of `n`.
   */
  datatype ChanKey = IntId(n: int) | StrId(n: int)

  /** The first-level key of the buffer dictionary: a guild's id, or "DM" for a direct message. */
  datatype GuildKey = Guild(id: int) | DM

  /** `ChannelStatus`. */
  datatype ChannelStatus = ChannelStatus(checkedAt: int, active: bool)

  type Checkpoints = map<ChanKey, ChannelStatus>

  /** `BotData`: `tracked == None` is open mode, where every channel is in scope. */
  datatype BotData = BotData(lastValidated: Checkpoints, tracked: Option<set<ChanKey>>)

  /** `message_collection`, a dictionary of dictionaries keyed by raw ids. */
  type Buffers = map<GuildKey, map<int, seq<Message>>>

  /**
   * Which code the model follows. `AsWritten` is the source line by line;
   * `Corrected` differs only where the source is evidently wrong (the two
   * window tests of the batch scan, and the key used to look a channel up in
   * the tracked set).
   */
  datatype Revision = AsWritten | Corrected

  /** Raised by a dictionary lookup, `del` or `set.remove` of a missing key. */
  datatype Error = KeyError

  datatype Result<T> = Ok(value: T) | Err(error: Error)

  /** A chunk handed to the summarizer; `awaited` is false where the source drops the coroutine. */
  datatype Emitted = Emitted(guild: GuildKey, channel: int, messages: seq<Message>, awaited: bool)

  /** Reading `message_collection[g][c]`: a missing entry reads as the empty list of the defaultdict. */
  function BufferOf(b: Buffers, g: GuildKey, c: int): seq<Message>
  {
    if g in b && c in b[g] then b[g][c] else []
  }

  /** Assigning `message_collection[g][c]`, creating both dictionary levels when missing. */
  function WithBuffer(b: Buffers, g: GuildKey, c: int, msgs: seq<Message>): Buffers
  {
    b[g := (if g in b then b[g] else map[])[c := msgs]]
  }

  /** The assignment writes exactly one entry, creating its guild's dictionary when missing. */
  lemma WithBufferFrame(b: Buffers, g: GuildKey, c: int, msgs: seq<Message>)
    ensures var r := WithBuffer(b, g, c, msgs);
            && r.Keys == b.Keys + {g}
            && r[g].Keys == (if g in b then b[g].Keys else {}) + {c}
            && BufferOf(r, g, c) == msgs
            && (forall h, d :: (h != g || d != c) ==> BufferOf(r, h, d) == BufferOf(b, h, d))
  {
  }

  /** A second write to the same entry overrides the first. */
  lemma WithBufferTwice(b: Buffers, g: GuildKey, c: int, first: seq<Message>, second: seq<Message>)
    ensures WithBuffer(WithBuffer(b, g, c, first), g, c, second) == WithBuffer(b, g, c, second)
  {
    var inner := if g in b then b[g] else map[];
    assert inner[c := first][c := second] == inner[c := second];
  }

  /** The chunks of one channel, in order, as summarizer calls. */
  function Handover(g: GuildKey, c: int, chunks: seq<seq<Message>>, awaited: bool): (r: seq<Emitted>)
    ensures |r| == |chunks|
    ensures forall j :: 0 <= j < |r| ==> r[j] == Emitted(g, c, chunks[j], awaited)
  {
    seq(|chunks|, j requires 0 <= j < |chunks| => Emitted(g, c, chunks[j], awaited))
  }
}
