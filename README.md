# Conversation windowing for the Discord summarizer bot

This project models the conversation-windowing core of `SummarizerCog` in
`src/discord_summarizer/bot.py` and proves its properties in Dafny. The cog
collects the messages of the channels it tracks into per-channel buffers. It
cuts them into conversations, hands finished conversations to a summarizer, and
keeps a per-channel checkpoint `{checked_at, active}` in a YAML file. It does
this with three pieces of code:

- the **batch scan** in `_fetch_message_history`. It sorts a freshly fetched
  history batch and walks it with a five-message window. A conversation starts
  or ends by comparing the fifth-from-last message's time with the new one,
  against `START_DIFF` (15 minutes) and `END_DIFF` (1 hour). The scan emits
  finished chunks, keeps the unresolved tail as the channel's buffer, and
  commits a checkpoint;
- the **sweep** `check_conversations`. It classifies the checkpoints into
  active and idle. It then turns idle channels active, or finalizes active
  channels that have gone quiet (handing over their whole sorted buffer). It
  moves every buffered channel's `checked_at` to `now - START_DIFF` and saves;
- the **channel tracker**: the whitelist gate of `on_message`,
  `track_channel` (seeds a checkpoint at most three hours old, then backfills
  the channel), and the clean-up of `on_guild_remove`.

Modules, in dependency order:

| file | module | what it holds |
|---|---|---|
| `messages.dfy` | `Messages` | `MessageData` and the order `order=True` gives it; `sorted()` as a function, proved to be the unique sorted permutation |
| `state.dfy` | `State` | the constants, checkpoints, `BotData`, the two-level buffer dictionary, the summarizer call record |
| `tracking.dfy` | `Tracker` | the whitelist lookup, checkpoint seeding, removal of a guild's channels |
| `windowing.dfy` | `Windowing` | the scan of lines 125-148 as a step function, its invariant, and the loop itself (`ChunkScan`) |
| `backfill.dfy` | `Backfill` | what a fetch does to buffers, checkpoints and the summarizer, with the scan's guarantees |
| `sweep.dfy` | `Reconciler` | the sweep as a function of the state before it, and what it guarantees |
| `cog.dfy` | `Cog` | the class `SummarizerCog`, whose methods update its fields in place and are proved equal to the functions above |

Time is a whole number of microseconds, the precision of Python's
`datetime`. Channel keys are `StrId(n)` for `str(channel.id)` and `IntId(n)`
for the bare integer, because a Python `int` never equals a `str`. Every
handler takes as parameters what Discord, the clock and the dictionaries'
iteration order would provide: the fetched batch, `now`, the order in which
buffered channels are visited, and the bot's user id. The summarizer is the
ghost field `handed`, the record of every call made to it. The YAML file is
the ghost field `persisted`, the data as `save_yaml` last wrote it.

Each instance carries a `Revision`. `AsWritten` is the code as it stands.
`Corrected` differs only at the two defects described under Findings.

Behaviours of bot.py worth stating plainly:

- **Message order.** The generated `<` of lines 17-25 compares all five
  fields in declaration order, so the order is total on whole records.
- **Windowing on arrival.** The start and end tests run only on a fetched
  batch (lines 120-157); `on_message` only appends to the buffer (line 370).
- **Scanned batch without a transition.** The checkpoint is kept (line 151),
  but the buffer is still replaced, by the sorted batch (line 157).
- **Untracking.** It deletes the buffer (line 204) and keeps the checkpoint.
- **Sweep errors.** A buffered channel without a checkpoint raises `KeyError`
  at line 297, which stops the sweep before the save at line 301.

## Model

| member | source | states |
|---|---|---|
| Messages.LessIrreflexive | src/discord_summarizer/bot.py:17-25 | no message is smaller than itself under the generated `<` |
| Messages.LessTransitive | src/discord_summarizer/bot.py:17-25 | the field-by-field `<` (strings and lists lexicographic) is transitive |
| Messages.LessTotal | src/discord_summarizer/bot.py:17-25 | of two different messages exactly one is smaller: the order is total on whole records |
| Messages.Sort | src/discord_summarizer/bot.py:124 | sorting yields a sorted permutation of the batch, of the same length |
| Messages.SortedPermutationUnique | src/discord_summarizer/bot.py:17-25 | two sorted permutations of each other are equal, so `Sort` is what Python's `sort` returns |
| Messages.SortSorted | src/discord_summarizer/bot.py:124 | sorting a sorted sequence changes nothing |
| Messages.SortedTimestamps | src/discord_summarizer/bot.py:21 | along a sorted sequence timestamps never decrease, timestamp being the first field |
| Messages.SliceSorted | src/discord_summarizer/bot.py:138 | a contiguous slice of a sorted sequence is sorted |
| State.WithBufferFrame | src/discord_summarizer/bot.py:157 | assigning `message_collection[g][c]` creates missing levels, sets that entry and leaves every other entry as it was |
| State.WithBufferTwice | src/discord_summarizer/bot.py:120-157 | the assignment at line 157 overrides the extension at line 120 |
| Tracker.Seed | src/discord_summarizer/bot.py:184-199 | turning tracking on leaves a checkpoint at most three hours old: a missing one is created and an older one reset, both inactive, a newer one kept; other checkpoints are unchanged |
| Tracker.SeedBoundsBackfill | src/discord_summarizer/bot.py:96-103 | the backfill after seeding asks for at most three hours, and exactly from the kept checkpoint when it is newer |
| Tracker.Untrack | src/discord_summarizer/bot.py:396-398 | removing a guild's channels only shrinks the tracked set |
| Tracker.UntrackAll | src/discord_summarizer/bot.py:396-398 | removal succeeds exactly when every channel is tracked, and then removes exactly their keys |
| Tracker.UntrackStops | src/discord_summarizer/bot.py:397-398 | after the first `KeyError` no later channel is touched |
| Tracker.TrackedChannelDroppedAsWritten | src/discord_summarizer/bot.py:346-349 | as written, a message of a channel just added to the whitelist is still dropped |
| Tracker.TrackGateAsWritten | src/discord_summarizer/bot.py:175-179 | as written, untracking never proceeds and tracking always proceeds |
| Tracker.TrackRoundTripCorrected | src/discord_summarizer/bot.py:175-203 | corrected, `track on` then `track off` both go ahead, the channel's messages are admitted in between (line 348) and dropped after, and the set returns to what it was; as written the `track off` half never goes ahead |
| Tracker.TrackGateIdempotentCorrected | src/discord_summarizer/bot.py:175-179 | corrected, a `track` request that went ahead does not go ahead a second time: repeating it is answered "already" |
| Windowing.StepPreservesInvariant | src/discord_summarizer/bot.py:130-148 | one loop iteration keeps the scan's invariant: chunks are disjoint ordered slices, each of more than five messages, the current chunk is the suffix after them, and the candidate checkpoint is the first current message (inside a conversation) or the message that ended the last chunk |
| Windowing.RunInvariant | src/discord_summarizer/bot.py:130-148 | the invariant holds after the whole batch |
| Windowing.RunOutputsSorted | src/discord_summarizer/bot.py:124-148 | over the sorted batch every emitted chunk and the tail are sorted |
| Windowing.ChunkScan | src/discord_summarizer/bot.py:125-148 | the loop computes exactly the chunks, tail, flag and candidate checkpoint of the scan function |
| Windowing.DenseBurstIgnoredAsWritten | src/discord_summarizer/bot.py:134-140 | as written, five messages within fifteen minutes start no conversation and set no checkpoint |
| Windowing.DenseBurstStartsCorrected | src/discord_summarizer/bot.py:134-140 | corrected, that burst starts a conversation checkpointed at its first message |
| Windowing.EndTestAsWritten | src/discord_summarizer/bot.py:141-148 | as written, a conversation continues exactly when the fifth-from-last message is at least an hour old |
| Windowing.EndTestCorrected | src/discord_summarizer/bot.py:141-148 | corrected, a conversation ends exactly when the fifth-from-last message is more than an hour old |
| Backfill.SmallBatchAppends | src/discord_summarizer/bot.py:120-123 | a batch of fewer than five messages is only appended: no checkpoint change, nothing emitted |
| Backfill.ScannedReplaces | src/discord_summarizer/bot.py:156-157 | a scanned batch replaces the buffer by the scan's tail, dropping what it held before |
| Backfill.FetchFrame | src/discord_summarizer/bot.py:120-157 | a fetch changes no other channel's buffer or checkpoint |
| Backfill.ScannedSlices | src/discord_summarizer/bot.py:124-148 | each chunk is a sorted run of more than five messages of the sorted batch, chunks and tail follow in time, and the tail is a suffix of the batch |
| Backfill.NoTransitionKeepsCheckpoint | src/discord_summarizer/bot.py:150-157 | without a transition the checkpoint is untouched, nothing is emitted and the buffer becomes the sorted batch |
| Backfill.CommitInConversation | src/discord_summarizer/bot.py:150-154 | ending inside a conversation checkpoints the channel active at the first of the at least five buffered messages |
| Backfill.CommitAfterEnd | src/discord_summarizer/bot.py:150-154 | ending after an end checkpoints the channel idle at the message that closed the last chunk, and the tail is everything after it |
| Reconciler.Classify | src/discord_summarizer/bot.py:264-270 | the active and idle lists partition the checkpoint keys by their flag |
| Reconciler.SnapshotOf | src/discord_summarizer/bot.py:264-270 | the snapshot used by the sweep is such a partition |
| Reconciler.SnapshotUnique | src/discord_summarizer/bot.py:264-270 | the partition is unique, so `Classify` computes the sweep's snapshot |
| Reconciler.Visit | src/discord_summarizer/bot.py:275-299 | one visit keeps the dictionaries' keys and never clears the error flag |
| Reconciler.SweepOver | src/discord_summarizer/bot.py:273-299 | the sweep keeps the dictionaries' keys and never clears the error flag |
| Reconciler.VisitFrame | src/discord_summarizer/bot.py:275-299 | a visit touches only its own checkpoint and, when it finalizes, its own buffer |
| Reconciler.VisitOkIff | src/discord_summarizer/bot.py:297-299 | a visit raises exactly when the channel has no checkpoint under `str(cid)` |
| Reconciler.SweepStops | src/discord_summarizer/bot.py:297 | after a `KeyError` the rest of the sweep changes nothing |
| Reconciler.SweepOkIffCheckpointed | src/discord_summarizer/bot.py:273-299 | the sweep completes exactly when every visited channel has a checkpoint |
| Reconciler.SweepResetsCheckedAt | src/discord_summarizer/bot.py:297-299 | a completed sweep leaves every visited channel at `checked_at == now - START_DIFF` |
| Reconciler.SweepLeavesOthers | src/discord_summarizer/bot.py:273-299 | checkpoints of channels not visited keep their values |
| Reconciler.SweepLeavesBuffer | src/discord_summarizer/bot.py:273-299 | buffers of channels not visited keep their values |
| Reconciler.SweepBuffers | src/discord_summarizer/bot.py:281-296 | a completed sweep empties exactly the buffers of active channels that have gone idle |
| Reconciler.SweepHanded | src/discord_summarizer/bot.py:283-294 | a completed sweep hands over the whole sorted buffer of each such channel, in visiting order |
| Reconciler.SweepFlags | src/discord_summarizer/bot.py:275-285 | an idle channel becomes active exactly when its fifth-newest message is under fifteen minutes old; an active one stays active unless that message is over an hour old |
| Reconciler.CheckConversationsResets | src/discord_summarizer/bot.py:260-301 | the sweep completes exactly when every buffered channel has a checkpoint, and then every such `checked_at` is `now - START_DIFF` |
| Reconciler.CheckConversationsFinalizes | src/discord_summarizer/bot.py:260-301 | a completed sweep's buffers and handover, stated over the state before it |
| Reconciler.CheckConversationsFlags | src/discord_summarizer/bot.py:260-301 | a completed sweep's flags, stated over the state before it |
| Cog.SummarizerCog.constructor | src/discord_summarizer/bot.py:47-71 | starts with empty buffers and the loaded data; open mode drops the whitelist |
| Cog.SummarizerCog.FetchHistory | src/discord_summarizer/bot.py:94-166 | requests after the checkpoint (or three hours back) and leaves buffers, checkpoints, handover and the file as the fetch functions say |
| Cog.SummarizerCog.ScanBatch | src/discord_summarizer/bot.py:123-166 | scans, commits and saves a candidate, replaces the buffer by the tail, and summarizes the chunks |
| Cog.SummarizerCog.Summarize | src/discord_summarizer/bot.py:160-166 | awaits one summarizer call per chunk, in order |
| Cog.SummarizerCog.TrackChannel | src/discord_summarizer/bot.py:168-208 | no change unless whitelist mode and a change of membership; tracking seeds and backfills then saves; untracking deletes the buffer and saves, or raises `KeyError` before the save; corrected, a successful `track on` admits the channel's messages and a successful `track off` drops them |
| Cog.SummarizerCog.CheckConversations | src/discord_summarizer/bot.py:260-301 | the new state is the sweep function of the old one, saved exactly when it completes |
| Cog.SummarizerCog.SweepChannels | src/discord_summarizer/bot.py:273-299 | one loop over the flattened visiting order (the nested loops of lines 273-274 yield such an order) computes the sweep function over it |
| Cog.SummarizerCog.VisitChannel | src/discord_summarizer/bot.py:275-299 | one loop body computes one visit |
| Cog.SummarizerCog.OnMessage | src/discord_summarizer/bot.py:338-370 | a message not written by the bot and admitted by the gate is appended to its buffer (guild or "DM"); nothing else changes |
| Cog.SummarizerCog.OnGuildRemove | src/discord_summarizer/bot.py:389-403 | in whitelist mode the guild's channels leave the tracked set and the file is saved before the guild's buffers are dropped; a `KeyError` stops it before the save and the drop |

## Left out

- Discord transport: the `channel.history` request, message objects, and the failure branch of lines 116-119. The fetched batch is a parameter: whatever the request returned before it stopped.
- `bot.get_channel` (lines 291-292): the model assumes the lookup always succeeds. As written, a channel that no longer resolves makes line 291 raise `AttributeError` after line 285 has already cleared its flag; the sweep then stops with that buffer kept and nothing saved. The model does not capture that path.
- `load_yaml` and `save_yaml` (lines 73-92): file I/O. The constructor takes the data already loaded. Each save is the ghost field `persisted` taking the current data. The code's own round trip is not modelled: `yaml.dump` writes tagged Python objects, which `yaml.safe_load` refuses on the next start.
- The `track` command (lines 210-258): argument parsing and replies. It calls `track_channel`, which is modelled. Its status check at line 224 has the same integer lookup as line 175.
- `on_ready` (lines 316-336) and `on_guild_join` (lines 372-387): loops over Discord's channel lists that call `_fetch_message_history` (modelled as `FetchHistory`). Their gates at lines 330 and 381 share the lookup described under Findings.
- `before_check_conversations` and `cog_load` (lines 303-314), and the five-minute `tasks.loop` timer. Each handler and each sweep is one atomic step, so there is no concurrency to model.
- The un-awaited call at line 290. It is recorded with `awaited == false`; whether the coroutine ever runs is not modelled.
- Clock reads: each handler takes a single `now`. Lines 271 and 272 read the clock twice; the model uses one instant for both.
- Logging, and `llm.py` and `run.py`, which are not part of this model.
- Python's `datetime` range: timestamps are unbounded integers.
- Reconciler.CheckConversationsFlags: stated only when no two guilds share a channel id. Checkpoints are keyed by channel id alone, so two such visits would write the same checkpoint.
- Reconciler.CheckConversationsFinalizes: states buffers and handover only for a sweep that completes. For one that raises, `SweepStops` and `Cog.SummarizerCog.CheckConversations` say that the effect is that of the visits before the error.

## Findings

| source | as written | input that shows it | evidently intended | confidence | as-written member | corrected member |
|---|---|---|---|---|---|---|
| src/discord_summarizer/bot.py:135-142 | the start test fires when the fifth-from-last message is more than `START_DIFF` older than the new one, and the end test fires when it is less than `END_DIFF` older | five messages one minute apart: no conversation starts and no checkpoint is set; inside a conversation, the next message one minute later ends it | the comments at lines 136 and 143 and the sweep's tests at lines 278 and 284: a dense burst starts a conversation, an hour of quiet ends it | high (not executed) | Windowing.DenseBurstIgnoredAsWritten | Windowing.DenseBurstStartsCorrected |
| src/discord_summarizer/bot.py:141-148 | inside a conversation, the chunk is closed when the window is still busy and kept open when it has been quiet for over an hour | a conversation whose fifth-from-last message is ten minutes older than the new message | close the chunk once the fifth-from-last message is over an hour older | high (not executed) | Windowing.EndTestAsWritten | Windowing.EndTestCorrected |
| src/discord_summarizer/bot.py:175-203 | the tracked set holds `str(channel.id)` (line 183) but lines 175, 203 and 348 look up the integer `channel.id` | whitelist mode, `track on` for channel 7: the set becomes `{"7"}`; a message in channel 7 is then dropped, and `track off` answers "already not tracked" | look up `str(channel.id)`, as `on_guild_remove` does at line 398 | high (not executed) | Tracker.TrackedChannelDroppedAsWritten | Tracker.TrackRoundTripCorrected |
| src/discord_summarizer/bot.py:175-179 | the membership test compares an integer with string keys | any set of string keys: untracking never proceeds, tracking always proceeds (and re-seeds) | proceed exactly when the request changes membership, so a request that went ahead is answered "already" when repeated | high (not executed) | Tracker.TrackGateAsWritten | Tracker.TrackGateIdempotentCorrected |

Instances built with `Corrected` use the corrected tests. `StartFires` and
`EndFires` pick the direction, and `LookupKey` and so `Admits` and
`TrackProceeds` pick the key. Every property under "## Model" that does not
mention a revision is proved for both.
