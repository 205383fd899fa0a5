/**
 * `SummarizerCog` (bot.py, lines 44-403): the object that owns the message
 * buffers, the persisted bot data and the summarizer, and whose event
 * handlers update them in place.
 *
 * Each handler runs as one atomic step. What the Discord API would supply
 * (the fetched history, the dictionaries' iteration order, the current time,
 * the bot's own user id) is passed in. The summarizer is a ghost sequence of
 * the calls made to it, and the YAML file is a ghost snapshot of the data as
 * last written by `save_yaml`.
 */
module Cog {
  import opened Messages
  import opened State
  import Windowing
  import Tracker
  import Backfill
  import Reconciler

  class SummarizerCog {
    /** Which code the instance follows; `AsWritten` is bot.py as it stands. */
    const rev: Revision
    /** `message_collection`. */
    var buffers: Buffers
    /** `yaml_data.last_validated`. */
    var checkpoints: Checkpoints
    /** `yaml_data.tracked_channels`; `None` is open mode. */
    var tracked: Option<set<ChanKey>>
    /** The bot data as the YAML file holds it. */
    ghost var persisted: BotData
    /** Every summarizer call so far, in order. */
    ghost var handed: seq<Emitted>

    /**
     * Lines 47-71, given the data `load_yaml` returned (the empty `BotData`
     * when the file is missing or unreadable). Without whitelist mode the
     * tracked set is dropped, so every channel is in scope.
     */
    constructor (rev: Revision, loaded: BotData, whitelistMode: bool)
      ensures this.rev == rev
      ensures buffers == map[] && checkpoints == loaded.lastValidated
      ensures tracked == (if whitelistMode then loaded.tracked else None)
      ensures persisted == loaded && handed == []
    {
      this.rev := rev;
      buffers := map[];
      checkpoints := loaded.lastValidated;
      tracked := if whitelistMode then loaded.tracked else None;
      persisted := loaded;
      handed := [];
    }

    /**
     * `_fetch_message_history` (lines 94-166) for channel `channel` of guild
     * `guild`, where `batch` is what the history request returned. Returns the
     * `after` bound the request was made with.
     */
    method FetchHistory(guild: int, channel: int, batch: seq<Message>, now: int) returns (after: int)
      modifies this
      ensures after == Tracker.BackfillAfter(old(checkpoints), channel, now)
      ensures buffers == Backfill.BuffersAfterFetch(rev, old(buffers), Guild(guild), channel, batch)
      ensures checkpoints == Backfill.CheckpointsAfterFetch(rev, old(checkpoints), channel, batch)
      ensures tracked == old(tracked)
      ensures handed == old(handed) + Handover(Guild(guild), channel, Backfill.ChunksOfFetch(rev, batch), true)
      ensures persisted == if Backfill.Commits(rev, batch) then BotData(checkpoints, tracked) else old(persisted)
    {
      var timeData := if StrId(channel) in checkpoints then checkpoints[StrId(channel)]
                      else ChannelStatus(now - FallbackLookback, false);
      after := timeData.checkedAt;
      var g := Guild(guild);
      var appended := BufferOf(buffers, g, channel) + batch;
      buffers := WithBuffer(buffers, g, channel, appended);
      if |batch| >= MinCluster {
        ScanBatch(g, channel, batch);
        WithBufferTwice(old(buffers), g, channel, appended, Backfill.Scanned(rev, batch).current);
      }
    }

    /**
     * Lines 123-166 for a batch of at least five messages: the sorted batch
     * is scanned, a candidate checkpoint is committed and saved, the buffer
     * becomes the scan's tail and the chunks go to the summarizer.
     */
    method ScanBatch(g: GuildKey, channel: int, batch: seq<Message>)
      requires Backfill.Scans(batch)
      modifies this`buffers, this`checkpoints, this`persisted, this`handed
      ensures buffers == WithBuffer(old(buffers), g, channel, Backfill.Scanned(rev, batch).current)
      ensures checkpoints == Backfill.CheckpointsAfterFetch(rev, old(checkpoints), channel, batch)
      ensures handed == old(handed) + Handover(g, channel, Backfill.ChunksOfFetch(rev, batch), true)
      ensures persisted == if Backfill.Commits(rev, batch) then BotData(checkpoints, tracked) else old(persisted)
    {
      var messages := Sort(batch);
      var chunks, current, inConversation, validateStamp := Windowing.ChunkScan(rev, messages);
      Backfill.ScannedEffect(rev, buffers, checkpoints, g, channel, batch,
        Windowing.Scan(chunks, current, inConversation, validateStamp));
      if validateStamp.Some? {
        checkpoints := checkpoints[StrId(channel) := ChannelStatus(validateStamp.value, inConversation)];
        persisted := BotData(checkpoints, tracked);
      }
      buffers := WithBuffer(buffers, g, channel, current);
      Summarize(g, channel, chunks);
    }

    /** Lines 160-166: each completed chunk goes to the summarizer, in order, and is awaited. */
    method Summarize(g: GuildKey, channel: int, chunks: seq<seq<Message>>)
      modifies this`handed
      ensures handed == old(handed) + Handover(g, channel, chunks, true)
    {
      for i := 0 to |chunks|
        invariant handed == old(handed) + Handover(g, channel, chunks[..i], true)
      {
        assert Handover(g, channel, chunks[..i + 1], true) == Handover(g, channel, chunks[..i], true) + [Emitted(g, channel, chunks[i], true)];
        handed := handed + [Emitted(g, channel, chunks[i], true)];
      }
      assert chunks[..|chunks|] == chunks;
    }

    /**
     * `track_channel` (lines 168-208) for channel `channel` of guild `guild`;
     * `batch` is what the backfill request returns when tracking is turned
     * on. `Err(KeyError)` is the exception `del` raises at line 204 when the
     * channel has no buffer; the removal from the set has happened by then
     * and nothing is saved.
     */
    method TrackChannel(guild: int, channel: int, track: bool, now: int, batch: seq<Message>) returns (r: Result<bool>)
      modifies this
      ensures !Tracker.TrackProceeds(rev, old(tracked), channel, track) ==>
                && r == Ok(false)
                && buffers == old(buffers) && checkpoints == old(checkpoints) && tracked == old(tracked)
                && handed == old(handed) && persisted == old(persisted)
      ensures track && r == Ok(true) && rev == Corrected ==> Tracker.Admits(rev, tracked, channel)
      ensures !track && r == Ok(true) && rev == Corrected ==> !Tracker.Admits(rev, tracked, channel)
      ensures Tracker.TrackProceeds(rev, old(tracked), channel, track) && track ==>
                var seeded := Tracker.Seed(old(checkpoints), channel, now);
                && r == Ok(true)
                && tracked == Some(old(tracked).value + {StrId(channel)})
                && buffers == Backfill.BuffersAfterFetch(rev, old(buffers), Guild(guild), channel, batch)
                && checkpoints == Backfill.CheckpointsAfterFetch(rev, seeded, channel, batch)
                && handed == old(handed) + Handover(Guild(guild), channel, Backfill.ChunksOfFetch(rev, batch), true)
                && persisted == BotData(checkpoints, tracked)
      ensures Tracker.TrackProceeds(rev, old(tracked), channel, track) && !track ==>
                var g := Guild(guild);
                var inner := if g in old(buffers) then old(buffers)[g] else map[];
                && tracked == Some(old(tracked).value - {Tracker.LookupKey(rev, channel)})
                && checkpoints == old(checkpoints) && handed == old(handed)
                && (channel in inner ==>
                      r == Ok(true) && buffers == old(buffers)[g := inner - {channel}] && persisted == BotData(checkpoints, tracked))
                && (channel !in inner ==>
                      r == Err(KeyError) && buffers == old(buffers)[g := inner] && persisted == old(persisted))
    {
      if tracked.None? {
        return Ok(false);
      }
      if track == (Tracker.LookupKey(rev, channel) in tracked.value) {
        return Ok(false);
      }
      if track {
        tracked := Some(tracked.value + {StrId(channel)});
        var k := StrId(channel);
        var fallback := now - FallbackLookback;
        if k !in checkpoints {
          checkpoints := checkpoints[k := ChannelStatus(fallback, false)];
        } else if checkpoints[k].checkedAt < fallback {
          checkpoints := checkpoints[k := checkpoints[k].(checkedAt := fallback).(active := false)];
        }
        assert checkpoints == Tracker.Seed(old(checkpoints), channel, now);
        var _ := FetchHistory(guild, channel, batch, now);
      } else {
        tracked := Some(tracked.value - {Tracker.LookupKey(rev, channel)});
        var g := Guild(guild);
        var inner := if g in buffers then buffers[g] else map[];
        if channel !in inner {
          buffers := buffers[g := inner];
          return Err(KeyError);
        }
        buffers := buffers[g := inner - {channel}];
      }
      persisted := BotData(checkpoints, tracked);
      r := Ok(true);
    }

    /**
     * The sweep `check_conversations` (lines 260-301) at time `now`, visiting
     * the buffered channels in the order `order`. Returns false when line 297
     * raised `KeyError`; the changes made before it are kept and nothing is saved.
     */
    method CheckConversations(now: int, order: seq<(GuildKey, int)>) returns (ok: bool)
      requires Reconciler.Enumerates(buffers, order)
      modifies this
      ensures var r := Reconciler.CheckConversations(old(buffers), old(checkpoints), old(handed), now, order);
              && ok == r.ok
              && buffers == r.buffers && checkpoints == r.checkpoints && handed == r.handed
              && tracked == old(tracked)
              && persisted == if ok then BotData(checkpoints, tracked) else old(persisted)
    {
      var snap := Reconciler.Classify(checkpoints);
      Reconciler.SnapshotUnique(snap, checkpoints);
      ok := SweepChannels(snap, now, order);
      if ok {
        persisted := BotData(checkpoints, tracked);
      }
    }

    /**
     * The nested loops of lines 273-299, as one loop over the flattened
     * visiting order `order`, judged against the snapshot `snap`; it stops
     * at the first `KeyError`.
     */
    method SweepChannels(snap: Reconciler.Snapshot, now: int, order: seq<(GuildKey, int)>) returns (ok: bool)
      requires forall i :: 0 <= i < |order| ==> order[i].0 in buffers && order[i].1 in buffers[order[i].0]
      requires snap.active + snap.idle <= checkpoints.Keys
      modifies this`buffers, this`checkpoints, this`handed
      ensures Reconciler.Sweep(buffers, checkpoints, handed, ok) ==
              Reconciler.SweepOver(snap, now, Reconciler.Sweep(old(buffers), old(checkpoints), old(handed), true), order)
    {
      ghost var acc0 := Reconciler.Sweep(buffers, checkpoints, handed, true);
      ok := true;
      var i := 0;
      while i < |order| && ok
        invariant 0 <= i <= |order|
        invariant Reconciler.SweepOver(snap, now, acc0, order[..i]) == Reconciler.Sweep(buffers, checkpoints, handed, ok)
      {
        assert order[..i + 1][..i] == order[..i];
        var (g, c) := order[i];
        ok := VisitChannel(snap, now, g, c);
        i := i + 1;
      }
      if ok {
        assert order[..i] == order;
      } else {
        Reconciler.SweepStops(snap, now, acc0, order, i);
      }
    }

    /**
     * One pass of the inner loop of the sweep (lines 275-299) for channel `c`
     * of guild `g`, judged against the snapshot `snap`; false when line 297
     * raises `KeyError`.
     */
    method VisitChannel(snap: Reconciler.Snapshot, now: int, g: GuildKey, c: int) returns (ok: bool)
      requires g in buffers && c in buffers[g]
      requires snap.active + snap.idle <= checkpoints.Keys
      modifies this`buffers, this`checkpoints, this`handed
      ensures Reconciler.Sweep(buffers, checkpoints, handed, ok) ==
              Reconciler.Visit(snap, now, Reconciler.Sweep(old(buffers), old(checkpoints), old(handed), true), g, c)
    {
      var timeToActive := now - StartDiff;
      var timeToIdle := now - EndDiff;
      var k := StrId(c);
      var buf := buffers[g][c];
      if k in snap.idle {
        var messages := Sort(buf);
        if |messages| >= MinCluster && messages[|messages| - MinCluster].timestamp > timeToActive {
          checkpoints := checkpoints[k := checkpoints[k].(active := true)];
        }
      } else if k in snap.active {
        var messages := Sort(buf);
        if |messages| >= MinCluster && messages[|messages| - MinCluster].timestamp < timeToIdle {
          checkpoints := checkpoints[k := checkpoints[k].(active := false)];
          handed := handed + [Emitted(g, c, messages, false)];
          buffers := buffers[g := buffers[g][c := []]];
        }
      }
      if k in checkpoints {
        checkpoints := checkpoints[k := checkpoints[k].(checkedAt := timeToActive)];
        ok := true;
      } else {
        ok := false;
      }
    }

    /**
     * `on_message` (lines 338-370): a message from a channel in scope, not
     * written by the bot itself, is appended to its buffer; `guild` is
     * `None` for a direct message.
     */
    method OnMessage(guild: Option<int>, channel: int, msg: Message, botUser: int)
      modifies this
      ensures checkpoints == old(checkpoints) && tracked == old(tracked)
      ensures handed == old(handed) && persisted == old(persisted)
      ensures var g := if guild.Some? then Guild(guild.value) else DM;
              buffers == if msg.author == botUser || !Tracker.Admits(rev, tracked, channel) then old(buffers)
                         else WithBuffer(old(buffers), g, channel, BufferOf(old(buffers), g, channel) + [msg])
    {
      if msg.author == botUser {
        return;
      }
      if tracked.Some? && Tracker.LookupKey(rev, channel) !in tracked.value {
        return;
      }
      var g := if guild.Some? then Guild(guild.value) else DM;
      buffers := WithBuffer(buffers, g, channel, BufferOf(buffers, g, channel) + [msg]);
    }

    /**
     * `on_guild_remove` (lines 389-403) for guild `guild`, whose buffered
     * channels the dictionary yields in the order `channels`. In whitelist
     * mode each of them is removed from the tracked set first; a channel that
     * is not tracked raises `KeyError` (false), leaving the earlier removals
     * in place, the buffers intact and the file unwritten.
     */
    method OnGuildRemove(guild: int, channels: seq<int>) returns (ok: bool)
      requires Guild(guild) in buffers ==>
                 (forall i :: 0 <= i < |channels| ==> channels[i] in buffers[Guild(guild)])
                 && (forall i, j :: 0 <= i < j < |channels| ==> channels[i] != channels[j])
                 && (forall c :: c in buffers[Guild(guild)] ==> c in channels)
      modifies this
      ensures checkpoints == old(checkpoints) && handed == old(handed)
      ensures Guild(guild) !in old(buffers) ==>
                ok && buffers == old(buffers) && tracked == old(tracked) && persisted == old(persisted)
      ensures Guild(guild) in old(buffers) && old(tracked).None? ==>
                ok && buffers == old(buffers) - {Guild(guild)} && tracked == None && persisted == old(persisted)
      ensures Guild(guild) in old(buffers) && old(tracked).Some? ==>
                var u := Tracker.Untrack(old(tracked).value, channels);
                && ok == u.1
                && tracked == Some(u.0)
                && buffers == (if u.1 then old(buffers) - {Guild(guild)} else old(buffers))
                && persisted == (if u.1 then BotData(checkpoints, tracked) else old(persisted))
    {
      var g := Guild(guild);
      ok := true;
      if g !in buffers {
        return;
      }
      if tracked.Some? {
        ghost var start := tracked.value;
        var i := 0;
        while i < |channels| && ok
          invariant 0 <= i <= |channels|
          invariant tracked.Some? && Tracker.Untrack(start, channels[..i]) == (tracked.value, ok)
          invariant buffers == old(buffers) && persisted == old(persisted)
          invariant checkpoints == old(checkpoints) && handed == old(handed)
        {
          assert channels[..i + 1][..i] == channels[..i];
          var k := StrId(channels[i]);
          if k in tracked.value {
            tracked := Some(tracked.value - {k});
          } else {
            ok := false;
          }
          i := i + 1;
        }
        if !ok {
          Tracker.UntrackStops(start, channels, i);
          return;
        }
        assert channels[..i] == channels;
        persisted := BotData(checkpoints, tracked);
      }
      buffers := buffers - {g};
    }
  }
}
