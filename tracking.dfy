/**
 * The channel tracker: the whitelist test that decides whether a channel's
 * messages are collected, and the checkpoint seeding done when tracking is
 * turned on (bot.py, `track_channel` and `on_message`).
 */
module Tracker {
  import opened State

  /**
   * The key looked up in the tracked set (lines 175, 203 and 348). The set
   * holds `str(channel.id)` (line 183), but the source looks up the integer
   * `channel.id`.
   */
  function LookupKey(rev: Revision, c: int): ChanKey
  {
    match rev
    case AsWritten => IntId(c)
    case Corrected => StrId(c)
  }

  /** Lines 346-349: a channel is in scope in open mode, or when the tracked set contains it. */
  predicate Admits(rev: Revision, tracked: Option<set<ChanKey>>, c: int)
  {
    tracked.None? || LookupKey(rev, c) in tracked.value
  }

  /**
   * Lines 170-179: `track_channel` changes something only in whitelist mode,
   * and only when the request differs from the membership the lookup sees.
   */
  predicate TrackProceeds(rev: Revision, tracked: Option<set<ChanKey>>, c: int, track: bool)
  {
    tracked.Some? && track != (LookupKey(rev, c) in tracked.value)
  }

  /** Every key of the tracked set is a string, as line 183 and the YAML file write them. */
  predicate StringKeys(tracked: set<ChanKey>)
  {
    forall k :: k in tracked ==> k.StrId?
  }

  /**
   * Lines 184-199: after tracking is turned on, the channel's checkpoint is
   * at most three hours old. A missing one is created and an older one is
   * reset, both to three hours before `now` and inactive; a newer one is kept.
   */
  function Seed(cps: Checkpoints, c: int, now: int): (r: Checkpoints)
    ensures r.Keys == cps.Keys + {StrId(c)}
    ensures forall k :: k in cps && k != StrId(c) ==> r[k] == cps[k]
    ensures r[StrId(c)].checkedAt >= now - FallbackLookback
    ensures StrId(c) in cps && cps[StrId(c)].checkedAt >= now - FallbackLookback ==> r[StrId(c)] == cps[StrId(c)]
    ensures StrId(c) !in cps || cps[StrId(c)].checkedAt < now - FallbackLookback ==>
              r[StrId(c)] == ChannelStatus(now - FallbackLookback, false)
  {
    var k := StrId(c);
    var fallback := now - FallbackLookback;
    if k !in cps then cps[k := ChannelStatus(fallback, false)]
    else if cps[k].checkedAt < fallback then cps[k := cps[k].(checkedAt := fallback).(active := false)]
    else cps
  }

  /** Lines 96-99 and 103: backfill asks for the messages after the checkpoint, or after three hours ago. */
  function BackfillAfter(cps: Checkpoints, c: int, now: int): int
  {
    if StrId(c) in cps then cps[StrId(c)].checkedAt else now - FallbackLookback
  }

  /**
   * The backfill that follows turning tracking on looks back at most three
   * hours, and exactly as far as the kept checkpoint when that one is newer.
   */
  lemma SeedBoundsBackfill(cps: Checkpoints, c: int, now: int)
    ensures BackfillAfter(Seed(cps, c, now), c, now) >= now - FallbackLookback
    ensures BackfillAfter(Seed(cps, c, now), c, now) ==
            if BackfillAfter(cps, c, now) > now - FallbackLookback then BackfillAfter(cps, c, now)
            else now - FallbackLookback
  {
  }

  /**
   * Lines 396-398: removing a guild's channels from the tracked set one by
   * one, in iteration order. The flag is false once `remove` met a channel
   * that is not tracked (`KeyError`); the channels before it stay removed.
   */
  function Untrack(tracked: set<ChanKey>, cs: seq<int>): (r: (set<ChanKey>, bool))
    ensures r.0 <= tracked
  {
    if |cs| == 0 then (tracked, true)
    else
      var (t, ok) := Untrack(tracked, cs[..|cs| - 1]);
      var k := StrId(cs[|cs| - 1]);
      if !ok then (t, false)
      else if k in t then (t - {k}, true)
      else (t, false)
  }

  /**
   * Removing distinct channels succeeds exactly when all of them are
   * tracked, and then removes exactly their keys.
   */
  lemma {:induction false} UntrackAll(tracked: set<ChanKey>, cs: seq<int>)
    requires forall i, j :: 0 <= i < j < |cs| ==> cs[i] != cs[j]
    ensures Untrack(tracked, cs).1 <==> forall i :: 0 <= i < |cs| ==> StrId(cs[i]) in tracked
    ensures Untrack(tracked, cs).1 ==>
              Untrack(tracked, cs).0 == tracked - set i | 0 <= i < |cs| :: StrId(cs[i])
  {
    if |cs| > 0 {
      var p := cs[..|cs| - 1];
      var last := cs[|cs| - 1];
      UntrackAll(tracked, p);
      assert forall i :: 0 <= i < |p| ==> p[i] == cs[i] && p[i] != last;
      var removed := set i | 0 <= i < |cs| :: StrId(cs[i]);
      var removedP := set i | 0 <= i < |p| :: StrId(p[i]);
      assert removed == removedP + {StrId(last)} by {
        forall k | k in removed ensures k in removedP + {StrId(last)} {
          var i :| 0 <= i < |cs| && k == StrId(cs[i]);
          if i < |p| {
            assert k == StrId(p[i]);
          }
        }
      }
      assert StrId(last) !in removedP;
    }
  }

  /** Once a removal has raised `KeyError`, the later channels are not visited. */
  lemma {:induction false} UntrackStops(tracked: set<ChanKey>, cs: seq<int>, i: nat)
    requires i <= |cs| && !Untrack(tracked, cs[..i]).1
    ensures Untrack(tracked, cs) == Untrack(tracked, cs[..i])
  {
    if i < |cs| {
      var p := cs[..|cs| - 1];
      assert p[..i] == cs[..i];
      UntrackStops(tracked, p, i);
    } else {
      assert cs[..i] == cs;
    }
  }

  // ---------------------------------------------------------------------------
  // The key used to look channels up in the tracked set.
  // ---------------------------------------------------------------------------

  /**
   * As written, in whitelist mode a message from a channel that was just
   * tracked is still dropped: the set holds `StrId(c)`, the test looks for `IntId(c)`.
   */
  lemma TrackedChannelDroppedAsWritten(tracked: set<ChanKey>, c: int)
    requires StringKeys(tracked)
    ensures !Admits(AsWritten, Some(tracked + {StrId(c)}), c)
  {
    assert IntId(c) !in tracked;
  }

  /** As written, untracking never proceeds and tracking always proceeds, whatever the set holds. */
  lemma TrackGateAsWritten(tracked: set<ChanKey>, c: int)
    requires StringKeys(tracked)
    ensures !TrackProceeds(AsWritten, Some(tracked), c, false)
    ensures TrackProceeds(AsWritten, Some(tracked), c, true)
  {
    assert IntId(c) !in tracked;
  }

  /**
   * Corrected, `track on` followed by `track off` is a round trip: both go
   * ahead, the channel is admitted in between and dropped again afterwards,
   * and the set ends as it began. As written, the `track off` half never goes ahead.
   */
  lemma TrackRoundTripCorrected(tracked: set<ChanKey>, c: int)
    requires StringKeys(tracked) && StrId(c) !in tracked
    ensures var on := tracked + {StrId(c)};
            && TrackProceeds(Corrected, Some(tracked), c, true)
            && Admits(Corrected, Some(on), c)
            && TrackProceeds(Corrected, Some(on), c, false)
            && !TrackProceeds(AsWritten, Some(on), c, false)
            && on - {LookupKey(Corrected, c)} == tracked
            && !Admits(Corrected, Some(on - {LookupKey(Corrected, c)}), c)
  {
  }

  /**
   * Corrected, the gate of `track_channel` is idempotent: once a request has
   * gone ahead, repeating it changes nothing.
   */
  lemma TrackGateIdempotentCorrected(tracked: set<ChanKey>, c: int, track: bool)
    requires TrackProceeds(Corrected, Some(tracked), c, track)
    ensures var after := if track then tracked + {StrId(c)} else tracked - {LookupKey(Corrected, c)};
            !TrackProceeds(Corrected, Some(after), c, track)
  {
  }
}
