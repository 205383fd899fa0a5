/**
 * The periodic idle-reconciliation sweep, `check_conversations` (bot.py,
 * lines 260-301), as a function of the state before it.
 *
 * The sweep first splits the checkpoint keys into active and idle ones, then
 * visits every buffered channel in the dictionaries' iteration order. An idle
 * channel whose fifth-newest buffered message is under fifteen minutes old
 * becomes active (only the flag changes). An active channel whose
 * fifth-newest buffered message is over an hour old becomes idle: its whole
 * sorted buffer goes to the summarizer and the buffer is emptied. Either way
 * the channel's `checked_at` moves to fifteen minutes before `now`; a
 * buffered channel without a checkpoint raises `KeyError` there and the sweep
 * stops, keeping what it already changed.
 */
module Reconciler {
  import opened Messages
  import opened State

  /** The `active` and `idle` lists of lines 264-270, as sets of checkpoint keys. */
  datatype Snapshot = Snapshot(active: set<ChanKey>, idle: set<ChanKey>)

  /** The snapshot partitions the checkpoint keys by their `active` flag. */
  predicate IsSnapshotOf(snap: Snapshot, cps: Checkpoints)
  {
    && snap.active + snap.idle == cps.Keys
    && (forall k :: k in snap.active ==> k in cps && cps[k].active)
    && (forall k :: k in snap.idle ==> k in cps && !cps[k].active)
  }

  /** Lines 264-270: one pass over the checkpoints, each key going to one of the two lists. */
  method Classify(cps: Checkpoints) returns (snap: Snapshot)
    ensures IsSnapshotOf(snap, cps)
    ensures snap.active !! snap.idle
  {
    var active, idle := {}, {};
    var rest := cps.Keys;
    while rest != {}
      invariant rest <= cps.Keys
      invariant active + idle + rest == cps.Keys
      invariant rest !! active && rest !! idle && active !! idle
      invariant forall k :: k in active ==> k in cps && cps[k].active
      invariant forall k :: k in idle ==> k in cps && !cps[k].active
      decreases rest
    {
      var k :| k in rest;
      if cps[k].active {
        active := active + {k};
      } else {
        idle := idle + {k};
      }
      rest := rest - {k};
    }
    snap := Snapshot(active, idle);
  }

  /** Line 278: at least five buffered messages, the fifth-newest newer than `now - START_DIFF`. */
  predicate TurnsActive(buf: seq<Message>, now: int)
  {
    var m := Sort(buf);
    |m| >= MinCluster && m[|m| - MinCluster].timestamp > now - StartDiff
  }

  /** Line 284: at least five buffered messages, the fifth-newest older than `now - END_DIFF`. */
  predicate TurnsIdle(buf: seq<Message>, now: int)
  {
    var m := Sort(buf);
    |m| >= MinCluster && m[|m| - MinCluster].timestamp < now - EndDiff
  }

  /** What the sweep has built so far; `ok` turns false at the `KeyError` of line 297. */
  datatype Sweep = Sweep(buffers: Buffers, checkpoints: Checkpoints, handed: seq<Emitted>, ok: bool)

  /** The two dictionaries have the same keys on both levels. */
  ghost predicate SameShape(a: Buffers, b: Buffers)
  {
    a.Keys == b.Keys && forall g :: g in a ==> a[g].Keys == b[g].Keys
  }

  /** `order` lists every buffered channel exactly once: the iteration order of lines 273-274. */
  ghost predicate Enumerates(b: Buffers, order: seq<(GuildKey, int)>)
  {
    && (forall i :: 0 <= i < |order| ==> order[i].0 in b && order[i].1 in b[order[i].0])
    && (forall i, j :: 0 <= i < j < |order| ==> order[i] != order[j])
    && (forall g, c :: g in b && c in b[g] ==> (g, c) in order)
  }

  /** One iteration of the inner loop (lines 275-299) for channel `c` of guild `g`. */
  function Visit(snap: Snapshot, now: int, acc: Sweep, g: GuildKey, c: int): (r: Sweep)
    requires g in acc.buffers && c in acc.buffers[g]
    requires snap.active + snap.idle <= acc.checkpoints.Keys
    ensures SameShape(r.buffers, acc.buffers)
    ensures r.checkpoints.Keys == acc.checkpoints.Keys
    ensures r.ok ==> acc.ok
  {
    if !acc.ok then acc
    else
      var k := StrId(c);
      var buf := acc.buffers[g][c];
      var acc' :=
        if k in snap.idle then
          if TurnsActive(buf, now) then
            acc.(checkpoints := acc.checkpoints[k := acc.checkpoints[k].(active := true)])
          else acc
        else if k in snap.active then
          if TurnsIdle(buf, now) then
            Sweep(
              acc.buffers[g := acc.buffers[g][c := []]],
              acc.checkpoints[k := acc.checkpoints[k].(active := false)],
              acc.handed + [Emitted(g, c, Sort(buf), false)],
              true)
          else acc
        else acc;
      if k in acc'.checkpoints then
        acc'.(checkpoints := acc'.checkpoints[k := acc'.checkpoints[k].(checkedAt := now - StartDiff)])
      else
        acc'.(ok := false)
  }

  /** The inner loop run over the channels `order`, in that order. */
  function SweepOver(snap: Snapshot, now: int, acc: Sweep, order: seq<(GuildKey, int)>): (r: Sweep)
    requires forall i :: 0 <= i < |order| ==> order[i].0 in acc.buffers && order[i].1 in acc.buffers[order[i].0]
    requires snap.active + snap.idle <= acc.checkpoints.Keys
    ensures SameShape(r.buffers, acc.buffers)
    ensures r.checkpoints.Keys == acc.checkpoints.Keys
    ensures r.ok ==> acc.ok
  {
    if |order| == 0 then acc
    else
      var p := SweepOver(snap, now, acc, order[..|order| - 1]);
      var (g, c) := order[|order| - 1];
      Visit(snap, now, p, g, c)
  }

  /** The snapshot `check_conversations` takes of `cps`. */
  function SnapshotOf(cps: Checkpoints): (snap: Snapshot)
    ensures IsSnapshotOf(snap, cps) && snap.active !! snap.idle
  {
    Snapshot(set k | k in cps && cps[k].active, set k | k in cps && !cps[k].active)
  }

  /** The whole sweep, from the state before it; `handed` is what the summarizer had received. */
  function CheckConversations(b: Buffers, cps: Checkpoints, handed: seq<Emitted>, now: int, order: seq<(GuildKey, int)>): (r: Sweep)
    requires Enumerates(b, order)
  {
    SweepOver(SnapshotOf(cps), now, Sweep(b, cps, handed, true), order)
  }

  /** The snapshot is unique: `Classify` computes the snapshot `CheckConversations` uses. */
  lemma SnapshotUnique(snap: Snapshot, cps: Checkpoints)
    requires IsSnapshotOf(snap, cps)
    ensures snap == SnapshotOf(cps)
  {
  }

  /** A visit touches only the checkpoint `str(c)` and, when that channel goes idle, the buffer of `c`. */
  lemma VisitFrame(snap: Snapshot, now: int, acc: Sweep, g: GuildKey, c: int)
    requires g in acc.buffers && c in acc.buffers[g]
    requires snap.active + snap.idle <= acc.checkpoints.Keys
    ensures var r := Visit(snap, now, acc, g, c);
            && (forall k :: k in acc.checkpoints && k != StrId(c) ==> r.checkpoints[k] == acc.checkpoints[k])
            && (forall h, d :: h in acc.buffers && d in acc.buffers[h] && (h, d) != (g, c) ==>
                  r.buffers[h][d] == acc.buffers[h][d])
            && (forall k :: k in acc.checkpoints && acc.checkpoints[k].checkedAt == now - StartDiff ==>
                  r.checkpoints[k].checkedAt == now - StartDiff)
  {
  }

  /** A visit that does not raise found the checkpoint `str(c)` and set its `checked_at`. */
  lemma VisitResets(snap: Snapshot, now: int, acc: Sweep, g: GuildKey, c: int)
    requires g in acc.buffers && c in acc.buffers[g]
    requires snap.active + snap.idle <= acc.checkpoints.Keys
    requires Visit(snap, now, acc, g, c).ok
    ensures StrId(c) in acc.checkpoints
    ensures Visit(snap, now, acc, g, c).checkpoints[StrId(c)].checkedAt == now - StartDiff
  {
  }

  /** A visit raises exactly when the channel has no checkpoint under `str(c)`. */
  lemma VisitOkIff(snap: Snapshot, now: int, acc: Sweep, g: GuildKey, c: int)
    requires g in acc.buffers && c in acc.buffers[g]
    requires snap.active + snap.idle <= acc.checkpoints.Keys
    ensures Visit(snap, now, acc, g, c).ok <==> acc.ok && StrId(c) in acc.checkpoints
  {
  }

  /** What a visit that does not raise does to its own channel. */
  lemma VisitOwn(snap: Snapshot, now: int, acc: Sweep, g: GuildKey, c: int)
    requires g in acc.buffers && c in acc.buffers[g]
    requires snap.active + snap.idle <= acc.checkpoints.Keys
    requires snap.active !! snap.idle
    requires Visit(snap, now, acc, g, c).ok
    ensures var r := Visit(snap, now, acc, g, c);
            var k := StrId(c);
            var buf := acc.buffers[g][c];
            var idles := k in snap.active && TurnsIdle(buf, now);
            && k in acc.checkpoints
            && r.checkpoints[k].checkedAt == now - StartDiff
            && r.checkpoints[k].active ==
                 (if k in snap.idle && TurnsActive(buf, now) then true
                  else if k !in snap.idle && idles then false
                  else acc.checkpoints[k].active)
            && r.buffers[g][c] == (if idles then [] else buf)
            && r.handed == acc.handed + (if idles then [Emitted(g, c, Sort(buf), false)] else [])
  {
  }

  /** What a visit that does not raise hands to the summarizer. */
  lemma VisitHands(snap: Snapshot, now: int, acc: Sweep, g: GuildKey, c: int)
    requires g in acc.buffers && c in acc.buffers[g]
    requires snap.active + snap.idle <= acc.checkpoints.Keys
    requires snap.active !! snap.idle
    requires Visit(snap, now, acc, g, c).ok
    ensures Visit(snap, now, acc, g, c).handed == acc.handed + Handed(snap, now, acc.buffers[g][c], g, c)
  {
  }

  /** Once a visit has raised `KeyError`, the rest of the sweep does nothing. */
  lemma {:induction false} SweepStops(snap: Snapshot, now: int, acc: Sweep, order: seq<(GuildKey, int)>, i: nat)
    requires forall i :: 0 <= i < |order| ==> order[i].0 in acc.buffers && order[i].1 in acc.buffers[order[i].0]
    requires snap.active + snap.idle <= acc.checkpoints.Keys
    requires i <= |order|
    requires !SweepOver(snap, now, acc, order[..i]).ok
    ensures SweepOver(snap, now, acc, order) == SweepOver(snap, now, acc, order[..i])
    decreases |order|
  {
    if i < |order| {
      var p := order[..|order| - 1];
      assert p[..i] == order[..i];
      SweepStops(snap, now, acc, p, i);
    } else {
      assert order[..i] == order;
    }
  }

  /** Every channel of `order` has a checkpoint under `str(channel_id)`. */
  ghost predicate AllCheckpointed(cps: Checkpoints, order: seq<(GuildKey, int)>)
  {
    forall i :: 0 <= i < |order| ==> StrId(order[i].1) in cps
  }

  lemma AllCheckpointedSnoc(cps: Checkpoints, order: seq<(GuildKey, int)>)
    requires |order| > 0
    ensures AllCheckpointed(cps, order) <==>
            AllCheckpointed(cps, order[..|order| - 1]) && StrId(order[|order| - 1].1) in cps
  {
    var p := order[..|order| - 1];
    assert forall i :: 0 <= i < |p| ==> p[i] == order[i];
  }

  /**
   * The sweep completes exactly when every visited channel has a checkpoint
   * under `str(channel_id)`; otherwise line 297 raises `KeyError`.
   */
  lemma {:induction false} SweepOkIffCheckpointed(snap: Snapshot, now: int, acc: Sweep, order: seq<(GuildKey, int)>)
    requires forall i :: 0 <= i < |order| ==> order[i].0 in acc.buffers && order[i].1 in acc.buffers[order[i].0]
    requires snap.active + snap.idle <= acc.checkpoints.Keys
    requires acc.ok
    ensures SweepOver(snap, now, acc, order).ok <==> AllCheckpointed(acc.checkpoints, order)
  {
    if |order| > 0 {
      var p := order[..|order| - 1];
      SweepOkIffCheckpointed(snap, now, acc, p);
      var q := SweepOver(snap, now, acc, p);
      var (g0, c0) := order[|order| - 1];
      VisitOkIff(snap, now, q, g0, c0);
      AllCheckpointedSnoc(acc.checkpoints, order);
    }
  }

  /** After a completed sweep every visited channel's `checked_at` is `now - START_DIFF`. */
  lemma {:induction false} SweepResetsCheckedAt(snap: Snapshot, now: int, acc: Sweep, order: seq<(GuildKey, int)>)
    requires forall i :: 0 <= i < |order| ==> order[i].0 in acc.buffers && order[i].1 in acc.buffers[order[i].0]
    requires snap.active + snap.idle <= acc.checkpoints.Keys
    ensures var r := SweepOver(snap, now, acc, order);
            r.ok ==> forall i :: 0 <= i < |order| ==>
              StrId(order[i].1) in r.checkpoints && r.checkpoints[StrId(order[i].1)].checkedAt == now - StartDiff
  {
    if |order| > 0 {
      var p := order[..|order| - 1];
      SweepResetsCheckedAt(snap, now, acc, p);
      var q := SweepOver(snap, now, acc, p);
      var (g0, c0) := order[|order| - 1];
      var r := Visit(snap, now, q, g0, c0);
      assert r == SweepOver(snap, now, acc, order);
      if r.ok {
        VisitFrame(snap, now, q, g0, c0);
        VisitResets(snap, now, q, g0, c0);
        assert forall i :: 0 <= i < |p| ==> p[i] == order[i];
        ResetsExtend(q.checkpoints, r.checkpoints, order, now - StartDiff);
      }
    }
  }

  /** The induction step of `SweepResetsCheckedAt`, stated over the checkpoints alone. */
  lemma ResetsExtend(q: Checkpoints, r: Checkpoints, order: seq<(GuildKey, int)>, t: int)
    requires |order| > 0
    requires forall i :: 0 <= i < |order| - 1 ==> StrId(order[i].1) in q && q[StrId(order[i].1)].checkedAt == t
    requires forall k :: k in q && q[k].checkedAt == t ==> k in r && r[k].checkedAt == t
    requires StrId(order[|order| - 1].1) in r && r[StrId(order[|order| - 1].1)].checkedAt == t
    ensures forall i :: 0 <= i < |order| ==> StrId(order[i].1) in r && r[StrId(order[i].1)].checkedAt == t
  {
  }

  /** Checkpoints of channels the sweep does not visit keep their values. */
  lemma {:induction false} SweepLeavesOthers(snap: Snapshot, now: int, acc: Sweep, order: seq<(GuildKey, int)>, k: ChanKey)
    requires forall i :: 0 <= i < |order| ==> order[i].0 in acc.buffers && order[i].1 in acc.buffers[order[i].0]
    requires snap.active + snap.idle <= acc.checkpoints.Keys
    requires k in acc.checkpoints
    requires forall i :: 0 <= i < |order| ==> StrId(order[i].1) != k
    ensures SweepOver(snap, now, acc, order).checkpoints[k] == acc.checkpoints[k]
  {
    if |order| > 0 {
      var p := order[..|order| - 1];
      SweepLeavesOthers(snap, now, acc, p, k);
      var (g0, c0) := order[|order| - 1];
      VisitFrame(snap, now, SweepOver(snap, now, acc, p), g0, c0);
    }
  }

  /** What visiting channel `c` of guild `g`, holding `buf`, hands over: its whole sorted buffer when it goes idle. */
  function Handed(snap: Snapshot, now: int, buf: seq<Message>, g: GuildKey, c: int): seq<Emitted>
  {
    if StrId(c) in snap.active && TurnsIdle(buf, now) then [Emitted(g, c, Sort(buf), false)] else []
  }

  /** The buffer of a channel the sweep does not visit keeps its value. */
  lemma {:induction false} SweepLeavesBuffer(snap: Snapshot, now: int, acc: Sweep, order: seq<(GuildKey, int)>, g: GuildKey, c: int)
    requires forall i :: 0 <= i < |order| ==> order[i].0 in acc.buffers && order[i].1 in acc.buffers[order[i].0]
    requires snap.active + snap.idle <= acc.checkpoints.Keys
    requires g in acc.buffers && c in acc.buffers[g] && (g, c) !in order
    ensures SweepOver(snap, now, acc, order).buffers[g][c] == acc.buffers[g][c]
  {
    if |order| > 0 {
      var p := order[..|order| - 1];
      assert (g, c) !in p by {
        assert forall i :: 0 <= i < |p| ==> p[i] == order[i];
      }
      SweepLeavesBuffer(snap, now, acc, p, g, c);
      var (g0, c0) := order[|order| - 1];
      VisitFrame(snap, now, SweepOver(snap, now, acc, p), g0, c0);
    }
  }

  /**
   * The chunks a completed sweep hands over, in visiting order: the whole
   * sorted buffer of every channel that was active in the snapshot and has
   * gone idle. A reference definition, stated over the buffers before the sweep.
   */
  function Finalized(snap: Snapshot, now: int, b: Buffers, order: seq<(GuildKey, int)>): seq<Emitted>
    requires forall i :: 0 <= i < |order| ==> order[i].0 in b && order[i].1 in b[order[i].0]
  {
    if |order| == 0 then []
    else
      var (g, c) := order[|order| - 1];
      Finalized(snap, now, b, order[..|order| - 1]) + Handed(snap, now, b[g][c], g, c)
  }

  /** The buffer of channel `c` of guild `g` after a completed sweep over `order`. */
  function BufferAfter(snap: Snapshot, now: int, b: Buffers, order: seq<(GuildKey, int)>, g: GuildKey, c: int): seq<Message>
    requires g in b && c in b[g]
  {
    if (g, c) in order && StrId(c) in snap.active && TurnsIdle(b[g][c], now) then [] else b[g][c]
  }

  /** The induction step of `SweepBuffers`, stated over the buffers alone. */
  lemma BuffersExtend(snap: Snapshot, now: int, b: Buffers, qb: Buffers, rb: Buffers, order: seq<(GuildKey, int)>)
    requires |order| > 0 && order[|order| - 1].0 in b && order[|order| - 1].1 in b[order[|order| - 1].0]
    requires SameShape(qb, b) && SameShape(rb, b)
    requires forall g, c :: g in b && c in b[g] ==> qb[g][c] == BufferAfter(snap, now, b, order[..|order| - 1], g, c)
    requires forall h, d :: h in qb && d in qb[h] && (h, d) != order[|order| - 1] ==> rb[h][d] == qb[h][d]
    requires var (g0, c0) := order[|order| - 1];
             rb[g0][c0] == if StrId(c0) in snap.active && TurnsIdle(b[g0][c0], now) then [] else b[g0][c0]
    ensures forall g, c :: g in b && c in b[g] ==> rb[g][c] == BufferAfter(snap, now, b, order, g, c)
  {
    var p := order[..|order| - 1];
    assert order == p + [order[|order| - 1]];
    forall g, c | g in b && c in b[g] ensures rb[g][c] == BufferAfter(snap, now, b, order, g, c) {
      assert (g, c) in order <==> (g, c) in p || (g, c) == order[|order| - 1];
    }
  }

  /** The last entry of a list without repetitions does not occur before it. */
  lemma LastNotInPrefix(order: seq<(GuildKey, int)>)
    requires |order| > 0
    requires forall i, j :: 0 <= i < j < |order| ==> order[i] != order[j]
    ensures order[|order| - 1] !in order[..|order| - 1]
  {
    var p := order[..|order| - 1];
    forall i | 0 <= i < |p| ensures p[i] != order[|order| - 1] {
      assert p[i] == order[i];
    }
  }

  /**
   * A completed sweep over distinct channels empties exactly the buffers of
   * the visited channels that were active in the snapshot and have gone idle,
   * and leaves every other buffer as it was.
   */
  lemma {:induction false} SweepBuffers(snap: Snapshot, now: int, acc: Sweep, order: seq<(GuildKey, int)>)
    requires forall i :: 0 <= i < |order| ==> order[i].0 in acc.buffers && order[i].1 in acc.buffers[order[i].0]
    requires forall i, j :: 0 <= i < j < |order| ==> order[i] != order[j]
    requires snap.active + snap.idle <= acc.checkpoints.Keys
    requires snap.active !! snap.idle
    ensures var r := SweepOver(snap, now, acc, order);
            r.ok ==> forall g, c :: g in acc.buffers && c in acc.buffers[g] ==>
                       r.buffers[g][c] == BufferAfter(snap, now, acc.buffers, order, g, c)
  {
    if |order| > 0 {
      var p := order[..|order| - 1];
      var (g0, c0) := order[|order| - 1];
      SweepBuffers(snap, now, acc, p);
      var q := SweepOver(snap, now, acc, p);
      var r := Visit(snap, now, q, g0, c0);
      assert r == SweepOver(snap, now, acc, order);
      if r.ok {
        LastNotInPrefix(order);
        assert q.buffers[g0][c0] == acc.buffers[g0][c0];
        VisitFrame(snap, now, q, g0, c0);
        VisitOwn(snap, now, q, g0, c0);
        BuffersExtend(snap, now, acc.buffers, q.buffers, r.buffers, order);
      }
    }
  }

  /**
   * A completed sweep over distinct channels hands over `Finalized`: the
   * whole sorted buffer of each channel that goes idle, in visiting order.
   */
  lemma {:induction false} SweepHanded(snap: Snapshot, now: int, acc: Sweep, order: seq<(GuildKey, int)>)
    requires forall i :: 0 <= i < |order| ==> order[i].0 in acc.buffers && order[i].1 in acc.buffers[order[i].0]
    requires forall i, j :: 0 <= i < j < |order| ==> order[i] != order[j]
    requires snap.active + snap.idle <= acc.checkpoints.Keys
    requires snap.active !! snap.idle
    ensures var r := SweepOver(snap, now, acc, order);
            r.ok ==> r.handed == acc.handed + Finalized(snap, now, acc.buffers, order)
  {
    if |order| > 0 {
      SweepHanded(snap, now, acc, order[..|order| - 1]);
      HandedExtend(snap, now, acc, order);
    }
  }

  lemma AppendAssociative(a: seq<Emitted>, b: seq<Emitted>, c: seq<Emitted>)
    ensures (a + b) + c == a + (b + c)
  {
  }

  /** The induction step of `SweepHanded`. */
  lemma HandedExtend(snap: Snapshot, now: int, acc: Sweep, order: seq<(GuildKey, int)>)
    requires |order| > 0
    requires forall i :: 0 <= i < |order| ==> order[i].0 in acc.buffers && order[i].1 in acc.buffers[order[i].0]
    requires forall i, j :: 0 <= i < j < |order| ==> order[i] != order[j]
    requires snap.active + snap.idle <= acc.checkpoints.Keys
    requires snap.active !! snap.idle
    requires var q := SweepOver(snap, now, acc, order[..|order| - 1]);
             q.ok ==> q.handed == acc.handed + Finalized(snap, now, acc.buffers, order[..|order| - 1])
    ensures var r := SweepOver(snap, now, acc, order);
            r.ok ==> r.handed == acc.handed + Finalized(snap, now, acc.buffers, order)
  {
    var p := order[..|order| - 1];
    var (g0, c0) := order[|order| - 1];
    var q := SweepOver(snap, now, acc, p);
    var r := Visit(snap, now, q, g0, c0);
    assert r == SweepOver(snap, now, acc, order);
    if r.ok {
      LastNotInPrefix(order);
      SweepLeavesBuffer(snap, now, acc, p, g0, c0);
      VisitHands(snap, now, q, g0, c0);
      AppendAssociative(acc.handed, Finalized(snap, now, acc.buffers, p), Handed(snap, now, acc.buffers[g0][c0], g0, c0));
    }
  }

  /** The flag of channel `c` after a completed sweep, decided from the snapshot and the buffer before it. */
  predicate FlagAfter(snap: Snapshot, now: int, buf: seq<Message>, c: int)
  {
    if StrId(c) in snap.idle then TurnsActive(buf, now) else !TurnsIdle(buf, now)
  }

  /** The induction step of `SweepFlags`, stated over the checkpoints alone. */
  lemma FlagsExtend(snap: Snapshot, now: int, b: Buffers, qc: Checkpoints, rc: Checkpoints, order: seq<(GuildKey, int)>)
    requires |order| > 0
    requires forall i :: 0 <= i < |order| ==> order[i].0 in b && order[i].1 in b[order[i].0]
    requires forall i :: 0 <= i < |order| - 1 ==>
               StrId(order[i].1) in qc && qc[StrId(order[i].1)].active == FlagAfter(snap, now, b[order[i].0][order[i].1], order[i].1)
    requires forall i :: 0 <= i < |order| - 1 ==> order[i].1 != order[|order| - 1].1
    requires forall k :: k in qc && k != StrId(order[|order| - 1].1) ==> k in rc && rc[k] == qc[k]
    requires var (g0, c0) := order[|order| - 1];
             StrId(c0) in rc && rc[StrId(c0)].active == FlagAfter(snap, now, b[g0][c0], c0)
    ensures forall i :: 0 <= i < |order| ==>
              StrId(order[i].1) in rc && rc[StrId(order[i].1)].active == FlagAfter(snap, now, b[order[i].0][order[i].1], order[i].1)
  {
  }

  /**
   * On a completed sweep over channels with distinct ids, each visited
   * channel's flag is decided from the snapshot: idle becomes active exactly
   * when `TurnsActive`, active stays active unless `TurnsIdle`.
   */
  lemma {:induction false} SweepFlags(snap: Snapshot, now: int, acc: Sweep, order: seq<(GuildKey, int)>)
    requires forall i :: 0 <= i < |order| ==> order[i].0 in acc.buffers && order[i].1 in acc.buffers[order[i].0]
    requires forall i, j :: 0 <= i < j < |order| ==> order[i].1 != order[j].1
    requires IsSnapshotOf(snap, acc.checkpoints) && snap.active !! snap.idle
    ensures var r := SweepOver(snap, now, acc, order);
            r.ok ==> forall i :: 0 <= i < |order| ==>
              StrId(order[i].1) in r.checkpoints &&
              r.checkpoints[StrId(order[i].1)].active == FlagAfter(snap, now, acc.buffers[order[i].0][order[i].1], order[i].1)
  {
    if |order| > 0 {
      var p := order[..|order| - 1];
      var (g0, c0) := order[|order| - 1];
      SweepFlags(snap, now, acc, p);
      var q := SweepOver(snap, now, acc, p);
      var r := Visit(snap, now, q, g0, c0);
      assert r == SweepOver(snap, now, acc, order);
      if r.ok {
        assert forall i :: 0 <= i < |p| ==> p[i] == order[i];
        VisitResets(snap, now, q, g0, c0);
        SweepLeavesOthers(snap, now, acc, p, StrId(c0));
        LastNotInPrefix(order);
        SweepLeavesBuffer(snap, now, acc, p, g0, c0);
        VisitFrame(snap, now, q, g0, c0);
        VisitOwn(snap, now, q, g0, c0);
        FlagsExtend(snap, now, acc.buffers, q.checkpoints, r.checkpoints, order);
      }
    }
  }

  // ---------------------------------------------------------------------------
  // The whole sweep, stated over the dictionaries before it.
  // ---------------------------------------------------------------------------

  /**
   * The sweep completes exactly when every buffered channel has a checkpoint
   * under `str(channel_id)`; it then leaves every buffered channel's
   * `checked_at` at `now - START_DIFF`.
   */
  lemma CheckConversationsResets(b: Buffers, cps: Checkpoints, handed: seq<Emitted>, now: int, order: seq<(GuildKey, int)>)
    requires Enumerates(b, order)
    ensures var r := CheckConversations(b, cps, handed, now, order);
            && (r.ok <==> forall g, c :: g in b && c in b[g] ==> StrId(c) in cps)
            && (r.ok ==> forall g, c :: g in b && c in b[g] ==>
                  StrId(c) in r.checkpoints && r.checkpoints[StrId(c)].checkedAt == now - StartDiff)
  {
    var snap := SnapshotOf(cps);
    var acc := Sweep(b, cps, handed, true);
    SweepOkIffCheckpointed(snap, now, acc, order);
    SweepResetsCheckedAt(snap, now, acc, order);
    assert forall g, c :: g in b && c in b[g] ==> exists i :: 0 <= i < |order| && order[i] == (g, c);
  }

  /**
   * A completed sweep empties exactly the buffers of the channels that were
   * active and have gone idle, hands over their whole sorted buffers in
   * visiting order, and leaves every other buffer as it was.
   */
  lemma CheckConversationsFinalizes(b: Buffers, cps: Checkpoints, handed: seq<Emitted>, now: int, order: seq<(GuildKey, int)>)
    requires Enumerates(b, order)
    ensures var r := CheckConversations(b, cps, handed, now, order);
            && (r.ok ==> forall g, c :: g in b && c in b[g] ==>
                  r.buffers[g][c] == if StrId(c) in cps && cps[StrId(c)].active && TurnsIdle(b[g][c], now) then [] else b[g][c])
            && (r.ok ==> r.handed == handed + Finalized(SnapshotOf(cps), now, b, order))
  {
    var snap := SnapshotOf(cps);
    var acc := Sweep(b, cps, handed, true);
    SweepBuffers(snap, now, acc, order);
    SweepHanded(snap, now, acc, order);
  }

  /**
   * When no two guilds share a channel id, a completed sweep sets each
   * buffered channel's flag from the snapshot: an idle channel becomes active
   * exactly when `TurnsActive`, an active one stays active unless `TurnsIdle`.
   */
  lemma CheckConversationsFlags(b: Buffers, cps: Checkpoints, handed: seq<Emitted>, now: int, order: seq<(GuildKey, int)>)
    requires Enumerates(b, order)
    requires forall g, h, c :: g in b && h in b && c in b[g] && c in b[h] ==> g == h
    ensures var r := CheckConversations(b, cps, handed, now, order);
            r.ok ==> forall g, c :: g in b && c in b[g] ==>
              StrId(c) in r.checkpoints &&
              r.checkpoints[StrId(c)].active ==
                (if StrId(c) in cps && !cps[StrId(c)].active then TurnsActive(b[g][c], now) else !TurnsIdle(b[g][c], now))
  {
    var snap := SnapshotOf(cps);
    var acc := Sweep(b, cps, handed, true);
    forall i, j | 0 <= i < j < |order| ensures order[i].1 != order[j].1 {
      assert order[i] != order[j];
    }
    SweepFlags(snap, now, acc, order);
    assert forall g, c :: g in b && c in b[g] ==> exists i :: 0 <= i < |order| && order[i] == (g, c);
  }
}
