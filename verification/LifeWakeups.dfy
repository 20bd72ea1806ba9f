/**
 No lost wake-up: when updates arrive only once every ready handler has returned, and at most
 `CompletedOpsCap` commands are ever queued or executing, no outcome is evicted before its handler
 reads it, however the coroutines interleave. The bound is tight.
 */
module LifeWakeups {
  import opened Entity
  import opened DedupCache
  import opened EntitySystem
  import opened LifeChanges
  import opened LifeInvariants
  import opened LifeTheorems
  import opened LifeDrains

  ghost predicate NoneReady(s: Sys) {
    forall w :: w in s.waiting ==> !CanWake(s, w)
  }

  /** An update arrives only once every ready handler has returned. */
  ghost predicate Patient(s: Sys, e: Event) {
    e.Update? ==> NoneReady(s)
  }

  /** At most `n` commands are queued or executing. */
  predicate Within(s: Sys, n: nat) {
    |s.env.pending| + InFlight(s) <= n
  }

  ghost predicate PatientLife(d: Kind, s: Sys, evs: seq<Event>)
    requires Valid(d, s, evs)
    decreases |evs|
  {
    evs == [] || (Patient(s, evs[0]) && PatientLife(d, Next(d, s, evs[0]), evs[1..]))
  }

  predicate LifeWithin(d: Kind, s: Sys, evs: seq<Event>, n: nat)
    requires Valid(d, s, evs)
    decreases |evs|
  {
    Within(s, n) && (evs == [] || LifeWithin(d, Next(d, s, evs[0]), evs[1..], n))
  }

  /** Each waiting handler's command is pending, executing or still cached. */
  ghost predicate NoLost(s: Sys) {
    forall w :: w in s.waiting && w < |s.log.records| && w < |s.log.accepted| ==>
      s.log.accepted[w].id in s.env.cache.completed
  }

  // ----- what one burst of records keeps -----

  function FromEnd(ids: seq<RequestId>, back: nat): RequestId
    requires 0 < back <= |ids|
  {
    ids[|ids| - back]
  }

  /** `id` is one of the last `n` elements. */
  predicate AmongNewest(ids: seq<RequestId>, n: nat, id: RequestId) {
    exists back: nat :: 0 < back <= n && back <= |ids| && FromEnd(ids, back) == id
  }

  /** If `id` is cached at all, it is among the `n` newest entries. */
  predicate CachedNewly(c: Cache, n: nat, id: RequestId) {
    id in c.completed ==> AmongNewest(c.order, n, id)
  }

  lemma {:induction false} NewestPush(ids: seq<RequestId>, n: nat, x: RequestId, id: RequestId)
    requires n < CompletedOpsCap && (id == x || AmongNewest(ids, n, id))
    ensures AmongNewest(Window(ids + [x]), n + 1, id)
  {
    var more := Window(ids + [x]);
    if id == x {
      assert FromEnd(more, 1) == x;
    } else {
      var back: nat :| 0 < back <= n && back <= |ids| && FromEnd(ids, back) == id;
      assert FromEnd(more, back + 1) == id;
    }
  }

  lemma {:induction false} NewestWidens(ids: seq<RequestId>, n: nat, id: RequestId)
    requires AmongNewest(ids, n, id)
    ensures AmongNewest(ids, n + 1, id) && id in ids
  {
    var back: nat :| 0 < back <= n && back <= |ids| && FromEnd(ids, back) == id;
    assert ids[|ids| - back] == id;
  }

  /** One more record inside a burst shorter than the cap loses nothing that was cached newly. */
  lemma {:induction false} RecordKeepsNew(c: Cache, r: Record, n: nat, id: RequestId)
    requires WellFormed(c) && CachedNewly(c, n, id) && n < CompletedOpsCap
    ensures CachedNewly(Recorded(c, r), n + 1, id)
    ensures id in c.completed || id == r.id ==> id in Recorded(c, r).completed
  {
    RecordedShape(c, r);
    if id in c.completed || id == r.id {
      if r.id in c.completed {
        NewestWidens(c.order, n, id);
      } else {
        NewestPush(c.order, n, r.id, id);
        NewestWidens(Window(c.order + [r.id]), n + 1, id);
      }
    }
  }

  lemma {:induction false} EverRecordedSplit(rs: seq<Record>, id: RequestId)
    requires rs != []
    ensures EverRecorded(rs, id) ==> EverRecorded(rs[..|rs| - 1], id) || rs[|rs| - 1].id == id
  {
    if EverRecorded(rs, id) && rs[|rs| - 1].id != id {
      var k :| 0 <= k < |rs| && rs[k].id == id;
      assert rs[..|rs| - 1][k].id == id;
    }
  }

  lemma {:induction false} BurstKeepsNew(c: Cache, rs: seq<Record>, n: nat, id: RequestId)
    requires WellFormed(c) && CachedNewly(c, n, id) && n + |rs| <= CompletedOpsCap
    ensures WellFormed(ReplayFrom(c, rs)) && CachedNewly(ReplayFrom(c, rs), n + |rs|, id)
    ensures id in c.completed || EverRecorded(rs, id) ==> id in ReplayFrom(c, rs).completed
    decreases |rs|
  {
    if rs != [] {
      var before, r := rs[..|rs| - 1], rs[|rs| - 1];
      BurstKeepsNew(c, before, n, id);
      BurstKeepsOneMore(c, before, r, n + |before|, id);
      EverRecordedSplit(rs, id);
    }
  }

  lemma {:induction false} BurstKeepsOneMore(c: Cache, before: seq<Record>, r: Record, n: nat, id: RequestId)
    requires WellFormed(ReplayFrom(c, before)) && CachedNewly(ReplayFrom(c, before), n, id) && n < CompletedOpsCap
    ensures var after := Recorded(ReplayFrom(c, before), r);
      WellFormed(after) && CachedNewly(after, n + 1, id)
      && (id in ReplayFrom(c, before).completed || id == r.id ==> id in after.completed)
  {
    RecordedShape(ReplayFrom(c, before), r);
    RecordKeepsNew(ReplayFrom(c, before), r, n, id);
  }

  // ----- the invariant of a patient, bounded life -----

  /**
   Everything a handler waits for and can read is among the `n` newest entries, and recording all that is
   queued or executing still leaves it cached.
   */
  ghost predicate Headroom(s: Sys, n: nat) {
    && n + |s.env.pending| + InFlight(s) <= CompletedOpsCap
    && forall w :: w in s.waiting && w < |s.log.accepted| ==> CachedNewly(s.env.cache, n, s.log.accepted[w].id)
  }

  ghost predicate WakeInv(s: Sys) {
    NoLost(s) && exists n: nat :: Headroom(s, n)
  }

  lemma {:induction false} RecordedHere(s: Sys, t: Sys, rs: seq<Record>, w: nat)
    requires Ledger(t) && t.log.records == s.log.records + rs && |s.log.records| <= w < |t.log.records|
    requires w < |t.log.accepted|
    ensures EverRecorded(rs, t.log.accepted[w].id)
  {
    assert t.log.records[w] == rs[w - |s.log.records|];
  }

  lemma {:induction false} RecordsUseHeadroom(s: Sys, t: Sys, ch: Change, n: nat)
    requires CacheOk(s) && Ledger(t) && Changes(s, t, ch) && NoLost(s) && Headroom(s, n)
    requires ch.PoppedAndDone? || ch.Done? || ch.RejectedAll?
    ensures NoLost(t) && Headroom(t, n + |NewRecords(s, ch)|)
  {
    var rs := NewRecords(s, ch);
    CacheRefinesHistory(s.log.records);
    forall w | w in t.waiting && w < |t.log.accepted|
      ensures CachedNewly(t.env.cache, n + |rs|, t.log.accepted[w].id)
      ensures w < |t.log.records| ==> t.log.accepted[w].id in t.env.cache.completed
    {
      BurstKeepsNew(s.env.cache, rs, n, t.log.accepted[w].id);
      if |s.log.records| <= w < |t.log.records| {
        RecordedHere(s, t, rs, w);
      }
    }
  }

  lemma {:induction false} ArrivalRestoresHeadroom(s: Sys, t: Sys, c: Command)
    requires Changes(s, t, Enqueued(c)) && NoneReady(s) && Within(t, CompletedOpsCap)
    ensures Headroom(t, 0)
  {
    forall w | w in t.waiting && w < |t.log.accepted|
      ensures t.log.accepted[w].id !in t.env.cache.completed
    {
      assert w < |s.log.accepted| ==> !CanWake(s, w);
    }
  }

  lemma {:induction false} HeadroomAtRest(s: Sys, t: Sys, ch: Change, n: nat)
    requires Changes(s, t, ch) && NoLost(s) && Headroom(s, n) && HandlersOk(s) && Ledger(s)
    requires !ch.PoppedAndDone? && !ch.Done? && !ch.RejectedAll?
    ensures NoLost(t)
    ensures !ch.Enqueued? ==> Headroom(t, n)
  {
  }

  /** Only an arrival can cost headroom: it must be patient and within the cap. */
  lemma {:induction false} WakeInvKept(d: Kind, s: Sys, e: Event)
    requires Inv(d, s) && WakeInv(s) && Enabled(d, s, e)
    requires ChangeOf(d, s, e).Enqueued? ==> Patient(s, e) && Within(Next(d, s, e), CompletedOpsCap)
    ensures WakeInv(Next(d, s, e))
  {
    var t, ch := Next(d, s, e), ChangeOf(d, s, e);
    var n: nat :| Headroom(s, n);
    StepChanges(d, s, e);
    if ch.PoppedAndDone? || ch.Done? || ch.RejectedAll? {
      LedgerAfter(d, s, e);
      RecordsUseHeadroom(s, t, ch, n);
    } else {
      HeadroomAtRest(s, t, ch, n);
      if ch.Enqueued? {
        ArrivalRestoresHeadroom(s, t, ch.c);
      }
    }
  }

  lemma {:induction false} LedgerAfter(d: Kind, s: Sys, e: Event)
    requires Inv(d, s) && Enabled(d, s, e)
    ensures Ledger(Next(d, s, e))
  {
    InvKept(d, s, e);
  }

  lemma {:induction false} WakeInvAlways(d: Kind, s: Sys, evs: seq<Event>)
    requires Inv(d, s) && WakeInv(s)
    requires Valid(d, s, evs) && PatientLife(d, s, evs) && LifeWithin(d, s, evs, CompletedOpsCap)
    ensures Inv(d, After(d, s, evs)) && WakeInv(After(d, s, evs))
    decreases |evs|
  {
    if evs != [] {
      InvKept(d, s, evs[0]);
      WakeInvKept(d, s, evs[0]);
      WakeInvAlways(d, Next(d, s, evs[0]), evs[1..]);
    }
  }

  lemma {:induction false} WakeInvFresh(spec: Spec, zero: State, labels: Labels)
    ensures WakeInv(Fresh(spec, zero, labels))
  {
    assert Headroom(Fresh(spec, zero, labels), 0);
  }

  /**
   No lost wake-up: with at most `CompletedOpsCap` commands queued or executing, a waiting handler's command
   is unfinished or its outcome can still be read. Ready handlers may be overtaken by any number of commands,
   ticks, signals and handoffs; only updates are held back while some handler is ready.
   */
  lemma {:induction false} NoWakeupLost(d: Kind, spec: Spec, zero: State, labels: Labels, evs: seq<Event>)
    requires var s := Fresh(spec, zero, labels);
      Valid(d, s, evs) && PatientLife(d, s, evs) && LifeWithin(d, s, evs, CompletedOpsCap)
    ensures NoLost(After(d, Fresh(spec, zero, labels), evs))
  {
    InvFresh(d, spec, zero, labels);
    WakeInvFresh(spec, zero, labels);
    WakeInvAlways(d, Fresh(spec, zero, labels), evs);
  }

  // ----- the bound is tight -----

  function Ids(rs: seq<Record>): (ids: seq<RequestId>)
    ensures |ids| == |rs| && forall k :: 0 <= k < |rs| ==> ids[k] == rs[k].id
  {
    seq(|rs|, k requires 0 <= k < |rs| => rs[k].id)
  }

  ghost predicate FreshIds(c: Cache, rs: seq<Record>) {
    NoDuplicates(c.order + Ids(rs))
  }

  lemma {:induction false} NoDuplicatesPush(ids: seq<RequestId>, x: RequestId)
    requires NoDuplicates(ids + [x])
    ensures NoDuplicates(ids) && x !in ids
  {
    var all := ids + [x];
    assert all[|ids|] == x;
    assert forall k :: 0 <= k < |ids| ==> ids[k] == all[k];
  }

  /** A burst of fresh, distinct ids fills the cache in order. */
  lemma {:induction false} FreshBurst(c: Cache, rs: seq<Record>)
    requires WellFormed(c) && FreshIds(c, rs)
    ensures WellFormed(ReplayFrom(c, rs)) && ReplayFrom(c, rs).order == Window(c.order + Ids(rs))
    decreases |rs|
  {
    if rs == [] {
      assert c.order + Ids(rs) == c.order;
    } else {
      var before, r := rs[..|rs| - 1], rs[|rs| - 1];
      var ids := c.order + Ids(before);
      assert c.order + Ids(rs) == ids + [r.id];
      NoDuplicatesPush(ids, r.id);
      FreshBurst(c, before);
      FreshRecord(ReplayFrom(c, before), ids, r);
    }
  }

  lemma {:induction false} FreshRecord(c: Cache, ids: seq<RequestId>, r: Record)
    requires WellFormed(c) && c.order == Window(ids) && r.id !in ids
    ensures WellFormed(Recorded(c, r)) && Recorded(c, r).order == Window(ids + [r.id])
  {
    RecordedShape(c, r);
    assert r.id !in c.order;
    WindowOfWindow(ids, r.id);
  }

  /** The oldest of a burst of fresh ids survives it exactly when the burst is no longer than the cap. */
  lemma {:induction false} FirstSurvivesIffWithinCap(c: Cache, rs: seq<Record>)
    requires WellFormed(c) && FreshIds(c, rs) && rs != []
    ensures rs[0].id in ReplayFrom(c, rs).completed <==> |rs| <= CompletedOpsCap
  {
    FreshBurst(c, rs);
    var all := c.order + Ids(rs);
    assert all[|c.order|] == rs[0].id;
    MemberOfWindow(all, rs[0].id);
    assert LastIndex(all, rs[0].id) == |c.order|;
  }
}
