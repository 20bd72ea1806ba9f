/**
 Evicted before it is read: the exact bound. With pairwise distinct request ids an outcome can be read
 exactly until `CompletedOpsCap` further outcomes have been recorded. Twice the main coroutine records
 many outcomes without yielding: when deletion rejects the queue, and when set-labels commands have piled up.
 */
module LifeEviction {
  import opened Entity
  import opened DedupCache
  import opened EntitySystem
  import opened LifeChanges
  import opened LifeInvariants
  import opened LifeTheorems
  import opened LifeDrains
  import opened LifeWakeups
  import opened LifeDeletion

  ghost predicate DistinctIds(cmds: seq<Command>) {
    forall i, j :: 0 <= i < j < |cmds| ==> cmds[i].id != cmds[j].id
  }

  lemma {:induction false} RecordedIdsDistinct(s: Sys)
    requires Ledger(s) && DistinctIds(s.log.accepted)
    ensures |s.log.records| <= |s.log.accepted| && FreshIds(EmptyCache, s.log.records)
  {
    var ids := Ids(s.log.records);
    assert EmptyCache.order + ids == ids;
    forall i, j | 0 <= i < j < |ids| ensures ids[i] != ids[j] {
      assert ids[i] == s.log.accepted[i].id && ids[j] == s.log.accepted[j].id;
    }
  }

  lemma {:induction false} CachedIffInWindow(h: seq<Record>, id: RequestId)
    requires FreshIds(EmptyCache, h)
    ensures NoDuplicates(Ids(h)) && (id in Replay(h).completed <==> id in Window(Ids(h)))
  {
    FreshBurst(EmptyCache, h);
    assert EmptyCache.order + Ids(h) == Ids(h);
    var c := ReplayFrom(EmptyCache, h);
    assert id in c.completed <==> id in c.order;
  }

  lemma {:induction false} InWindowIff(ids: seq<RequestId>, w: nat, id: RequestId)
    requires NoDuplicates(ids) && (if w < |ids| then ids[w] == id else id !in ids)
    ensures id in Window(ids) <==> w < |ids| <= w + CompletedOpsCap
  {
    MemberOfWindow(ids, id);
  }

  /** After a history of distinct ids, the `w`-th is cached iff at most `CompletedOpsCap` records start with it. */
  lemma {:induction false} CachedIffAmongNewest(h: seq<Record>, w: nat, id: RequestId)
    requires FreshIds(EmptyCache, h) && (if w < |h| then h[w].id == id else id !in Ids(h))
    ensures id in Replay(h).completed <==> w < |h| <= w + CompletedOpsCap
  {
    CachedIffInWindow(h, id);
    InWindowIff(Ids(h), w, id);
  }

  lemma {:induction false} RecordedIdOfSlot(s: Sys, w: nat)
    requires Ledger(s) && DistinctIds(s.log.accepted) && w < |s.log.accepted|
    ensures var h, id := s.log.records, s.log.accepted[w].id; if w < |h| then h[w].id == id else id !in Ids(h)
  {
    var ids := Ids(s.log.records);
    forall k | 0 <= k < |ids| && k != w ensures ids[k] != s.log.accepted[w].id {
      assert ids[k] == s.log.accepted[k].id;
    }
  }

  /** With distinct ids an outcome is cached from its recording until `CompletedOpsCap` more are recorded. */
  lemma {:induction false} CachedIffAmongLast(d: Kind, s: Sys, w: nat)
    requires Reachable(d, s) && DistinctIds(s.log.accepted) && w < |s.log.accepted|
    ensures s.log.accepted[w].id in s.env.cache.completed <==> w < |s.log.records| <= w + CompletedOpsCap
  {
    ReachableInv(d, s);
    RecordedIdsDistinct(s);
    RecordedIdOfSlot(s, w);
    CachedIffAmongNewest(s.log.records, w, s.log.accepted[w].id);
  }

  /** With distinct ids a command without an outcome has its handler waiting. */
  lemma {:induction false} UnrecordedWaits(d: Kind, s: Sys, w: nat)
    requires Reachable(d, s) && DistinctIds(s.log.accepted) && |s.log.records| <= w < |s.log.accepted|
    ensures w in s.waiting
  {
    ReachableInv(d, s);
    if w in s.log.replies {
      UniqueReplyIsOwn(d, s, w);
    }
  }

  /** Every waiting handler is among the last `CompletedOpsCap` of `n` accepted. */
  ghost predicate WaitersWithin(s: Sys, n: nat) {
    forall w :: w in s.waiting ==> n <= w + CompletedOpsCap
  }

  /** With distinct ids nobody is lost exactly when fewer than `CompletedOpsCap` outcomes followed each waiter's own. */
  lemma {:induction false} NobodyLostIff(d: Kind, s: Sys)
    requires Reachable(d, s) && DistinctIds(s.log.accepted)
    ensures NoLost(s) <==> WaitersWithin(s, |s.log.records|)
  {
    ReachableInv(d, s);
    forall w | w in s.waiting ensures w < |s.log.accepted| &&
      (s.log.accepted[w].id in s.env.cache.completed <==> w < |s.log.records| <= w + CompletedOpsCap)
    {
      CachedIffAmongLast(d, s, w);
    }
    assert |s.log.records| <= |s.log.accepted|;
  }

  /** If at the loop head nobody is ready and nobody lost, exactly the callers of queued commands wait. */
  lemma {:induction false} OnlyQueuedWait(d: Kind, s: Sys)
    requires Reachable(d, s) && DistinctIds(s.log.accepted) && s.pc == LoopHead && NoneReady(s) && NoLost(s)
    ensures WaitersWithin(s, |s.log.accepted|) <==> |s.env.pending| <= CompletedOpsCap
  {
    ReachableInv(d, s);
    var oldest := |s.log.records|;
    assert oldest + |s.env.pending| == |s.log.accepted|;
    forall w | w in s.waiting ensures w >= oldest {
      assert !CanWake(s, w);
    }
    if oldest < |s.log.accepted| {
      UnrecordedWaits(d, s, oldest);
    }
  }

  // ----- deletion rejects the queue -----

  lemma {:induction false} OnlyTurnAtLoopHead(d: Kind, s: Sys, e: Event)
    requires ShapeOk(d, s) && s.pc == LoopHead && Enabled(d, s, e)
    ensures e == Turn
  {
  }

  lemma {:induction false} CanCloseAfterTurn(d: Kind, s: Sys)
    requires ShapeOk(d, s) && s.pc == LoopHead
    ensures CanClose(d, s) <==> CanClose(d, TurnLoop(d, s))
  {
    if CanClose(d, s) {
      var evs :| Valid(d, s, evs) && After(d, s, evs).pc == Closed;
      assert evs != [];
      OnlyTurnAtLoopHead(d, s, evs[0]);
      assert Valid(d, TurnLoop(d, s), evs[1..]) && After(d, TurnLoop(d, s), evs[1..]).pc == Closed;
    }
    if CanClose(d, TurnLoop(d, s)) {
      OneStep(d, s, Turn);
      CanCloseEarlier(d, s, [Turn]);
    }
  }

  lemma {:induction false} RejectedStateCloses(d: Kind, t: Sys)
    requires Reachable(d, t) && DistinctIds(t.log.accepted) && t.env.marked && Ending(t.pc)
    requires t.pc == DeletionDrain <==> t.waiting != {}
    ensures CanClose(d, t) <==> WaitersWithin(t, |t.log.accepted|)
  {
    ReachableInv(d, t);
    if t.pc != DeletionDrain {
      assert Headroom(t, 0);
      DeletableCanClose(d, t);
    } else {
      DrainClosesIffAllReady(d, t);
      forall w | w in t.waiting ensures CanWake(t, w) <==> |t.log.accepted| <= w + CompletedOpsCap {
        CachedIffAmongLast(d, t, w);
      }
    }
  }

  /**
   Deletion and eviction: with distinct ids, a marked entity about to reject its queue can still be closed
   iff every waiting caller is among the last `CompletedOpsCap` accepted; if nobody is ready or lost yet,
   iff at most that many commands are queued.
   */
  lemma {:induction false} DeletionClosesIffQueueFits(d: Kind, s: Sys)
    requires Reachable(d, s) && DistinctIds(s.log.accepted) && s.pc == LoopHead && s.env.marked
    ensures CanClose(d, s) <==> WaitersWithin(s, |s.log.accepted|)
    ensures NoneReady(s) && NoLost(s) ==> (CanClose(d, s) <==> |s.env.pending| <= CompletedOpsCap)
  {
    ReachableInv(d, s);
    ReachableNext(d, s, Turn);
    CanCloseAfterTurn(d, s);
    StepChanges(d, s, Turn);
    RejectedStateCloses(d, BeginDeletion(d, s));
    if NoneReady(s) && NoLost(s) {
      OnlyQueuedWait(d, s);
    }
  }

  // ----- set-labels commands have piled up -----

  predicate AllSetLabels(cmds: seq<Command>) {
    forall k :: 0 <= k < |cmds| ==> cmds[k].name == SetLabelsCommandName
  }

  /** Queued set-labels commands are all recorded before anything else runs. */
  lemma {:induction false} LabelsInOneBurst(d: Kind, s: Sys)
    requires Ledger(s) && s.pc == LoopHead && !s.env.marked && AllSetLabels(s.env.pending)
    ensures var t := UntilYield(d, s);
      && t.log.accepted == s.log.accepted && t.waiting == s.waiting && t.env.pending == []
      && |t.log.records| == |s.log.accepted| && !t.env.marked && t.pc in {Idle, HandoffDrain, Start}
    decreases |s.env.pending|
  {
    if s.env.pending == [] {
      assert |s.log.records| == |s.log.accepted|;
      assert UntilYield(d, s) == TurnLoop(d, s);
    } else {
      DispatchChanges(d, s);
      LedgerPopped(s, Dispatch(d, s), TurnChange(d, s));
      LabelsInOneBurst(d, Dispatch(d, s));
    }
  }

  lemma {:induction false} UntilYieldReachable(d: Kind, s: Sys)
    requires Reachable(d, s)
    ensures Reachable(d, UntilYield(d, s))
  {
    var turns := UntilYieldIsTurns(d, s);
    ReachableAfter(d, s, turns);
  }

  /**
   Normal service and eviction: with distinct ids, a burst of queued set-labels commands loses no caller iff
   every waiting one is among the last `CompletedOpsCap` accepted; if nobody is ready or lost yet, iff at
   most that many commands are queued.
   */
  lemma {:induction false} LabelBurstLosesNobodyIffQueueFits(d: Kind, s: Sys)
    requires Reachable(d, s) && DistinctIds(s.log.accepted) && s.pc == LoopHead && !s.env.marked
    requires AllSetLabels(s.env.pending)
    ensures NoLost(UntilYield(d, s)) <==> WaitersWithin(s, |s.log.accepted|)
    ensures NoneReady(s) && NoLost(s) ==> (NoLost(UntilYield(d, s)) <==> |s.env.pending| <= CompletedOpsCap)
  {
    ReachableInv(d, s);
    LabelsInOneBurst(d, s);
    UntilYieldReachable(d, s);
    NobodyLostIff(d, UntilYield(d, s));
    if NoneReady(s) && NoLost(s) {
      OnlyQueuedWait(d, s);
    }
  }

  // ----- how long a lost caller waits -----

  /** The outcome of `w` was recorded and evicted unread, and no other command with its id is underway. */
  ghost predicate Forgotten(s: Sys, w: nat, id: RequestId) {
    && w in s.waiting && w < |s.log.records| && w < |s.log.accepted| && s.log.accepted[w].id == id
    && id !in s.env.cache.completed
    && forall k :: |s.log.records| <= k < |s.log.accepted| ==> s.log.accepted[k].id != id
  }

  predicate NeverSubmitted(evs: seq<Event>, id: RequestId) {
    forall k :: 0 <= k < |evs| ==> evs[k].Update? ==> evs[k].id != id
  }

  lemma {:induction false} ReplayAddsOnlyRecorded(c: Cache, rs: seq<Record>, id: RequestId)
    requires WellFormed(c) && id !in c.completed && forall k :: 0 <= k < |rs| ==> rs[k].id != id
    ensures WellFormed(ReplayFrom(c, rs)) && id !in ReplayFrom(c, rs).completed
    decreases |rs|
  {
    if rs != [] {
      var before, r := rs[..|rs| - 1], rs[|rs| - 1];
      ReplayAddsOnlyRecorded(c, before, id);
      RecordedShape(ReplayFrom(c, before), r);
    }
  }

  lemma {:induction false} StillUncached(s: Sys, t: Sys, ch: Change, id: RequestId)
    requires Ledger(t) && CacheOk(s) && Changes(s, t, ch) && id !in s.env.cache.completed
    requires forall k :: |s.log.records| <= k < |t.log.records| && k < |t.log.accepted| ==> t.log.accepted[k].id != id
    ensures id !in t.env.cache.completed
  {
    var rs := NewRecords(s, ch);
    RecordsGrow(s, t, ch);
    CacheRefinesHistory(s.log.records);
    forall k | 0 <= k < |rs| ensures rs[k].id != id {
      assert t.log.records[|s.log.records| + k] == rs[k];
    }
    ReplayAddsOnlyRecorded(s.env.cache, rs, id);
  }

  lemma {:induction false} ForgottenKept(d: Kind, s: Sys, e: Event, w: nat, id: RequestId)
    requires Inv(d, s) && Forgotten(s, w, id) && Enabled(d, s, e) && (e.Update? ==> e.id != id)
    ensures Forgotten(Next(d, s, e), w, id)
  {
    var t, ch := Next(d, s, e), ChangeOf(d, s, e);
    StepChanges(d, s, e);
    LedgerAfter(d, s, e);
    AcceptedOthers(s, t, ch, id);
    StillUncached(s, t, ch, id);
  }

  lemma {:induction false} AcceptedOthers(s: Sys, t: Sys, ch: Change, id: RequestId)
    requires Changes(s, t, ch) && (ch.Enqueued? ==> ch.c.id != id)
    requires forall k :: |s.log.records| <= k < |s.log.accepted| ==> s.log.accepted[k].id != id
    ensures s.log.accepted <= t.log.accepted
    ensures forall k :: |s.log.records| <= k < |t.log.accepted| ==> t.log.accepted[k].id != id
  {
  }

  lemma {:induction false} StaysForgotten(d: Kind, s: Sys, w: nat, id: RequestId, evs: seq<Event>)
    requires Inv(d, s) && Forgotten(s, w, id) && Valid(d, s, evs) && NeverSubmitted(evs, id)
    ensures Inv(d, After(d, s, evs)) && Forgotten(After(d, s, evs), w, id)
    decreases |evs|
  {
    if evs != [] {
      InvKept(d, s, evs[0]);
      ForgottenKept(d, s, evs[0], w, id);
      StaysForgotten(d, Next(d, s, evs[0]), w, id, evs[1..]);
    }
  }

  lemma {:induction false} ForgottenHolds(d: Kind, s: Sys, w: nat, id: RequestId)
    requires ShapeOk(d, s) && Forgotten(s, w, id)
    ensures s.pc !in {Start, Finalizing, Closed}
  {
  }

  /**
   A caller whose outcome was evicted unread waits until its id is submitted again, whatever else happens; and as
   long as it waits the entity neither continues as new nor is finalized nor closes.
   */
  lemma {:induction false} LostUntilResubmitted(d: Kind, s: Sys, w: nat, id: RequestId, evs: seq<Event>)
    requires Reachable(d, s) && Forgotten(s, w, id) && Valid(d, s, evs) && NeverSubmitted(evs, id)
    ensures Forgotten(After(d, s, evs), w, id)
    ensures After(d, s, evs).pc !in {Start, Finalizing, Closed}
  {
    ReachableInv(d, s);
    StaysForgotten(d, s, w, id, evs);
    ForgottenHolds(d, After(d, s, evs), w, id);
  }
}
