/** Deletion completes: a marked entity runs out of steps only in a final phase. */
module LifeDeletion {
  import opened Entity
  import opened DedupCache
  import opened EntitySystem
  import opened LifeChanges
  import opened LifeInvariants
  import opened LifeTheorems
  import opened LifeDrains
  import opened LifeWakeups

  /** Steps that move the entity along; the rest are callback effects and outside events. */
  predicate Progress(e: Event) {
    || e.Launch? || e.Turn? || e.Resume? || e.Wake?
    || e.InitReturns? || e.ExecReturns? || e.TickReturns? || e.FinalizeReturns?
  }

  function Rank(s: Sys): nat {
    match s.pc
    case Closed => 0
    case Finalizing => 1
    case DeletionDrain => 2
    case LoopHead => 3
    case Start => 4
    case Idle => 4
    case Executing(_) => 4
    case Ticking => 4
    case HandoffDrain => 5
    case AwaitAbort => if s.run.init == Running then 5 else 4
    case AwaitInit => if s.run.init == Running then 6 else 4
  }

  /** What is left to do before a marked entity is closed. */
  function Work(s: Sys): nat {
    Rank(s) + |s.waiting|
  }

  lemma {:induction false} TurnWorks(d: Kind, s: Sys)
    requires s.env.marked && s.pc == LoopHead
    ensures Work(TurnLoop(d, s)) < Work(s)
  {
  }

  lemma {:induction false} ResumeWorks(d: Kind, s: Sys)
    requires ShapeOk(d, s) && s.env.marked && ResumeEnabled(d, s)
    ensures Work(ResumeMain(d, s)) < Work(s)
  {
  }

  /** Once marked, every progress step leaves less work and nothing adds any. */
  lemma {:induction false} MarkedStepWorks(d: Kind, s: Sys, e: Event)
    requires ShapeOk(d, s) && s.env.marked && Enabled(d, s, e)
    ensures if Progress(e) then Work(Next(d, s, e)) < Work(s) else Work(Next(d, s, e)) == Work(s)
  {
    match e
    case Turn => TurnWorks(d, s);
    case Resume => ResumeWorks(d, s);
    case _ =>
  }

  /** A marked entity whose handlers can all still be answered. */
  ghost predicate Deletable(d: Kind, s: Sys) {
    && Inv(d, s) && WakeInv(s) && s.env.marked
    && (s.pc == HandoffDrain ==> s.env.pending == [])
  }

  /** With nothing queued every command has its outcome, and if none is lost every handler finds its own. */
  lemma {:induction false} EmptyQueueIsReady(s: Sys)
    requires Ledger(s) && HandlersOk(s) && NoLost(s) && Draining(s) && s.env.pending == []
    ensures AllReady(s)
  {
    assert |s.log.accepted| == |s.log.records|;
  }

  lemma {:induction false} DrainsAreReady(d: Kind, s: Sys)
    requires ShapeOk(d, s) && Ledger(s) && HandlersOk(s) && NoLost(s)
    requires Draining(s) && (s.pc == HandoffDrain ==> s.env.pending == [])
    ensures AllReady(s)
  {
    EmptyQueueIsReady(s);
  }

  /** Until it is closed some progress step is enabled. */
  lemma {:induction false} NeverBlocked(d: Kind, s: Sys) returns (e: Event)
    requires Deletable(d, s) && s.pc != Closed
    ensures Progress(e) && Enabled(d, s, e)
  {
    if Draining(s) && s.waiting != {} {
      DrainsAreReady(d, s);
      var w :| w in s.waiting;
      return Wake(w);
    }
    match s.pc
    case Start => e := Launch;
    case LoopHead => e := Turn;
    case Executing(_) => e := ExecReturns("", None);
    case Ticking => e := TickReturns;
    case Finalizing => e := FinalizeReturns(false);
    case AwaitAbort => e := if s.run.init == Running then InitReturns(s.env.state, None) else Resume;
    case _ => e := Resume;
  }

  lemma {:induction false} MarkedQueueHeld(s: Sys, t: Sys, ch: Change)
    requires Changes(s, t, ch) && s.env.marked
    ensures !ch.Enqueued?
    ensures t.pc == HandoffDrain && s.pc != LoopHead ==> s.pc == HandoffDrain && t.env.pending == s.env.pending
  {
  }

  lemma {:induction false} DeletableKept(d: Kind, s: Sys, e: Event)
    requires Deletable(d, s) && Enabled(d, s, e)
    ensures Deletable(d, Next(d, s, e))
  {
    InvKept(d, s, e);
    StepChanges(d, s, e);
    MarkedQueueHeld(s, Next(d, s, e), ChangeOf(d, s, e));
    WakeInvKept(d, s, e);
    if s.pc == LoopHead {
      assert Ending(BeginDeletion(d, s).pc);
    }
  }

  function ProgressSteps(evs: seq<Event>): nat {
    if evs == [] then 0 else (if Progress(evs[0]) then 1 else 0) + ProgressSteps(evs[1..])
  }

  /**
   Deletion completes: from a marked, deletable state every life, however it is scheduled, takes at most
   `Work(s)` progress steps, always has one to take until it is closed, and is then deleted or delete_failed.
   */
  lemma {:induction false} DeletionCompletes(d: Kind, s: Sys, evs: seq<Event>)
    requires Deletable(d, s) && Valid(d, s, evs)
    ensures var t := After(d, s, evs);
      && Deletable(d, t) && ProgressSteps(evs) + Work(t) <= Work(s)
      && (t.pc == Closed ==> t.env.phase in {Deleted, DeleteFailed})
      && (t.pc != Closed ==> exists e :: Progress(e) && Enabled(d, t, e))
    decreases |evs|
  {
    if evs == [] {
      if s.pc != Closed {
        var e := NeverBlocked(d, s);
      }
    } else {
      MarkedStepWorks(d, s, evs[0]);
      DeletableKept(d, s, evs[0]);
      DeletionCompletes(d, Next(d, s, evs[0]), evs[1..]);
    }
  }

  /** Some life from here ends closed. */
  ghost predicate CanClose(d: Kind, s: Sys) {
    exists evs :: Valid(d, s, evs) && After(d, s, evs).pc == Closed
  }

  lemma {:induction false} CanCloseEarlier(d: Kind, s: Sys, evs: seq<Event>)
    requires Valid(d, s, evs) && CanClose(d, After(d, s, evs))
    ensures CanClose(d, s)
  {
    var more :| Valid(d, After(d, s, evs), more) && After(d, After(d, s, evs), more).pc == Closed;
    AfterAppend(d, s, evs, more);
  }

  lemma {:induction false} DeletableCanClose(d: Kind, s: Sys)
    requires Deletable(d, s)
    ensures CanClose(d, s)
    decreases Work(s)
  {
    if s.pc == Closed {
      assert Valid(d, s, []) && After(d, s, []).pc == Closed;
    } else {
      var e := NeverBlocked(d, s);
      MarkedStepWorks(d, s, e);
      DeletableKept(d, s, e);
      DeletableCanClose(d, Next(d, s, e));
      OneStep(d, s, e);
      CanCloseEarlier(d, s, [e]);
    }
  }

  lemma {:induction false} OneStep(d: Kind, s: Sys, e: Event)
    requires Enabled(d, s, e)
    ensures Valid(d, s, [e]) && After(d, s, [e]) == Next(d, s, e)
  {
    var t := Next(d, s, e);
    assert [e][0] == e && [e][1..] == [];
    assert Valid(d, t, []) && After(d, t, []) == t;
  }

  /** A marked entity in a drain can still be closed exactly when every waiting handler finds its outcome. */
  lemma {:induction false} DrainClosesIffAllReady(d: Kind, s: Sys)
    requires Reachable(d, s) && Draining(s) && s.env.marked
    ensures CanClose(d, s) <==> AllReady(s)
  {
    ReachableInv(d, s);
    DrainReleasesIffAllReady(d, s);
    if AllReady(s) {
      ReleasedCanClose(d, s);
    } else {
      forall evs | Valid(d, s, evs) ensures After(d, s, evs).pc != Closed {
        assert After(d, s, evs).pc == s.pc;
      }
    }
  }

  /** An empty drain of a marked entity is deletable. */
  lemma {:induction false} EmptyDrainDeletable(d: Kind, s: Sys)
    requires Inv(d, s) && Draining(s) && s.waiting == {} && s.env.marked
    ensures Deletable(d, s)
  {
    if s.pc == HandoffDrain {
      NothingPendingWhenDrained(s);
    }
    assert Headroom(s, 0);
  }

  lemma {:induction false} ReleasedCanClose(d: Kind, s: Sys)
    requires Inv(d, s) && Draining(s) && AllReady(s) && s.env.marked
    ensures CanClose(d, s)
    decreases |s.waiting|
  {
    if s.waiting == {} {
      EmptyDrainDeletable(d, s);
      DeletableCanClose(d, s);
    } else {
      var w :| w in s.waiting;
      var t := Next(d, s, Wake(w));
      WakeInDrain(d, s, w);
      InvKept(d, s, Wake(w));
      OneStep(d, s, Wake(w));
      StepGrows(d, s, Wake(w));
      ReleasedCanClose(d, t);
      CanCloseEarlier(d, s, [Wake(w)]);
    }
  }

  /** Every patient, bounded life that is marked and not caught in the handoff window is deletable. */
  lemma {:induction false} PatientLifeDeletable(d: Kind, spec: Spec, zero: State, labels: Labels, evs: seq<Event>)
    requires var s := Fresh(spec, zero, labels);
      Valid(d, s, evs) && PatientLife(d, s, evs) && LifeWithin(d, s, evs, CompletedOpsCap)
    requires var t := After(d, Fresh(spec, zero, labels), evs);
      t.env.marked && (t.pc == HandoffDrain ==> t.env.pending == [])
    ensures Deletable(d, After(d, Fresh(spec, zero, labels), evs))
  {
    InvFresh(d, spec, zero, labels);
    WakeInvFresh(spec, zero, labels);
    WakeInvAlways(d, Fresh(spec, zero, labels), evs);
  }

  // ----- arrivals only once everything ready has run -----

  /** Callers and the server; the rest is the workflow's own code. */
  predicate Outside(e: Event) {
    e.Update? || e.DeleteSignal? || e.SuggestCan?
  }

  /** Outside events wait for ready handlers and for a main coroutine that could resume; nothing else is held back. */
  ghost predicate Strict(d: Kind, s: Sys, e: Event) {
    Outside(e) ==> NoneReady(s) && !ResumeEnabled(d, s)
  }

  ghost predicate StrictLife(d: Kind, s: Sys, evs: seq<Event>)
    requires Valid(d, s, evs)
    decreases |evs|
  {
    evs == [] || (Strict(d, s, evs[0]) && StrictLife(d, Next(d, s, evs[0]), evs[1..]))
  }

  ghost predicate WindowShut(s: Sys) {
    s.pc == HandoffDrain ==> AllReady(s)
  }

  lemma {:induction false} EnteredDrainReady(d: Kind, s: Sys)
    requires Inv(d, s) && WakeInv(s) && s.pc == HandoffDrain && s.env.pending == []
    ensures AllReady(s)
  {
    EmptyQueueIsReady(s);
  }

  /** A drain whose handlers are all ready is past its last one before anything outside gets a turn. */
  lemma {:induction false} OutsideHeldOff(d: Kind, s: Sys)
    requires Draining(s) && AllReady(s) && NoneReady(s)
    ensures s.waiting == {} && ResumeEnabled(d, s)
  {
    assert forall w :: w in s.waiting ==> CanWake(s, w);
  }

  lemma {:induction false} DrainStaysShut(d: Kind, s: Sys, e: Event)
    requires s.pc == HandoffDrain && AllReady(s) && s.run.init != Running && Enabled(d, s, e) && Strict(d, s, e)
    ensures WindowShut(Next(d, s, e))
  {
    if Outside(e) {
      OutsideHeldOff(d, s);
      assert false;
    } else if e.Wake? {
      WakeInDrain(d, s, e.slot);
    }
  }

  lemma {:induction false} WindowStaysShut(d: Kind, s: Sys, e: Event)
    requires Inv(d, s) && WakeInv(s) && WindowShut(s) && Enabled(d, s, e) && Strict(d, s, e)
    requires ChangeOf(d, s, e).Enqueued? ==> Within(Next(d, s, e), CompletedOpsCap)
    ensures WindowShut(Next(d, s, e))
  {
    var t := Next(d, s, e);
    if s.pc == HandoffDrain {
      DrainStaysShut(d, s, e);
    } else if t.pc == HandoffDrain {
      InvKept(d, s, e);
      WakeInvKept(d, s, e);
      StepChanges(d, s, e);
      EnteredDrainReady(d, t);
    }
  }

  lemma {:induction false} StrictAlways(d: Kind, s: Sys, evs: seq<Event>)
    requires Inv(d, s) && WakeInv(s) && WindowShut(s)
    requires Valid(d, s, evs) && StrictLife(d, s, evs) && LifeWithin(d, s, evs, CompletedOpsCap)
    ensures Inv(d, After(d, s, evs)) && WakeInv(After(d, s, evs)) && WindowShut(After(d, s, evs))
    decreases |evs|
  {
    if evs != [] {
      InvKept(d, s, evs[0]);
      WakeInvKept(d, s, evs[0]);
      WindowStaysShut(d, s, evs[0]);
      StrictAlways(d, Next(d, s, evs[0]), evs[1..]);
    }
  }

  /**
   If outside events arrive only once everything ready has run, the handoff window stays shut: in a
   bounded life every drain can be left, and every delete mark can be carried to the end.
   */
  lemma {:induction false} StrictLifeCompletes(d: Kind, spec: Spec, zero: State, labels: Labels, evs: seq<Event>)
    requires var s := Fresh(spec, zero, labels);
      Valid(d, s, evs) && StrictLife(d, s, evs) && LifeWithin(d, s, evs, CompletedOpsCap)
    ensures var t := After(d, Fresh(spec, zero, labels), evs);
      (Draining(t) ==> CanLeave(d, t)) && (t.env.marked ==> Deletable(d, t) && CanClose(d, t))
  {
    var s := Fresh(spec, zero, labels);
    var t := After(d, s, evs);
    InvFresh(d, spec, zero, labels);
    WakeInvFresh(spec, zero, labels);
    StrictAlways(d, s, evs);
    assert Reachable(d, t);
    if t.pc == HandoffDrain {
      ReadyDrainIsEmpty(d, t);
    }
    if Draining(t) {
      if t.pc == DeletionDrain {
        DrainsAreReady(d, t);
      }
      DrainReleasesIffAllReady(d, t);
    }
    if t.env.marked {
      DeletableCanClose(d, t);
    }
  }

  /** In the handoff drain a queued command would be an unready handler's. */
  lemma {:induction false} ReadyDrainIsEmpty(d: Kind, s: Sys)
    requires Inv(d, s) && s.pc == HandoffDrain && AllReady(s)
    ensures s.env.pending == []
  {
    assert |s.log.records| < |s.log.accepted| ==> CanWake(s, |s.log.records|);
  }
}
