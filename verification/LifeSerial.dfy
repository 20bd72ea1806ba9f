/** Side effects and phases over an entity's whole life. */
module LifeSerial {
  import opened Entity
  import opened EntitySystem
  import opened LifeChanges
  import opened LifeInvariants
  import opened LifeTheorems

  // ----- user callbacks never overlap -----

  /** The user callback that is running, if any. */
  function Active(s: Sys): Option<Callback> {
    if s.run.init == Running then Some(InitCallback)
    else match s.pc
      case Executing(c) => Some(ExecCallback(c))
      case Ticking => Some(TickCallback)
      case Finalizing => Some(FinalizeCallback)
      case _ => None
  }

  /** Even entries begin a callback, and each is ended by the entry after it. */
  predicate InTurn(acts: seq<Act>, i: nat)
    requires i < |acts|
  {
    if i % 2 == 0 then acts[i].Begin? else acts[i] == End(acts[i - 1].callback)
  }

  /** Each callback ends before the next begins. */
  ghost predicate Alternates(acts: seq<Act>) {
    forall i: nat :: i < |acts| ==> InTurn(acts, i)
  }

  /** Init can only come first and the finalizer only last. */
  ghost predicate BeginsInPlace(s: Sys) {
    forall i :: 0 <= i < |s.log.acts| && s.log.acts[i].Begin? ==>
      && (s.log.acts[i].callback == InitCallback ==> i == 0)
      && (s.log.acts[i].callback == FinalizeCallback ==>
            i == (if |s.log.acts| % 2 == 1 then |s.log.acts| - 1 else |s.log.acts| - 2)
            && (s.pc == Finalizing || s.pc == Closed))
  }

  ghost predicate ActsOk(s: Sys) {
    && Alternates(s.log.acts)
    && BeginsInPlace(s)
    && match Active(s)
       case None => |s.log.acts| % 2 == 0
       case Some(cb) => |s.log.acts| % 2 == 1 && s.log.acts[|s.log.acts| - 1] == Begin(cb)
  }

  predicate SameActs(s: Sys, t: Sys) {
    && t.log.acts == s.log.acts && Active(t) == Active(s)
    && (s.pc == Finalizing ==> t.pc == Finalizing)
    && (s.pc == Closed ==> t.pc == Closed)
  }

  predicate BeginsOne(s: Sys, t: Sys) {
    && Active(s) == None && Active(t).Some? && s.pc != Closed
    && t.log.acts == s.log.acts + [Begin(Active(t).value)]
    && (Active(t) == Some(InitCallback) ==> s.log.acts == [])
    && (Active(t) == Some(FinalizeCallback) <==> t.pc == Finalizing)
  }

  predicate EndsOne(s: Sys, t: Sys) {
    && Active(s).Some? && Active(t) == None
    && t.log.acts == s.log.acts + [End(Active(s).value)]
    && (Active(s) == Some(FinalizeCallback) ==> t.pc == Closed)
  }

  /** A step leaves the running callback alone, begins one when none runs, or ends the running one. */
  predicate ActsChange(s: Sys, t: Sys) {
    SameActs(s, t) || BeginsOne(s, t) || EndsOne(s, t)
  }

  lemma {:induction false} AlternatesPush(acts: seq<Act>, a: Act)
    requires Alternates(acts)
    requires if |acts| % 2 == 0 then a.Begin? else a == End(acts[|acts| - 1].callback)
    ensures Alternates(acts + [a])
  {
    var more := acts + [a];
    forall i: nat | i < |more| ensures InTurn(more, i) {
      assert i < |acts| ==> InTurn(acts, i);
    }
  }

  lemma {:induction false} ActsAfter(s: Sys, t: Sys)
    requires ActsOk(s) && ActsChange(s, t)
    ensures ActsOk(t)
  {
    if BeginsOne(s, t) {
      AlternatesPush(s.log.acts, Begin(Active(t).value));
    } else if EndsOne(s, t) {
      AlternatesPush(s.log.acts, End(Active(s).value));
    }
  }

  lemma {:induction false} ActsOfTurn(d: Kind, s: Sys)
    requires ShapeOk(d, s) && s.pc == LoopHead
    ensures ActsChange(s, TurnLoop(d, s))
  {
  }

  lemma {:induction false} ActsOfOther(d: Kind, s: Sys, e: Event)
    requires ShapeOk(d, s) && Enabled(d, s, e) && !e.Turn?
    ensures ActsChange(s, Next(d, s, e))
  {
  }

  // ----- phases -----

  ghost predicate PhasesOk(s: Sys) {
    && s.log.phases != [] && s.log.phases[0] == Unset
    && s.log.phases[|s.log.phases| - 1] == s.env.phase
    && forall i :: 0 < i < |s.log.phases| ==> PhaseArrow(s.log.phases[i - 1], s.log.phases[i])
  }

  lemma {:induction false} PhaseWritten(d: Kind, s: Sys, phase: Phase)
    requires PhasesOk(s) && PhaseArrow(s.env.phase, phase)
    ensures PhasesOk(WithPhase(d, s, phase))
  {
  }

  lemma {:induction false} PhasesOfDeletion(d: Kind, s: Sys)
    requires ShapeOk(d, s) && PhasesOk(s) && s.pc == LoopHead && s.env.marked
    ensures PhasesOk(BeginDeletion(d, s))
  {
    PhaseWritten(d, s, Deleting);
    var failed := FailPending(WithPhase(d, s, Deleting));
    PhaseWritten(d, failed, Deleted);
  }

  lemma {:induction false} PhasesOfTurn(d: Kind, s: Sys)
    requires ShapeOk(d, s) && PhasesOk(s) && s.pc == LoopHead
    ensures PhasesOk(TurnLoop(d, s))
  {
    if s.env.marked {
      PhasesOfDeletion(d, s);
    }
  }

  lemma {:induction false} PhasesOfLaunch(d: Kind, s: Sys)
    requires ShapeOk(d, s) && PhasesOk(s) && s.pc == Start
    ensures PhasesOk(LaunchRun(d, s))
  {
    if !s.env.initialized {
      PhaseWritten(d, s, Creating);
      var creating := WithPhase(d, s, Creating);
      PhaseWritten(d, creating.(env := creating.env.(initialized := true)), Ready);
    }
  }

  lemma {:induction false} PhasesOfResume(d: Kind, s: Sys)
    requires ShapeOk(d, s) && PhasesOk(s) && ResumeEnabled(d, s)
    ensures PhasesOk(ResumeMain(d, s))
  {
    if s.pc == DeletionDrain {
      PhaseWritten(d, s, Deleted);
    } else if s.pc in {AwaitInit, AwaitAbort} && s.run.init.Finished? {
      var kept := s.(env := s.env.(state := s.run.init.state));
      PhaseWritten(d, kept, CreateFailed);
      PhaseWritten(d, kept.(env := kept.env.(initialized := true)), Ready);
    }
  }

  lemma {:induction false} PhasesKept(d: Kind, s: Sys, e: Event)
    requires ShapeOk(d, s) && PhasesOk(s) && Enabled(d, s, e)
    ensures PhasesOk(Next(d, s, e))
  {
    match e
    case Turn => PhasesOfTurn(d, s);
    case Launch => PhasesOfLaunch(d, s);
    case Resume => PhasesOfResume(d, s);
    case FinalizeReturns(failed) => PhaseWritten(d, s, if failed then DeleteFailed else Deleted);
    case _ =>
  }

  // ----- over whole lives -----

  ghost predicate SerialInv(d: Kind, s: Sys) {
    Inv(d, s) && ActsOk(s) && PhasesOk(s)
  }

  lemma {:induction false} SerialKept(d: Kind, s: Sys, e: Event)
    requires SerialInv(d, s) && Enabled(d, s, e)
    ensures SerialInv(d, Next(d, s, e))
  {
    InvKept(d, s, e);
    PhasesKept(d, s, e);
    if e.Turn? {
      ActsOfTurn(d, s);
    } else {
      ActsOfOther(d, s, e);
    }
    ActsAfter(s, Next(d, s, e));
  }

  lemma {:induction false} SerialAlways(d: Kind, s: Sys, evs: seq<Event>)
    requires SerialInv(d, s) && Valid(d, s, evs)
    ensures SerialInv(d, After(d, s, evs))
    decreases |evs|
  {
    if evs != [] {
      SerialKept(d, s, evs[0]);
      SerialAlways(d, Next(d, s, evs[0]), evs[1..]);
    }
  }

  lemma {:induction false} ReachableSerial(d: Kind, s: Sys)
    requires Reachable(d, s)
    ensures SerialInv(d, s)
  {
    var spec: Spec, zero: State, labels: Labels, evs: seq<Event> :|
      Valid(d, Fresh(spec, zero, labels), evs) && After(d, Fresh(spec, zero, labels), evs) == s;
    InvFresh(d, spec, zero, labels);
    SerialAlways(d, Fresh(spec, zero, labels), evs);
  }

  lemma {:induction false} BeginsOrdered(s: Sys, i: nat, j: nat)
    requires ActsOk(s) && i < j < |s.log.acts| && s.log.acts[j].Begin?
    ensures s.log.acts[j].callback != InitCallback && s.log.acts[i] != Begin(FinalizeCallback)
  {
    assert InTurn(s.log.acts, j);
  }

  /**
   Side effects are serialized: in the whole callback log of a life every callback ends before the
   next begins, init can only come first, and the finalizer begins at most once, last.
   */
  lemma {:induction false} SideEffectsNeverOverlap(d: Kind, s: Sys)
    requires Reachable(d, s)
    ensures Alternates(s.log.acts)
    ensures forall i, j :: 0 <= i < j < |s.log.acts| && s.log.acts[j].Begin? ==>
      s.log.acts[j].callback != InitCallback && s.log.acts[i] != Begin(FinalizeCallback)
  {
    ReachableSerial(d, s);
    forall i, j | 0 <= i < j < |s.log.acts| && s.log.acts[j].Begin?
      ensures s.log.acts[j].callback != InitCallback && s.log.acts[i] != Begin(FinalizeCallback)
    {
      BeginsOrdered(s, i, j);
    }
  }

  /** Which states a callback may start from. */
  predicate StartsInPhase(s: Sys, t: Sys) {
    match Active(t)
    case Some(InitCallback) => !s.env.initialized
    case Some(FinalizeCallback) => s.env.marked && t.env.pending == [] && s.waiting == {} && t.env.phase == Deleting
    case Some(_) => Serving(s) && !s.env.marked
    case None => false
  }

  lemma {:induction false} TurnStartsInPhase(d: Kind, s: Sys)
    requires ShapeOk(d, s) && s.pc == LoopHead && BeginsOne(s, TurnLoop(d, s))
    ensures StartsInPhase(s, TurnLoop(d, s))
  {
  }

  /**
   A callback starts only when none runs; commands and ticks only on an initialized, ready entity that is
   not marked; the finalizer only once marked, with an empty queue and no handler waiting.
   */
  lemma {:induction false} CallbacksStartInPhase(d: Kind, s: Sys, e: Event)
    requires Reachable(d, s) && Enabled(d, s, e)
    ensures ActsChange(s, Next(d, s, e))
    ensures BeginsOne(s, Next(d, s, e)) ==> StartsInPhase(s, Next(d, s, e))
  {
    ReachableInv(d, s);
    if e.Turn? {
      ActsOfTurn(d, s);
      if BeginsOne(s, TurnLoop(d, s)) {
        TurnStartsInPhase(d, s);
      }
    } else {
      ActsOfOther(d, s, e);
      if BeginsOne(s, Next(d, s, e)) {
        OtherStartsInPhase(d, s, e);
      }
    }
  }

  lemma {:induction false} OtherStartsInPhase(d: Kind, s: Sys, e: Event)
    requires ShapeOk(d, s) && Enabled(d, s, e) && !e.Turn? && BeginsOne(s, Next(d, s, e))
    ensures StartsInPhase(s, Next(d, s, e))
  {
  }

  lemma {:induction false} ClosedInFinalPhase(d: Kind, s: Sys)
    requires ShapeOk(d, s)
    ensures s.pc == Closed <==> s.env.phase in {CreateFailed, Deleted, DeleteFailed}
  {
  }

  lemma {:induction false} NothingAfterClosed(d: Kind, s: Sys, e: Event)
    requires ShapeOk(d, s) && s.pc == Closed
    ensures !Enabled(d, s, e)
  {
  }

  /** Every phase ever written follows the arrows of the lifecycle, and an entity is closed exactly in a final phase. */
  lemma {:induction false} PhasesFollowLifecycle(d: Kind, s: Sys)
    requires Reachable(d, s)
    ensures forall i :: 0 < i < |s.log.phases| ==> PhaseArrow(s.log.phases[i - 1], s.log.phases[i])
    ensures s.log.phases != [] && s.log.phases[0] == Unset && s.log.phases[|s.log.phases| - 1] == s.env.phase
    ensures s.pc == Closed <==> s.env.phase in {CreateFailed, Deleted, DeleteFailed}
    ensures s.pc == Closed ==> forall e :: !Enabled(d, s, e)
  {
    ReachableSerial(d, s);
    ClosedInFinalPhase(d, s);
    if s.pc == Closed {
      forall e ensures !Enabled(d, s, e) {
        NothingAfterClosed(d, s, e);
      }
    }
  }
}
