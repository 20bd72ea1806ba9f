/**
 Every callback a kind registers runs when it should: init before anything else, each dispatched user command's handler
 once and in order, and the finalizer before a deleted entity closes.
 */
module LifeCallbacks {
  import opened Entity
  import opened DedupCache
  import opened EntitySystem
  import opened LifeChanges
  import opened LifeInvariants
  import opened LifeTheorems
  import opened LifeSerial

  // ----- init and the finalizer -----

  predicate NoBeginOf(acts: seq<Act>, callback: Callback) {
    Begin(callback) !in acts
  }

  ghost predicate InitRuns(d: Kind, s: Sys) {
    if !d.hasInit then NoBeginOf(s.log.acts, InitCallback) && s.pc != AwaitInit && s.pc != AwaitAbort
    else if s.env.phase == Unset then s.log.acts == []
    else s.log.acts != [] && s.log.acts[0] == Begin(InitCallback)
  }

  ghost predicate FinalizerRuns(d: Kind, s: Sys) {
    if !d.hasFinalize then
      NoBeginOf(s.log.acts, FinalizeCallback) && s.pc != Finalizing && s.env.phase != DeleteFailed
    else
      s.env.phase in {Deleted, DeleteFailed} ==>
        s.log.acts != [] && s.log.acts[|s.log.acts| - 1] == End(FinalizeCallback)
  }

  lemma {:induction false} InitAfterTurn(d: Kind, s: Sys)
    requires ShapeOk(d, s) && InitRuns(d, s) && s.pc == LoopHead
    ensures InitRuns(d, TurnLoop(d, s))
  {
  }

  lemma {:induction false} InitAfterOther(d: Kind, s: Sys, e: Event)
    requires ShapeOk(d, s) && InitRuns(d, s) && Enabled(d, s, e) && !e.Turn?
    ensures InitRuns(d, Next(d, s, e))
  {
  }

  lemma {:induction false} FinalizerAfterTurn(d: Kind, s: Sys)
    requires ShapeOk(d, s) && FinalizerRuns(d, s) && s.pc == LoopHead
    ensures FinalizerRuns(d, TurnLoop(d, s))
  {
  }

  lemma {:induction false} FinalizerAfterOther(d: Kind, s: Sys, e: Event)
    requires ShapeOk(d, s) && FinalizerRuns(d, s) && Enabled(d, s, e) && !e.Turn?
    ensures FinalizerRuns(d, Next(d, s, e))
  {
  }

  /** A final phase of deletion is entered by the finalizer's return, or without a finalizer. */
  lemma {:induction false} FinalPhaseEntered(d: Kind, s: Sys, e: Event)
    requires ShapeOk(d, s) && Enabled(d, s, e) && d.hasFinalize && Next(d, s, e).env.phase in {Deleted, DeleteFailed}
    ensures e == FinalizeReturns(Next(d, s, e).env.phase == DeleteFailed)
  {
    ClosedInFinalPhase(d, s);
    if s.pc == Closed {
      NothingAfterClosed(d, s, e);
      assert false;
    } else if e.Turn? {
      FinalizerFirst(d, s);
    }
  }

  /** A turn of a kind with a finalizer never closes the entity. */
  lemma {:induction false} FinalizerFirst(d: Kind, s: Sys)
    requires ShapeOk(d, s) && s.pc == LoopHead && d.hasFinalize
    ensures TurnLoop(d, s).env.phase !in {Deleted, DeleteFailed}
  {
  }

  // ----- command handlers -----

  /** The commands whose handlers began, in order. */
  function HandlersBegun(acts: seq<Act>): seq<Command> {
    if acts == [] then []
    else
      var last := acts[|acts| - 1];
      HandlersBegun(acts[..|acts| - 1])
      + if last.Begin? && last.callback.ExecCallback? then [last.callback.cmd] else []
  }

  function UserCommands(cmds: seq<Command>): seq<Command> {
    if cmds == [] then []
    else
      var last := cmds[|cmds| - 1];
      UserCommands(cmds[..|cmds| - 1]) + if last.name == SetLabelsCommandName then [] else [last]
  }

  /** The outcomes recorded for user commands among the first `n` dispatched. */
  function UserOutcomes(cmds: seq<Command>, records: seq<Record>, n: nat): seq<OpResult>
    requires n <= |cmds| && n <= |records|
  {
    if n == 0 then []
    else
      UserOutcomes(cmds, records, n - 1)
      + if cmds[n - 1].name == SetLabelsCommandName then [] else [records[n - 1].outcome]
  }

  /** How many dispatched commands have an outcome. */
  function Finished(h: History): nat {
    if |h.records| <= |h.dispatched| then |h.records| else |h.dispatched|
  }

  function OutcomesSoFar(h: History): seq<OpResult> {
    UserOutcomes(h.dispatched, h.records, Finished(h))
  }

  /** What command handlers returned, read off the events. */
  function Returned(evs: seq<Event>): seq<OpResult> {
    if evs == [] then []
    else ReturnedBy(evs[0]) + Returned(evs[1..])
  }

  function ReturnedBy(e: Event): seq<OpResult> {
    match e
    case ExecReturns(res, err) => [OpResult(res, if err.Some? then err.value else "")]
    case _ => []
  }

  lemma {:induction false} HandlersPush(acts: seq<Act>, a: Act)
    ensures HandlersBegun(acts + [a])
         == HandlersBegun(acts) + if a.Begin? && a.callback.ExecCallback? then [a.callback.cmd] else []
  {
    assert (acts + [a])[..|acts|] == acts;
  }

  lemma {:induction false} CommandsPush(cmds: seq<Command>, c: Command)
    ensures UserCommands(cmds + [c]) == UserCommands(cmds) + if c.name == SetLabelsCommandName then [] else [c]
  {
    assert (cmds + [c])[..|cmds|] == cmds;
  }

  lemma {:induction false} OutcomesExtend(cmds: seq<Command>, records: seq<Record>,
                                          cmds': seq<Command>, records': seq<Record>, n: nat)
    requires n <= |cmds| && n <= |records| && cmds <= cmds' && records <= records'
    ensures UserOutcomes(cmds', records', n) == UserOutcomes(cmds, records, n)
    decreases n
  {
    if n > 0 {
      OutcomesExtend(cmds, records, cmds', records', n - 1);
    }
  }

  ghost predicate HandlersOnce(s: Sys) {
    HandlersBegun(s.log.acts) == UserCommands(s.log.dispatched)
  }

  lemma {:induction false} HandlersAfterTurn(d: Kind, s: Sys)
    requires HandlersOnce(s) && s.pc == LoopHead
    requires !s.env.marked && s.env.pending != [] ==> Runnable(d, s.env.pending[0])
    ensures HandlersOnce(TurnLoop(d, s))
  {
    if s.env.marked {
      HandlersPush(s.log.acts, Begin(FinalizeCallback));
    } else if s.env.pending != [] {
      var c := s.env.pending[0];
      CommandsPush(s.log.dispatched, c);
      HandlersPush(s.log.acts, Begin(ExecCallback(c)));
    }
  }

  lemma {:induction false} HandlersAfterOther(d: Kind, s: Sys, e: Event)
    requires HandlersOnce(s) && Enabled(d, s, e) && !e.Turn?
    ensures HandlersOnce(Next(d, s, e))
  {
    var acts, t := s.log.acts, Next(d, s, e);
    OtherActs(d, s, e);
    if t.log.acts != acts {
      HandlersPush(acts, t.log.acts[|acts|]);
    }
  }

  lemma {:induction false} OtherActs(d: Kind, s: Sys, e: Event)
    requires Enabled(d, s, e) && !e.Turn?
    ensures var t := Next(d, s, e);
      && t.log.dispatched == s.log.dispatched
      && (t.log.acts != s.log.acts ==>
            && t.log.acts == s.log.acts + [t.log.acts[|t.log.acts| - 1]] && |t.log.acts| == |s.log.acts| + 1
            && !(t.log.acts[|s.log.acts|].Begin? && t.log.acts[|s.log.acts|].callback.ExecCallback?))
  {
  }

  lemma {:induction false} OneMoreFinished(s: Sys, t: Sys, r: Record)
    requires |s.log.records| < |t.log.dispatched| && s.log.dispatched <= t.log.dispatched
    requires |s.log.records| <= |s.log.dispatched| && t.log.records == s.log.records + [r]
    ensures OutcomesSoFar(t.log) == OutcomesSoFar(s.log)
         + if t.log.dispatched[|s.log.records|].name == SetLabelsCommandName then [] else [r.outcome]
  {
    OutcomesExtend(s.log.dispatched, s.log.records, t.log.dispatched, t.log.records, |s.log.records|);
  }

  lemma {:induction false} SameFinished(s: Sys, t: Sys)
    requires s.log.dispatched <= t.log.dispatched && s.log.records <= t.log.records
    requires Finished(t.log) == Finished(s.log)
    ensures OutcomesSoFar(t.log) == OutcomesSoFar(s.log)
  {
    OutcomesExtend(s.log.dispatched, s.log.records, t.log.dispatched, t.log.records, Finished(s.log));
  }

  lemma {:induction false} TurnReturnsNothing(d: Kind, s: Sys)
    requires Inv(d, s) && s.pc == LoopHead
    ensures OutcomesSoFar(TurnLoop(d, s).log) == OutcomesSoFar(s.log)
  {
    var t, ch := TurnLoop(d, s), TurnChange(d, s);
    StepChanges(d, s, Turn);
    if ch.PoppedAndDone? {
      QueueHeadRunnable(d, s);
      LabelsAddNothing(s, t, ch.r);
    } else {
      SameFinishedByTurn(s, t, ch);
    }
  }

  lemma {:induction false} LabelsAddNothing(s: Sys, t: Sys, r: Record)
    requires Ledger(s) && Changes(s, t, PoppedAndDone(r)) && s.env.pending[0].name == SetLabelsCommandName
    ensures OutcomesSoFar(t.log) == OutcomesSoFar(s.log)
  {
    assert s.log.rejected == [];
    OneMoreFinished(s, t, r);
  }

  lemma {:induction false} SameFinishedByTurn(s: Sys, t: Sys, ch: Change)
    requires Ledger(s) && s.pc == LoopHead && Changes(s, t, ch) && !ch.PoppedAndDone? && !ch.Done?
    ensures OutcomesSoFar(t.log) == OutcomesSoFar(s.log)
  {
    assert s.log.rejected == [];
    SameFinished(s, t);
  }

  lemma {:induction false} QueueHeadRunnable(d: Kind, s: Sys)
    requires Ledger(s) && NamesOk(d, s) && s.env.pending != []
    ensures Runnable(d, s.env.pending[0])
  {
    assert s.log.accepted[|s.log.dispatched| + |s.log.rejected|] == s.env.pending[0];
  }

  lemma {:induction false} StepReturns(d: Kind, s: Sys, e: Event)
    requires Inv(d, s) && PatchesOk(s) && Enabled(d, s, e)
    ensures OutcomesSoFar(Next(d, s, e).log) == OutcomesSoFar(s.log) + ReturnedBy(e)
  {
    var t := Next(d, s, e);
    StepChanges(d, s, e);
    if e.Turn? {
      TurnReturnsNothing(d, s);
    } else if e.ExecReturns? {
      ExecAdds(s, t, Record(s.pc.cmd.id, Outcome(e.res, e.err)));
    } else {
      SameFinished(s, t);
    }
  }

  lemma {:induction false} ExecAdds(s: Sys, t: Sys, r: Record)
    requires Ledger(s) && PatchesOk(s) && Changes(s, t, Done(r))
    ensures OutcomesSoFar(t.log) == OutcomesSoFar(s.log) + [r.outcome]
  {
    assert |s.log.records| + 1 == |s.log.dispatched|;
    OneMoreFinished(s, t, r);
  }

  // ----- over whole lives -----

  ghost predicate CallbackInv(d: Kind, s: Sys) {
    && Inv(d, s) && PatchesOk(s) && InitRuns(d, s) && FinalizerRuns(d, s) && HandlersOnce(s)
  }

  lemma {:induction false} HooksKept(d: Kind, s: Sys, e: Event)
    requires CallbackInv(d, s) && Enabled(d, s, e)
    ensures InitRuns(d, Next(d, s, e)) && FinalizerRuns(d, Next(d, s, e)) && HandlersOnce(Next(d, s, e))
  {
    if e.Turn? {
      if s.env.pending != [] {
        QueueHeadRunnable(d, s);
      }
      InitAfterTurn(d, s);
      FinalizerAfterTurn(d, s);
      HandlersAfterTurn(d, s);
    } else {
      InitAfterOther(d, s, e);
      FinalizerAfterOther(d, s, e);
      HandlersAfterOther(d, s, e);
    }
  }

  lemma {:induction false} CallbackInvKept(d: Kind, s: Sys, e: Event)
    requires CallbackInv(d, s) && Enabled(d, s, e)
    ensures CallbackInv(d, Next(d, s, e))
  {
    InvKept(d, s, e);
    PatchesKept(d, s, e);
    HooksKept(d, s, e);
  }

  lemma {:induction false} CallbacksAlways(d: Kind, s: Sys, evs: seq<Event>)
    requires CallbackInv(d, s) && Valid(d, s, evs)
    ensures CallbackInv(d, After(d, s, evs))
    decreases |evs|
  {
    if evs != [] {
      CallbackInvKept(d, s, evs[0]);
      CallbacksAlways(d, Next(d, s, evs[0]), evs[1..]);
    }
  }

  /** From `s` to `t` these outcomes were recorded for user commands. */
  predicate Adds(s: Sys, t: Sys, outcomes: seq<OpResult>) {
    OutcomesSoFar(t.log) == OutcomesSoFar(s.log) + outcomes
  }

  lemma {:induction false} AddsOn(s: Sys, t: Sys, u: Sys, first: seq<OpResult>, rest: seq<OpResult>)
    requires Adds(s, t, first) && Adds(t, u, rest)
    ensures Adds(s, u, first + rest)
  {
  }

  lemma {:induction false} StepAdds(d: Kind, s: Sys, e: Event)
    requires CallbackInv(d, s) && Enabled(d, s, e)
    ensures Adds(s, Next(d, s, e), ReturnedBy(e)) && CallbackInv(d, Next(d, s, e))
  {
    CallbackInvKept(d, s, e);
    StepReturns(d, s, e);
  }

  lemma {:induction false} OutcomesAlways(d: Kind, s: Sys, evs: seq<Event>)
    requires CallbackInv(d, s) && Valid(d, s, evs)
    ensures Adds(s, After(d, s, evs), Returned(evs))
    decreases |evs|
  {
    if evs != [] {
      var t := Next(d, s, evs[0]);
      StepAdds(d, s, evs[0]);
      OutcomesAlways(d, t, evs[1..]);
      AddsOn(s, t, After(d, t, evs[1..]), ReturnedBy(evs[0]), Returned(evs[1..]));
    }
  }

  lemma {:induction false} CallbackInvFresh(d: Kind, spec: Spec, zero: State, labels: Labels)
    ensures CallbackInv(d, Fresh(spec, zero, labels)) && OutcomesSoFar(Fresh(spec, zero, labels).log) == []
  {
    InvFresh(d, spec, zero, labels);
  }

  lemma {:induction false} ReachableHooks(d: Kind, s: Sys)
    requires Reachable(d, s)
    ensures InitRuns(d, s) && FinalizerRuns(d, s) && Alternates(s.log.acts)
  {
    var spec: Spec, zero: State, labels: Labels, evs: seq<Event> :|
      Valid(d, Fresh(spec, zero, labels), evs) && After(d, Fresh(spec, zero, labels), evs) == s;
    CallbackInvFresh(d, spec, zero, labels);
    CallbacksAlways(d, Fresh(spec, zero, labels), evs);
    SideEffectsNeverOverlap(d, s);
  }

  /**
   Init begins first in every life of a kind that has one, and never in any other. Before deletion ends in `Deleted` or
   `DeleteFailed` a registered finalizer has begun and returned, and nothing follows it; without one it never begins and
   deletion never fails.
   */
  lemma {:induction false} HooksRun(d: Kind, s: Sys)
    requires Reachable(d, s)
    ensures d.hasInit && s.env.phase != Unset ==> s.log.acts != [] && s.log.acts[0] == Begin(InitCallback)
    ensures !d.hasInit ==> Begin(InitCallback) !in s.log.acts
    ensures d.hasFinalize && s.env.phase in {Deleted, DeleteFailed} ==>
      var n := |s.log.acts|;
      n >= 2 && s.log.acts[n - 2] == Begin(FinalizeCallback) && s.log.acts[n - 1] == End(FinalizeCallback)
    ensures !d.hasFinalize ==> Begin(FinalizeCallback) !in s.log.acts && s.env.phase != DeleteFailed
  {
    ReachableHooks(d, s);
    if d.hasFinalize && s.env.phase in {Deleted, DeleteFailed} {
      LastEnded(s.log.acts);
    }
  }

  /** In an alternating log the entry before an end begins the same callback. */
  lemma {:induction false} LastEnded(acts: seq<Act>)
    requires Alternates(acts) && acts != [] && acts[|acts| - 1].End?
    ensures |acts| >= 2 && acts[|acts| - 2] == Begin(acts[|acts| - 1].callback)
  {
    var n := |acts| - 1;
    assert InTurn(acts, n);
    assert InTurn(acts, n - 1);
  }

  /**
   How deletion ends, exactly: a kind with a finalizer is `DeleteFailed` iff its life ends with the finalizer's failure,
   and `Deleted` iff it ends with its success.
   */
  lemma {:induction false} DeletionEndsAsFinalizerDid(d: Kind, spec: Spec, zero: State, labels: Labels, evs: seq<Event>)
    requires d.hasFinalize && Valid(d, Fresh(spec, zero, labels), evs)
    ensures var t := After(d, Fresh(spec, zero, labels), evs);
      && (t.env.phase == DeleteFailed <==> evs != [] && evs[|evs| - 1] == FinalizeReturns(true))
      && (t.env.phase == Deleted <==> evs != [] && evs[|evs| - 1] == FinalizeReturns(false))
  {
    if evs != [] {
      var s := Fresh(spec, zero, labels);
      var before, e := evs[..|evs| - 1], evs[|evs| - 1];
      LastStep(d, s, evs);
      InvFresh(d, spec, zero, labels);
      InvAlways(d, s, before);
      if Next(d, After(d, s, before), e).env.phase in {Deleted, DeleteFailed} {
        FinalPhaseEntered(d, After(d, s, before), e);
      }
    }
  }

  /**
   Every dispatched user command's handler runs exactly once, in order of dispatch, and what the handlers returned is
   exactly what is recorded for those commands, one outcome each, in that order.
   */
  lemma {:induction false} HandlersRunOnceInOrder(d: Kind, spec: Spec, zero: State, labels: Labels, evs: seq<Event>)
    requires Valid(d, Fresh(spec, zero, labels), evs)
    ensures var t := After(d, Fresh(spec, zero, labels), evs);
      && HandlersBegun(t.log.acts) == UserCommands(t.log.dispatched)
      && OutcomesSoFar(t.log) == Returned(evs)
  {
    CallbackInvFresh(d, spec, zero, labels);
    CallbacksAlways(d, Fresh(spec, zero, labels), evs);
    OutcomesAlways(d, Fresh(spec, zero, labels), evs);
  }
}
