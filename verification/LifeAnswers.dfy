/**
 Every caller is answered: once nothing more arrives from outside and no tick falls due, an entity that is
 not being deleted has boundedly many steps left, and runs out of them only with every handler returned.
 */
module LifeAnswers {
  import opened Entity
  import opened DedupCache
  import opened EntitySystem
  import opened LifeChanges
  import opened LifeInvariants
  import opened LifeTheorems
  import opened LifeDrains
  import opened LifeWakeups
  import opened LifeDeletion

  /** An entity in service whose handlers can all still be answered. */
  ghost predicate Calm(d: Kind, s: Sys) {
    Inv(d, s) && WakeInv(s) && WindowShut(s) && !s.env.marked
  }

  predicate Quiet(e: Event) {
    !Outside(e) && !e.TickDue?
  }

  predicate QuietLife(evs: seq<Event>) {
    forall k :: 0 <= k < |evs| ==> Quiet(evs[k])
  }

  // ----- what is left to do -----

  /** A handoff may still come: once, since the next run has processed nothing and was given no suggestion. */
  function HandoffAhead(d: Kind, s: Sys): nat {
    if s.pc == HandoffDrain || s.env.pending != [] || s.pc.Executing? || CanWanted(d, s.run) then 1 else 0
  }

  function Place(d: Kind, s: Sys): nat {
    match s.pc
    case Start => 6
    case AwaitInit => if s.run.init == Running then 5 else 4
    case Executing(_) => 3
    case Ticking => 3
    case Idle => if HasWork(s.env) || CanWanted(d, s.run) then 3 else 0
    case LoopHead => 2
    case HandoffDrain => 1
    case _ => 0
  }

  function Effort(d: Kind, s: Sys): nat {
    4 * |s.env.pending| + |s.waiting| + 6 * HandoffAhead(d, s) + Place(d, s)
  }

  lemma {:induction false} TurnTakesEffort(d: Kind, s: Sys)
    requires s.pc == LoopHead && !s.env.marked
    ensures Effort(d, TurnLoop(d, s)) < Effort(d, s)
  {
    if s.env.pending != [] {
      DispatchChanges(d, s);
    }
  }

  lemma {:induction false} ResumeTakesEffort(d: Kind, s: Sys)
    requires ShapeOk(d, s) && Ledger(s) && DrainOk(s) && !s.env.marked && ResumeEnabled(d, s)
    ensures Effort(d, ResumeMain(d, s)) < Effort(d, s)
  {
    if s.pc == HandoffDrain {
      NothingPendingWhenDrained(s);
    }
  }

  lemma {:induction false} StepTakesEffort(d: Kind, s: Sys, e: Event)
    requires Inv(d, s) && !s.env.marked && Enabled(d, s, e) && Quiet(e)
    ensures if Progress(e) then Effort(d, Next(d, s, e)) < Effort(d, s) else Effort(d, Next(d, s, e)) == Effort(d, s)
  {
    match e
    case Turn => TurnTakesEffort(d, s);
    case Resume => ResumeTakesEffort(d, s);
    case _ => OtherTakesEffort(d, s, e);
  }

  lemma {:induction false} OtherTakesEffort(d: Kind, s: Sys, e: Event)
    requires ShapeOk(d, s) && !s.env.marked && Enabled(d, s, e) && Quiet(e) && !e.Turn? && !e.Resume?
    ensures if Progress(e) then Effort(d, Next(d, s, e)) < Effort(d, s) else Effort(d, Next(d, s, e)) == Effort(d, s)
  {
  }

  // ----- calm is kept, and calm entities are never blocked -----

  lemma {:induction false} MarkedOnlyBySignal(d: Kind, s: Sys, e: Event)
    requires Enabled(d, s, e) && !e.DeleteSignal?
    ensures Next(d, s, e).env.marked == s.env.marked
  {
  }

  lemma {:induction false} NothingArrives(d: Kind, s: Sys, e: Event)
    requires Enabled(d, s, e) && Quiet(e)
    ensures !ChangeOf(d, s, e).Enqueued? && Strict(d, s, e)
  {
  }

  lemma {:induction false} CalmKept(d: Kind, s: Sys, e: Event)
    requires Calm(d, s) && Enabled(d, s, e) && Quiet(e)
    ensures Calm(d, Next(d, s, e))
  {
    NothingArrives(d, s, e);
    InvKept(d, s, e);
    WakeInvKept(d, s, e);
    WindowStaysShut(d, s, e);
    MarkedOnlyBySignal(d, s, e);
  }

  /** With nothing queued or executing every waiting handler finds its outcome. */
  lemma {:induction false} IdleIsReady(s: Sys)
    requires Ledger(s) && HandlersOk(s) && NoLost(s) && s.env.pending == [] && !s.pc.Executing?
    ensures AllReady(s)
  {
    assert |s.log.accepted| == |s.log.records|;
  }

  /** While a command is queued or a handler waits, some progress step is enabled, unless creation failed. */
  lemma {:induction false} NeverStuck(d: Kind, s: Sys) returns (e: Event)
    requires ShapeOk(d, s) && Ledger(s) && HandlersOk(s) && NoLost(s) && WindowShut(s) && !s.env.marked
    requires s.env.phase != CreateFailed && (s.env.pending != [] || s.waiting != {})
    ensures Progress(e) && Enabled(d, s, e)
  {
    match s.pc
    case Start => e := Launch;
    case AwaitInit => e := if s.run.init == Running then InitReturns(s.env.state, None) else Resume;
    case LoopHead => e := Turn;
    case Executing(_) => e := ExecReturns("", None);
    case Ticking => e := TickReturns;
    case Idle =>
      if HasWork(s.env) {
        e := Resume;
      } else {
        IdleIsReady(s);
        var w :| w in s.waiting;
        e := Wake(w);
      }
    case HandoffDrain =>
      if s.waiting == {} {
        e := Resume;
      } else {
        var w :| w in s.waiting;
        e := Wake(w);
      }
  }

  /**
   Every caller is answered: in service, once nothing arrives from outside and no tick falls due, every life takes
   at most `Effort(s)` progress steps, has one to take while anything is queued or waits, and when none is left has
   answered every caller it ever accepted. Only failed creation leaves callers behind.
   */
  lemma {:induction false} QuietLifeAnswersAll(d: Kind, s: Sys, evs: seq<Event>)
    requires Calm(d, s) && Valid(d, s, evs) && QuietLife(evs)
    ensures var t := After(d, s, evs);
      && Calm(d, t) && ProgressSteps(evs) + Effort(d, t) <= Effort(d, s)
      && (t.env.phase != CreateFailed && (forall e :: Progress(e) ==> !Enabled(d, t, e)) ==>
            t.env.pending == [] && forall slot: nat :: slot < |t.log.accepted| ==> slot in t.log.replies)
    decreases |evs|
  {
    if evs == [] {
      if s.env.phase != CreateFailed && (s.env.pending != [] || s.waiting != {}) {
        var e := NeverStuck(d, s);
      }
    } else {
      assert Quiet(evs[0]) && QuietLife(evs[1..]);
      StepTakesEffort(d, s, evs[0]);
      CalmKept(d, s, evs[0]);
      QuietLifeAnswersAll(d, Next(d, s, evs[0]), evs[1..]);
    }
  }

  /** Strict lives within the cap are calm until they are marked. */
  lemma {:induction false} StrictLifeIsCalm(d: Kind, spec: Spec, zero: State, labels: Labels, evs: seq<Event>)
    requires var s := Fresh(spec, zero, labels);
      Valid(d, s, evs) && StrictLife(d, s, evs) && LifeWithin(d, s, evs, CompletedOpsCap)
    requires !After(d, Fresh(spec, zero, labels), evs).env.marked
    ensures Calm(d, After(d, Fresh(spec, zero, labels), evs))
  {
    InvFresh(d, spec, zero, labels);
    WakeInvFresh(spec, zero, labels);
    StrictAlways(d, Fresh(spec, zero, labels), evs);
  }
}
