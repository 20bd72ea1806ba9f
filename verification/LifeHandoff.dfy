/**
 Continue-as-New is invisible: a life made of many runs is matched, step by step, by a life of the
 same kind that never continues as new. A handoff is a stuttering step.
 */
module LifeHandoff {
  import opened Entity
  import opened EntitySystem
  import opened LifeInvariants
  import opened LifeTheorems

  /** The same definition in a single endless run. */
  function Endless(d: Kind): Kind {
    d.(forceCanEvery := 0)
  }

  /** Spec, state, labels, phase, deletion mark, queue, cache, waiting callers and history agree. */
  predicate SameEntity(s: Sys, t: Sys) {
    t.env == s.env && t.waiting == s.waiting && t.log == s.log
  }

  /**
   Where the endless run stands while the chained one stands at `s.pc`: between two runs, and in
   the handoff drain, it is simply idle.
   */
  predicate Matches(s: Sys, t: Sys) {
    && SameEntity(s, t)
    && !t.run.canSuggested
    && (s.run.init == Running <==> t.run.init == Running)
    && match s.pc
       case Start => t.pc == (if s.env.initialized then Idle else Start)
       case HandoffDrain => t.pc == Idle
       case LoopHead => t.pc == LoopHead || (t.pc == Idle && !HasWork(s.env))
       case AwaitInit => t.pc == AwaitInit && t.run.init == s.run.init
       case AwaitAbort => t.pc == AwaitAbort && t.run.init == s.run.init
       case _ => t.pc == s.pc
  }

  /** The step the endless run makes in answer, if any. */
  function Answer(s: Sys, t: Sys, e: Event): seq<Event> {
    match e
    case SuggestCan => []
    case Launch => if !s.env.initialized then [Launch] else if HasWork(s.env) then [Resume] else []
    case Turn => if t.pc == LoopHead then [Turn] else []
    case Resume => if s.pc == HandoffDrain || (s.pc == Idle && !HasWork(s.env)) then [] else [Resume]
    case _ => [e]
  }

  lemma {:induction false} DeletionMatches(d: Kind, s: Sys, t: Sys)
    requires ShapeOk(d, s) && Matches(s, t) && s.pc == LoopHead && t.pc == LoopHead && s.env.marked
    ensures Matches(BeginDeletion(d, s), BeginDeletion(Endless(d), t))
  {
  }

  lemma {:induction false} DispatchMatches(d: Kind, s: Sys, t: Sys)
    requires ShapeOk(d, s) && Matches(s, t) && s.pc == LoopHead && t.pc == LoopHead && s.env.pending != []
    ensures Matches(Dispatch(d, s), Dispatch(Endless(d), t))
  {
  }

  lemma {:induction false} TurnMatches(d: Kind, s: Sys, t: Sys)
    requires ShapeOk(d, s) && Matches(s, t) && s.pc == LoopHead && t.pc == LoopHead
    ensures Matches(TurnLoop(d, s), TurnLoop(Endless(d), t))
  {
    if s.env.marked {
      DeletionMatches(d, s, t);
    } else if s.env.pending != [] {
      DispatchMatches(d, s, t);
    }
  }

  lemma {:induction false} QuietTurnMatches(d: Kind, s: Sys, t: Sys)
    requires ShapeOk(d, s) && Matches(s, t) && s.pc == LoopHead && t.pc != LoopHead
    ensures Matches(TurnLoop(d, s), t)
  {
  }

  lemma {:induction false} LaunchMatches(d: Kind, s: Sys, t: Sys)
    requires ShapeOk(d, s) && Matches(s, t) && s.pc == Start
    ensures var es := Answer(s, t, Launch);
      if es == [] then Matches(LaunchRun(d, s), t)
      else Enabled(Endless(d), t, es[0]) && Matches(LaunchRun(d, s), Next(Endless(d), t, es[0]))
  {
  }

  lemma {:induction false} ResumeMatches(d: Kind, s: Sys, t: Sys)
    requires ShapeOk(d, s) && Matches(s, t) && ResumeEnabled(d, s)
    ensures if Answer(s, t, Resume) == [] then Matches(ResumeMain(d, s), t)
      else ResumeEnabled(Endless(d), t) && Matches(ResumeMain(d, s), ResumeMain(Endless(d), t))
  {
  }

  lemma {:induction false} EffectMatches(d: Kind, s: Sys, t: Sys, e: Event)
    requires ShapeOk(d, s) && Matches(s, t) && Enabled(d, s, e)
    requires !e.Launch? && !e.Resume? && !e.Turn? && !e.SuggestCan?
    ensures Enabled(Endless(d), t, e) && Matches(Next(d, s, e), Next(Endless(d), t, e))
  {
  }

  lemma {:induction false} StepMatches(d: Kind, s: Sys, t: Sys, e: Event)
    requires ShapeOk(d, s) && Matches(s, t) && Enabled(d, s, e)
    ensures var es := Answer(s, t, e);
      if es == [] then Matches(Next(d, s, e), t)
      else Enabled(Endless(d), t, es[0]) && Matches(Next(d, s, e), Next(Endless(d), t, es[0]))
  {
    match e
    case Turn =>
      if t.pc == LoopHead {
        TurnMatches(d, s, t);
      } else {
        QuietTurnMatches(d, s, t);
      }
    case Launch => LaunchMatches(d, s, t);
    case Resume => ResumeMatches(d, s, t);
    case SuggestCan =>
    case _ => EffectMatches(d, s, t, e);
  }

  /** In a single endless run nothing hands off: no step but a suggestion leads back to a start. */
  lemma {:induction false} EndlessNeverHandsOff(d: Kind, t: Sys, e: Event)
    requires ShapeOk(Endless(d), t) && !t.run.canSuggested && Enabled(Endless(d), t, e) && !e.SuggestCan?
    ensures Next(Endless(d), t, e).pc == Start ==> t.pc == HandoffDrain
    ensures Next(Endless(d), t, e).pc == HandoffDrain ==> t.pc == HandoffDrain
    ensures !Next(Endless(d), t, e).run.canSuggested
  {
    if e.Turn? {
      EndlessTurn(d, t);
    }
  }

  lemma {:induction false} EndlessTurn(d: Kind, t: Sys)
    requires t.pc == LoopHead && !t.run.canSuggested
    ensures var u := TurnLoop(Endless(d), t); u.pc != Start && u.pc != HandoffDrain && !u.run.canSuggested
  {
  }

  /** From `t` on the life stays in one run: it neither hands off nor gets ready to. */
  predicate StaysInOneRun(d: Kind, t: Sys, evs: seq<Event>)
    requires Valid(d, t, evs)
  {
    Avoids(d, t, evs, {Start, HandoffDrain})
  }

  /** Without suggestions and forced handoffs the first run never ends in another. */
  lemma {:induction false} EndlessLifeIsOneRun(d: Kind, t: Sys, evs: seq<Event>)
    requires Inv(Endless(d), t) && !t.run.canSuggested && t.pc != HandoffDrain
    requires Valid(Endless(d), t, evs) && NeverSuggested(evs)
    ensures StaysInOneRun(Endless(d), t, evs)
    decreases |evs|
  {
    if evs != [] {
      assert !evs[0].SuggestCan? && NeverSuggested(evs[1..]);
      EndlessNeverHandsOff(d, t, evs[0]);
      InvKept(Endless(d), t, evs[0]);
      EndlessLifeIsOneRun(d, Next(Endless(d), t, evs[0]), evs[1..]);
    }
  }

  predicate NeverSuggested(evs: seq<Event>) {
    forall k :: 0 <= k < |evs| ==> !evs[k].SuggestCan?
  }

  /** Events of users, callers and handlers; the main coroutine's own steps are left out. */
  function Visible(evs: seq<Event>): seq<Event> {
    if evs == [] then [] else
      var e := evs[0];
      (if e.Launch? || e.Turn? || e.Resume? || e.SuggestCan? then [] else [e]) + Visible(evs[1..])
  }

  lemma {:induction false} VisibleAppend(evs: seq<Event>, more: seq<Event>)
    ensures Visible(evs + more) == Visible(evs) + Visible(more)
    decreases |evs|
  {
    if evs == [] {
      assert evs + more == more;
    } else {
      assert (evs + more)[1..] == evs[1..] + more;
      VisibleAppend(evs[1..], more);
    }
  }

  /** One step of the chained runs, answered by the endless run. */
  lemma {:induction false} AnswerOne(d: Kind, s: Sys, t: Sys, e: Event) returns (es: seq<Event>)
    requires Inv(d, s) && Matches(s, t) && Enabled(d, s, e)
    ensures Valid(Endless(d), t, es) && Matches(Next(d, s, e), After(Endless(d), t, es))
    ensures |es| <= 1 && NeverSuggested(es) && Visible(es) == Visible([e])
  {
    es := Answer(s, t, e);
    StepMatches(d, s, t, e);
    assert [e][1..] == [];
    if es != [] {
      var u := Next(Endless(d), t, es[0]);
      assert es[1..] == [];
      assert Valid(Endless(d), u, []) && After(Endless(d), u, []) == u;
    }
  }

  /** Answers to one event and answers to the rest are answers to the whole. */
  lemma {:induction false} JoinAnswers(d: Kind, t: Sys, e: Event, es: seq<Event>, evs: seq<Event>, rest: seq<Event>)
    requires Valid(d, t, es) && Valid(d, After(d, t, es), rest)
    requires NeverSuggested(es) && NeverSuggested(rest)
    requires Visible(es) == Visible([e]) && Visible(rest) == Visible(evs)
    ensures Valid(d, t, es + rest) && After(d, t, es + rest) == After(d, After(d, t, es), rest)
    ensures NeverSuggested(es + rest) && Visible(es + rest) == Visible([e] + evs)
  {
    AfterAppend(d, t, es, rest);
    VisibleAppend(es, rest);
    VisibleAppend([e], evs);
  }

  lemma {:induction false} LifeMatches(d: Kind, s: Sys, t: Sys, evs: seq<Event>) returns (answers: seq<Event>)
    requires Inv(d, s) && Matches(s, t) && Valid(d, s, evs)
    ensures Valid(Endless(d), t, answers) && Matches(After(d, s, evs), After(Endless(d), t, answers))
    ensures |answers| <= |evs| && NeverSuggested(answers) && Visible(answers) == Visible(evs)
    decreases |evs|
  {
    if evs == [] {
      return [];
    }
    var es := AnswerOne(d, s, t, evs[0]);
    InvKept(d, s, evs[0]);
    var s', t' := Next(d, s, evs[0]), After(Endless(d), t, es);
    var rest := LifeMatches(d, s', t', evs[1..]);
    JoinAnswers(Endless(d), t, evs[0], es, evs[1..], rest);
    assert evs == [evs[0]] + evs[1..];
    answers := es + rest;
  }

  /**
   Continue-as-New is invisible. Whatever chain of runs an entity lives through, the same definition in
   one run that never hands off, fed the same updates, signals and callback returns in the same order and
   answering each event by at most one of its own, ends with the same envelope, waiting callers and history.
   */
  lemma {:induction false} ChainOfRunsIsOneRun(d: Kind, spec: Spec, zero: State, labels: Labels, evs: seq<Event>)
    returns (answers: seq<Event>)
    requires Valid(d, Fresh(spec, zero, labels), evs)
    ensures Valid(Endless(d), Fresh(spec, zero, labels), answers)
    ensures StaysInOneRun(Endless(d), Fresh(spec, zero, labels), answers)
    ensures |answers| <= |evs| && NeverSuggested(answers) && Visible(answers) == Visible(evs)
    ensures SameEntity(After(d, Fresh(spec, zero, labels), evs), After(Endless(d), Fresh(spec, zero, labels), answers))
  {
    InvFresh(d, spec, zero, labels);
    answers := LifeMatches(d, Fresh(spec, zero, labels), Fresh(spec, zero, labels), evs);
    InvFresh(Endless(d), spec, zero, labels);
    EndlessLifeIsOneRun(d, Fresh(spec, zero, labels), answers);
  }
}
