/** Published labels: current within a run, and possibly stale across a handoff. */
module LifeLabels {
  import opened Entity
  import opened DedupCache
  import opened LabelMerge
  import opened EntitySystem
  import opened LifeInvariants
  import opened LifeTheorems

  predicate Current(s: Sys) {
    s.run.mirror == s.env.labels
  }

  /** The published labels are current, or the run knows they are stale. */
  predicate MirrorOk(d: Kind, s: Sys) {
    d.searchAttrs && s.env.phase != Unset ==> Current(s) || s.run.labelsDirty
  }

  lemma {:induction false} MirrorOfTurn(d: Kind, s: Sys)
    requires ShapeOk(d, s) && MirrorOk(d, s) && s.pc == LoopHead && TurnLoop(d, s).pc != Start
    ensures MirrorOk(d, TurnLoop(d, s))
  {
  }

  lemma {:induction false} MirrorOfStart(d: Kind, s: Sys, e: Event)
    requires Enabled(d, s, e) && ShapeOk(d, s) && MirrorOk(d, s) && Next(d, s, e).pc != Start
    requires e.Launch? || e.Resume?
    ensures MirrorOk(d, Next(d, s, e))
  {
  }

  /** Every step inside a run keeps the published labels current or known stale. */
  lemma {:induction false} MirrorKept(d: Kind, s: Sys, e: Event)
    requires Inv(d, s) && Enabled(d, s, e) && MirrorOk(d, s) && Next(d, s, e).pc != Start
    ensures MirrorOk(d, Next(d, s, e))
  {
    match e
    case Turn => MirrorOfTurn(d, s);
    case Launch => MirrorOfStart(d, s, e);
    case Resume => MirrorOfStart(d, s, e);
    case _ =>
  }

  /** No step of the life starts another run. */
  predicate StaysInRun(d: Kind, s: Sys, evs: seq<Event>)
    requires Valid(d, s, evs)
  {
    Avoids(d, s, evs, {Start})
  }

  lemma {:induction false} MirrorWithinRun(d: Kind, s: Sys, evs: seq<Event>)
    requires Inv(d, s) && MirrorOk(d, s) && Valid(d, s, evs) && StaysInRun(d, s, evs)
    ensures MirrorOk(d, After(d, s, evs))
    decreases |evs|
  {
    if evs != [] {
      MirrorKept(d, s, evs[0]);
      InvKept(d, s, evs[0]);
      MirrorWithinRun(d, Next(d, s, evs[0]), evs[1..]);
    }
  }

  /** Throughout an entity's first run the published labels are current or known stale. */
  lemma {:induction false} MirrorInFirstRun(d: Kind, spec: Spec, zero: State, labels: Labels, evs: seq<Event>)
    requires var s := Fresh(spec, zero, labels); Valid(d, s, evs) && StaysInRun(d, s, evs)
    ensures MirrorOk(d, After(d, Fresh(spec, zero, labels), evs))
  {
    InvFresh(d, spec, zero, labels);
    MirrorWithinRun(d, Fresh(spec, zero, labels), evs);
  }

  /** What is published after a step is current iff it was, or was known stale, or the step changed the labels. */
  predicate PublishesIffDue(s: Sys, t: Sys) {
    Current(t) <==> Current(s) || s.run.labelsDirty || t.env.labels != s.env.labels
  }

  /**
   After a processed command, built-in or not, the published labels are current exactly when they were before, the
   run knew they were stale, or the command changed them: always, if they were current or known stale before.
   */
  lemma {:induction false} MirrorCurrentAfterCommand(d: Kind, s: Sys, e: Event)
    requires d.searchAttrs && Reachable(d, s) && Enabled(d, s, e)
    requires Next(d, s, e).run.processed > s.run.processed
    ensures PublishesIffDue(s, Next(d, s, e))
    ensures MirrorOk(d, s) ==> Current(Next(d, s, e))
  {
    ReachableInv(d, s);
    CommandPublishes(d, s, e);
  }

  lemma {:induction false} CommandPublishes(d: Kind, s: Sys, e: Event)
    requires d.searchAttrs && Inv(d, s) && Enabled(d, s, e)
    requires Next(d, s, e).run.processed > s.run.processed
    ensures PublishesIffDue(s, Next(d, s, e))
    ensures MirrorOk(d, s) ==> Current(Next(d, s, e))
  {
    if e.Turn? {
      MirrorAfterTurn(d, s);
    } else if !e.ExecReturns? {
      OnlyCommandsCount(d, s, e);
    } else {
      MirrorAfterExec(d, s, e.res, e.err);
    }
  }

  lemma {:induction false} OnlyCommandsCount(d: Kind, s: Sys, e: Event)
    requires Enabled(d, s, e) && !e.Turn? && !e.ExecReturns?
    ensures Next(d, s, e).run.processed <= s.run.processed
  {
  }

  lemma {:induction false} MirrorAfterExec(d: Kind, s: Sys, res: Raw, err: Option<string>)
    requires d.searchAttrs && ShapeOk(d, s) && s.pc.Executing?
    ensures s.env.phase != Unset && PublishesIffDue(s, FinishExec(d, s, res, err))
  {
  }

  lemma {:induction false} MirrorAfterTurn(d: Kind, s: Sys)
    requires d.searchAttrs && ShapeOk(d, s) && s.pc == LoopHead
    requires TurnLoop(d, s).run.processed > s.run.processed
    ensures s.env.phase != Unset && PublishesIffDue(s, TurnLoop(d, s))
  {
  }

  // ----- across handoffs, exactly -----

  /** A handoff forgets that labels were stale: the next run starts well exactly when nothing was. */
  lemma {:induction false} MirrorAcrossHandoff(d: Kind, s: Sys, e: Event)
    requires d.searchAttrs && Inv(d, s) && Enabled(d, s, e) && Next(d, s, e).pc == Start
    ensures MirrorOk(d, Next(d, s, e)) <==> Current(s)
    ensures Next(d, s, e) == Handoff(s)
  {
    InvKept(d, s, e);
    OnlyHandoffRestarts(d, s, e);
  }

  /** The labels when a command or a change of phase last finished; `base` if this step is neither. */
  function SettledLabels(d: Kind, s: Sys, e: Event, base: Labels): Labels
    requires Enabled(d, s, e)
  {
    var t := Next(d, s, e);
    if t.run.processed > s.run.processed || t.log.phases != s.log.phases then t.env.labels else base
  }

  /** At every handoff the labels are as the last command or change of phase left them: no tick changed them since. */
  predicate HandsOffSettled(d: Kind, s: Sys, evs: seq<Event>, base: Labels)
    requires Valid(d, s, evs)
    decreases |evs|
  {
    evs != [] ==>
      && (Next(d, s, evs[0]).pc == Start ==> s.env.labels == base)
      && HandsOffSettled(d, Next(d, s, evs[0]), evs[1..], SettledLabels(d, s, evs[0], base))
  }

  predicate MirrorThroughout(d: Kind, s: Sys, evs: seq<Event>)
    requires Valid(d, s, evs)
    decreases |evs|
  {
    MirrorOk(d, s) && (evs == [] || MirrorThroughout(d, Next(d, s, evs[0]), evs[1..]))
  }

  predicate PublishedIs(s: Sys, base: Labels) {
    s.env.phase != Unset ==> s.run.mirror == base
  }

  lemma {:induction false} DeletionPublishes(d: Kind, s: Sys)
    requires d.searchAttrs
    ensures Current(BeginDeletion(d, s)) && |BeginDeletion(d, s).log.phases| > |s.log.phases|
  {
  }

  lemma {:induction false} QuietDispatch(d: Kind, s: Sys)
    requires s.env.pending != [] && Dispatch(d, s).run.processed <= s.run.processed
    ensures var t := Dispatch(d, s);
      t.run == s.run && t.env.phase == s.env.phase && t.env.labels == s.env.labels && t.log.phases == s.log.phases
  {
  }

  lemma {:induction false} QuietTurnPublishes(d: Kind, s: Sys, base: Labels)
    requires d.searchAttrs && ShapeOk(d, s) && s.pc == LoopHead && PublishedIs(s, base)
    requires TurnLoop(d, s).run.processed <= s.run.processed
    ensures PublishedIs(TurnLoop(d, s), SettledLabels(d, s, Turn, base))
  {
    if s.env.marked {
      DeletionPublishes(d, s);
    } else if s.env.pending != [] {
      QuietDispatch(d, s);
    }
  }

  lemma {:induction false} QuietStepPublishes(d: Kind, s: Sys, e: Event, base: Labels)
    requires d.searchAttrs && ShapeOk(d, s) && Enabled(d, s, e) && PublishedIs(s, base)
    requires Next(d, s, e).run.processed <= s.run.processed && !e.Turn?
    ensures PublishedIs(Next(d, s, e), SettledLabels(d, s, e, base))
  {
    if e.Launch? || e.Resume? || e.FinalizeReturns? {
      PhaseStepPublishes(d, s, e);
    } else {
      OtherStepPublishesNothing(d, s, e);
    }
  }

  /** A step that may change the phase publishes if it does, and changes no labels. */
  lemma {:induction false} PhaseStepPublishes(d: Kind, s: Sys, e: Event)
    requires d.searchAttrs && ShapeOk(d, s) && Enabled(d, s, e) && (e.Launch? || e.Resume? || e.FinalizeReturns?)
    ensures var t := Next(d, s, e);
      if |t.log.phases| > |s.log.phases| then Current(t)
      else t.log.phases == s.log.phases && t.run.mirror == s.run.mirror && t.env.phase == s.env.phase
  {
  }

  lemma {:induction false} OtherStepPublishesNothing(d: Kind, s: Sys, e: Event)
    requires Enabled(d, s, e) && !e.Turn? && !e.Launch? && !e.Resume? && !e.FinalizeReturns?
    requires Next(d, s, e).run.processed <= s.run.processed
    ensures var t := Next(d, s, e);
      t.log.phases == s.log.phases && t.run.mirror == s.run.mirror && t.env.phase == s.env.phase
  {
  }

  /** While all is well, what is published is what the last command or change of phase left. */
  lemma {:induction false} PublishedStaysSettled(d: Kind, s: Sys, e: Event, base: Labels)
    requires d.searchAttrs && Inv(d, s) && MirrorOk(d, s) && Enabled(d, s, e) && PublishedIs(s, base)
    ensures PublishedIs(Next(d, s, e), SettledLabels(d, s, e, base))
  {
    if Next(d, s, e).run.processed > s.run.processed {
      CommandPublishes(d, s, e);
    } else if e.Turn? {
      QuietTurnPublishes(d, s, base);
    } else {
      QuietStepPublishes(d, s, e, base);
    }
  }

  lemma {:induction false} MirrorThroughoutFrom(d: Kind, s: Sys, evs: seq<Event>, base: Labels)
    requires d.searchAttrs && Inv(d, s) && MirrorOk(d, s) && PublishedIs(s, base) && Valid(d, s, evs)
    ensures MirrorThroughout(d, s, evs) <==> HandsOffSettled(d, s, evs, base)
    decreases |evs|
  {
    if evs != [] {
      var t := Next(d, s, evs[0]);
      InvKept(d, s, evs[0]);
      PublishedStaysSettled(d, s, evs[0], base);
      if t.pc != Start {
        MirrorKept(d, s, evs[0]);
      } else {
        MirrorAcrossHandoff(d, s, evs[0]);
        StartFollowsUse(d, s, evs[0]);
      }
      if MirrorOk(d, t) {
        MirrorThroughoutFrom(d, t, evs[1..], SettledLabels(d, s, evs[0], base));
      }
    }
  }

  lemma {:induction false} StartFollowsUse(d: Kind, s: Sys, e: Event)
    requires ShapeOk(d, s) && Enabled(d, s, e) && Next(d, s, e).pc == Start
    ensures s.env.phase != Unset
  {
    OnlyHandoffRestarts(d, s, e);
  }

  /**
   Published labels over a whole life, exactly: they are current or known stale in every state iff, at every
   handoff, no tick has changed the labels since the last command or change of phase.
   */
  lemma {:induction false} MirrorOkThroughoutIffSettled(d: Kind, spec: Spec, zero: State, labels: Labels,
                                                        evs: seq<Event>)
    requires d.searchAttrs && Valid(d, Fresh(spec, zero, labels), evs)
    ensures MirrorThroughout(d, Fresh(spec, zero, labels), evs)
       <==> HandsOffSettled(d, Fresh(spec, zero, labels), evs, labels)
  {
    InvFresh(d, spec, zero, labels);
    MirrorThroughoutFrom(d, Fresh(spec, zero, labels), evs, labels);
  }

  // ----- kinds without a tick -----

  /** Without ticks only a command can leave labels unpublished, and only while it runs. */
  predicate DirtyOnlyInside(d: Kind, s: Sys) {
    MirrorOk(d, s) && s.pc != Ticking && (s.run.labelsDirty ==> s.pc.Executing?)
  }

  lemma {:induction false} TurnLeavesClean(d: Kind, s: Sys)
    requires s.pc == LoopHead && !s.run.labelsDirty
    ensures TurnLoop(d, s).pc != Ticking && !TurnLoop(d, s).run.labelsDirty
  {
  }

  lemma {:induction false} StepLeavesClean(d: Kind, s: Sys, e: Event)
    requires !d.hasReconcile && Enabled(d, s, e) && s.pc != Ticking && (s.run.labelsDirty ==> s.pc.Executing?)
    ensures Next(d, s, e).pc != Ticking && (Next(d, s, e).run.labelsDirty ==> Next(d, s, e).pc.Executing?)
  {
    if e.Turn? {
      TurnLeavesClean(d, s);
    }
  }

  lemma {:induction false} DirtyOnlyInsideKept(d: Kind, s: Sys, e: Event)
    requires !d.hasReconcile && Inv(d, s) && DirtyOnlyInside(d, s) && Enabled(d, s, e)
    ensures DirtyOnlyInside(d, Next(d, s, e))
  {
    StepLeavesClean(d, s, e);
    if Next(d, s, e).pc != Start {
      MirrorKept(d, s, e);
    } else if d.searchAttrs {
      MirrorAcrossHandoff(d, s, e);
      StartFollowsUse(d, s, e);
      OnlyHandoffRestarts(d, s, e);
    }
  }

  lemma {:induction false} DirtyOnlyInsideAlways(d: Kind, s: Sys, evs: seq<Event>)
    requires !d.hasReconcile && Inv(d, s) && DirtyOnlyInside(d, s) && Valid(d, s, evs)
    ensures DirtyOnlyInside(d, After(d, s, evs))
    decreases |evs|
  {
    if evs != [] {
      InvKept(d, s, evs[0]);
      DirtyOnlyInsideKept(d, s, evs[0]);
      DirtyOnlyInsideAlways(d, Next(d, s, evs[0]), evs[1..]);
    }
  }

  /** Without a tick the published labels are current in every reachable state outside a command handler. */
  lemma {:induction false} MirrorCurrentWithoutTick(d: Kind, s: Sys)
    requires d.searchAttrs && !d.hasReconcile && Reachable(d, s)
    ensures MirrorOk(d, s)
    ensures s.env.phase != Unset && !s.pc.Executing? ==> Current(s)
  {
    var spec: Spec, zero: State, labels: Labels, evs: seq<Event> :|
      Valid(d, Fresh(spec, zero, labels), evs) && After(d, Fresh(spec, zero, labels), evs) == s;
    InvFresh(d, spec, zero, labels);
    DirtyOnlyInsideAlways(d, Fresh(spec, zero, labels), evs);
  }

  // ----- kinds with a tick -----

  /** A tick sets one label and returns; the loop is back where it waits, with stale labels. */
  lemma {:induction false} TickSetsLabel(d: Kind, s: Sys, key: string, value: string) returns (t: Sys)
    requires Reachable(d, s) && s.pc == Idle && d.hasReconcile && !HasWork(s.env) && !CanWanted(d, s.run)
    requires Merged(s.env.labels, map[key := value]) != s.env.labels
    ensures Reachable(d, t) && t.pc == Idle
    ensures t.env == s.env.(labels := Merged(s.env.labels, map[key := value]))
    ensures t.run == s.run.(labelsDirty := true) && t.waiting == s.waiting
  {
    t := Follow(d, s, TickDue);
    t := Follow(d, t, SetLabel(key, value));
    t := Follow(d, t, TickReturns);
    t := Follow(d, t, Turn);
  }

  /** Without work or waiting handlers, a suggested Continue-as-New leads to the same wait in a new run. */
  lemma {:induction false} IdleAcrossHandoff(d: Kind, s: Sys) returns (t: Sys)
    requires Reachable(d, s) && s.pc == Idle && s.waiting == {} && !HasWork(s.env)
    ensures Reachable(d, t) && t.pc == Idle && t.env == s.env
    ensures t.run == FreshRun.(mirror := s.run.mirror)
  {
    ReachableInv(d, s);
    t := Follow(d, s, SuggestCan);
    t := Follow(d, t, Resume);
    t := Follow(d, t, Turn);
    t := Follow(d, t, Launch);
    t := Follow(d, t, Turn);
  }

  lemma {:induction false} IdleAfterCreation(d: Kind, spec: Spec, zero: State) returns (s: Sys)
    requires d.searchAttrs
    ensures Reachable(d, s) && s.pc == Idle && !HasWork(s.env) && !CanWanted(d, s.run) && s.waiting == {}
    ensures s.env.labels == map[] && s.run.mirror == map[] && s.env.phase == Ready
  {
    s := Fresh(spec, zero, map[]);
    assert Valid(d, s, []) && After(d, s, []) == s;
    s := Follow(d, s, Launch);
    if d.hasInit {
      s := Follow(d, s, InitReturns(zero, None));
      s := Follow(d, s, Resume);
    }
    s := Follow(d, s, Turn);
  }

  /** With a tick the stale case happens: a tick sets a label, then the run continues as new before any command. */
  lemma {:induction false} TickLabelLostAcrossHandoff(d: Kind, spec: Spec, zero: State) returns (s: Sys)
    requires d.searchAttrs && d.hasReconcile
    ensures Reachable(d, s) && s.pc == Idle
    ensures s.env.labels == map["tier" := "gold"] && s.run.mirror == map[] && !s.run.labelsDirty
    ensures !MirrorOk(d, s)
  {
    var labels: Labels := map["tier" := "gold"];
    assert Merged(map[], labels) == labels && "tier" in labels;
    s := IdleAfterCreation(d, spec, zero);
    s := TickSetsLabel(d, s, "tier", "gold");
    s := IdleAcrossHandoff(d, s);
  }

  /** A kind never has stale labels it does not know of, in any life, exactly when it has no tick. */
  lemma {:induction false} MirrorAlwaysOkIffNoTick(d: Kind)
    requires d.searchAttrs
    ensures (forall s :: Reachable(d, s) ==> MirrorOk(d, s)) <==> !d.hasReconcile
  {
    if d.hasReconcile {
      var spec: Spec, zero: State :| true;
      var s := TickLabelLostAcrossHandoff(d, spec, zero);
      assert Reachable(d, s) && !MirrorOk(d, s);
    } else {
      forall s | Reachable(d, s) ensures MirrorOk(d, s) {
        MirrorCurrentWithoutTick(d, s);
      }
    }
  }

  lemma {:induction false} Follow(d: Kind, s: Sys, e: Event) returns (t: Sys)
    requires Reachable(d, s) && Enabled(d, s, e)
    ensures t == Next(d, s, e) && Reachable(d, t)
  {
    t := Next(d, s, e);
    ReachableNext(d, s, e);
  }
}
