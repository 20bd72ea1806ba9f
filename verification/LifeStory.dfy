/**
 What an entity's life amounts to, read off its events alone: which spec and state user code left, how creation
 went, whether deletion was asked for and how the finalizer ended.
 */
module LifeStory {
  import opened Entity
  import opened DedupCache
  import opened EntitySystem
  import opened LifeChanges
  import opened LifeInvariants
  import opened LifeTheorems
  import opened LifeSerial

  datatype InitEnd = InitEnd(state: State, err: Option<string>)

  /** `created` says that the main coroutine has taken over what init returned; `suggested` is this run's. */
  datatype Story = Story(
    spec: Spec, state: State, marked: bool, suggested: bool, init: Option<InitEnd>, created: bool)

  function Told(y: Story, e: Event): Story {
    match e
    case Launch => y.(suggested := false)
    case SetSpec(spec) => y.(spec := spec)
    case SetState(st) => y.(state := st)
    case InitReturns(st, err) => y.(init := Some(InitEnd(st, err)))
    case Resume =>
      if y.init.Some? && !y.created then y.(created := true, state := y.init.value.state) else y
    case DeleteSignal => y.(marked := true)
    case SuggestCan => y.(suggested := true)
    case _ => y
  }

  function StoryOf(y: Story, evs: seq<Event>): Story
    decreases |evs|
  {
    if evs == [] then y else StoryOf(Told(y, evs[0]), evs[1..])
  }

  function Opening(spec: Spec, zero: State): Story {
    Story(spec, zero, false, false, None, false)
  }

  /** The whole life of an entity started with these values. */
  function StoryFrom(spec: Spec, zero: State, evs: seq<Event>): Story {
    StoryOf(Opening(spec, zero), evs)
  }

  // ----- the story is true -----

  predicate InCreation(s: Sys) {
    s.pc == AwaitInit || s.pc == AwaitAbort || (s.pc == Start && !s.env.initialized)
  }

  predicate InitTells(d: Kind, s: Sys, y: Story) {
    && (!d.hasInit ==> y.init == None && s.pc != AwaitInit && s.pc != AwaitAbort)
    && (y.created ==> y.init.Some?)
    && if s.pc == AwaitInit || s.pc == AwaitAbort then
         && !y.created
         && y.init == if s.run.init.Finished? then Some(InitEnd(s.run.init.state, s.run.init.err)) else None
       else if InCreation(s) then y.init == None
       else d.hasInit ==> y.created
  }

  predicate Tells(d: Kind, s: Sys, y: Story) {
    && s.env.spec == y.spec && s.env.state == y.state && s.env.marked == y.marked
    && s.run.canSuggested == (s.pc != Start && y.suggested)
    && InitTells(d, s, y)
  }

  lemma {:induction false} TellsAfterTurn(d: Kind, s: Sys, y: Story)
    requires ShapeOk(d, s) && Tells(d, s, y) && s.pc == LoopHead
    ensures Tells(d, TurnLoop(d, s), y)
  {
  }

  lemma {:induction false} TellsAfterResume(d: Kind, s: Sys, y: Story)
    requires ShapeOk(d, s) && Tells(d, s, y) && ResumeEnabled(d, s)
    ensures Tells(d, ResumeMain(d, s), Told(y, Resume))
  {
  }

  lemma {:induction false} TellsAfterOther(d: Kind, s: Sys, y: Story, e: Event)
    requires ShapeOk(d, s) && Tells(d, s, y) && Enabled(d, s, e) && !e.Turn? && !e.Resume?
    ensures Tells(d, Next(d, s, e), Told(y, e))
  {
  }

  lemma {:induction false} TellsKept(d: Kind, s: Sys, y: Story, e: Event)
    requires ShapeOk(d, s) && Tells(d, s, y) && Enabled(d, s, e)
    ensures Tells(d, Next(d, s, e), Told(y, e))
  {
    match e
    case Turn => TellsAfterTurn(d, s, y);
    case Resume => TellsAfterResume(d, s, y);
    case _ => TellsAfterOther(d, s, y, e);
  }

  lemma {:induction false} TellsAlways(d: Kind, s: Sys, y: Story, evs: seq<Event>)
    requires Inv(d, s) && Tells(d, s, y) && Valid(d, s, evs)
    ensures Inv(d, After(d, s, evs)) && Tells(d, After(d, s, evs), StoryOf(y, evs))
    decreases |evs|
  {
    if evs != [] {
      InvKept(d, s, evs[0]);
      TellsKept(d, s, y, evs[0]);
      TellsAlways(d, Next(d, s, evs[0]), Told(y, evs[0]), evs[1..]);
    }
  }

  lemma {:induction false} LifeTells(d: Kind, spec: Spec, zero: State, labels: Labels, evs: seq<Event>)
    requires Valid(d, Fresh(spec, zero, labels), evs)
    ensures var t := After(d, Fresh(spec, zero, labels), evs); Inv(d, t) && Tells(d, t, StoryFrom(spec, zero, evs))
  {
    InvFresh(d, spec, zero, labels);
    TellsAlways(d, Fresh(spec, zero, labels), Opening(spec, zero), evs);
  }

  /**
   Across every command, tick and handoff, and also after failed or aborted creation, an entity's spec is the last one
   user code set, its state the last one user code left, init included, and it is marked iff a delete signal arrived.
   */
  lemma {:induction false} StateIsWhatUserCodeLeft(d: Kind, spec: Spec, zero: State, labels: Labels, evs: seq<Event>)
    requires Valid(d, Fresh(spec, zero, labels), evs)
    ensures var t, y := After(d, Fresh(spec, zero, labels), evs), StoryFrom(spec, zero, evs);
      t.env.spec == y.spec && t.env.state == y.state && t.env.marked == y.marked
  {
    LifeTells(d, spec, zero, labels, evs);
  }

  // ----- how creation went -----

  /** Once creation is over the entity is initialized iff init, if there is one, returned no error. */
  ghost predicate CreationTells(d: Kind, s: Sys, y: Story) {
    && (Ready in s.log.phases <==> s.env.initialized)
    && (CreateFailed in s.log.phases <==> s.env.phase == CreateFailed)
    && if InCreation(s) then !s.env.initialized && s.env.phase != CreateFailed
       else
         && (s.env.initialized <==> !d.hasInit || (y.init.Some? && y.init.value.err == None))
         && (s.env.phase == CreateFailed <==> !s.env.initialized && !s.env.marked)
  }

  lemma {:induction false} CreationAfterTurn(d: Kind, s: Sys, y: Story)
    requires ShapeOk(d, s) && Tells(d, s, y) && CreationTells(d, s, y) && s.pc == LoopHead
    ensures CreationTells(d, TurnLoop(d, s), y)
  {
    if s.env.marked {
      DeletionPhases(d, s);
    }
  }

  lemma {:induction false} DeletionPhases(d: Kind, s: Sys)
    ensures var t := BeginDeletion(d, s);
      && t.env.initialized == s.env.initialized && t.env.marked == s.env.marked
      && t.pc in {DeletionDrain, Finalizing, Closed}
      && t.env.phase in {Deleting, Deleted}
      && forall p: Phase :: p in {Ready, CreateFailed} ==> (p in t.log.phases <==> p in s.log.phases)
  {
  }

  lemma {:induction false} CreationAfterResume(d: Kind, s: Sys, y: Story)
    requires ShapeOk(d, s) && Tells(d, s, y) && CreationTells(d, s, y) && ResumeEnabled(d, s)
    ensures CreationTells(d, ResumeMain(d, s), Told(y, Resume))
  {
  }

  lemma {:induction false} CreationAfterOther(d: Kind, s: Sys, y: Story, e: Event)
    requires ShapeOk(d, s) && Tells(d, s, y) && CreationTells(d, s, y) && Enabled(d, s, e) && !e.Turn? && !e.Resume?
    ensures CreationTells(d, Next(d, s, e), Told(y, e))
  {
  }

  lemma {:induction false} CreationKept(d: Kind, s: Sys, y: Story, e: Event)
    requires ShapeOk(d, s) && Tells(d, s, y) && CreationTells(d, s, y) && Enabled(d, s, e)
    ensures CreationTells(d, Next(d, s, e), Told(y, e))
  {
    match e
    case Turn => CreationAfterTurn(d, s, y);
    case Resume => CreationAfterResume(d, s, y);
    case _ => CreationAfterOther(d, s, y, e);
  }

  lemma {:induction false} CreationAlways(d: Kind, s: Sys, y: Story, evs: seq<Event>)
    requires Inv(d, s) && Tells(d, s, y) && CreationTells(d, s, y) && Valid(d, s, evs)
    ensures CreationTells(d, After(d, s, evs), StoryOf(y, evs))
    decreases |evs|
  {
    if evs != [] {
      InvKept(d, s, evs[0]);
      TellsKept(d, s, y, evs[0]);
      CreationKept(d, s, y, evs[0]);
      CreationAlways(d, Next(d, s, evs[0]), Told(y, evs[0]), evs[1..]);
    }
  }

  /**
   How creation ends, exactly: once it is over the entity has become ready iff the kind has no init or init returned
   no error; it is create_failed iff init returned an error and no delete signal had come; otherwise deletion took over.
   */
  lemma {:induction false} CreationEndsAsInitDid(d: Kind, spec: Spec, zero: State, labels: Labels, evs: seq<Event>)
    requires Valid(d, Fresh(spec, zero, labels), evs) && !InCreation(After(d, Fresh(spec, zero, labels), evs))
    ensures var t, y := After(d, Fresh(spec, zero, labels), evs), StoryFrom(spec, zero, evs);
      && (d.hasInit ==> y.init.Some?)
      && (Ready in t.log.phases <==> !d.hasInit || y.init.value.err == None)
      && (t.env.phase == CreateFailed <==> d.hasInit && y.init.value.err.Some? && !y.marked)
  {
    LifeTells(d, spec, zero, labels, evs);
    LifeCreation(d, spec, zero, labels, evs);
    CreationOver(d, After(d, Fresh(spec, zero, labels), evs), StoryFrom(spec, zero, evs));
  }

  lemma {:induction false} LifeCreation(d: Kind, spec: Spec, zero: State, labels: Labels, evs: seq<Event>)
    requires Valid(d, Fresh(spec, zero, labels), evs)
    ensures CreationTells(d, After(d, Fresh(spec, zero, labels), evs), StoryFrom(spec, zero, evs))
  {
    InvFresh(d, spec, zero, labels);
    CreationAlways(d, Fresh(spec, zero, labels), Opening(spec, zero), evs);
  }

  lemma {:induction false} CreationOver(d: Kind, t: Sys, y: Story)
    requires Tells(d, t, y) && CreationTells(d, t, y) && !InCreation(t)
    ensures d.hasInit ==> y.init.Some?
    ensures Ready in t.log.phases <==> !d.hasInit || y.init.value.err == None
    ensures t.env.phase == CreateFailed <==> d.hasInit && y.init.value.err.Some? && !y.marked
  {
  }
}
