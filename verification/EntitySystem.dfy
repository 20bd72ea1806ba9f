/**
 The entity workflow (pkg/entdefine/loop.go) as a transition system over whole lives.

 One coroutine runs the main loop, one coroutine per accepted update waits for its
 outcome, and one receives delete signals. They share the envelope and interleave only
 at yield points. `Next` is one atomic section; a life is a sequence of events from
 `Fresh`, across every Continue-as-New.
 */
module EntitySystem {
  import opened Entity
  import opened DedupCache
  import opened LabelMerge

  const SetLabelsCommandName: CommandName := "entity-set-labels"

  /** What the registered definition contributes to the loop. */
  datatype Kind = Kind(
    commands: set<CommandName>,
    validate: (CommandName, Snapshot, Raw) -> Option<string>,
    decodePatch: Raw -> Result<Labels>,
    hasInit: bool,
    hasFinalize: bool,
    hasReconcile: bool,
    searchAttrs: bool,
    forceCanEvery: int)

  /** The envelope carried across Continue-as-New. */
  datatype Env = Env(
    initialized: bool,
    phase: Phase,
    spec: Spec,
    state: State,
    labels: Labels,
    marked: bool,
    pending: seq<Command>,
    cache: Cache)

  datatype InitTask = NotStarted | Running | Finished(state: State, err: Option<string>)

  /** Where the main coroutine stands. */
  datatype Pc =
    | Start                    // a run is about to execute its first section
    | AwaitInit                // waiting for init or a delete signal
    | AwaitAbort               // init cancelled, waiting for it to return
    | LoopHead                 // top of the loop: not a yield point
    | Idle                     // waiting for work, deletion or Continue-as-New
    | Executing(cmd: Command)  // inside a command handler
    | Ticking                  // inside the reconcile tick
    | HandoffDrain             // waiting for handlers before Continue-as-New
    | DeletionDrain            // waiting for handlers before the finalizer
    | Finalizing               // inside the finalizer
    | Closed                   // the workflow returned

  /** Run-local variables; `mirror` is the label set last published as a search attribute. */
  datatype Run = Run(processed: nat, labelsDirty: bool, canSuggested: bool, init: InitTask, mirror: Labels)

  datatype Callback = InitCallback | ExecCallback(cmd: Command) | TickCallback | FinalizeCallback

  datatype Act = Begin(callback: Callback) | End(callback: Callback)

  /** A delivered reply, and how many outcomes had been recorded by then. */
  datatype Reply = Reply(outcome: OpResult, at: nat)

  /** A reply served straight from the cache. */
  datatype Hit = Hit(id: RequestId, reply: Reply)

  /**
   What happened so far. A slot is the position of a command in `accepted`, and `seen[k]` is how
   many outcomes had been recorded when slot `k` was accepted. `phases` is every phase ever written.
   */
  datatype History = History(
    accepted: seq<Command>,
    seen: seq<nat>,
    dispatched: seq<Command>,
    rejected: seq<Command>,
    records: seq<Record>,
    replies: map<nat, Reply>,
    hits: seq<Hit>,
    acts: seq<Act>,
    phases: seq<Phase>)

  /** `waiting` holds the slots whose update handler has not returned. */
  datatype Sys = Sys(env: Env, pc: Pc, run: Run, waiting: set<nat>, log: History)

  datatype Event =
    | Launch
    | Turn
    | Resume
    | TickDue
    | InitReturns(state: State, err: Option<string>)
    | SetSpec(newSpec: Spec)
    | SetState(newState: State)
    | SetLabel(key: string, value: string)
    | ExecReturns(res: Raw, err: Option<string>)
    | TickReturns
    | FinalizeReturns(failed: bool)
    | Update(name: CommandName, id: RequestId, payload: Raw)
    | Wake(slot: nat)
    | DeleteSignal
    | SuggestCan

  const FreshRun := Run(0, false, false, NotStarted, map[])
  const NoHistory := History([], [], [], [], [], map[], [], [], [Unset])

  /** The envelope CreateOrAttach and ExecWithStart send: a spec and labels, all else zero. */
  function Fresh(spec: Spec, zero: State, labels: Labels): Sys {
    Sys(Env(false, Unset, spec, zero, labels, false, [], EmptyCache), Start, FreshRun, {}, NoHistory)
  }

  // ----- pieces of the sections -----

  function SnapshotOf(env: Env): Snapshot {
    Snapshot(env.phase, env.spec, env.state, env.labels, |env.pending|, env.marked)
  }

  predicate CanWanted(d: Kind, run: Run) {
    run.canSuggested || (d.forceCanEvery > 0 && run.processed >= d.forceCanEvery)
  }

  predicate HasWork(env: Env) {
    env.pending != [] || env.marked
  }

  function Published(d: Kind, run: Run, labels: Labels): Run {
    run.(mirror := if d.searchAttrs then labels else run.mirror)
  }

  /** upsertSearchAttrs, seen through the published labels. */
  function Upsert(d: Kind, s: Sys): Sys {
    s.(run := Published(d, s.run, s.env.labels))
  }

  function MirrorLabels(d: Kind, s: Sys): Sys {
    s.(run := if s.run.labelsDirty then Published(d, s.run.(labelsDirty := false), s.env.labels) else s.run)
  }

  /** Bookkeeping after a processed command. */
  function Processed(d: Kind, s: Sys): Sys {
    MirrorLabels(d, s.(run := s.run.(processed := s.run.processed + 1)))
  }

  function WithPhase(d: Kind, s: Sys, phase: Phase): Sys {
    Upsert(d, s.(env := s.env.(phase := phase), log := s.log.(phases := s.log.phases + [phase])))
  }

  /** Recording a batch of outcomes. */
  function RecordAll(s: Sys, rs: seq<Record>): Sys {
    s.(env := s.env.(cache := ReplayFrom(s.env.cache, rs)),
       log := s.log.(records := s.log.records + rs))
  }

  lemma {:induction false} RecordMore(s: Sys, rs: seq<Record>, more: seq<Record>)
    ensures RecordAll(RecordAll(s, rs), more) == RecordAll(s, rs + more)
  {
    ReplayAppend(s.env.cache, rs, more);
    assert s.log.records + rs + more == s.log.records + (rs + more);
  }

  /** The main coroutine leaves a yield point. */
  function Resumed(s: Sys): Sys {
    s.(pc := LoopHead)
  }

  function Acting(s: Sys, a: Act): Sys {
    s.(log := s.log.(acts := s.log.acts + [a]))
  }

  function Rejection(c: Command): Record {
    Record(c.id, OpResult("", "command " + c.name + " rejected: entity deleted"))
  }

  function Rejections(cmds: seq<Command>): (rs: seq<Record>)
    ensures |rs| == |cmds|
    ensures forall k :: 0 <= k < |cmds| ==> rs[k] == Rejection(cmds[k])
  {
    if cmds == [] then [] else Rejections(cmds[..|cmds| - 1]) + [Rejection(cmds[|cmds| - 1])]
  }

  /** A merge that changed something makes the published labels stale. */
  function WithLabels(s: Sys, labels: Labels): Sys {
    s.(env := s.env.(labels := labels),
       run := s.run.(labelsDirty := s.run.labelsDirty || labels != s.env.labels))
  }

  // ----- creation -----

  function LaunchRun(d: Kind, s: Sys): Sys {
    if s.env.initialized then Resumed(s)
    else
      var creating := WithPhase(d, s, Creating);
      if d.hasInit then
        Acting(creating.(pc := AwaitInit, run := creating.run.(init := Running)), Begin(InitCallback))
      else
        Resumed(WithPhase(d, creating.(env := creating.env.(initialized := true)), Ready))
  }

  function FinishInit(d: Kind, s: Sys): Sys
    requires s.run.init.Finished?
  {
    var kept := s.(env := s.env.(state := s.run.init.state));
    if s.run.init.err == None then
      Resumed(WithPhase(d, kept.(env := kept.env.(initialized := true)), Ready))
    else if s.env.marked then Resumed(kept)
    else WithPhase(d, kept, CreateFailed).(pc := Closed)
  }

  // ----- the main loop -----

  function Close(d: Kind, s: Sys, phase: Phase): Sys {
    WithPhase(d, s, phase).(pc := Closed)
  }

  function StartFinalize(d: Kind, s: Sys): Sys {
    if d.hasFinalize then Acting(s.(pc := Finalizing), Begin(FinalizeCallback)) else Close(d, s, Deleted)
  }

  /** Every queued command is recorded as rejected. */
  function FailPending(s: Sys): Sys {
    var failed := RecordAll(s, Rejections(s.env.pending));
    failed.(env := failed.env.(pending := []),
            log := failed.log.(rejected := s.log.rejected + s.env.pending))
  }

  function BeginDeletion(d: Kind, s: Sys): Sys {
    var failed := FailPending(WithPhase(d, s, Deleting));
    if s.waiting == {} then StartFinalize(d, failed) else failed.(pc := DeletionDrain)
  }

  /** The built-in set-labels command; an undecodable patch merges nothing and records the error. */
  function ApplyLabels(d: Kind, s: Sys, c: Command): Sys {
    var decoded := d.decodePatch(c.payload);
    var labels := if decoded.Ok? then Merged(s.env.labels, decoded.value) else s.env.labels;
    var err := if decoded.Err? then Some(decoded.error) else None;
    Processed(d, RecordAll(WithLabels(s, labels), [Record(c.id, Outcome("", err))]))
  }

  function Dispatch(d: Kind, s: Sys): Sys
    requires s.env.pending != []
  {
    var c := s.env.pending[0];
    var popped := s.(env := s.env.(pending := s.env.pending[1..]),
                     log := s.log.(dispatched := s.log.dispatched + [c]));
    if c.name == SetLabelsCommandName then ApplyLabels(d, popped, c)
    else if c.name !in d.commands then
      RecordAll(popped, [Record(c.id, OpResult("", "unknown command " + c.name))])
    else Acting(popped.(pc := Executing(c)), Begin(ExecCallback(c)))
  }

  /** Continue-as-New: the next run starts on the same envelope with fresh locals. */
  function Handoff(s: Sys): Sys {
    s.(pc := Start, run := FreshRun.(mirror := s.run.mirror))
  }

  function TurnLoop(d: Kind, s: Sys): Sys {
    if s.env.marked then BeginDeletion(d, s)
    else if s.env.pending != [] then Dispatch(d, s)
    else if CanWanted(d, s.run) then
      if s.waiting == {} then Handoff(s) else s.(pc := HandoffDrain)
    else s.(pc := Idle)
  }

  function LoopMeasure(s: Sys): nat {
    if s.pc == LoopHead then 1 + |s.env.pending| else 0
  }

  lemma {:induction false} TurnShrinks(d: Kind, s: Sys)
    requires s.pc == LoopHead
    ensures LoopMeasure(TurnLoop(d, s)) < LoopMeasure(s)
  {
  }

  /** The turns the main coroutine makes before it next yields. */
  function UntilYield(d: Kind, s: Sys): Sys
    decreases LoopMeasure(s)
  {
    if s.pc != LoopHead then s else
      TurnShrinks(d, s);
      UntilYield(d, TurnLoop(d, s))
  }

  // ----- update handlers -----

  function Enqueue(s: Sys, c: Command): Sys {
    s.(env := s.env.(pending := s.env.pending + [c]),
       waiting := s.waiting + {|s.log.accepted|},
       log := s.log.(accepted := s.log.accepted + [c], seen := s.log.seen + [|s.log.records|]))
  }

  /** The validator: a rejected update leaves no trace. */
  predicate Admitted(d: Kind, s: Sys, name: CommandName, id: RequestId, payload: Raw) {
    && !s.env.marked
    && if name == SetLabelsCommandName then d.decodePatch(payload).Ok?
       else name in d.commands
            && (id in s.env.cache.completed || d.validate(name, SnapshotOf(s.env), payload) == None)
  }

  /** The handler's prefix: serve a cached outcome, or enqueue and wait. */
  function Arrive(d: Kind, s: Sys, name: CommandName, id: RequestId, payload: Raw): Sys {
    if !Admitted(d, s, name, id, payload) then s
    else if id in s.env.cache.completed then
      s.(log := s.log.(hits := s.log.hits + [Hit(id, Reply(s.env.cache.completed[id], |s.log.records|))]))
    else Enqueue(s, Command(id, name, payload))
  }

  predicate CanWake(s: Sys, slot: nat) {
    slot in s.waiting && slot < |s.log.accepted| && s.log.accepted[slot].id in s.env.cache.completed
  }

  function WakeHandler(s: Sys, slot: nat): Sys
    requires CanWake(s, slot)
  {
    var reply := Reply(s.env.cache.completed[s.log.accepted[slot].id], |s.log.records|);
    s.(waiting := s.waiting - {slot}, log := s.log.(replies := s.log.replies[slot := reply]))
  }

  // ----- the transition system -----

  predicate AtYield(pc: Pc) {
    !pc.Start? && !pc.LoopHead? && !pc.Closed?
  }

  predicate ResumeEnabled(d: Kind, s: Sys) {
    match s.pc
    case AwaitInit => s.run.init.Finished? || s.env.marked
    case AwaitAbort => s.run.init.Finished?
    case Idle => HasWork(s.env) || CanWanted(d, s.run)
    case HandoffDrain => s.waiting == {}
    case DeletionDrain => s.waiting == {}
    case _ => false
  }

  function ResumeMain(d: Kind, s: Sys): Sys
    requires ResumeEnabled(d, s)
  {
    match s.pc
    case AwaitInit => if s.run.init.Finished? then FinishInit(d, s) else s.(pc := AwaitAbort)
    case AwaitAbort => FinishInit(d, s)
    case Idle => Resumed(s)
    case HandoffDrain => Handoff(s)
    case DeletionDrain => StartFinalize(d, s)
  }

  predicate InUserCode(pc: Pc) {
    pc.Executing? || pc.Ticking?
  }

  predicate Enabled(d: Kind, s: Sys, e: Event) {
    match e
    case Launch => s.pc == Start
    case Turn => s.pc == LoopHead
    case Resume => ResumeEnabled(d, s)
    case TickDue => s.pc == Idle && d.hasReconcile && !HasWork(s.env) && !CanWanted(d, s.run)
    case InitReturns(_, _) => s.run.init == Running
    case SetSpec(_) => InUserCode(s.pc)
    case SetState(_) => InUserCode(s.pc) || s.pc == Finalizing
    case SetLabel(_, _) => InUserCode(s.pc)
    case ExecReturns(_, _) => s.pc.Executing?
    case TickReturns => s.pc == Ticking
    case FinalizeReturns(_) => s.pc == Finalizing
    case Update(_, _, _) => AtYield(s.pc)
    case Wake(slot) => AtYield(s.pc) && CanWake(s, slot)
    case DeleteSignal => AtYield(s.pc)
    case SuggestCan => AtYield(s.pc)
  }

  function FinishExec(d: Kind, s: Sys, res: Raw, err: Option<string>): Sys
    requires s.pc.Executing?
  {
    var ended := Acting(Resumed(s), End(ExecCallback(s.pc.cmd)));
    Processed(d, RecordAll(ended, [Record(s.pc.cmd.id, Outcome(res, err))]))
  }

  function Next(d: Kind, s: Sys, e: Event): Sys
    requires Enabled(d, s, e)
  {
    match e
    case Launch => LaunchRun(d, s)
    case Turn => TurnLoop(d, s)
    case Resume => ResumeMain(d, s)
    case TickDue => Acting(s.(pc := Ticking), Begin(TickCallback))
    case InitReturns(st, err) => Acting(s.(run := s.run.(init := Finished(st, err))), End(InitCallback))
    case SetSpec(spec) => s.(env := s.env.(spec := spec))
    case SetState(st) => s.(env := s.env.(state := st))
    case SetLabel(key, value) => WithLabels(s, Merged(s.env.labels, map[key := value]))
    case ExecReturns(res, err) => FinishExec(d, s, res, err)
    case TickReturns => Acting(Resumed(s), End(TickCallback))
    case FinalizeReturns(failed) =>
      Acting(Close(d, s, if failed then DeleteFailed else Deleted), End(FinalizeCallback))
    case Update(name, id, payload) => Arrive(d, s, name, id, payload)
    case Wake(slot) => WakeHandler(s, slot)
    case DeleteSignal => s.(env := s.env.(marked := true))
    case SuggestCan => s.(run := s.run.(canSuggested := true))
  }

  // ----- lives -----

  predicate Valid(d: Kind, s: Sys, evs: seq<Event>)
    decreases |evs|
  {
    evs == [] || (Enabled(d, s, evs[0]) && Valid(d, Next(d, s, evs[0]), evs[1..]))
  }

  function After(d: Kind, s: Sys, evs: seq<Event>): Sys
    requires Valid(d, s, evs)
    decreases |evs|
  {
    if evs == [] then s else After(d, Next(d, s, evs[0]), evs[1..])
  }

  /** No step of the life leads to one of these positions. */
  predicate Avoids(d: Kind, s: Sys, evs: seq<Event>, pcs: set<Pc>)
    requires Valid(d, s, evs)
    decreases |evs|
  {
    evs == [] || (Next(d, s, evs[0]).pc !in pcs && Avoids(d, Next(d, s, evs[0]), evs[1..], pcs))
  }

  lemma {:induction false} AfterAppend(d: Kind, s: Sys, evs: seq<Event>, more: seq<Event>)
    requires Valid(d, s, evs) && Valid(d, After(d, s, evs), more)
    ensures Valid(d, s, evs + more) && After(d, s, evs + more) == After(d, After(d, s, evs), more)
    decreases |evs|
  {
    if evs == [] {
      assert evs + more == more;
    } else {
      var all := evs + more;
      assert all[0] == evs[0] && all[1..] == evs[1..] + more;
      AfterAppend(d, Next(d, s, evs[0]), evs[1..], more);
    }
  }

  /** A life is its events but the last, and then the last. */
  lemma {:induction false} LastStep(d: Kind, s: Sys, evs: seq<Event>)
    requires Valid(d, s, evs) && evs != []
    ensures var before, e := evs[..|evs| - 1], evs[|evs| - 1];
      Valid(d, s, before) && Enabled(d, After(d, s, before), e) && After(d, s, evs) == Next(d, After(d, s, before), e)
    decreases |evs|
  {
    if |evs| > 1 {
      assert evs[..|evs| - 1][1..] == evs[1..][..|evs| - 2];
      LastStep(d, Next(d, s, evs[0]), evs[1..]);
    } else {
      assert evs[1..] == [] && evs[..0] == [];
    }
  }

  /** The uninterrupted turns of the loop are steps of a life. */
  lemma {:induction false} UntilYieldIsTurns(d: Kind, s: Sys) returns (evs: seq<Event>)
    ensures Valid(d, s, evs) && After(d, s, evs) == UntilYield(d, s) && UntilYield(d, s).pc != LoopHead
    ensures forall k :: 0 <= k < |evs| ==> evs[k] == Turn
    decreases LoopMeasure(s)
  {
    if s.pc != LoopHead {
      evs := [];
    } else {
      TurnShrinks(d, s);
      var rest := UntilYieldIsTurns(d, TurnLoop(d, s));
      evs := [Turn] + rest;
      assert evs[0] == Turn && evs[1..] == rest;
    }
  }
}
