/**
 The entity workflow as the source writes it: one object whose sections update the
 envelope and the run's locals in place. Every section is proved to be one step of
 `EntitySystem.Next`.
 */
module EntityWorkflow {
  import opened Entity
  import opened DedupCache
  import opened EntitySystem
  import opened LabelMerge
  import opened LifeInvariants
  import opened LifeTheorems
  import opened Wire

  /** A step of a life leads to a state of a life; at a handoff and at the finalizer nothing is queued or waits. */
  lemma {:induction false} SettledStep(d: Kind, s: Sys, e: Event)
    requires Reachable(d, s) && Enabled(d, s, e)
    ensures var t := Next(d, s, e);
      Reachable(d, t) && (t.pc == Start || t.pc == Finalizing ==> t.env.pending == [] && t.waiting == {})
  {
    ReachableNext(d, s, e);
    ReachableInv(d, Next(d, s, e));
  }

  class Workflow {
    const kind: Kind
    const env: Envelope
    var pc: Pc
    var processedThisRun: nat
    var labelsDirty: bool
    var canSuggested: bool
    var init: InitTask
    var handlers: set<nat>
    var mirror: Labels
    ghost var log: History

    ghost function View(): Sys
      reads this, env
    {
      Sys(env.View(), pc, Run(processedThisRun, labelsDirty, canSuggested, init, mirror), handlers, log)
    }

    /** Some life of an entity leads to this object's state. */
    ghost predicate Live()
      reads this, env
    {
      Reachable(kind, View())
    }

    constructor (kind: Kind, spec: Spec, zero: State, labels: Labels)
      ensures View() == Fresh(spec, zero, labels) && Live() && this.kind == kind && fresh(env)
    {
      this.kind := kind;
      env := new Envelope(spec, zero, labels);
      pc, processedThisRun, labelsDirty, canSuggested := Start, 0, false, false;
      init, handlers, mirror, log := NotStarted, {}, map[], NoHistory;
      new;
      assert Valid(kind, View(), []) && After(kind, View(), []) == View();
    }

    // ----- helpers shared by the sections -----

    method UpsertSearchAttrs()
      modifies this`mirror
      ensures View() == Upsert(kind, old(View()))
    {
      if kind.searchAttrs {
        mirror := env.labels;
      }
    }

    method MirrorLabels()
      modifies this`mirror, this`labelsDirty
      ensures View() == EntitySystem.MirrorLabels(kind, old(View()))
    {
      if !labelsDirty {
        return;
      }
      labelsDirty := false;
      UpsertSearchAttrs();
    }

    method CountProcessed()
      modifies this`processedThisRun, this`mirror, this`labelsDirty
      ensures View() == Processed(kind, old(View()))
    {
      processedThisRun := processedThisRun + 1;
      MirrorLabels();
    }

    method EnterPhase(phase: Phase)
      modifies env`phase, this`mirror, this`log
      ensures View() == WithPhase(kind, old(View()), phase)
    {
      env.phase := phase;
      log := log.(phases := log.phases + [phase]);
      UpsertSearchAttrs();
    }

    method Record(c: Command, res: Raw, err: Option<string>)
      modifies env`completed, env`completedOrder, this`log
      ensures View() == RecordAll(old(View()), [DedupCache.Record(c.id, Outcome(res, err))])
    {
      ghost var r := DedupCache.Record(c.id, Outcome(res, err));
      env.RecordCompleted(c.id, res, err);
      log := log.(records := log.records + [r]);
      assert ReplayFrom(old(View()).env.cache, [r]) == Recorded(old(View()).env.cache, r) by {
        assert [r][..0] == [];
      }
    }

    ghost method Acted(a: Act)
      modifies this`log
      ensures View() == Acting(old(View()), a)
    {
      log := log.(acts := log.acts + [a]);
    }

    // ----- creation -----

    /** The first section of a run. */
    method LaunchRun()
      requires Live()
      requires pc == Start
      modifies this, env
      ensures View() == Next(kind, old(View()), Launch)
      ensures Live()
    {
      ReachableNext(kind, View(), Launch);
      if !env.initialized {
        EnterPhase(Creating);
        if kind.hasInit {
          pc, init := AwaitInit, Running;
          Acted(Begin(InitCallback));
          return;
        }
        env.initialized := true;
        EnterPhase(Ready);
      }
      pc := LoopHead;
    }

    method InitReturned(st: State, err: Option<string>)
      requires Live()
      requires init == Running
      modifies this
      ensures View() == Next(kind, old(View()), InitReturns(st, err))
      ensures Live()
    {
      ReachableNext(kind, View(), InitReturns(st, err));
      init := Finished(st, err);
      Acted(End(InitCallback));
    }

    method CreationResumes()
      requires Live()
      requires (pc == AwaitInit && (init.Finished? || env.markedForDeletion)) || (pc == AwaitAbort && init.Finished?)
      modifies this, env
      ensures View() == Next(kind, old(View()), Resume)
      ensures Live()
      ensures !init.Finished? ==> pc == AwaitAbort && env.state == old(env.state)
      ensures init.Finished? ==> env.state == init.state
      ensures init.Finished? ==> (env.phase == Ready <==> init.err == None)
      ensures init.Finished? ==>
        (pc == Closed && env.phase == CreateFailed <==> init.err.Some? && !env.markedForDeletion)
    {
      ReachableNext(kind, View(), Resume);
      ReachableInv(kind, View());
      if !init.Finished? {
        pc := AwaitAbort;
        return;
      }
      env.state := init.state;
      if init.err == None {
        env.initialized := true;
        EnterPhase(Ready);
      } else if !env.markedForDeletion {
        EnterPhase(CreateFailed);
        pc := Closed;
        return;
      }
      pc := LoopHead;
    }

    // ----- the main loop -----

    method CanWanted() returns (wanted: bool)
      ensures wanted == EntitySystem.CanWanted(kind, View().run)
    {
      wanted := canSuggested || (kind.forceCanEvery > 0 && processedThisRun >= kind.forceCanEvery);
    }

    /** One iteration of the loop, up to its `continue` or its wait. */
    method TurnLoop()
      requires Live()
      requires pc == LoopHead
      modifies this, env
      ensures View() == Next(kind, old(View()), Turn)
      ensures Live() && (pc == Start || pc == Finalizing ==> env.pending == [] && handlers == {})
    {
      SettledStep(kind, View(), Turn);
      if env.markedForDeletion {
        BeginDeletion();
        return;
      }
      if env.pending != [] {
        Dispatch();
        return;
      }
      var wanted := CanWanted();
      if !wanted {
        pc := Idle;
      } else if handlers == {} {
        ContinueAsNew();
      } else {
        pc := HandoffDrain;
      }
    }

    /** Turns without a yield in between: the loop until it waits or calls user code. */
    method RunLoop()
      requires Live() && pc == LoopHead
      modifies this, env
      ensures View() == UntilYield(kind, old(View())) && Live()
      ensures pc == Start ==> env.pending == [] && handlers == {}
    {
      while pc == LoopHead
        invariant UntilYield(kind, View()) == UntilYield(kind, old(View())) && Live()
        invariant pc == Start ==> env.pending == [] && handlers == {}
        decreases LoopMeasure(View())
      {
        TurnShrinks(kind, View());
        TurnLoop();
      }
    }

    method Dispatch()
      requires pc == LoopHead && !env.markedForDeletion && env.pending != []
      modifies this, env
      ensures View() == EntitySystem.Dispatch(kind, old(View()))
    {
      var c := env.pending[0];
      env.pending := env.pending[1..];
      log := log.(dispatched := log.dispatched + [c]);
      if c.name == SetLabelsCommandName {
        ApplyLabels(c);
      } else if c.name !in kind.commands {
        Record(c, "", Some("unknown command " + c.name));
      } else {
        pc := Executing(c);
        Acted(Begin(ExecCallback(c)));
      }
    }

    method ApplyLabels(c: Command)
      modifies this`labelsDirty, this`log, this`processedThisRun, this`mirror
      modifies env`labels, env`completed, env`completedOrder
      ensures View() == EntitySystem.ApplyLabels(kind, old(View()), c)
    {
      var decoded := kind.decodePatch(c.payload);
      if decoded.Ok? {
        MergeInto(decoded.value);
      }
      Record(c, "", if decoded.Err? then Some(decoded.error) else None);
      CountProcessed();
    }

    /** A merge that changed something makes the published labels stale. */
    method MergeInto(patch: Labels)
      modifies this`labelsDirty, env`labels
      ensures View() == WithLabels(old(View()), Merged(old(env.labels), patch))
    {
      var changed := env.MergeLabels(patch);
      labelsDirty := labelsDirty || changed;
    }

    method ExecReturned(res: Raw, err: Option<string>)
      requires Live()
      requires pc.Executing?
      modifies this, env
      ensures View() == Next(kind, old(View()), ExecReturns(res, err))
      ensures Live()
    {
      ReachableNext(kind, View(), ExecReturns(res, err));
      var c := pc.cmd;
      pc := LoopHead;
      Acted(End(ExecCallback(c)));
      Record(c, res, err);
      CountProcessed();
    }

    method ContinueAsNew()
      modifies this
      ensures View() == Handoff(old(View()))
    {
      pc, processedThisRun, labelsDirty, canSuggested, init := Start, 0, false, false, NotStarted;
    }

    // ----- deletion -----

    method RejectPending()
      modifies env`completed, env`completedOrder, this`log
      ensures View() == RecordAll(old(View()), Rejections(env.pending))
    {
      for i := 0 to |env.pending|
        invariant View() == RecordAll(old(View()), Rejections(env.pending[..i]))
      {
        var c := env.pending[i];
        ghost var before := Rejections(env.pending[..i]);
        Record(c, "", Some("command " + c.name + " rejected: entity deleted"));
        assert env.pending[..i + 1][..i] == env.pending[..i];
        RecordMore(old(View()), before, [Rejection(c)]);
      }
      assert env.pending[..|env.pending|] == env.pending;
    }

    method FailPending()
      modifies env`completed, env`completedOrder, env`pending, this`log
      ensures View() == EntitySystem.FailPending(old(View()))
    {
      RejectPending();
      log := log.(rejected := log.rejected + env.pending);
      env.pending := [];
    }

    method BeginDeletion()
      requires pc == LoopHead && env.markedForDeletion
      modifies this, env
      ensures View() == EntitySystem.BeginDeletion(kind, old(View()))
    {
      EnterPhase(Deleting);
      FailPending();
      if handlers == {} {
        StartFinalize();
      } else {
        pc := DeletionDrain;
      }
    }

    method StartFinalize()
      modifies this, env
      ensures View() == EntitySystem.StartFinalize(kind, old(View()))
      ensures if kind.hasFinalize then pc == Finalizing && env.phase == old(env.phase)
              else pc == Closed && env.phase == Deleted
    {
      if kind.hasFinalize {
        pc := Finalizing;
        Acted(Begin(FinalizeCallback));
      } else {
        EnterPhase(Deleted);
        pc := Closed;
      }
    }

    method FinalizeReturned(failed: bool)
      requires Live()
      requires pc == Finalizing
      modifies this, env
      ensures View() == Next(kind, old(View()), FinalizeReturns(failed))
      ensures Live() && pc == Closed && env.phase == if failed then DeleteFailed else Deleted
    {
      ReachableNext(kind, View(), FinalizeReturns(failed));
      EnterPhase(if failed then DeleteFailed else Deleted);
      pc := Closed;
      Acted(End(FinalizeCallback));
    }

    // ----- waits of the main coroutine -----

    method WaitResumes()
      requires Live()
      requires pc == Idle || pc == HandoffDrain || pc == DeletionDrain
      requires ResumeEnabled(kind, View())
      modifies this, env
      ensures View() == Next(kind, old(View()), Resume)
      ensures Live() && (pc == Start || pc == Finalizing ==> env.pending == [] && handlers == {})
    {
      SettledStep(kind, View(), Resume);
      if pc == Idle {
        pc := LoopHead;
      } else if pc == HandoffDrain {
        ContinueAsNew();
      } else {
        StartFinalize();
      }
    }

    method WaitTimesOut()
      requires Live()
      requires pc == Idle && kind.hasReconcile && !HasWork(env.View()) && !EntitySystem.CanWanted(kind, View().run)
      modifies this
      ensures View() == Next(kind, old(View()), TickDue)
      ensures Live()
    {
      ReachableNext(kind, View(), TickDue);
      pc := Ticking;
      Acted(Begin(TickCallback));
    }

    method TickReturned()
      requires Live()
      requires pc == Ticking
      modifies this
      ensures View() == Next(kind, old(View()), TickReturns)
      ensures Live()
    {
      ReachableNext(kind, View(), TickReturns);
      pc := LoopHead;
      Acted(End(TickCallback));
    }

    method SetSpec(spec: Spec)
      requires Live()
      requires InUserCode(pc)
      modifies env`spec
      ensures View() == Next(kind, old(View()), Event.SetSpec(spec))
      ensures Live()
    {
      ReachableNext(kind, View(), Event.SetSpec(spec));
      env.spec := spec;
    }

    method SetState(st: State)
      requires Live()
      requires InUserCode(pc) || pc == Finalizing
      modifies env`state
      ensures View() == Next(kind, old(View()), Event.SetState(st))
      ensures Live()
    {
      ReachableNext(kind, View(), Event.SetState(st));
      env.state := st;
    }

    /** Ctx.SetLabel, from a command handler or a tick. */
    method SetLabel(key: string, value: string)
      requires Live()
      requires InUserCode(pc)
      modifies this`labelsDirty, env`labels
      ensures View() == Next(kind, old(View()), Event.SetLabel(key, value))
      ensures Live() && (labelsDirty <==> old(labelsDirty) || env.labels != old(env.labels))
      ensures (key in env.labels <==> value != "") && (value != "" ==> env.labels[key] == value)
    {
      ReachableNext(kind, View(), Event.SetLabel(key, value));
      MergeInto(map[key := value]);
    }

    // ----- the other coroutines -----

    method DeleteSignalled()
      requires Live()
      requires AtYield(pc)
      modifies env
      ensures View() == Next(kind, old(View()), DeleteSignal)
      ensures Live()
    {
      ReachableNext(kind, View(), DeleteSignal);
      env.markedForDeletion := true;
    }

    /** The server suggests Continue-as-New. */
    method CanSuggested()
      requires Live()
      requires AtYield(pc)
      modifies this`canSuggested
      ensures View() == Next(kind, old(View()), SuggestCan)
      ensures Live()
    {
      ReachableNext(kind, View(), SuggestCan);
      canSuggested := true;
    }

    /**
     Validator and handler prefix of one update; `reply` is set when a cached outcome is served.
     `slot` identifies the handler coroutine.
     */
    method UpdateArrived(name: CommandName, id: RequestId, payload: Raw, slot: nat)
      returns (refused: bool, reply: Option<OpResult>)
      requires Live()
      requires AtYield(pc) && slot == |log.accepted|
      modifies this, env
      ensures View() == Next(kind, old(View()), Update(name, id, payload))
      ensures Live()
      ensures refused <==>
        || old(env.markedForDeletion)
        || (name == "entity-set-labels" && kind.decodePatch(payload).Err?)
        || (name != "entity-set-labels" && name !in kind.commands)
        || (name != "entity-set-labels" && id !in old(env.completed)
            && kind.validate(name, old(Snapshot(env.phase, env.spec, env.state, env.labels, |env.pending|,
                                                env.markedForDeletion)), payload) != None)
      ensures refused ==> View() == old(View())
      ensures !refused && id !in old(env.completed) ==> env.pending == old(env.pending) + [Command(id, name, payload)]
      ensures reply == if !refused && id in old(env.completed) then Some(old(env.completed[id])) else None
    {
      ReachableNext(kind, View(), Update(name, id, payload));
      reply := None;
      refused := env.markedForDeletion;
      if !refused {
        if name == SetLabelsCommandName {
          refused := kind.decodePatch(payload).Err?;
        } else if name !in kind.commands {
          refused := true;
        } else if id !in env.completed {
          var snapshot := env.TakeSnapshot();
          refused := kind.validate(name, snapshot, payload) != None;
        }
      }
      if refused {
        return;
      }
      if id in env.completed {
        reply := Some(env.completed[id]);
        log := log.(hits := log.hits + [Hit(id, Reply(env.completed[id], |log.records|))]);
        return;
      }
      env.pending := env.pending + [Command(id, name, payload)];
      handlers := handlers + {slot};
      log := log.(accepted := log.accepted + [Command(id, name, payload)], seen := log.seen + [|log.records|]);
    }

    /** The handler's condition holds: it returns the cached outcome to its caller. */
    method HandlerWakes(slot: nat, id: RequestId) returns (reply: Result<Raw>)
      requires Live()
      requires AtYield(pc) && CanWake(View(), slot) && id == log.accepted[slot].id
      modifies this
      ensures View() == Next(kind, old(View()), Wake(slot))
      ensures Live()
      ensures reply == UpdateResult(log.replies[slot].outcome)
      ensures UniqueSlot(log.accepted, slot) ==>
        slot < |log.records| && reply == UpdateResult(log.records[slot].outcome)
    {
      ReachableNext(kind, View(), Wake(slot));
      if UniqueSlot(log.accepted, slot) {
        UniqueReplyIsOwn(kind, Next(kind, View(), Wake(slot)), slot);
      }
      reply := UpdateResult(env.completed[id]);
      handlers := handlers - {slot};
      log := log.(replies := log.replies[slot := Reply(env.completed[id], |log.records|)]);
    }
  }
}
