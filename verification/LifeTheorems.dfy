/** The promises of the chassis over an entity's whole life, across any number of Continue-as-New handoffs. */
module LifeTheorems {
  import opened Entity
  import opened DedupCache
  import opened EntitySystem
  import opened LifeChanges
  import opened LifeInvariants

  /** A state some entity can be in. */
  ghost predicate Reachable(d: Kind, s: Sys) {
    exists spec: Spec, zero: State, labels: Labels, evs: seq<Event> ::
      Valid(d, Fresh(spec, zero, labels), evs) && After(d, Fresh(spec, zero, labels), evs) == s
  }

  lemma {:induction false} ReachableInv(d: Kind, s: Sys)
    requires Reachable(d, s)
    ensures Inv(d, s)
  {
    var spec: Spec, zero: State, labels: Labels, evs: seq<Event> :|
      Valid(d, Fresh(spec, zero, labels), evs) && After(d, Fresh(spec, zero, labels), evs) == s;
    InvFresh(d, spec, zero, labels);
    InvAlways(d, Fresh(spec, zero, labels), evs);
  }

  lemma {:induction false} ReachableAfter(d: Kind, s: Sys, evs: seq<Event>)
    requires Reachable(d, s) && Valid(d, s, evs)
    ensures Reachable(d, After(d, s, evs))
  {
    var spec: Spec, zero: State, labels: Labels, before: seq<Event> :|
      Valid(d, Fresh(spec, zero, labels), before) && After(d, Fresh(spec, zero, labels), before) == s;
    AfterAppend(d, Fresh(spec, zero, labels), before, evs);
    assert After(d, Fresh(spec, zero, labels), before + evs) == After(d, s, evs);
  }

  lemma {:induction false} ReachableNext(d: Kind, s: Sys, e: Event)
    requires Reachable(d, s) && Enabled(d, s, e)
    ensures Reachable(d, Next(d, s, e))
  {
    assert [e][0] == e && [e][1..] == [];
    assert Valid(d, Next(d, s, e), []);
    assert Valid(d, s, [e]);
    assert After(d, s, [e]) == After(d, Next(d, s, e), []);
    ReachableAfter(d, s, [e]);
  }

  // ----- conservation and order -----

  /**
   Every accepted command was dispatched, rejected by deletion or still waits, in the order of
   acceptance; outcomes are recorded in that order too, and a rejected slot records its rejection.
   */
  lemma {:induction false} NothingLostInOrder(d: Kind, s: Sys)
    requires Reachable(d, s)
    ensures s.log.accepted == s.log.dispatched + s.log.rejected + s.env.pending
    ensures |s.log.records| + InFlight(s) + |s.env.pending| == |s.log.accepted|
    ensures forall k :: 0 <= k < |s.log.records| ==> s.log.records[k].id == s.log.accepted[k].id
    ensures forall k :: |s.log.dispatched| <= k < |s.log.records| ==>
      s.log.records[k].outcome == OpResult("", "command " + s.log.accepted[k].name + " rejected: entity deleted")
    ensures s.pc == Closed && s.env.pending != [] ==> s.env.phase == CreateFailed && s.log.dispatched == []
  {
    ReachableInv(d, s);
  }

  /** Histories only grow; a delete mark is never taken back and freezes acceptance and dispatch. */
  ghost predicate Grows(s: Sys, t: Sys) {
    && s.log.accepted <= t.log.accepted
    && s.log.dispatched <= t.log.dispatched
    && s.log.records <= t.log.records
    && (s.env.marked ==> t.env.marked && t.log.accepted == s.log.accepted && t.log.dispatched == s.log.dispatched)
  }

  lemma {:induction false} StepGrows(d: Kind, s: Sys, e: Event)
    requires Enabled(d, s, e)
    ensures Grows(s, Next(d, s, e))
  {
    StepChanges(d, s, e);
  }

  lemma {:induction false} LifeGrows(d: Kind, s: Sys, evs: seq<Event>)
    requires Valid(d, s, evs)
    ensures Grows(s, After(d, s, evs))
    decreases |evs|
  {
    if evs != [] {
      StepGrows(d, s, evs[0]);
      LifeGrows(d, Next(d, s, evs[0]), evs[1..]);
    }
  }

  // ----- deduplication -----

  /**
   An admitted update is enqueued exactly when its id was never recorded, or at least
   `CompletedOpsCap` new ids were inserted since its latest insertion.
   */
  lemma {:induction false} EnqueuedIffNotRemembered(d: Kind, s: Sys, name: CommandName, id: RequestId, payload: Raw)
    requires Reachable(d, s) && AtYield(s.pc) && Admitted(d, s, name, id, payload)
    ensures Next(d, s, Update(name, id, payload)).log.accepted != s.log.accepted
       <==> !EverRecorded(s.log.records, id) || InsertedSince(s.log.records, id) >= CompletedOpsCap
  {
    ReachableInv(d, s);
    CachedIffRecent(s.log.records, id);
  }

  /**
   At most once, across all runs: a second command with the same id was accepted either while the
   first was still pending or in flight, or after `CompletedOpsCap` insertions had pushed it out.
   */
  lemma {:induction false} DispatchedAtMostOnce(d: Kind, s: Sys, i: nat, j: nat)
    requires Reachable(d, s) && i < j < |s.log.accepted|
    requires s.log.accepted[i].id == s.log.accepted[j].id
    ensures |s.log.seen| == |s.log.accepted| && s.log.seen[j] <= |s.log.records|
    ensures s.log.seen[j] <= i
         || InsertedSince(s.log.records[..s.log.seen[j]], s.log.accepted[j].id) >= CompletedOpsCap
  {
    ReachableInv(d, s);
    var before := s.log.records[..s.log.seen[j]];
    var id := s.log.accepted[j].id;
    CachedIffRecent(before, id);
    if i < s.log.seen[j] {
      assert before[i].id == id;
    }
  }

  // ----- replies -----

  lemma {:induction false} CachedIsRecorded(records: seq<Record>, id: RequestId, reply: Reply) returns (m: nat)
    requires CachedThen(records, id, reply)
    ensures m < reply.at && records[m] == Record(id, reply.outcome)
  {
    var h := records[..reply.at];
    CacheRefinesHistory(h);
    m := LatestIndex(h, id);
  }

  lemma {:induction false} LatestIndex(h: seq<Record>, id: RequestId) returns (m: nat)
    requires Latest(h, id).Some?
    ensures m < |h| && h[m] == Record(id, Latest(h, id).value)
    decreases |h|
  {
    if h[|h| - 1].id == id {
      m := |h| - 1;
    } else {
      m := LatestIndex(h[..|h| - 1], id);
    }
  }

  /** Whatever a caller is told was recorded for its request id, by some command with that id. */
  lemma {:induction false} RepliesWereRecorded(d: Kind, s: Sys, slot: nat) returns (m: nat)
    requires Reachable(d, s) && slot in s.log.replies
    ensures slot < |s.log.accepted| && m < |s.log.records| <= |s.log.accepted|
    ensures s.log.records[m] == Record(s.log.accepted[slot].id, s.log.replies[slot].outcome)
    ensures s.log.accepted[m].id == s.log.accepted[slot].id
  {
    ReachableInv(d, s);
    m := CachedIsRecorded(s.log.records, s.log.accepted[slot].id, s.log.replies[slot]);
  }

  /** The same for a caller served from the cache. */
  lemma {:induction false} HitsWereRecorded(d: Kind, s: Sys, i: nat) returns (m: nat)
    requires Reachable(d, s) && i < |s.log.hits|
    ensures m < |s.log.records|
    ensures s.log.records[m] == Record(s.log.hits[i].id, s.log.hits[i].reply.outcome)
  {
    ReachableInv(d, s);
    m := CachedIsRecorded(s.log.records, s.log.hits[i].id, s.log.hits[i].reply);
  }

  /**
   Every caller whose command was accepted either still waits or has been answered, once; when an entity
   hands off or is deleted, all of them have been.
   */
  lemma {:induction false} CallersAccountedFor(d: Kind, s: Sys)
    requires Reachable(d, s)
    ensures forall slot: nat :: slot < |s.log.accepted| <==> slot in s.waiting || slot in s.log.replies
    ensures s.waiting !! s.log.replies.Keys
    ensures s.pc == Start || (s.pc == Closed && s.env.phase != CreateFailed) ==> s.waiting == {}
  {
    ReachableInv(d, s);
  }

  predicate UniqueSlot(accepted: seq<Command>, slot: nat) {
    slot < |accepted| && forall k :: 0 <= k < |accepted| && k != slot ==> accepted[k].id != accepted[slot].id
  }

  /** With a unique request id the reply is the slot's own outcome: its execution, or its deletion rejection. */
  lemma {:induction false} UniqueReplyIsOwn(d: Kind, s: Sys, slot: nat)
    requires Reachable(d, s) && slot in s.log.replies && UniqueSlot(s.log.accepted, slot)
    ensures slot < |s.log.records| && s.log.replies[slot].outcome == s.log.records[slot].outcome
    ensures slot >= |s.log.dispatched| ==> s.log.records[slot] == Rejection(s.log.accepted[slot])
  {
    var m := RepliesWereRecorded(d, s, slot);
    ReachableInv(d, s);
  }

  /** From return value to caller: what executing a command with a unique id returned is what its caller gets. */
  lemma {:induction false} ExecutionReachesCaller(d: Kind, s: Sys, res: Raw, err: Option<string>, evs: seq<Event>)
    requires Reachable(d, s) && s.pc.Executing? && Valid(d, Next(d, s, ExecReturns(res, err)), evs)
    requires var t := After(d, Next(d, s, ExecReturns(res, err)), evs);
      UniqueSlot(t.log.accepted, |s.log.records|) && |s.log.records| in t.log.replies
    ensures var t := After(d, Next(d, s, ExecReturns(res, err)), evs);
      var slot := |s.log.records|;
      t.log.accepted[slot] == s.pc.cmd && t.log.replies[slot].outcome == Outcome(res, err)
  {
    ReachableInv(d, s);
    var u := Next(d, s, ExecReturns(res, err));
    var t := After(d, u, evs);
    ReachableNext(d, s, ExecReturns(res, err));
    ReachableAfter(d, u, evs);
    StepGrows(d, s, ExecReturns(res, err));
    StepChanges(d, s, ExecReturns(res, err));
    LifeGrows(d, u, evs);
    UniqueReplyIsOwn(d, t, |s.log.records|);
    assert u.log.records[|s.log.records|] == Record(s.pc.cmd.id, Outcome(res, err));
    assert s.log.accepted[|s.log.records|] == s.pc.cmd;
  }

  // ----- handoff and registration -----

  /** Whenever a run continues as new, nothing is pending and no handler waits. */
  lemma {:induction false} NothingPendingAtHandoff(d: Kind, s: Sys, e: Event)
    requires Reachable(d, s) && Enabled(d, s, e) && Next(d, s, e).pc == Start
    ensures s.env.pending == [] && s.waiting == {}
    ensures Next(d, s, e) == Handoff(s)
  {
    ReachableInv(d, s);
    if s.pc == HandoffDrain && s.waiting == {} {
      NothingPendingWhenDrained(s);
    }
    OnlyHandoffRestarts(d, s, e);
  }

  lemma {:induction false} OnlyHandoffRestarts(d: Kind, s: Sys, e: Event)
    requires ShapeOk(d, s) && Enabled(d, s, e) && Next(d, s, e).pc == Start
    ensures Next(d, s, e) == Handoff(s) && s.waiting == {}
    ensures s.pc == HandoffDrain || (s.pc == LoopHead && s.env.pending == [])
  {
  }

  /** The loop never meets a command it has no handler for, nor a label patch it cannot decode, in any run. */
  lemma {:induction false} EveryQueuedCommandIsKnown(d: Kind, s: Sys)
    requires Reachable(d, s) && s.env.pending != []
    ensures s.env.pending[0].name == SetLabelsCommandName || s.env.pending[0].name in d.commands
    ensures s.env.pending[0].name == SetLabelsCommandName ==> d.decodePatch(s.env.pending[0].payload).Ok?
  {
    ReachableInv(d, s);
    assert s.log.accepted[|s.log.dispatched| + |s.log.rejected|] == s.env.pending[0];
  }

  // ----- set-labels callers -----

  /** User code never runs a set-labels command, and every one the loop has processed succeeded. */
  ghost predicate PatchesOk(s: Sys) {
    && (s.pc.Executing? ==> s.pc.cmd.name != SetLabelsCommandName)
    && forall k :: 0 <= k < |s.log.records| && k < |s.log.dispatched| && k < |s.log.accepted| ==>
         s.log.accepted[k].name == SetLabelsCommandName ==> s.log.records[k].outcome == OpResult("", "")
  }

  lemma {:induction false} PatchesKept(d: Kind, s: Sys, e: Event)
    requires Inv(d, s) && PatchesOk(s) && Enabled(d, s, e)
    ensures PatchesOk(Next(d, s, e))
  {
    var t, ch := Next(d, s, e), ChangeOf(d, s, e);
    StepChanges(d, s, e);
    if ch.PoppedAndDone? {
      LabelsRecorded(d, s);
      PatchesAfterPatch(s, t, ch);
    } else {
      PatchesAfterOther(s, t, ch);
    }
  }

  lemma {:induction false} PatchesAfterPatch(s: Sys, t: Sys, ch: Change)
    requires Ledger(s) && PatchesOk(s) && Changes(s, t, ch) && ch.PoppedAndDone?
    requires |s.log.records| < |s.log.accepted| && s.log.accepted[|s.log.records|] == s.env.pending[0]
    requires s.env.pending[0].name == SetLabelsCommandName ==> ch.r.outcome == OpResult("", "")
    ensures PatchesOk(t)
  {
    assert t.log.records == s.log.records + [ch.r];
  }

  lemma {:induction false} PatchesAfterOther(s: Sys, t: Sys, ch: Change)
    requires Ledger(s) && PatchesOk(s) && Changes(s, t, ch) && !ch.PoppedAndDone?
    ensures PatchesOk(t)
  {
    if ch.RejectedAll? {
      assert |s.log.records| == |s.log.dispatched| == |t.log.dispatched|;
    } else if ch.Done? {
      assert s.log.accepted[|s.log.records|] == s.pc.cmd;
    }
  }

  lemma {:induction false} LabelsRecorded(d: Kind, s: Sys)
    requires Inv(d, s) && s.pc == LoopHead && !s.env.marked && s.env.pending != []
    ensures |s.log.records| < |s.log.accepted| && s.log.accepted[|s.log.records|] == s.env.pending[0]
    ensures s.env.pending[0].name == SetLabelsCommandName ==>
      TurnChange(d, s) == PoppedAndDone(Record(s.env.pending[0].id, OpResult("", "")))
  {
    assert s.log.rejected == [];
    assert s.log.accepted[|s.log.records|] == s.env.pending[0];
  }

  lemma {:induction false} PatchesAlways(d: Kind, s: Sys, evs: seq<Event>)
    requires Inv(d, s) && PatchesOk(s) && Valid(d, s, evs)
    ensures PatchesOk(After(d, s, evs))
    decreases |evs|
  {
    if evs != [] {
      InvKept(d, s, evs[0]);
      PatchesKept(d, s, evs[0]);
      PatchesAlways(d, Next(d, s, evs[0]), evs[1..]);
    }
  }

  /** A set-labels caller with a unique id is told success, or that the entity is being deleted. */
  lemma {:induction false} SetLabelsSucceeds(d: Kind, s: Sys, slot: nat)
    requires Reachable(d, s) && slot in s.log.replies && UniqueSlot(s.log.accepted, slot)
    requires s.log.accepted[slot].name == SetLabelsCommandName
    ensures slot < |s.log.dispatched| ==> UpdateResult(s.log.replies[slot].outcome) == Ok("")
    ensures slot >= |s.log.dispatched| ==> s.log.replies[slot].outcome == Rejection(s.log.accepted[slot]).outcome
  {
    var spec: Spec, zero: State, labels: Labels, evs: seq<Event> :|
      Valid(d, Fresh(spec, zero, labels), evs) && After(d, Fresh(spec, zero, labels), evs) == s;
    InvFresh(d, spec, zero, labels);
    PatchesAlways(d, Fresh(spec, zero, labels), evs);
    UniqueReplyIsOwn(d, s, slot);
  }
}
