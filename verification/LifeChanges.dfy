/**
 What one step does to the books of an entity: its queue, cache, handlers and history.
 Invariants are proved over these changes, not over the sections that make them.
 */
module LifeChanges {
  import opened Entity
  import opened DedupCache
  import opened EntitySystem

  datatype Change =
    | Nothing
    | Popped                    // a user command leaves the queue and starts executing
    | PoppedAndDone(r: Record)  // a built-in command leaves the queue and is recorded
    | Done(r: Record)           // the executing command is recorded
    | RejectedAll               // deletion fails every queued command
    | Enqueued(c: Command)      // an update is accepted and its handler waits
    | Served(id: RequestId)     // an update is answered from the cache
    | Woken(slot: nat)          // a waiting handler returns

  function InFlight(s: Sys): nat {
    if s.pc.Executing? then 1 else 0
  }

  function NewRecords(s: Sys, ch: Change): seq<Record> {
    match ch
    case PoppedAndDone(r) => [r]
    case Done(r) => [r]
    case RejectedAll => Rejections(s.env.pending)
    case _ => []
  }

  predicate Ending(pc: Pc) {
    pc == DeletionDrain || pc == Finalizing || pc == Closed
  }

  /** Up to the callbacks and the phases, the history of `t` is `h`. */
  ghost predicate Logs(t: Sys, h: History) {
    t.log == h.(acts := t.log.acts, phases := t.log.phases)
  }

  ghost predicate Changes(s: Sys, t: Sys, ch: Change) {
    && (s.env.marked ==> t.env.marked)
    && match ch
       case Nothing =>
         && Logs(t, s.log) && t.env.cache == s.env.cache
         && t.env.pending == s.env.pending && t.waiting == s.waiting
         && InFlight(t) == InFlight(s) && (s.pc.Executing? ==> t.pc == s.pc)
         && (Ending(s.pc) ==> Ending(t.pc))
         && (t.pc == HandoffDrain && s.pc != HandoffDrain ==> s.pc == LoopHead && s.env.pending == [])
       case Popped =>
         && s.pc == LoopHead && !s.env.marked && s.env.pending != []
         && t.pc == Executing(s.env.pending[0]) && s.env.pending[0].name != SetLabelsCommandName
         && Logs(t, s.log.(dispatched := s.log.dispatched + [s.env.pending[0]])) && t.env.cache == s.env.cache
         && t.env.pending == s.env.pending[1..] && t.waiting == s.waiting
       case PoppedAndDone(r) =>
         && s.pc == LoopHead && !s.env.marked && s.env.pending != []
         && t.pc == LoopHead && r.id == s.env.pending[0].id
         && Logs(t, s.log.(dispatched := s.log.dispatched + [s.env.pending[0]], records := s.log.records + [r]))
         && t.env.cache == ReplayFrom(s.env.cache, [r])
         && t.env.pending == s.env.pending[1..] && t.waiting == s.waiting
       case Done(r) =>
         && s.pc.Executing? && r.id == s.pc.cmd.id && t.pc == LoopHead
         && Logs(t, s.log.(records := s.log.records + [r])) && t.env.cache == ReplayFrom(s.env.cache, [r])
         && t.env.pending == s.env.pending && t.waiting == s.waiting
       case RejectedAll =>
         && s.pc == LoopHead && s.env.marked && Ending(t.pc)
         && Logs(t, s.log.(rejected := s.log.rejected + s.env.pending,
                           records := s.log.records + Rejections(s.env.pending)))
         && t.env.cache == ReplayFrom(s.env.cache, Rejections(s.env.pending))
         && t.env.pending == [] && t.waiting == s.waiting
       case Enqueued(c) =>
         && AtYield(s.pc) && !s.env.marked && t.pc == s.pc && c.id !in s.env.cache.completed
         && Logs(t, s.log.(accepted := s.log.accepted + [c], seen := s.log.seen + [|s.log.records|]))
         && t.env.cache == s.env.cache
         && t.env.pending == s.env.pending + [c] && t.waiting == s.waiting + {|s.log.accepted|}
       case Served(id) =>
         && AtYield(s.pc) && t.pc == s.pc && id in s.env.cache.completed
         && Logs(t, s.log.(hits := s.log.hits + [Hit(id, Reply(s.env.cache.completed[id], |s.log.records|))]))
         && t.env.cache == s.env.cache
         && t.env.pending == s.env.pending && t.waiting == s.waiting
       case Woken(slot) =>
         && AtYield(s.pc) && t.pc == s.pc && CanWake(s, slot)
         && Logs(t, s.log.(replies := s.log.replies[slot :=
              Reply(s.env.cache.completed[s.log.accepted[slot].id], |s.log.records|)]))
         && t.env.cache == s.env.cache
         && t.env.pending == s.env.pending && t.waiting == s.waiting - {slot}
  }

  function TurnChange(d: Kind, s: Sys): Change {
    if s.env.marked then RejectedAll
    else if s.env.pending == [] then Nothing
    else
      var c := s.env.pending[0];
      if c.name == SetLabelsCommandName then
        var decoded := d.decodePatch(c.payload);
        PoppedAndDone(Record(c.id, Outcome("", if decoded.Err? then Some(decoded.error) else None)))
      else if c.name in d.commands then Popped
      else PoppedAndDone(Record(c.id, OpResult("", "unknown command " + c.name)))
  }

  function ChangeOf(d: Kind, s: Sys, e: Event): Change
    requires Enabled(d, s, e)
  {
    match e
    case Turn => TurnChange(d, s)
    case ExecReturns(res, err) => Done(Record(s.pc.cmd.id, Outcome(res, err)))
    case Update(name, id, payload) =>
      if !Admitted(d, s, name, id, payload) then Nothing
      else if id in s.env.cache.completed then Served(id)
      else Enqueued(Command(id, name, payload))
    case Wake(slot) => Woken(slot)
    case _ => Nothing
  }

  lemma {:induction false} DeletionChanges(d: Kind, s: Sys)
    requires s.pc == LoopHead && s.env.marked
    ensures Changes(s, BeginDeletion(d, s), RejectedAll)
  {
  }

  lemma {:induction false} DispatchChanges(d: Kind, s: Sys)
    requires s.pc == LoopHead && !s.env.marked && s.env.pending != []
    ensures Changes(s, Dispatch(d, s), TurnChange(d, s))
  {
  }

  lemma {:induction false} CreationChanges(d: Kind, s: Sys, e: Event)
    requires Enabled(d, s, e)
    requires e.Launch? || (e.Resume? && (s.pc == AwaitInit || s.pc == AwaitAbort))
    ensures Changes(s, Next(d, s, e), Nothing)
  {
  }

  lemma {:induction false} ResumeChanges(d: Kind, s: Sys)
    requires ResumeEnabled(d, s) && s.pc != AwaitInit && s.pc != AwaitAbort
    ensures Changes(s, ResumeMain(d, s), Nothing)
  {
  }

  lemma {:induction false} EffectChanges(d: Kind, s: Sys, e: Event)
    requires Enabled(d, s, e) && !e.Turn? && !e.Resume? && !e.Launch?
    ensures Changes(s, Next(d, s, e), ChangeOf(d, s, e))
  {
  }

  /** Every step changes the books in one of these ways. */
  lemma {:induction false} StepChanges(d: Kind, s: Sys, e: Event)
    requires Enabled(d, s, e)
    ensures Changes(s, Next(d, s, e), ChangeOf(d, s, e))
  {
    match e
    case Turn =>
      if s.env.marked {
        DeletionChanges(d, s);
      } else if s.env.pending != [] {
        DispatchChanges(d, s);
      }
    case Resume =>
      if s.pc == AwaitInit || s.pc == AwaitAbort {
        CreationChanges(d, s, e);
      } else {
        ResumeChanges(d, s);
      }
    case Launch => CreationChanges(d, s, e);
    case _ => EffectChanges(d, s, e);
  }
}
