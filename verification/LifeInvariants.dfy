/** What every reachable state of an entity's life keeps. */
module LifeInvariants {
  import opened Entity
  import opened DedupCache
  import opened EntitySystem
  import opened LifeChanges

  /** Nothing accepted is lost: it was dispatched, rejected or still waits, in acceptance order. */
  ghost predicate Ledger(s: Sys) {
    var h := s.log;
    && h.accepted == h.dispatched + h.rejected + s.env.pending
    && |h.records| + InFlight(s) == |h.dispatched| + |h.rejected|
    && (s.pc.Executing? ==> h.dispatched != [] && h.dispatched[|h.dispatched| - 1] == s.pc.cmd)
    && (h.rejected != [] ==> Ending(s.pc))
    && (forall k :: 0 <= k < |h.records| ==> h.records[k].id == h.accepted[k].id)
    && (forall k :: |h.dispatched| <= k < |h.records| ==> h.records[k] == Rejection(h.accepted[k]))
  }

  ghost predicate CacheOk(s: Sys) {
    s.env.cache == Replay(s.log.records)
  }

  /** A command is only accepted while its id is not cached. */
  ghost predicate SeenOk(s: Sys) {
    var h := s.log;
    && |h.seen| == |h.accepted|
    && forall k :: 0 <= k < |h.seen| ==>
         h.seen[k] <= k && h.seen[k] <= |h.records| && h.accepted[k].id !in Replay(h.records[..h.seen[k]]).completed
  }

  /** A reply is the outcome cached for its id at the moment of delivery. */
  ghost predicate CachedThen(records: seq<Record>, id: RequestId, reply: Reply) {
    && reply.at <= |records|
    && var cached := Replay(records[..reply.at]).completed;
       id in cached && cached[id] == reply.outcome
  }

  ghost predicate HandlersOk(s: Sys) {
    && (forall w :: w in s.waiting ==> w < |s.log.accepted|)
    && (forall k: nat :: k < |s.log.accepted| ==> k in s.waiting || k in s.log.replies)
    && (forall k :: k in s.log.replies ==> k < |s.log.accepted| && k !in s.waiting)
  }

  ghost predicate RepliesOk(s: Sys) {
    && (forall k :: k in s.log.replies && k < |s.log.accepted| ==>
          CachedThen(s.log.records, s.log.accepted[k].id, s.log.replies[k]))
    && (forall i :: 0 <= i < |s.log.hits| ==> CachedThen(s.log.records, s.log.hits[i].id, s.log.hits[i].reply))
  }

  /** The loop can run the command: a label patch it can decode, or a registered name. */
  predicate Runnable(d: Kind, c: Command) {
    if c.name == SetLabelsCommandName then d.decodePatch(c.payload).Ok? else c.name in d.commands
  }

  ghost predicate NamesOk(d: Kind, s: Sys) {
    forall k :: 0 <= k < |s.log.accepted| ==> Runnable(d, s.log.accepted[k])
  }

  predicate Serving(s: Sys) {
    s.env.initialized && s.env.phase == Ready
  }

  predicate Aborted(s: Sys) {
    !s.env.initialized && s.env.marked && s.env.phase == Creating
  }

  /** Nothing has been handled yet. */
  predicate Untouched(s: Sys) {
    s.log.dispatched == [] && s.log.rejected == [] && s.log.records == []
  }

  /** Which flags go with which position of the main coroutine. */
  ghost predicate ShapeOk(d: Kind, s: Sys) {
    && (s.run.init == Running ==> s.pc == AwaitInit || s.pc == AwaitAbort)
    && match s.pc
       case Start => if s.env.initialized then Serving(s) && s.env.pending == [] && s.waiting == {}
                     else s.env.phase == Unset && !s.env.marked && s.log == NoHistory
                          && s.env.pending == [] && s.waiting == {}
       case AwaitInit => !s.env.initialized && s.env.phase == Creating && s.run.init != NotStarted && Untouched(s)
       case AwaitAbort => Aborted(s) && s.run.init != NotStarted && Untouched(s)
       case LoopHead => Serving(s) || Aborted(s)
       case Idle => Serving(s)
       case Executing(_) => Serving(s)
       case Ticking => Serving(s)
       case HandoffDrain => Serving(s)
       case DeletionDrain => s.env.marked && s.env.phase == Deleting && s.env.pending == []
       case Finalizing => s.env.marked && s.env.phase == Deleting && s.env.pending == [] && s.waiting == {}
       case Closed =>
         if s.env.phase == CreateFailed then !s.env.marked && Untouched(s)
         else s.env.marked && s.env.phase in {Deleted, DeleteFailed} && s.env.pending == [] && s.waiting == {}
  }

  /** In the handoff drain an unrecorded command keeps its own handler waiting, with nothing cached for it. */
  ghost predicate DrainOk(s: Sys) {
    s.pc == HandoffDrain ==>
      forall k: nat :: |s.log.records| <= k < |s.log.accepted| ==>
        k in s.waiting && s.log.accepted[k].id !in s.env.cache.completed
  }

  ghost predicate Inv(d: Kind, s: Sys) {
    && Ledger(s) && CacheOk(s) && SeenOk(s) && HandlersOk(s) && RepliesOk(s)
    && NamesOk(d, s) && ShapeOk(d, s) && DrainOk(s)
  }

  // ----- the books -----

  lemma {:induction false} LedgerKept(s: Sys, t: Sys, ch: Change)
    requires Ledger(s) && Changes(s, t, ch) && !ch.Popped? && !ch.PoppedAndDone? && !ch.RejectedAll?
    ensures Ledger(t)
  {
    var h := s.log;
    match ch
    case Enqueued(c) =>
      assert h.accepted + [c] == h.dispatched + h.rejected + (s.env.pending + [c]);
    case Done(r) =>
    case _ =>
  }

  lemma {:induction false} LedgerRejected(s: Sys, t: Sys)
    requires Ledger(s) && Changes(s, t, RejectedAll)
    ensures Ledger(t)
  {
    assert s.log.rejected == [];
    assert t.log.accepted == t.log.dispatched + t.log.rejected + [];
  }

  lemma {:induction false} LedgerPopped(s: Sys, t: Sys, ch: Change)
    requires Ledger(s) && Changes(s, t, ch) && (ch.Popped? || ch.PoppedAndDone?)
    ensures Ledger(t)
  {
    var c := s.env.pending[0];
    assert s.log.rejected == [];
    assert s.env.pending == [c] + s.env.pending[1..];
    assert s.log.accepted == s.log.dispatched + [c] + [] + s.env.pending[1..];
    assert s.log.accepted[|s.log.dispatched|] == c;
  }

  lemma {:induction false} CacheKept(s: Sys, t: Sys, ch: Change)
    requires CacheOk(s) && Changes(s, t, ch)
    ensures CacheOk(t)
  {
    ReplayAppend(EmptyCache, s.log.records, NewRecords(s, ch));
    assert s.log.records + [] == s.log.records;
  }

  lemma {:induction false} RecordsGrow(s: Sys, t: Sys, ch: Change)
    requires Changes(s, t, ch)
    ensures t.log.records == s.log.records + NewRecords(s, ch)
    ensures forall n :: 0 <= n <= |s.log.records| ==> t.log.records[..n] == s.log.records[..n]
  {
  }

  lemma {:induction false} SeenKept(s: Sys, t: Sys, ch: Change)
    requires Ledger(s) && CacheOk(s) && SeenOk(s) && Changes(s, t, ch)
    ensures SeenOk(t)
  {
    RecordsGrow(s, t, ch);
    if ch.Enqueued? {
      assert s.log.records[..|s.log.records|] == s.log.records;
    }
  }

  lemma {:induction false} HandlersKept(s: Sys, t: Sys, ch: Change)
    requires HandlersOk(s) && Changes(s, t, ch)
    ensures HandlersOk(t)
  {
  }

  lemma {:induction false} RepliesKept(s: Sys, t: Sys, ch: Change)
    requires HandlersOk(s) && RepliesOk(s) && CacheOk(s) && Changes(s, t, ch)
    ensures RepliesOk(t)
  {
    RecordsGrow(s, t, ch);
    assert s.log.records[..|s.log.records|] == s.log.records;
    forall k | k in t.log.replies && k < |t.log.accepted|
      ensures CachedThen(t.log.records, t.log.accepted[k].id, t.log.replies[k])
    {
      assert k in s.log.replies ==> CachedThen(s.log.records, s.log.accepted[k].id, s.log.replies[k]);
    }
  }

  lemma {:induction false} NamesKept(d: Kind, s: Sys, t: Sys, ch: Change)
    requires NamesOk(d, s) && Changes(s, t, ch)
    requires ch.Enqueued? ==> Runnable(d, ch.c)
    ensures NamesOk(d, t)
  {
  }

  lemma {:induction false} DrainKept(s: Sys, t: Sys, ch: Change)
    requires Ledger(s) && HandlersOk(s) && DrainOk(s) && Changes(s, t, ch)
    ensures DrainOk(t)
  {
    if t.pc == HandoffDrain && s.pc != HandoffDrain {
      assert ch == Nothing;
      assert |t.log.records| == |t.log.accepted|;
    }
  }

  // ----- positions and flags -----

  /** When the handoff drain releases, nothing is pending. */
  lemma {:induction false} NothingPendingWhenDrained(s: Sys)
    requires Ledger(s) && DrainOk(s) && s.pc == HandoffDrain && s.waiting == {}
    ensures s.env.pending == []
  {
    assert |s.log.records| < |s.log.accepted| ==> |s.log.records| in s.waiting;
  }

  lemma {:induction false} ShapeOfTurn(d: Kind, s: Sys)
    requires ShapeOk(d, s) && s.pc == LoopHead
    ensures ShapeOk(d, TurnLoop(d, s))
  {
  }

  lemma {:induction false} ShapeOfResume(d: Kind, s: Sys)
    requires ShapeOk(d, s) && DrainOk(s) && Ledger(s) && ResumeEnabled(d, s)
    ensures ShapeOk(d, ResumeMain(d, s))
  {
    if s.pc == HandoffDrain {
      NothingPendingWhenDrained(s);
    }
  }

  lemma {:induction false} ShapeKept(d: Kind, s: Sys, e: Event)
    requires ShapeOk(d, s) && DrainOk(s) && Ledger(s) && Enabled(d, s, e)
    ensures ShapeOk(d, Next(d, s, e))
  {
    match e
    case Turn => ShapeOfTurn(d, s);
    case Resume => ShapeOfResume(d, s);
    case _ =>
  }

  // ----- every step, every life -----

  lemma {:induction false} BooksKept(d: Kind, s: Sys, e: Event)
    requires Inv(d, s) && Enabled(d, s, e)
    ensures var t := Next(d, s, e);
      Ledger(t) && CacheOk(t) && SeenOk(t) && HandlersOk(t) && RepliesOk(t) && NamesOk(d, t) && DrainOk(t)
  {
    var t, ch := Next(d, s, e), ChangeOf(d, s, e);
    StepChanges(d, s, e);
    if ch.Popped? || ch.PoppedAndDone? {
      LedgerPopped(s, t, ch);
    } else if ch.RejectedAll? {
      LedgerRejected(s, t);
    } else {
      LedgerKept(s, t, ch);
    }
    CacheKept(s, t, ch);
    SeenKept(s, t, ch);
    HandlersKept(s, t, ch);
    RepliesKept(s, t, ch);
    NamesKept(d, s, t, ch);
    DrainKept(s, t, ch);
  }

  lemma {:induction false} InvKept(d: Kind, s: Sys, e: Event)
    requires Inv(d, s) && Enabled(d, s, e)
    ensures Inv(d, Next(d, s, e))
  {
    BooksKept(d, s, e);
    ShapeKept(d, s, e);
  }

  lemma {:induction false} InvFresh(d: Kind, spec: Spec, zero: State, labels: Labels)
    ensures Inv(d, Fresh(spec, zero, labels))
  {
  }

  /** The invariant holds after every sequence of events that starts from a state with it. */
  lemma {:induction false} InvAlways(d: Kind, s: Sys, evs: seq<Event>)
    requires Inv(d, s) && Valid(d, s, evs)
    ensures Inv(d, After(d, s, evs))
    decreases |evs|
  {
    if evs != [] {
      InvKept(d, s, evs[0]);
      InvAlways(d, Next(d, s, evs[0]), evs[1..]);
    }
  }
}
