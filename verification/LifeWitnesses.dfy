/**
 Lives that break a promise, each with ready handlers running at every yield: the bound of
 `LifeWakeups` is reached one command above the cap, and the handoff drain can be held forever.
 */
module LifeWitnesses {
  import opened Entity
  import opened DedupCache
  import opened EntitySystem
  import opened LifeChanges
  import opened LifeInvariants
  import opened LifeTheorems
  import opened LifeDrains
  import opened LifeWakeups
  import opened LifeEviction

  /** At a yield point every ready handler runs before anything else does. */
  ghost predicate Prompt(s: Sys, e: Event) {
    AtYield(s.pc) ==> e.Wake? || NoneReady(s)
  }

  ghost predicate PromptLife(d: Kind, s: Sys, evs: seq<Event>)
    requires Valid(d, s, evs)
    decreases |evs|
  {
    evs == [] || (Prompt(s, evs[0]) && PromptLife(d, Next(d, s, evs[0]), evs[1..]))
  }

  /** A life in which ready handlers run first and at most `n` commands are ever queued or executing. */
  ghost predicate TameLife(d: Kind, s: Sys, evs: seq<Event>, n: nat)
    requires Valid(d, s, evs)
  {
    PromptLife(d, s, evs) && LifeWithin(d, s, evs, n)
  }

  /** A state some entity reaches by such a life. */
  ghost predicate TamelyReachable(d: Kind, s: Sys, n: nat) {
    exists spec: Spec, zero: State, labels: Labels, evs: seq<Event> ::
      && Valid(d, Fresh(spec, zero, labels), evs)
      && TameLife(d, Fresh(spec, zero, labels), evs, n)
      && After(d, Fresh(spec, zero, labels), evs) == s
  }

  lemma {:induction false} TameIsReachable(d: Kind, s: Sys, n: nat)
    requires TamelyReachable(d, s, n)
    ensures Reachable(d, s)
  {
    var spec: Spec, zero: State, labels: Labels, evs: seq<Event> :|
      && Valid(d, Fresh(spec, zero, labels), evs)
      && TameLife(d, Fresh(spec, zero, labels), evs, n)
      && After(d, Fresh(spec, zero, labels), evs) == s;
    assert Valid(d, Fresh(spec, zero, labels), evs);
  }

  lemma {:induction false} TameOneMore(d: Kind, s: Sys, evs: seq<Event>, e: Event, n: nat)
    requires Valid(d, s, evs) && TameLife(d, s, evs, n)
    requires Enabled(d, After(d, s, evs), e) && Prompt(After(d, s, evs), e)
    requires Within(Next(d, After(d, s, evs), e), n)
    ensures Valid(d, s, evs + [e]) && TameLife(d, s, evs + [e], n)
    ensures After(d, s, evs + [e]) == Next(d, After(d, s, evs), e)
    decreases |evs|
  {
    var more := evs + [e];
    if evs == [] {
      assert more[0] == e && more[1..] == [];
      var t := Next(d, s, e);
      assert Valid(d, t, []) && TameLife(d, t, [], n) && After(d, t, []) == t;
    } else {
      assert more[0] == evs[0] && more[1..] == evs[1..] + [e];
      TameOneMore(d, Next(d, s, evs[0]), evs[1..], e, n);
    }
  }

  lemma {:induction false} FollowTamely(d: Kind, s: Sys, e: Event, n: nat) returns (t: Sys)
    requires TamelyReachable(d, s, n) && Enabled(d, s, e) && Prompt(s, e) && Within(Next(d, s, e), n)
    ensures t == Next(d, s, e) && TamelyReachable(d, t, n)
  {
    t := Next(d, s, e);
    var spec: Spec, zero: State, labels: Labels, evs: seq<Event> :|
      && Valid(d, Fresh(spec, zero, labels), evs)
      && TameLife(d, Fresh(spec, zero, labels), evs, n)
      && After(d, Fresh(spec, zero, labels), evs) == s;
    TameOneMore(d, Fresh(spec, zero, labels), evs, e, n);
  }

  lemma {:induction false} BeginTamely(d: Kind, spec: Spec, zero: State, labels: Labels, n: nat) returns (s: Sys)
    ensures s == Fresh(spec, zero, labels) && TamelyReachable(d, s, n)
  {
    s := Fresh(spec, zero, labels);
    assert Valid(d, s, []) && TameLife(d, s, [], n) && After(d, s, []) == s;
  }

  // ----- one command too many -----

  /** Pairwise distinct request ids. */
  function NthId(n: nat): (id: RequestId)
    ensures |id| == n + 1
  {
    seq(n + 1, i => 'r')
  }

  /** Creation is running and `n` set-labels commands have queued up. */
  ghost predicate Queued(s: Sys, n: nat) {
    && s.pc == AwaitInit && s.run.init == Running && !s.env.marked
    && s.env.cache == EmptyCache && s.env.pending == s.log.accepted && |s.log.accepted| == n
    && (forall k :: 0 <= k < n ==> s.log.accepted[k].id == NthId(k)) && AllSetLabels(s.log.accepted)
    && (forall w: nat :: w in s.waiting <==> w < n)
  }

  lemma {:induction false} QueueUp(d: Kind, payload: Raw, spec: Spec, zero: State, labels: Labels, n: nat)
    returns (s: Sys)
    requires d.hasInit && d.decodePatch(payload).Ok? && n <= CompletedOpsCap + 1
    ensures TamelyReachable(d, s, CompletedOpsCap + 1) && Queued(s, n)
  {
    if n == 0 {
      s := BeginTamely(d, spec, zero, labels, CompletedOpsCap + 1);
      s := FollowTamely(d, s, Launch, CompletedOpsCap + 1);
    } else {
      var before := QueueUp(d, payload, spec, zero, labels, n - 1);
      QueueOneMore(d, before, payload, n - 1);
      s := FollowTamely(d, before, Update(SetLabelsCommandName, NthId(n - 1), payload), CompletedOpsCap + 1);
    }
  }

  lemma {:induction false} QueueOneMore(d: Kind, s: Sys, payload: Raw, n: nat)
    requires Queued(s, n) && d.decodePatch(payload).Ok?
    ensures var e := Update(SetLabelsCommandName, NthId(n), payload);
      Enabled(d, s, e) && Prompt(s, e) && Queued(Next(d, s, e), n + 1)
  {
    var c := Command(NthId(n), SetLabelsCommandName, payload);
    assert Next(d, s, Update(SetLabelsCommandName, NthId(n), payload)) == Enqueue(s, c);
  }

  /** Delete while creation runs: creation ends, the loop turns to deletion and rejects the whole queue. */
  lemma {:induction false} DeleteQueued(d: Kind, s: Sys, st: State, n: nat) returns (t: Sys)
    requires TamelyReachable(d, s, CompletedOpsCap + 1) && Queued(s, n) && 0 < n <= CompletedOpsCap + 1
    ensures TamelyReachable(d, t, CompletedOpsCap + 1) && t.pc == DeletionDrain && t.run.init != Running
    ensures t.waiting == s.waiting && t.log.accepted == s.log.accepted
    ensures t.env.cache == ReplayFrom(EmptyCache, Rejections(s.log.accepted))
  {
    t := MarkQueued(d, s, st, n);
    assert 0 in t.waiting;
    t := FollowTamely(d, t, Turn, CompletedOpsCap + 1);
  }

  lemma {:induction false} MarkQueued(d: Kind, s: Sys, st: State, n: nat) returns (t: Sys)
    requires TamelyReachable(d, s, CompletedOpsCap + 1) && Queued(s, n) && n <= CompletedOpsCap + 1
    ensures TamelyReachable(d, t, CompletedOpsCap + 1) && t.pc == LoopHead && t.env.marked && t.run.init != Running
    ensures t.waiting == s.waiting && t.log.accepted == t.env.pending == s.log.accepted && t.env.cache == EmptyCache
  {
    t := FollowTamely(d, s, DeleteSignal, CompletedOpsCap + 1);
    t := FollowTamely(d, t, InitReturns(st, None), CompletedOpsCap + 1);
    t := FollowTamely(d, t, Resume, CompletedOpsCap + 1);
  }

  lemma {:induction false} DistinctByLength(ids: seq<RequestId>)
    requires forall k :: 0 <= k < |ids| ==> |ids[k]| == k + 1
    ensures NoDuplicates(ids)
  {
    forall i, j | 0 <= i < j < |ids| ensures ids[i] != ids[j] {
      assert |ids[i]| != |ids[j]|;
    }
  }

  lemma {:induction false} QueuedIdsDistinct(cmds: seq<Command>)
    requires forall k :: 0 <= k < |cmds| ==> cmds[k].id == NthId(k)
    ensures FreshIds(EmptyCache, Rejections(cmds))
  {
    var ids := Ids(Rejections(cmds));
    assert forall k :: 0 <= k < |ids| ==> ids[k] == cmds[k].id;
    DistinctByLength(ids);
    assert EmptyCache.order + ids == ids;
  }

  /**
   With one command more than the cap queued at deletion, the first caller's rejection is evicted
   before it can be read: that handler never returns and the entity is never finalized.
   */
  lemma {:induction false} OneTooManyStrandsCaller(d: Kind, payload: Raw, spec: Spec, zero: State, labels: Labels)
    returns (s: Sys)
    requires d.hasInit && d.decodePatch(payload).Ok?
    ensures TamelyReachable(d, s, CompletedOpsCap + 1) && |s.log.accepted| == CompletedOpsCap + 1
    ensures forall evs {:induction false} :: Valid(d, s, evs) ==>
        After(d, s, evs).pc == DeletionDrain && 0 in After(d, s, evs).waiting
  {
    var n := CompletedOpsCap + 1;
    var full := QueueUp(d, payload, spec, zero, labels, n);
    s := DeleteQueued(d, full, zero, n);
    QueuedIdsDistinct(full.log.accepted);
    FirstSurvivesIffWithinCap(EmptyCache, Rejections(full.log.accepted));
    assert Stranded(s, 0);
    forall evs | Valid(d, s, evs) ensures After(d, s, evs).pc == DeletionDrain && 0 in After(d, s, evs).waiting {
      StrandedForever(d, s, 0, evs);
    }
  }

  // ----- the same burst in normal service -----

  lemma {:induction false} TurnStaysWithin(d: Kind, s: Sys, n: nat)
    requires s.pc == LoopHead && Within(s, n)
    ensures Within(TurnLoop(d, s), n)
  {
    StepChanges(d, s, Turn);
  }

  lemma {:induction false} RunTamely(d: Kind, s: Sys, n: nat)
    requires TamelyReachable(d, s, n) && Within(s, n)
    ensures TamelyReachable(d, UntilYield(d, s), n)
    decreases LoopMeasure(s)
  {
    if s.pc == LoopHead {
      TurnShrinks(d, s);
      TurnStaysWithin(d, s, n);
      var t := FollowTamely(d, s, Turn, n);
      RunTamely(d, t, n);
    }
  }

  /** Creation ends with the commands still queued and nobody ready or lost. */
  lemma {:induction false} CreateQueued(d: Kind, s: Sys, st: State, n: nat) returns (t: Sys)
    requires TamelyReachable(d, s, CompletedOpsCap + 1) && Queued(s, n) && 0 < n <= CompletedOpsCap + 1
    ensures TamelyReachable(d, t, CompletedOpsCap + 1) && t.pc == LoopHead && !t.env.marked
    ensures t.env.pending == t.log.accepted == s.log.accepted && t.waiting == s.waiting
    ensures t.env.cache == EmptyCache
  {
    t := FollowTamely(d, s, InitReturns(st, None), CompletedOpsCap + 1);
    t := FollowTamely(d, t, Resume, CompletedOpsCap + 1);
  }

  lemma {:induction false} NthIdsDistinct(cmds: seq<Command>)
    requires forall k :: 0 <= k < |cmds| ==> cmds[k].id == NthId(k)
    ensures DistinctIds(cmds)
  {
    forall i, j | 0 <= i < j < |cmds| ensures cmds[i].id != cmds[j].id {
      assert |cmds[i].id| != |cmds[j].id|;
    }
  }

  /** The first of a burst of one too many is forgotten, and everything else recorded. */
  lemma {:induction false} BurstForgetsFirst(d: Kind, s: Sys)
    requires Reachable(d, s) && s.pc == LoopHead && !s.env.marked && 0 in s.waiting
    requires s.env.pending == s.log.accepted && |s.log.accepted| == CompletedOpsCap + 1
    requires AllSetLabels(s.env.pending) && DistinctIds(s.log.accepted)
    ensures var t := UntilYield(d, s);
      && Inv(d, t) && Forgotten(t, 0, s.log.accepted[0].id)
      && t.pc in {Idle, HandoffDrain} && !t.env.marked && t.env.pending == []
  {
    ReachableInv(d, s);
    LabelsInOneBurst(d, s);
    UntilYieldReachable(d, s);
    ReachableInv(d, UntilYield(d, s));
    CachedIffAmongLast(d, UntilYield(d, s), 0);
  }

  /**
   No deletion is needed: with one set-labels command more than the cap queued behind init, all are
   served in one burst and the first caller is never answered unless its id is submitted again.
   */
  lemma {:induction false} ServiceStrandsCaller(d: Kind, payload: Raw, spec: Spec, zero: State, labels: Labels)
    returns (s: Sys)
    requires d.hasInit && d.decodePatch(payload).Ok?
    ensures TamelyReachable(d, s, CompletedOpsCap + 1) && s.pc in {Idle, HandoffDrain}
    ensures !s.env.marked && s.env.pending == [] && 0 in s.waiting
    ensures forall evs {:induction false} :: Valid(d, s, evs) && NeverSubmitted(evs, NthId(0)) ==>
        0 in After(d, s, evs).waiting && After(d, s, evs).pc !in {Start, Finalizing, Closed}
  {
    var n := CompletedOpsCap + 1;
    var full := QueueUp(d, payload, spec, zero, labels, n);
    var head := CreateQueued(d, full, zero, n);
    NthIdsDistinct(head.log.accepted);
    TameIsReachable(d, head, n);
    BurstForgetsFirst(d, head);
    RunTamely(d, head, n);
    s := UntilYield(d, head);
    UntilYieldReachable(d, head);
    forall evs | Valid(d, s, evs) && NeverSubmitted(evs, NthId(0))
      ensures 0 in After(d, s, evs).waiting && After(d, s, evs).pc !in {Start, Finalizing, Closed}
    {
      LostUntilResubmitted(d, s, 0, NthId(0), evs);
    }
  }

  // ----- an update in the handoff window -----

  /** Idle after creation, nothing queued, cached or waiting. */
  ghost predicate JustCreated(s: Sys) {
    && s.pc == Idle && !s.env.marked && s.run.init != Running && s.run.processed == 0
    && s.env.cache == EmptyCache && s.env.pending == [] && s.waiting == {} && s.log.accepted == []
  }

  lemma {:induction false} Create(d: Kind, spec: Spec, zero: State, labels: Labels) returns (s: Sys)
    ensures TamelyReachable(d, s, 1) && JustCreated(s)
  {
    s := BeginTamely(d, spec, zero, labels, 1);
    s := FollowTamely(d, s, Launch, 1);
    if d.hasInit {
      s := FollowTamely(d, s, InitReturns(zero, None), 1);
      s := FollowTamely(d, s, Resume, 1);
    }
    s := FollowTamely(d, s, Turn, 1);
  }

  lemma {:induction false} SubmitFirst(d: Kind, s: Sys, id: RequestId, payload: Raw) returns (t: Sys)
    requires TamelyReachable(d, s, 1) && JustCreated(s) && d.decodePatch(payload).Ok?
    ensures TamelyReachable(d, t, 1) && t.pc == Idle && t.run.init != Running && !t.env.marked
    ensures t.waiting == {0} && t.env.cache == EmptyCache
    ensures t.env.pending == t.log.accepted == [Command(id, SetLabelsCommandName, payload)]
  {
    t := FollowTamely(d, s, Update(SetLabelsCommandName, id, payload), 1);
    assert [] + [Command(id, SetLabelsCommandName, payload)] == [Command(id, SetLabelsCommandName, payload)];
  }

  /** Continue-as-New falls due, and the loop goes on. */
  lemma {:induction false} FallDue(d: Kind, s: Sys) returns (t: Sys)
    requires TamelyReachable(d, s, 1) && s.pc == Idle && s.env.cache == EmptyCache && Within(s, 1)
    ensures TamelyReachable(d, t, 1) && t.pc == LoopHead && t.env == s.env && t.waiting == s.waiting
    ensures t.run == s.run.(canSuggested := true) && t.log.accepted == s.log.accepted
  {
    t := FollowTamely(d, s, SuggestCan, 1);
    t := FollowTamely(d, t, Resume, 1);
  }

  /** It is served while its caller still waits, so the loop enters the handoff drain. */
  lemma {:induction false} ServeThenDrain(d: Kind, s: Sys, id: RequestId, payload: Raw) returns (t: Sys)
    requires TamelyReachable(d, s, 1) && s.pc == LoopHead && s.run.init != Running && !s.env.marked
    requires s.run.canSuggested && s.waiting == {0} && s.env.cache == EmptyCache && d.decodePatch(payload).Ok?
    requires s.env.pending == s.log.accepted == [Command(id, SetLabelsCommandName, payload)]
    ensures TamelyReachable(d, t, 1) && t.pc == HandoffDrain && t.run.init != Running && !t.env.marked
    ensures t.waiting == {0} && t.env.pending == [] && t.log.accepted == s.log.accepted
    ensures t.env.cache == Recorded(EmptyCache, Record(id, Outcome("", None)))
  {
    var r := Record(id, Outcome("", None));
    assert ReplayFrom(EmptyCache, [r]) == Recorded(EmptyCache, r) by {
      assert [r][..0] == [];
    }
    t := FollowTamely(d, s, Turn, 1);
    t := FollowTamely(d, t, Turn, 1);
  }

  /** The caller is answered, and the next update arrives before the main coroutine resumes. */
  lemma {:induction false} ArriveInWindow(d: Kind, s: Sys, id: RequestId, payload: Raw) returns (t: Sys)
    requires TamelyReachable(d, s, 1) && s.pc == HandoffDrain && s.run.init != Running && !s.env.marked
    requires s.waiting == {0} && s.env.pending == [] && |s.log.accepted| == 1 && d.decodePatch(payload).Ok?
    requires s.log.accepted[0].id in s.env.cache.completed && id !in s.env.cache.completed
    ensures TamelyReachable(d, t, 1) && t.pc == HandoffDrain && t.run.init != Running && Stranded(t, 1)
  {
    t := FollowTamely(d, s, Wake(0), 1);
    assert t.waiting == {};
    t := FollowTamely(d, t, Update(SetLabelsCommandName, id, payload), 1);
  }

  lemma {:induction false} CachesOnly(id: RequestId, outcome: OpResult)
    ensures forall x :: x in Recorded(EmptyCache, Record(id, outcome)).completed <==> x == id
  {
    RecordedShape(EmptyCache, Record(id, outcome));
  }

  lemma {:induction false} ReachDrain(d: Kind, id: RequestId, payload: Raw, spec: Spec, zero: State, labels: Labels)
    returns (s: Sys)
    requires d.decodePatch(payload).Ok?
    ensures TamelyReachable(d, s, 1) && s.pc == HandoffDrain && s.run.init != Running && !s.env.marked
    ensures s.waiting == {0} && s.env.pending == [] && |s.log.accepted| == 1 && s.log.accepted[0].id == id
    ensures forall x :: x in s.env.cache.completed <==> x == id
  {
    s := Create(d, spec, zero, labels);
    s := SubmitFirst(d, s, id, payload);
    s := FallDue(d, s);
    s := ServeThenDrain(d, s, id, payload);
    CachesOnly(id, Outcome("", None));
  }

  lemma {:induction false} ReachWindow(d: Kind, payload: Raw, spec: Spec, zero: State, labels: Labels) returns (s: Sys)
    requires d.decodePatch(payload).Ok?
    ensures TamelyReachable(d, s, 1) && s.pc == HandoffDrain && s.run.init != Running && Stranded(s, 1)
  {
    var first, second := "1", "22";
    assert |first| != |second|;
    s := ReachDrain(d, first, payload, spec, zero, labels);
    s := ArriveInWindow(d, s, second, payload);
  }

  /**
   The handoff window: one caller has just been answered, a second update arrives before the main
   coroutine resumes. From then on nothing, not even a delete signal, gets the entity out of the drain.
   */
  lemma {:induction false} UpdateInHandoffWindow(d: Kind, payload: Raw, spec: Spec, zero: State, labels: Labels)
    returns (s: Sys)
    requires d.decodePatch(payload).Ok?
    ensures TamelyReachable(d, s, 1)
    ensures forall evs {:induction false} :: Valid(d, s, evs) ==> After(d, s, evs).pc == HandoffDrain
  {
    s := ReachWindow(d, payload, spec, zero, labels);
    forall evs | Valid(d, s, evs) ensures After(d, s, evs).pc == HandoffDrain {
      StrandedForever(d, s, 1, evs);
    }
  }

  // ----- a duplicate of an unfinished command -----

  /** Two submissions of the same command, both while creation still runs. */
  lemma {:induction false} SubmitTwice(d: Kind, c: Command, spec: Spec, zero: State, labels: Labels) returns (s: Sys)
    requires d.hasInit && c.name == SetLabelsCommandName && d.decodePatch(c.payload).Ok?
    ensures TamelyReachable(d, s, 2) && s.pc == AwaitInit && s.run.init == Running && !s.env.marked
    ensures s.env.pending == [c, c] && s.env.cache == EmptyCache && s.log.dispatched == []
  {
    s := BeginTamely(d, spec, zero, labels, 2);
    s := FollowTamely(d, s, Launch, 2);
    s := FollowTamely(d, s, Update(c.name, c.id, c.payload), 2);
    s := FollowTamely(d, s, Update(c.name, c.id, c.payload), 2);
    assert [c] + [c] == [c, c];
  }

  /**
   Deduplication looks only at completed commands: a duplicate submitted while the first is still queued
   is queued again, and both are executed.
   */
  lemma {:induction false} DuplicateOfPendingRunsTwice(d: Kind, c: Command, spec: Spec, zero: State, labels: Labels)
    returns (s: Sys)
    requires d.hasInit && c.name == SetLabelsCommandName && d.decodePatch(c.payload).Ok?
    ensures TamelyReachable(d, s, 2) && s.log.dispatched == [c, c]
  {
    s := SubmitTwice(d, c, spec, zero, labels);
    s := FollowTamely(d, s, InitReturns(zero, None), 2);
    s := FollowTamely(d, s, Resume, 2);
    s := FollowTamely(d, s, Turn, 2);
    s := FollowTamely(d, s, Turn, 2);
    assert [c] + [c] == [c, c];
  }
}
