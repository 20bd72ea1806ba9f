/** When each wait of the main coroutine ends, and when a run continues as new. */
module LifeWaits {
  import opened Entity
  import opened DedupCache
  import opened EntitySystem
  import opened LifeChanges
  import opened LifeInvariants
  import opened LifeTheorems
  import opened LifeStory

  /** How many outcomes had been recorded when the current run was launched. */
  function RecordsAtLaunch(d: Kind, s: Sys, evs: seq<Event>, n: nat): nat
    requires Valid(d, s, evs)
    decreases |evs|
  {
    if evs == [] then n
    else RecordsAtLaunch(d, Next(d, s, evs[0]), evs[1..], if evs[0].Launch? then |s.log.records| else n)
  }

  /** The run has counted every outcome recorded since it was launched. */
  predicate Counts(s: Sys, n: nat) {
    && (s.pc == Start ==> s.run.processed == 0)
    && (s.pc != Start && !Ending(s.pc) ==> s.run.processed + n == |s.log.records|)
  }

  lemma {:induction false} CountsAfterTurn(d: Kind, s: Sys, n: nat)
    requires Inv(d, s) && Counts(s, n) && s.pc == LoopHead
    ensures Counts(TurnLoop(d, s), n)
  {
    if s.env.marked {
      DeletionChanges(d, s);
    } else if s.env.pending != [] {
      assert s.log.rejected == [];
      assert s.log.accepted[|s.log.dispatched| + |s.log.rejected|] == s.env.pending[0];
    }
  }

  lemma {:induction false} CountsAfterOther(d: Kind, s: Sys, e: Event, n: nat)
    requires ShapeOk(d, s) && Counts(s, n) && Enabled(d, s, e) && !e.Turn?
    ensures Counts(Next(d, s, e), if e.Launch? then |s.log.records| else n)
  {
  }

  lemma {:induction false} CountsAlways(d: Kind, s: Sys, evs: seq<Event>, n: nat)
    requires Inv(d, s) && Counts(s, n) && Valid(d, s, evs)
    ensures Counts(After(d, s, evs), RecordsAtLaunch(d, s, evs, n))
    decreases |evs|
  {
    if evs != [] {
      InvKept(d, s, evs[0]);
      if evs[0].Turn? {
        CountsAfterTurn(d, s, n);
      } else {
        CountsAfterOther(d, s, evs[0], n);
      }
      CountsAlways(d, Next(d, s, evs[0]), evs[1..], if evs[0].Launch? then |s.log.records| else n);
    }
  }

  /** How many commands the current run of this life has processed. */
  function ProcessedThisRun(d: Kind, spec: Spec, zero: State, labels: Labels, evs: seq<Event>): int
    requires Valid(d, Fresh(spec, zero, labels), evs)
  {
    |After(d, Fresh(spec, zero, labels), evs).log.records| - RecordsAtLaunch(d, Fresh(spec, zero, labels), evs, 0)
  }

  /** Continue-as-New is due: the server suggested it in this run, or the forced number of commands is processed. */
  predicate Due(d: Kind, spec: Spec, zero: State, labels: Labels, evs: seq<Event>)
    requires Valid(d, Fresh(spec, zero, labels), evs)
  {
    || StoryFrom(spec, zero, evs).suggested
    || (d.forceCanEvery > 0 && ProcessedThisRun(d, spec, zero, labels, evs) >= d.forceCanEvery)
  }

  lemma {:induction false} DueIsWanted(d: Kind, spec: Spec, zero: State, labels: Labels, evs: seq<Event>)
    requires Valid(d, Fresh(spec, zero, labels), evs)
    ensures var t := After(d, Fresh(spec, zero, labels), evs);
      && Inv(d, t) && Tells(d, t, StoryFrom(spec, zero, evs))
      && (t.pc != Start && !Ending(t.pc) ==> (CanWanted(d, t.run) <==> Due(d, spec, zero, labels, evs)))
  {
    LifeTells(d, spec, zero, labels, evs);
    InvFresh(d, spec, zero, labels);
    CountsAlways(d, Fresh(spec, zero, labels), evs, 0);
  }

  /**
   A run continues as new exactly when it is due: with an empty queue and no delete mark the loop hands off, or waits
   for its handlers to do so, iff in this run the server suggested it or the forced number of commands was processed;
   otherwise it goes idle.
   */
  lemma {:induction false} HandsOffIffDue(d: Kind, spec: Spec, zero: State, labels: Labels, evs: seq<Event>)
    requires Valid(d, Fresh(spec, zero, labels), evs)
    requires var t := After(d, Fresh(spec, zero, labels), evs); t.pc == LoopHead && !t.env.marked && t.env.pending == []
    ensures var t := After(d, Fresh(spec, zero, labels), evs);
      Next(d, t, Turn).pc ==
        if !Due(d, spec, zero, labels, evs) then Idle else if t.waiting == {} then Start else HandoffDrain
  {
    DueIsWanted(d, spec, zero, labels, evs);
  }

  /**
   When the main coroutine's waits end, exactly: creation's when init returned or deletion was asked for, which only
   cancels init and waits on; the idle one when there is work, deletion or a handoff due, and a tick may fall due
   exactly when there is none of these; the two drains when no handler waits.
   */
  lemma {:induction false} WaitsEndExactlyWhen(d: Kind, spec: Spec, zero: State, labels: Labels, evs: seq<Event>)
    requires Valid(d, Fresh(spec, zero, labels), evs)
    ensures var t, y := After(d, Fresh(spec, zero, labels), evs), StoryFrom(spec, zero, evs);
      var busy := t.env.pending != [] || y.marked || Due(d, spec, zero, labels, evs);
      && (t.pc == AwaitInit ==> (Enabled(d, t, Resume) <==> y.init.Some? || y.marked))
      && (t.pc == AwaitInit && y.init == None && y.marked ==> Next(d, t, Resume).pc == AwaitAbort)
      && (t.pc == AwaitAbort ==> y.marked && (Enabled(d, t, Resume) <==> y.init.Some?))
      && (t.pc == Idle ==> (Enabled(d, t, Resume) <==> busy) && (Enabled(d, t, TickDue) <==> d.hasReconcile && !busy))
      && (t.pc in {HandoffDrain, DeletionDrain} ==> (Enabled(d, t, Resume) <==> t.waiting == {}))
  {
    DueIsWanted(d, spec, zero, labels, evs);
  }
}
