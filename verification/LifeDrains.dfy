/**
 The two waits for unfinished handlers: before Continue-as-New and before the finalizer.
 Neither refuses new arrivals by itself, and only the main loop, which is waiting, can
 complete an uncached one.
 */
module LifeDrains {
  import opened Entity
  import opened DedupCache
  import opened EntitySystem
  import opened LifeChanges
  import opened LifeInvariants
  import opened LifeTheorems

  predicate Draining(s: Sys) {
    s.pc == HandoffDrain || s.pc == DeletionDrain
  }

  /** Every waiting handler finds its outcome. */
  ghost predicate AllReady(s: Sys) {
    forall w :: w in s.waiting ==> CanWake(s, w)
  }

  /** A handler that waits for an outcome no longer, or not yet, cached. */
  predicate Stranded(s: Sys, w: nat) {
    w in s.waiting && w < |s.log.accepted| && s.log.accepted[w].id !in s.env.cache.completed
  }

  /** While some handler waits, no step leaves a drain; nothing is recorded and only ready handlers return. */
  lemma {:induction false} DrainStep(d: Kind, s: Sys, e: Event)
    requires Draining(s) && s.waiting != {} && s.run.init != Running && Enabled(d, s, e)
    ensures Next(d, s, e).pc == s.pc && Next(d, s, e).env.cache == s.env.cache && Next(d, s, e).run.init != Running
    ensures s.log.accepted <= Next(d, s, e).log.accepted
    ensures forall w :: Stranded(s, w) ==> Stranded(Next(d, s, e), w)
  {
    StepChanges(d, s, e);
  }

  /** A stranded handler holds its drain forever: no later step of any coroutine leaves it. */
  lemma {:induction false} StrandedForever(d: Kind, s: Sys, w: nat, evs: seq<Event>)
    requires Draining(s) && Stranded(s, w) && s.run.init != Running && Valid(d, s, evs)
    ensures After(d, s, evs).pc == s.pc && Stranded(After(d, s, evs), w)
    decreases |evs|
  {
    if evs != [] {
      DrainStep(d, s, evs[0]);
      StrandedForever(d, Next(d, s, evs[0]), w, evs[1..]);
    }
  }

  lemma {:induction false} WakeInDrain(d: Kind, s: Sys, w: nat)
    requires Draining(s) && AllReady(s) && w in s.waiting
    ensures Enabled(d, s, Wake(w))
    ensures var t := Next(d, s, Wake(w));
      Draining(t) && t.pc == s.pc && AllReady(t) && t.waiting == s.waiting - {w}
  {
  }

  /** Waking every handler once and resuming leaves the drain. */
  lemma {:induction false} ReleaseByWaking(d: Kind, s: Sys) returns (evs: seq<Event>)
    requires Draining(s) && AllReady(s)
    ensures Valid(d, s, evs) && |evs| == |s.waiting| + 1 && After(d, s, evs).pc != s.pc
    decreases |s.waiting|
  {
    if s.waiting == {} {
      evs := [Resume];
      var t := Next(d, s, Resume);
      assert t.pc != s.pc;
      assert evs[1..] == [];
      assert Valid(d, t, []) && After(d, t, []) == t;
    } else {
      var w :| w in s.waiting;
      WakeInDrain(d, s, w);
      var rest := ReleaseByWaking(d, Next(d, s, Wake(w)));
      evs := [Wake(w)] + rest;
      assert evs[0] == Wake(w) && evs[1..] == rest;
    }
  }

  ghost predicate CanLeave(d: Kind, s: Sys) {
    exists evs :: Valid(d, s, evs) && After(d, s, evs).pc != s.pc
  }

  /** A drain can be left exactly when every waiting handler finds its outcome in the cache. */
  lemma {:induction false} DrainReleasesIffAllReady(d: Kind, s: Sys)
    requires Reachable(d, s) && Draining(s)
    ensures CanLeave(d, s) <==> AllReady(s)
  {
    ReachableInv(d, s);
    if AllReady(s) {
      var evs := ReleaseByWaking(d, s);
      assert Valid(d, s, evs) && After(d, s, evs).pc != s.pc;
    } else {
      var w :| w in s.waiting && !CanWake(s, w);
      forall evs | Valid(d, s, evs) ensures After(d, s, evs).pc == s.pc {
        StrandedForever(d, s, w, evs);
      }
    }
  }

  /** An admitted update with an uncached id, arriving in the handoff drain, holds the entity there forever. */
  lemma {:induction false} ArrivalHoldsHandoff(d: Kind, s: Sys, name: CommandName, id: RequestId,
                                                payload: Raw, evs: seq<Event>)
    requires Reachable(d, s) && s.pc == HandoffDrain
    requires Admitted(d, s, name, id, payload) && id !in s.env.cache.completed
    requires Valid(d, Next(d, s, Update(name, id, payload)), evs)
    ensures After(d, Next(d, s, Update(name, id, payload)), evs).pc == HandoffDrain
  {
    ReachableInv(d, s);
    StrandedForever(d, Next(d, s, Update(name, id, payload)), |s.log.accepted|, evs);
  }

  function Wakes(evs: seq<Event>): nat {
    if evs == [] then 0 else (if evs[0].Wake? then 1 else 0) + Wakes(evs[1..])
  }

  lemma {:induction false} ReadyStaysReady(d: Kind, s: Sys, e: Event)
    requires Draining(s) && AllReady(s) && s.run.init != Running && Enabled(d, s, e) && Next(d, s, e).pc == s.pc
    ensures s.log.accepted <= Next(d, s, e).log.accepted
    ensures Next(d, s, e).log.accepted == s.log.accepted ==>
      && AllReady(Next(d, s, e)) && Next(d, s, e).run.init != Running
      && |Next(d, s, e).waiting| + (if e.Wake? then 1 else 0) == |s.waiting|
  {
    StepChanges(d, s, e);
  }

  /**
   Without an uncached arrival a drain counts its handlers down: each wake-up leaves one fewer, so
   after as many wake-ups as there were handlers the loop can go on.
   */
  lemma {:induction false} DrainCountsDown(d: Kind, s: Sys, evs: seq<Event>)
    requires Draining(s) && AllReady(s) && s.run.init != Running && Valid(d, s, evs)
    requires After(d, s, evs).pc == s.pc && After(d, s, evs).log.accepted == s.log.accepted
    requires HeldThroughout(d, s, evs)
    ensures var t := After(d, s, evs);
      AllReady(t) && |t.waiting| + Wakes(evs) == |s.waiting| && (Wakes(evs) == |s.waiting| ==> Enabled(d, t, Resume))
    decreases |evs|
  {
    if evs != [] {
      var t := Next(d, s, evs[0]);
      LifeGrows(d, t, evs[1..]);
      ReadyStaysReady(d, s, evs[0]);
      DrainCountsDown(d, t, evs[1..]);
    }
  }

  /** The main coroutine does not resume during these events. */
  predicate HeldThroughout(d: Kind, s: Sys, evs: seq<Event>)
    requires Valid(d, s, evs)
    decreases |evs|
  {
    evs == [] || (Next(d, s, evs[0]).pc == s.pc && HeldThroughout(d, Next(d, s, evs[0]), evs[1..]))
  }
}
