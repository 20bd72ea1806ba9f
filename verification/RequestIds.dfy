/** How often a request id is let through, accepted and dispatched in one life of an entity. */
module RequestIds {
  import opened Entity
  import opened DedupCache
  import opened EntitySystem
  import opened LifeChanges
  import opened LifeInvariants
  import opened LifeTheorems

  function Count(cmds: seq<Command>, id: RequestId): nat {
    if cmds == [] then 0
    else Count(cmds[..|cmds| - 1], id) + if cmds[|cmds| - 1].id == id then 1 else 0
  }

  lemma {:induction false} CountPush(cmds: seq<Command>, c: Command, id: RequestId)
    ensures Count(cmds + [c], id) == Count(cmds, id) + if c.id == id then 1 else 0
  {
    assert (cmds + [c])[..|cmds|] == cmds;
  }

  lemma {:induction false} CountPrefix(cmds: seq<Command>, all: seq<Command>, id: RequestId)
    requires cmds <= all
    ensures Count(cmds, id) <= Count(all, id)
    decreases |all|
  {
    if |cmds| < |all| {
      CountPrefix(cmds, all[..|all| - 1], id);
    } else {
      assert cmds == all;
    }
  }

  predicate IsSubmission(e: Event, id: RequestId) {
    e.Update? && e.id == id
  }

  /** A submission the validator lets through. */
  predicate IsAdmission(d: Kind, s: Sys, e: Event, id: RequestId) {
    IsSubmission(e, id) && Admitted(d, s, e.name, id, e.payload)
  }

  function Admissions(d: Kind, s: Sys, evs: seq<Event>, id: RequestId): nat
    requires Valid(d, s, evs)
    decreases |evs|
  {
    if evs == [] then 0
    else (if IsAdmission(d, s, evs[0], id) then 1 else 0) + Admissions(d, Next(d, s, evs[0]), evs[1..], id)
  }

  lemma {:induction false} AcceptsOne(d: Kind, s: Sys, e: Event, id: RequestId)
    requires Enabled(d, s, e)
    ensures Count(Next(d, s, e).log.accepted, id)
         <= Count(s.log.accepted, id) + if IsAdmission(d, s, e, id) then 1 else 0
  {
    StepChanges(d, s, e);
    var ch := ChangeOf(d, s, e);
    if ch.Enqueued? {
      CountPush(s.log.accepted, ch.c, id);
    }
  }

  /** An id is accepted at most as often as it was let through. */
  lemma {:induction false} AcceptedAtMostAdmitted(d: Kind, s: Sys, evs: seq<Event>, id: RequestId)
    requires Valid(d, s, evs)
    ensures Count(After(d, s, evs).log.accepted, id) <= Count(s.log.accepted, id) + Admissions(d, s, evs, id)
    decreases |evs|
  {
    if evs != [] {
      AcceptsOne(d, s, evs[0], id);
      AcceptedAtMostAdmitted(d, Next(d, s, evs[0]), evs[1..], id);
    }
  }

  // ----- resubmitting an id on a living entity -----

  predicate Remembered(records: seq<Record>, id: RequestId) {
    EverRecorded(records, id) && InsertedSince(records, id) < CompletedOpsCap
  }

  /** An update the entity lets through although it accepted its id before. */
  predicate Resubmits(d: Kind, s: Sys, e: Event, id: RequestId) {
    IsAdmission(d, s, e, id) && AtYield(s.pc) && Count(s.log.accepted, id) > 0
  }

  /** Every resubmission of the id arrives while its outcome is recorded and fewer than the cap were inserted since. */
  predicate ResubmittedWhileRemembered(d: Kind, s: Sys, evs: seq<Event>, id: RequestId)
    requires Valid(d, s, evs)
    decreases |evs|
  {
    evs != [] ==>
      && (Resubmits(d, s, evs[0], id) ==> Remembered(s.log.records, id))
      && ResubmittedWhileRemembered(d, Next(d, s, evs[0]), evs[1..], id)
  }

  lemma {:induction false} ResubmissionCounts(d: Kind, s: Sys, e: Event, id: RequestId)
    requires Inv(d, s) && Enabled(d, s, e)
    ensures var before, after := Count(s.log.accepted, id), Count(Next(d, s, e).log.accepted, id);
      && before <= after <= before + 1
      && (before > 0 ==> (after > before <==> Resubmits(d, s, e, id) && !Remembered(s.log.records, id)))
  {
    CachedIffRecent(s.log.records, id);
    StepChanges(d, s, e);
    var ch := ChangeOf(d, s, e);
    if ch.Enqueued? {
      CountPush(s.log.accepted, ch.c, id);
    }
  }

  lemma {:induction false} AcceptedOnceFrom(d: Kind, s: Sys, evs: seq<Event>, id: RequestId)
    requires Inv(d, s) && Valid(d, s, evs) && Count(s.log.accepted, id) <= 1
    ensures Count(After(d, s, evs).log.accepted, id) <= 1 <==> ResubmittedWhileRemembered(d, s, evs, id)
    decreases |evs|
  {
    if evs != [] {
      var t := Next(d, s, evs[0]);
      InvKept(d, s, evs[0]);
      ResubmissionCounts(d, s, evs[0], id);
      if Count(t.log.accepted, id) <= 1 {
        AcceptedOnceFrom(d, t, evs[1..], id);
      } else {
        LifeGrows(d, t, evs[1..]);
        CountPrefix(t.log.accepted, After(d, t, evs[1..]).log.accepted, id);
      }
    }
  }

  lemma {:induction false} CountedOnceIsUnique(cmds: seq<Command>, slot: nat)
    requires slot < |cmds| && Count(cmds, cmds[slot].id) <= 1
    ensures UniqueSlot(cmds, slot)
    decreases |cmds|
  {
    var id, last, before := cmds[slot].id, |cmds| - 1, cmds[..|cmds| - 1];
    forall k | 0 <= k < |cmds| && k != slot ensures cmds[k].id != id {
      if slot == last {
        CountsOccurrence(before, id);
        assert k < last && before[k] == cmds[k];
      } else {
        assert before[slot] == cmds[slot];
        CountedOnceIsUnique(before, slot);
        CountsOccurrence(before, id);
        assert k < last ==> before[k] == cmds[k];
      }
    }
  }

  lemma {:induction false} CountsOccurrence(cmds: seq<Command>, id: RequestId)
    ensures Count(cmds, id) == 0 <==> forall k :: 0 <= k < |cmds| ==> cmds[k].id != id
  {
    if cmds != [] {
      var before := cmds[..|cmds| - 1];
      CountsOccurrence(before, id);
      assert forall k :: 0 <= k < |before| ==> before[k] == cmds[k];
    }
  }

  /** What an id accepted once brings: one dispatch at most, and every caller that used it is told its one outcome. */
  lemma {:induction false} OneOutcomeForAll(d: Kind, s: Sys, slot: nat)
    requires Reachable(d, s) && slot < |s.log.accepted| && Count(s.log.accepted, s.log.accepted[slot].id) <= 1
    ensures var id := s.log.accepted[slot].id;
      && Count(s.log.dispatched, id) <= 1
      && (slot in s.log.replies ==>
            slot < |s.log.records| && s.log.replies[slot].outcome == s.log.records[slot].outcome)
      && forall i :: 0 <= i < |s.log.hits| && s.log.hits[i].id == id ==>
           slot < |s.log.records| && s.log.hits[i].reply.outcome == s.log.records[slot].outcome
  {
    var id := s.log.accepted[slot].id;
    CountedOnceIsUnique(s.log.accepted, slot);
    ReachableInv(d, s);
    CountPrefix(s.log.dispatched, s.log.accepted, id);
    if slot in s.log.replies {
      UniqueReplyIsOwn(d, s, slot);
    }
    forall i | 0 <= i < |s.log.hits| && s.log.hits[i].id == id
      ensures slot < |s.log.records| && s.log.hits[i].reply.outcome == s.log.records[slot].outcome
    {
      var m := HitsWereRecorded(d, s, i);
      assert s.log.accepted[m].id == id;
    }
  }

  /**
   Idempotent resubmission, exactly: over a whole life an id is accepted for execution at most once iff every
   resubmission the validator lets through arrives while the entity remembers its outcome. It is then dispatched
   at most once, and callers served from the cache are told the outcome of that one execution.
   */
  lemma {:induction false} ResubmissionsExecuteOnceIff(d: Kind, spec: Spec, zero: State, labels: Labels,
                                                       evs: seq<Event>, id: RequestId)
    requires Valid(d, Fresh(spec, zero, labels), evs)
    ensures var t := After(d, Fresh(spec, zero, labels), evs);
      && (Count(t.log.accepted, id) <= 1 <==> ResubmittedWhileRemembered(d, Fresh(spec, zero, labels), evs, id))
      && (Count(t.log.accepted, id) <= 1 ==>
            && Count(t.log.dispatched, id) <= 1
            && forall i, j :: 0 <= i < j < |t.log.hits| && t.log.hits[i].id == id && t.log.hits[j].id == id ==>
                 t.log.hits[i].reply.outcome == t.log.hits[j].reply.outcome)
  {
    var s := Fresh(spec, zero, labels);
    var t := After(d, s, evs);
    InvFresh(d, spec, zero, labels);
    AcceptedOnceFrom(d, s, evs, id);
    assert Reachable(d, t);
    ReachableInv(d, t);
    CountPrefix(t.log.dispatched, t.log.accepted, id);
    if Count(t.log.accepted, id) <= 1 {
      forall i, j | 0 <= i < j < |t.log.hits| && t.log.hits[i].id == id && t.log.hits[j].id == id
        ensures t.log.hits[i].reply.outcome == t.log.hits[j].reply.outcome
      {
        var m := HitsWereRecorded(d, t, i);
        OneOutcomeForAll(d, t, m);
      }
    }
  }
}
