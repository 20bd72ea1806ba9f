/** The caller's side (pkg/entclient/client.go): the retry loop, and what it does to the entity. */
module ClientRetry {
  import opened Entity
  import opened DedupCache
  import opened EntitySystem
  import opened LifeChanges
  import opened LifeInvariants
  import opened LifeTheorems
  import opened LifeSerial
  import opened RequestIds

  const MaxAttempts: nat := 5
  const RaceType := "AcceptedUpdateCompletedWorkflow"
  const RaceText := "Workflow completed before the Update completed"

  /** An error of a call: the application error type, if it is one, and its text. */
  datatype CallError = CallError(appType: Option<string>, text: string)

  predicate Contains(s: string, part: string) {
    part <= s || (s != [] && Contains(s[1..], part))
  }

  lemma {:induction false} ContainsIff(s: string, part: string)
    ensures Contains(s, part) <==> exists i :: 0 <= i <= |s| && part <= s[i..]
    decreases |s|
  {
    if part <= s {
      assert s[0..] == s;
    } else if s != [] {
      ContainsIff(s[1..], part);
      if i :| 0 <= i <= |s| - 1 && part <= s[1..][i..] {
        assert s[i + 1..] == s[1..][i..];
      }
      if i :| 0 <= i <= |s| && part <= s[i..] {
        assert s[0..] == s;
        assert s[1..][i - 1..] == s[i..];
      }
    } else {
      assert s[0..] == s;
    }
  }

  /** An error is taken for a race exactly when it has the race's type or its text contains the phrase. */
  lemma {:induction false} RaceIffTypeOrPhrase(e: CallError)
    ensures IsCANRace(e) <==>
      || e.appType == Some("AcceptedUpdateCompletedWorkflow")
      || exists i :: 0 <= i <= |e.text| && "Workflow completed before the Update completed" <= e.text[i..]
  {
    ContainsIff(e.text, RaceText);
  }

  predicate IsCANRace(e: CallError) {
    e.appType == Some(RaceType) || Contains(e.text, RaceText)
  }

  predicate Raced(outcome: Option<CallError>) {
    outcome.Some? && IsCANRace(outcome.value)
  }

  /** The loop makes exactly `n` calls: each before the last raced with no cancelled pause after it. */
  predicate Made(call: nat -> Option<CallError>, done: nat -> bool, n: nat) {
    && 1 <= n <= MaxAttempts
    && (forall k: nat :: k < n - 1 ==> Raced(call(k)) && !done(k))
    && (n < MaxAttempts ==> !Raced(call(n - 1)) || done(n - 1))
  }

  /**
   The retry loop: `call(k)` is what the k-th submission returns, `done(k)` whether the context ends
   during the pause after it. The result is settled by the last submission, and only races are retried.
   */
  method WithCANRetry(call: nat -> Option<CallError>, done: nat -> bool, ctxErr: CallError)
    returns (err: Option<CallError>, calls: nat)
    ensures Made(call, done, calls)
    ensures 1 <= calls <= 5 && (calls == 5 || !Raced(call(calls - 1)) || done(calls - 1))
    ensures forall k: nat :: k < calls - 1 ==> call(k).Some? && IsCANRace(call(k).value) && !done(k)
    ensures err == if Raced(call(calls - 1)) && done(calls - 1) then Some(ctxErr) else call(calls - 1)
  {
    err := None;
    calls := 0;
    for attempt := 0 to MaxAttempts
      invariant calls == attempt
      invariant forall k :: 0 <= k < attempt ==> Raced(call(k)) && !done(k)
      invariant attempt > 0 ==> err == call(attempt - 1)
    {
      err := call(attempt);
      calls := attempt + 1;
      if err == None || !IsCANRace(err.value) {
        return;
      }
      if done(attempt) {
        err := Some(ctxErr);
        return;
      }
    }
  }

  // ----- one operation over the lives of an entity -----

  /** The run of this id's waiting handler is over: the workflow closed, or it continued as new. */
  ghost predicate RunEndedUnder(s: Sys, id: RequestId) {
    && (s.pc == Closed || s.pc == Start)
    && exists w :: w in s.waiting && w < |s.log.accepted| && s.log.accepted[w].id == id
  }

  /** A run ends with a handler still waiting only when creation failed, and then nothing was ever dispatched. */
  lemma {:induction false} RaceOnlyAtCreateFailed(d: Kind, s: Sys)
    requires Reachable(d, s) && (s.pc == Closed || s.pc == Start) && s.waiting != {}
    ensures s.pc == Closed && s.env.phase == CreateFailed && s.log.dispatched == [] && s.log.records == []
  {
    ReachableInv(d, s);
  }

  function StateAt(d: Kind, s: Sys, evs: seq<Event>, n: nat): Sys
    requires Valid(d, s, evs) && n <= |evs|
    decreases n
  {
    if n == 0 then s else StateAt(d, Next(d, s, evs[0]), evs[1..], n - 1)
  }

  /** One life of an entity: a workflow execution and all the runs it continues as. */
  datatype Life = Life(kind: Kind, spec: Spec, zero: State, labels: Labels, evs: seq<Event>) {
    predicate Possible() {
      Valid(kind, Fresh(spec, zero, labels), evs)
    }

    function End(): Sys
      requires Possible()
    {
      After(kind, Fresh(spec, zero, labels), evs)
    }

    /** How often updates with this id are let through. */
    function Admissions(id: RequestId): nat
      requires Possible()
    {
      RequestIds.Admissions(kind, Fresh(spec, zero, labels), evs, id)
    }

    /** The state in which the `n`-th event happens. */
    function At(n: nat): Sys
      requires Possible() && n <= |evs|
    {
      StateAt(kind, Fresh(spec, zero, labels), evs, n)
    }
  }

  lemma {:induction false} LifeEndReachable(l: Life)
    requires l.Possible()
    ensures Reachable(l.kind, l.End())
  {
  }

  /** Nothing happens after a life is closed. */
  lemma {:induction false} ClosedIsLast(d: Kind, s: Sys, evs: seq<Event>, n: nat)
    requires Inv(d, s) && Valid(d, s, evs) && n <= |evs| && StateAt(d, s, evs, n).pc == Closed
    ensures n == |evs| && StateAt(d, s, evs, n) == After(d, s, evs)
    decreases n
  {
    if n > 0 {
      InvKept(d, s, evs[0]);
      ClosedIsLast(d, Next(d, s, evs[0]), evs[1..], n - 1);
    } else if evs != [] {
      NothingAfterClosed(d, s, evs[0]);
    }
  }

  lemma {:induction false} StateAtReachable(d: Kind, s: Sys, evs: seq<Event>, n: nat)
    requires Reachable(d, s) && Valid(d, s, evs) && n <= |evs|
    ensures Reachable(d, StateAt(d, s, evs, n))
    decreases n
  {
    if n > 0 {
      ReachableNext(d, s, evs[0]);
      StateAtReachable(d, Next(d, s, evs[0]), evs[1..], n - 1);
    }
  }

  /** An event in a sequence of lives. */
  datatype Position = Position(life: nat, event: nat) {
    predicate Before(other: Position) {
      life < other.life || (life == other.life && event < other.event)
    }
  }

  predicate Submits(lives: seq<Life>, p: Position, id: RequestId) {
    p.life < |lives| && p.event < |lives[p.life].evs| && IsSubmission(lives[p.life].evs[p.event], id)
  }

  ghost predicate AllPossible(lives: seq<Life>) {
    forall k :: 0 <= k < |lives| ==> lives[k].Possible()
  }

  /** The validator lets the submission at `p` through. */
  ghost predicate LetThrough(lives: seq<Life>, p: Position, id: RequestId)
    requires AllPossible(lives) && Submits(lives, p, id)
  {
    var l := lives[p.life];
    IsAdmission(l.kind, l.At(p.event), l.evs[p.event], id)
  }

  /** The race of the submission at `p`: by position `q` of the same life its run had ended under its handler. */
  ghost predicate RacedBy(lives: seq<Life>, p: Position, q: Position, id: RequestId)
    requires AllPossible(lives) && Submits(lives, p, id)
  {
    q.life == p.life && p.event < q.event <= |lives[p.life].evs| && RunEndedUnder(lives[p.life].At(q.event), id)
  }

  /** What the handler of an update that arrived in `before` has answered by `after`: a cache hit, or its own reply. */
  function AnswerTo(before: Sys, after: Sys, id: RequestId): Option<OpResult> {
    var slot := |before.log.accepted|;
    if id in before.env.cache.completed then Some(before.env.cache.completed[id])
    else if slot in after.log.replies then Some(after.log.replies[slot].outcome)
    else None
  }

  /** What a call returns. Only an outcome's text survives, so no answered error has the race's type. */
  predicate Told(o: OpResult, err: Option<CallError>, res: Raw) {
    match UpdateResult(o)
    case Ok(r) => err == None && res == r
    case Err(text) => err.Some? && err.value.text == text && err.value.appType != Some(RaceType)
  }

  ghost predicate AnsweredBy(lives: seq<Life>, p: Position, q: Position, id: RequestId,
                             err: Option<CallError>, res: Raw)
    requires AllPossible(lives) && Submits(lives, p, id)
  {
    var l := lives[p.life];
    && LetThrough(lives, p, id) && q.life == p.life && p.event < q.event <= |l.evs|
    && var answer := AnswerTo(l.At(p.event), l.At(q.event), id);
       answer.Some? && Told(answer.value, err, res)
  }

  /** What became of one call. */
  datatype Fate =
    | Undelivered                          // it never reached the workflow
    | Refused(p: Position)                 // the validator refused it
    | RanOut(p: Position, q: Position)     // its run ended under its handler
    | Answered(p: Position, q: Position)   // its handler returned
    | Abandoned(p: Position)               // the caller got some other error, and no race
  {
    function Delivery(): Option<Position> {
      if Undelivered? then None else Some(p)
    }

    /** From here on the caller knows. */
    function Known(): Position
      requires !Undelivered?
    {
      if RanOut? || Answered? then q else Position(p.life, p.event + 1)
    }
  }

  /** A call with this fate may return `err` and `res`. */
  ghost predicate Explains(lives: seq<Life>, f: Fate, id: RequestId, err: Option<CallError>, res: Raw)
    requires AllPossible(lives)
  {
    && (f.Delivery().Some? ==> Submits(lives, f.p, id))
    && match f
       case Undelivered => err.Some?
       case Refused(p) => err.Some? && !LetThrough(lives, p, id)
       case RanOut(p, q) => Raced(err) && RacedBy(lives, p, q, id)
       case Answered(p, q) => AnsweredBy(lives, p, q, id, err, res)
       case Abandoned(p) => err.Some? && !Raced(err)
  }

  ghost predicate IsCall(fate: nat -> Fate, n: nat, p: Position) {
    exists k: nat :: k < n && fate(k).Delivery() == Some(p)
  }

  /** A later call is delivered only once the caller knows the fate of an earlier one. */
  predicate InOrder(earlier: Fate, later: Fate) {
    !earlier.Undelivered? && !later.Undelivered? ==> !later.p.Before(earlier.Known())
  }

  /**
   One operation on the timeline of an entity, its successive lives: `fate(k)` is what becomes of the k-th of its
   `n` calls, which returns `call(k)` and leaves `out(k)` as its result. Nobody else uses its id.
   */
  ghost predicate Timeline(lives: seq<Life>, fate: nat -> Fate, call: nat -> Option<CallError>, out: nat -> Raw,
                           n: nat, id: RequestId) {
    && AllPossible(lives)
    && (forall k: nat :: k < n ==> Explains(lives, fate(k), id, call(k), out(k)))
    && (forall p :: Submits(lives, p, id) ==> IsCall(fate, n, p))
    && (forall j: nat, k: nat :: j < k < n ==> InOrder(fate(j), fate(k)))
  }

  ghost predicate RacedUntil(call: nat -> Option<CallError>, n: nat) {
    forall k: nat :: k < n - 1 ==> Raced(call(k))
  }

  // ----- a real race -----

  /** A race closes its life: creation failed, nothing was dispatched, and nothing follows in that life. */
  lemma {:induction false} RaceClosesLife(lives: seq<Life>, p: Position, q: Position, id: RequestId)
    requires AllPossible(lives) && Submits(lives, p, id) && RacedBy(lives, p, q, id)
    ensures q.event == |lives[p.life].evs| && lives[p.life].End().log.dispatched == []
    ensures lives[p.life].End().log.records == []
  {
    var l := lives[p.life];
    var s := Fresh(l.spec, l.zero, l.labels);
    assert Valid(l.kind, s, []) && After(l.kind, s, []) == s;
    StateAtReachable(l.kind, s, l.evs, q.event);
    RaceOnlyAtCreateFailed(l.kind, l.At(q.event));
    InvFresh(l.kind, l.spec, l.zero, l.labels);
    ClosedIsLast(l.kind, s, l.evs, q.event);
  }

  /** After a real race every later call is delivered, if at all, in a later life. */
  lemma {:induction false} RetriesInLaterLife(lives: seq<Life>, f: Fate, later: Fate, id: RequestId)
    requires AllPossible(lives) && f.RanOut? && Submits(lives, f.p, id) && RacedBy(lives, f.p, f.q, id)
    requires !later.Undelivered? && Submits(lives, later.p, id) && InOrder(f, later)
    ensures f.p.life < later.p.life
  {
    RaceClosesLife(lives, f.p, f.q, id);
  }

  // ----- an answer -----

  lemma {:induction false} StateAtGrows(d: Kind, s: Sys, evs: seq<Event>, m: nat, n: nat)
    requires Valid(d, s, evs) && m <= n <= |evs|
    ensures Grows(StateAt(d, s, evs, m), StateAt(d, s, evs, n))
    decreases n
  {
    if n > 0 {
      var t := Next(d, s, evs[0]);
      StepGrows(d, s, evs[0]);
      StateAtGrows(d, t, evs[1..], if m == 0 then 0 else m - 1, n - 1);
    }
  }

  lemma {:induction false} StateAtEnd(d: Kind, s: Sys, evs: seq<Event>)
    requires Valid(d, s, evs)
    ensures StateAt(d, s, evs, |evs|) == After(d, s, evs)
    decreases |evs|
  {
    if evs != [] {
      StateAtEnd(d, Next(d, s, evs[0]), evs[1..]);
    }
  }

  lemma {:induction false} StateAtStep(d: Kind, s: Sys, evs: seq<Event>, n: nat)
    requires Valid(d, s, evs) && n < |evs|
    ensures Enabled(d, StateAt(d, s, evs, n), evs[n])
    ensures StateAt(d, s, evs, n + 1) == Next(d, StateAt(d, s, evs, n), evs[n])
    decreases n
  {
    if n > 0 {
      StateAtStep(d, Next(d, s, evs[0]), evs[1..], n - 1);
    }
  }

  lemma {:induction false} CachedWasRecorded(d: Kind, s: Sys, id: RequestId) returns (m: nat)
    requires Inv(d, s) && id in s.env.cache.completed
    ensures m < |s.log.records| && s.log.records[m] == Record(id, s.env.cache.completed[id])
  {
    CacheRefinesHistory(s.log.records);
    m := LatestIndex(s.log.records, id);
  }

  /** In the state after an admitted, uncached update its slot holds its id for good. */
  lemma {:induction false} SlotKeepsId(l: Life, a: nat, b: nat, id: RequestId)
    requires l.Possible() && a < b <= |l.evs| && IsAdmission(l.kind, l.At(a), l.evs[a], id)
    requires id !in l.At(a).env.cache.completed
    ensures var slot := |l.At(a).log.accepted|; slot < |l.At(b).log.accepted| && l.At(b).log.accepted[slot].id == id
  {
    var s := Fresh(l.spec, l.zero, l.labels);
    StateAtStep(l.kind, s, l.evs, a);
    StateAtGrows(l.kind, s, l.evs, a + 1, b);
  }

  lemma {:induction false} LifeAtReachable(l: Life, n: nat)
    requires l.Possible() && n <= |l.evs|
    ensures Reachable(l.kind, l.At(n)) && l.At(n).log.records <= l.End().log.records
  {
    var s := Fresh(l.spec, l.zero, l.labels);
    assert Valid(l.kind, s, []) && After(l.kind, s, []) == s;
    StateAtReachable(l.kind, s, l.evs, n);
    StateAtGrows(l.kind, s, l.evs, n, |l.evs|);
    StateAtEnd(l.kind, s, l.evs);
  }

  /** Whatever a handler answers was recorded for its id in its own life. */
  lemma {:induction false} AnswerWasRecorded(l: Life, a: nat, b: nat, id: RequestId) returns (m: nat)
    requires l.Possible() && a < b <= |l.evs| && IsAdmission(l.kind, l.At(a), l.evs[a], id)
    requires AnswerTo(l.At(a), l.At(b), id).Some?
    ensures m < |l.End().log.records|
    ensures l.End().log.records[m] == Record(id, AnswerTo(l.At(a), l.At(b), id).value)
  {
    LifeAtReachable(l, a);
    LifeAtReachable(l, b);
    if id in l.At(a).env.cache.completed {
      ReachableInv(l.kind, l.At(a));
      m := CachedWasRecorded(l.kind, l.At(a), id);
    } else {
      SlotKeepsId(l, a, b, id);
      m := RepliesWereRecorded(l.kind, l.At(b), |l.At(a).log.accepted|);
    }
  }

  lemma {:induction false} EmptyContainsNothing(part: string)
    ensures part != "" ==> !Contains("", part)
  {
  }

  /** A call that was answered is taken for a race exactly when its recorded error text contains the phrase. */
  lemma {:induction false} AnsweredRetriedIff(o: OpResult, err: Option<CallError>, res: Raw)
    requires Told(o, err, res)
    ensures Raced(err) <==> Contains(o.err, RaceText)
  {
    EmptyContainsNothing(RaceText);
  }

  // ----- at most one dispatch -----

  /** No outcome recorded for the id has an error text containing the phrase. */
  ghost predicate NoRaceText(lives: seq<Life>, id: RequestId)
    requires AllPossible(lives)
  {
    forall i :: 0 <= i < |lives| ==> NoRaceTextIn(lives[i].End().log.records, id)
  }

  ghost predicate NoRaceTextIn(records: seq<Record>, id: RequestId) {
    forall m :: 0 <= m < |records| && records[m].id == id ==> !Contains(records[m].outcome.err, RaceText)
  }

  /** Without the phrase a call that is retried was not answered. */
  lemma {:induction false} RetriedNotAnswered(lives: seq<Life>, f: Fate, id: RequestId,
                                              err: Option<CallError>, res: Raw)
    requires AllPossible(lives) && Explains(lives, f, id, err, res) && NoRaceText(lives, id) && Raced(err)
    ensures !f.Answered? && !f.Abandoned?
  {
    if f.Answered? {
      var l := lives[f.p.life];
      var m := AnswerWasRecorded(l, f.p.event, f.q.event, id);
      assert NoRaceTextIn(l.End().log.records, id);
      AnsweredRetriedIff(AnswerTo(l.At(f.p.event), l.At(f.q.event), id).value, err, res);
    }
  }

  /** A submission that was let through belongs to the last call, or to one whose run ended under it. */
  lemma {:induction false} AdmittedCall(lives: seq<Life>, fate: nat -> Fate, call: nat -> Option<CallError>,
                                        out: nat -> Raw, n: nat, id: RequestId, p: Position) returns (k: nat)
    requires Timeline(lives, fate, call, out, n, id) && RacedUntil(call, n) && NoRaceText(lives, id)
    requires Submits(lives, p, id) && LetThrough(lives, p, id)
    ensures k < n && fate(k).Delivery() == Some(p) && (fate(k).RanOut? || k == n - 1) && !fate(k).Refused?
  {
    assert IsCall(fate, n, p);
    k :| k < n && fate(k).Delivery() == Some(p);
    assert Explains(lives, fate(k), id, call(k), out(k));
    if k < n - 1 {
      RetriedNotAnswered(lives, fate(k), id, call(k), out(k));
    }
  }

  lemma {:induction false} AdmittedOnce(d: Kind, s: Sys, evs: seq<Event>, id: RequestId) returns (i: nat)
    requires Valid(d, s, evs) && Admissions(d, s, evs, id) >= 1
    ensures i < |evs| && IsAdmission(d, StateAt(d, s, evs, i), evs[i], id)
    decreases |evs|
  {
    if IsAdmission(d, s, evs[0], id) {
      i := 0;
    } else {
      i := AdmittedOnce(d, Next(d, s, evs[0]), evs[1..], id);
      i := i + 1;
    }
  }

  lemma {:induction false} AdmittedTwice(d: Kind, s: Sys, evs: seq<Event>, id: RequestId) returns (i: nat, j: nat)
    requires Valid(d, s, evs) && Admissions(d, s, evs, id) >= 2
    ensures i < j < |evs|
    ensures IsAdmission(d, StateAt(d, s, evs, i), evs[i], id) && IsAdmission(d, StateAt(d, s, evs, j), evs[j], id)
    decreases |evs|
  {
    if IsAdmission(d, s, evs[0], id) {
      i := 0;
      j := AdmittedOnce(d, Next(d, s, evs[0]), evs[1..], id);
      j := j + 1;
    } else {
      i, j := AdmittedTwice(d, Next(d, s, evs[0]), evs[1..], id);
      i, j := i + 1, j + 1;
    }
  }

  /** Let through at most once in a life, an id is dispatched at most once in it; never let through, never. */
  lemma {:induction false} OneAdmissionOneDispatch(l: Life, id: RequestId)
    requires l.Possible() && l.Admissions(id) <= 1
    ensures Count(l.End().log.dispatched, id) <= Count(l.End().log.accepted, id) <= l.Admissions(id)
    ensures RunEndedUnder(l.End(), id) ==> Count(l.End().log.dispatched, id) == 0
  {
    AcceptedAtMostAdmitted(l.kind, Fresh(l.spec, l.zero, l.labels), l.evs, id);
    LifeEndReachable(l);
    ReachableInv(l.kind, l.End());
    CountPrefix(l.End().log.dispatched, l.End().log.accepted, id);
  }

  /** A life in which a call of the operation ended in a real race dispatched nothing. */
  ghost predicate RanOutIn(fate: nat -> Fate, n: nat, i: nat) {
    exists k: nat :: k < n && fate(k).RanOut? && fate(k).p.life == i
  }

  lemma {:induction false} AdmittedIsLast(lives: seq<Life>, fate: nat -> Fate, call: nat -> Option<CallError>,
                                          out: nat -> Raw, n: nat, id: RequestId, p: Position)
    requires Timeline(lives, fate, call, out, n, id) && RacedUntil(call, n) && NoRaceText(lives, id)
    requires Submits(lives, p, id) && LetThrough(lives, p, id) && !RanOutIn(fate, n, p.life)
    ensures n > 0 && fate(n - 1).Delivery() == Some(p) && LastIn(fate(n - 1), p.life)
  {
    var k := AdmittedCall(lives, fate, call, out, n, id, p);
    assert !fate(k).RanOut?;
  }

  /** Elsewhere only the last call can have been let through, once. */
  lemma {:induction false} AdmittedAtMostOnce(lives: seq<Life>, fate: nat -> Fate, call: nat -> Option<CallError>,
                                              out: nat -> Raw, n: nat, id: RequestId, i: nat)
    requires Timeline(lives, fate, call, out, n, id) && RacedUntil(call, n) && NoRaceText(lives, id)
    requires i < |lives| && !RanOutIn(fate, n, i)
    ensures lives[i].Admissions(id) <= 1
    ensures lives[i].Admissions(id) == 1 ==> n > 0 && LastIn(fate(n - 1), i)
  {
    var l := lives[i];
    var s := Fresh(l.spec, l.zero, l.labels);
    if l.Admissions(id) == 1 {
      var a := AdmittedOnce(l.kind, s, l.evs, id);
      AdmittedIsLast(lives, fate, call, out, n, id, Position(i, a));
    } else if l.Admissions(id) >= 2 {
      var a, b := AdmittedTwice(l.kind, s, l.evs, id);
      AdmittedIsLast(lives, fate, call, out, n, id, Position(i, a));
      AdmittedIsLast(lives, fate, call, out, n, id, Position(i, b));
    }
  }

  /** The last call was let through in life `i`, and its run did not end under it. */
  predicate LastIn(f: Fate, i: nat) {
    (f.Answered? || f.Abandoned?) && f.p.life == i
  }

  lemma {:induction false} DispatchedInLife(lives: seq<Life>, fate: nat -> Fate, call: nat -> Option<CallError>,
                                            out: nat -> Raw, n: nat, id: RequestId, i: nat)
    requires Timeline(lives, fate, call, out, n, id) && RacedUntil(call, n) && NoRaceText(lives, id)
    requires i < |lives|
    ensures Count(lives[i].End().log.dispatched, id) <= if n > 0 && LastIn(fate(n - 1), i) then 1 else 0
  {
    if RanOutIn(fate, n, i) {
      var k: nat :| k < n && fate(k).RanOut? && fate(k).p.life == i;
      assert Explains(lives, fate(k), id, call(k), out(k));
      RaceClosesLife(lives, fate(k).p, fate(k).q, id);
    } else {
      AdmittedAtMostOnce(lives, fate, call, out, n, id, i);
      OneAdmissionOneDispatch(lives[i], id);
    }
  }

  ghost function Dispatches(lives: seq<Life>, id: RequestId): nat
    requires AllPossible(lives)
  {
    if lives == [] then 0 else Dispatches(lives[..|lives| - 1], id) + Count(lives[|lives| - 1].End().log.dispatched, id)
  }

  /** At most one life that dispatched the id, once, makes at most one dispatch in all. */
  lemma {:induction false} SumOfDispatches(lives: seq<Life>, id: RequestId, last: int)
    requires AllPossible(lives)
    requires forall i :: 0 <= i < |lives| ==>
      Count(lives[i].End().log.dispatched, id) <= if i == last then 1 else 0
    ensures Dispatches(lives, id) <= if 0 <= last < |lives| then 1 else 0
  {
    if lives != [] {
      SumOfDispatches(lives[..|lives| - 1], id, last);
    }
  }

  lemma {:induction false} DispatchesAtLeast(lives: seq<Life>, id: RequestId, i: nat)
    requires AllPossible(lives) && i < |lives|
    ensures Dispatches(lives, id) >= Count(lives[i].End().log.dispatched, id)
    decreases |lives|
  {
    if i < |lives| - 1 {
      DispatchesAtLeast(lives[..|lives| - 1], id, i);
    }
  }

  /**
   One operation, whose calls but the last were all taken for races, dispatches its id at most once over all the
   lives of the entity if no outcome recorded for the id contains the phrase; and never unless its last call was
   answered or abandoned. After a real race every later call lands in a later life.
   */
  lemma {:induction false} OperationDispatchesOnce(lives: seq<Life>, fate: nat -> Fate,
                                                   call: nat -> Option<CallError>, out: nat -> Raw,
                                                   n: nat, id: RequestId)
    requires Timeline(lives, fate, call, out, n, id) && RacedUntil(call, n)
    ensures NoRaceText(lives, id) ==>
      Dispatches(lives, id) <= if n > 0 && (fate(n - 1).Answered? || fate(n - 1).Abandoned?) then 1 else 0
    ensures forall j: nat, k: nat :: j < k < n && fate(j).RanOut? && !fate(k).Undelivered? ==>
      fate(j).p.life < fate(k).p.life
  {
    if NoRaceText(lives, id) {
      var last: int := if n > 0 && (fate(n - 1).Answered? || fate(n - 1).Abandoned?) then fate(n - 1).p.life else -1;
      forall i | 0 <= i < |lives| ensures Count(lives[i].End().log.dispatched, id) <= if i == last then 1 else 0 {
        DispatchedInLife(lives, fate, call, out, n, id, i);
      }
      SumOfDispatches(lives, id, last);
    }
    forall j: nat, k: nat | j < k < n && fate(j).RanOut? && !fate(k).Undelivered?
      ensures fate(j).p.life < fate(k).p.life
    {
      LaterLife(lives, fate, call, out, n, id, j, k);
    }
  }

  lemma {:induction false} LaterLife(lives: seq<Life>, fate: nat -> Fate, call: nat -> Option<CallError>,
                                     out: nat -> Raw, n: nat, id: RequestId, j: nat, k: nat)
    requires Timeline(lives, fate, call, out, n, id) && j < k < n && fate(j).RanOut? && !fate(k).Undelivered?
    ensures fate(j).p.life < fate(k).p.life
  {
    assert Explains(lives, fate(j), id, call(j), out(j)) && Explains(lives, fate(k), id, call(k), out(k));
    RetriesInLaterLife(lives, fate(j), fate(k), id);
  }

  // ----- what a success means -----

  /** In some life the id was dispatched and its execution returned exactly this result. */
  ghost predicate Executed(lives: seq<Life>, id: RequestId, res: Raw)
    requires AllPossible(lives)
  {
    exists i, m :: 0 <= i < |lives| && ExecutedAt(lives[i].End().log, m, id, res)
  }

  predicate ExecutedAt(h: History, m: int, id: RequestId, res: Raw) {
    && 0 <= m < |h.dispatched| && h.dispatched[m].id == id
    && m < |h.records| && h.records[m] == Record(id, OpResult(res, ""))
  }

  /** A recorded success was executed: what deletion rejects is recorded as an error. */
  lemma {:induction false} SuccessWasDispatched(d: Kind, s: Sys, m: nat, id: RequestId, res: Raw)
    requires Reachable(d, s) && m < |s.log.records| && s.log.records[m] == Record(id, OpResult(res, ""))
    ensures ExecutedAt(s.log, m, id, res)
  {
    NothingLostInOrder(d, s);
    if m < |s.log.dispatched| {
      assert s.log.accepted[m] == s.log.dispatched[m];
    }
  }

  /** A call that returns no error returns the result of a dispatched execution of its own id. */
  lemma {:induction false} SuccessIsAnExecution(lives: seq<Life>, f: Fate, id: RequestId, res: Raw)
    requires AllPossible(lives) && Explains(lives, f, id, None, res)
    ensures f.Answered? && Executed(lives, id, res) && Dispatches(lives, id) >= 1
  {
    var i := f.p.life;
    var m := AnswerWasRecorded(lives[i], f.p.event, f.q.event, id);
    LifeEndReachable(lives[i]);
    SuccessWasDispatched(lives[i].kind, lives[i].End(), m, id, res);
    CountsOccurrence(lives[i].End().log.dispatched, id);
    DispatchesAtLeast(lives, id, i);
  }

  /**
   End to end: whatever the entity's lives, one operation makes at most five calls. If it returns no error, its
   result is that of an execution of its own id. Its id is dispatched at most once, and exactly once if it returns no
   error, unless an outcome recorded for it contains the phrase. ExecWithRequestID with an unused id has the same shape.
   */
  method ExecWithStart(ghost lives: seq<Life>, ghost fate: nat -> Fate, ghost id: RequestId,
                       call: nat -> Option<CallError>, out: nat -> Raw, done: nat -> bool, ctxErr: CallError)
    returns (res: Raw, err: Option<CallError>, calls: nat)
    requires forall n :: Made(call, done, n) ==> Timeline(lives, fate, call, out, n, id)
    ensures Made(call, done, calls) && AllPossible(lives)
    ensures err == if Raced(call(calls - 1)) && done(calls - 1) then Some(ctxErr) else call(calls - 1)
    ensures err == None ==> Executed(lives, id, res)
    ensures NoRaceText(lives, id) ==>
      && Dispatches(lives, id) <= (if fate(calls - 1).Answered? || fate(calls - 1).Abandoned? then 1 else 0)
      && (err == None ==> Dispatches(lives, id) == 1)
  {
    err, calls := WithCANRetry(call, done, ctxErr);
    res := out(calls - 1);
    OperationDispatchesOnce(lives, fate, call, out, calls, id);
    if err == None {
      assert Explains(lives, fate(calls - 1), id, call(calls - 1), out(calls - 1));
      SuccessIsAnExecution(lives, fate(calls - 1), id, res);
    }
  }
}
