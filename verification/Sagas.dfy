/** Multi-step operations with compensation (pkg/entdefine/saga.go), over an abstract world. */
module Sagas {
  import opened Entity

  /** An action changes the world and may fail. */
  type Action<!W> = W -> (W, Option<string>)

  datatype SagaStep<!W> = SagaStep(name: string, forward: Action<W>, compensate: Option<Action<W>>)

  datatype SagaError = StepFailed(step: string, text: string) | CompensateFailed(step: string, text: string)

  /** What ran, by step position. */
  datatype Did = Forward(step: nat) | Undone(step: nat)

  datatype Undo<W> = Undo(world: W, errs: seq<SagaError>, trace: seq<Did>)

  // ----- what a run does -----

  /** The world after the first `n` forward actions. */
  function WorldAfter<W>(steps: seq<SagaStep<W>>, w: W, n: nat): W
    requires n <= |steps|
  {
    if n == 0 then w else steps[n - 1].forward(WorldAfter(steps, w, n - 1)).0
  }

  function ForwardError<W>(steps: seq<SagaStep<W>>, w: W, n: nat): Option<string>
    requires n < |steps|
  {
    steps[n].forward(WorldAfter(steps, w, n)).1
  }

  /** The first step from `n` on whose forward action fails; `|steps|` if none does. */
  function FirstFailure<W>(steps: seq<SagaStep<W>>, w: W, n: nat): (f: nat)
    requires n <= |steps|
    ensures n <= f <= |steps|
    ensures forall k: nat :: n <= k < f ==> ForwardError(steps, w, k) == None
    ensures f < |steps| ==> ForwardError(steps, w, f).Some?
    decreases |steps| - n
  {
    if n == |steps| || ForwardError(steps, w, n).Some? then n else FirstFailure(steps, w, n + 1)
  }

  /** Compensating the first `n` steps, last one first. */
  function Unwind<W>(steps: seq<SagaStep<W>>, n: nat, w: W): Undo<W>
    requires n <= |steps|
  {
    if n == 0 then Undo(w, [], [])
    else
      var st := steps[n - 1];
      if st.compensate.None? then Unwind(steps, n - 1, w)
      else
        var (w', err) := st.compensate.value(w);
        var rest := Unwind(steps, n - 1, w');
        Undo(rest.world, CompensationErrors(st.name, err) + rest.errs, [Undone(n - 1)] + rest.trace)
  }

  function CompensationErrors(name: string, err: Option<string>): seq<SagaError> {
    if err.Some? then [CompensateFailed(name, err.value)] else []
  }

  function Forwards(n: nat): seq<Did> {
    seq(n, k requires 0 <= k < n => Forward(k))
  }

  /** A whole run: the forward prefix and, if a step fails, the compensations of the steps before it. */
  function Ran<W>(steps: seq<SagaStep<W>>, start: W): Undo<W> {
    var n := FirstFailure(steps, start, 0);
    if n == |steps| then Undo(WorldAfter(steps, start, n), [], Forwards(n))
    else
      var undo := Unwind(steps, n, WorldAfter(steps, start, n + 1));
      Undo(undo.world, [StepFailed(steps[n].name, ForwardError(steps, start, n).value)] + undo.errs,
           Forwards(n + 1) + undo.trace)
  }

  lemma {:induction false} FailsAt<W>(steps: seq<SagaStep<W>>, start: W, n: nat)
    requires n < |steps| && ForwardError(steps, start, n).Some?
    requires FirstFailure(steps, start, 0) == FirstFailure(steps, start, n)
    ensures var undo := Unwind(steps, n, WorldAfter(steps, start, n + 1));
      Ran(steps, start) == Undo(undo.world,
        [StepFailed(steps[n].name, ForwardError(steps, start, n).value)] + undo.errs, Forwards(n + 1) + undo.trace)
  {
  }

  class Saga<W> {
    var steps: seq<SagaStep<W>>

    constructor ()
      ensures steps == []
    {
      steps := [];
    }

    method Step(name: string, forward: Action<W>, compensate: Option<Action<W>>) returns (s: Saga<W>)
      modifies this
      ensures s == this && steps == old(steps) + [SagaStep(name, forward, compensate)]
    {
      steps := steps + [SagaStep(name, forward, compensate)];
      s := this;
    }

    /** Runs all steps; at the first failure compensates the completed ones in reverse, past any that fails. */
    method Run(start: W) returns (world: W, errs: seq<SagaError>, trace: seq<Did>)
      ensures Undo(world, errs, trace) == Ran(steps, start)
    {
      world, errs, trace := start, [], [];
      var completed: seq<SagaStep<W>> := [];
      for n := 0 to |steps|
        invariant completed == steps[..n] && errs == []
        invariant world == WorldAfter(steps, start, n) && trace == Forwards(n)
        invariant FirstFailure(steps, start, 0) == FirstFailure(steps, start, n)
      {
        var st := steps[n];
        var (next, err) := st.forward(world);
        world, trace := next, trace + [Forward(n)];
        assert trace == Forwards(n + 1) && world == WorldAfter(steps, start, n + 1);
        if err.Some? {
          FailsAt(steps, start, n);
          errs := [StepFailed(st.name, err.value)];
          world, errs, trace := Compensate(completed, n, world, errs, trace);
          return;
        }
        completed := completed + [st];
      }
    }

    /** The backward loop over the completed steps, the first `n`. */
    method Compensate(completed: seq<SagaStep<W>>, n: nat, w: W, errs0: seq<SagaError>, trace0: seq<Did>)
      returns (world: W, errs: seq<SagaError>, trace: seq<Did>)
      requires n <= |steps| && completed == steps[..n]
      ensures world == Unwind(steps, n, w).world
      ensures errs == errs0 + Unwind(steps, n, w).errs
      ensures trace == trace0 + Unwind(steps, n, w).trace
    {
      world, errs, trace := w, errs0, trace0;
      for i := n downto 0
        invariant Unwind(steps, i, world).world == Unwind(steps, n, w).world
        invariant errs + Unwind(steps, i, world).errs == errs0 + Unwind(steps, n, w).errs
        invariant trace + Unwind(steps, i, world).trace == trace0 + Unwind(steps, n, w).trace
      {
        var c := completed[i];
        if c.compensate.None? {
          continue;
        }
        var (next, err) := c.compensate.value(world);
        world, trace := next, trace + [Undone(i)];
        if err.Some? {
          errs := errs + [CompensateFailed(c.name, err.value)];
        }
      }
    }
  }

  // ----- what compensation guarantees -----

  /** Exactly the completed steps that have a compensation are undone, each once, latest first, whatever fails. */
  lemma {:induction false} UndoneInReverse<W>(steps: seq<SagaStep<W>>, n: nat, w: W)
    requires n <= |steps|
    ensures var trace := Unwind(steps, n, w).trace;
      && (forall k :: 0 <= k < |trace| ==> trace[k].Undone?)
      && (forall i: nat :: Undone(i) in trace <==> i < n && steps[i].compensate.Some?)
      && (forall j, k :: 0 <= j < k < |trace| ==> trace[j].step > trace[k].step)
  {
    if n > 0 {
      var st := steps[n - 1];
      UndoneInReverse(steps, n - 1, if st.compensate.None? then w else st.compensate.value(w).0);
    }
  }

  /** Step `k` is undone by its compensation, or changed nothing if it has none. */
  ghost predicate Undoes<W>(steps: seq<SagaStep<W>>, w: W, k: nat)
    requires k < |steps|
  {
    var before, after := WorldAfter(steps, w, k), WorldAfter(steps, w, k + 1);
    if steps[k].compensate.None? then after == before else steps[k].compensate.value(after) == (before, None)
  }

  lemma {:induction false} UnwindRestores<W>(steps: seq<SagaStep<W>>, n: nat, w: W)
    requires n <= |steps| && forall k: nat :: k < n ==> Undoes(steps, w, k)
    ensures Unwind(steps, n, WorldAfter(steps, w, n)).world == w
    ensures Unwind(steps, n, WorldAfter(steps, w, n)).errs == []
  {
    if n > 0 {
      assert Undoes(steps, w, n - 1);
      UnwindRestores(steps, n - 1, w);
    }
  }

  /** The first failing step changes nothing, and every step before it is undone by its compensation. */
  ghost predicate Restorable<W>(steps: seq<SagaStep<W>>, start: W) {
    var n := FirstFailure(steps, start, 0);
    && n < |steps| && WorldAfter(steps, start, n + 1) == WorldAfter(steps, start, n)
    && forall k: nat :: k < n ==> Undoes(steps, start, k)
  }

  /** A failed, restorable saga leaves no trace in the world: it ends where it started and reports its failing step. */
  lemma {:induction false} FailedSagaRestores<W>(steps: seq<SagaStep<W>>, start: W)
    requires Restorable(steps, start)
    ensures var n := FirstFailure(steps, start, 0);
      && Ran(steps, start).world == start
      && Ran(steps, start).errs == [StepFailed(steps[n].name, ForwardError(steps, start, n).value)]
  {
    UnwindRestores(steps, FirstFailure(steps, start, 0), start);
  }

  // ----- a run, read off its trace -----

  /** One entry of a trace: the step's forward action or its compensation, in the world it finds. */
  function Perform<W>(steps: seq<SagaStep<W>>, did: Did, w: W): (W, Option<string>) {
    if did.step >= |steps| then (w, None)
    else if did.Forward? then steps[did.step].forward(w)
    else if steps[did.step].compensate.Some? then steps[did.step].compensate.value(w)
    else (w, None)
  }

  /** The world after every entry, each performed in the world the one before left. */
  function WorldAfterTrace<W>(steps: seq<SagaStep<W>>, trace: seq<Did>, w: W): W {
    if trace == [] then w else WorldAfterTrace(steps, trace[1..], Perform(steps, trace[0], w).0)
  }

  /** What every entry reports, performed likewise. */
  function Texts<W>(steps: seq<SagaStep<W>>, trace: seq<Did>, w: W): (texts: seq<Option<string>>)
    ensures |texts| == |trace|
  {
    if trace == [] then []
    else
      var (w', text) := Perform(steps, trace[0], w);
      [text] + Texts(steps, trace[1..], w')
  }

  function Complaint<W>(steps: seq<SagaStep<W>>, did: Did, text: string): SagaError {
    var name := if did.step < |steps| then steps[did.step].name else "";
    if did.Forward? then StepFailed(name, text) else CompensateFailed(name, text)
  }

  /** One error for each failing entry, in trace order. */
  function Complaints<W>(steps: seq<SagaStep<W>>, trace: seq<Did>, texts: seq<Option<string>>): seq<SagaError>
    requires |texts| == |trace|
  {
    if trace == [] then []
    else
      (if texts[0].Some? then [Complaint(steps, trace[0], texts[0].value)] else [])
      + Complaints(steps, trace[1..], texts[1..])
  }

  /** The positions of the failing entries, in order. */
  function Failing(texts: seq<Option<string>>, from: nat): (at: seq<nat>)
    requires from <= |texts|
    ensures forall j :: 0 <= j < |at| ==> from <= at[j] < |texts| && texts[at[j]].Some?
    decreases |texts| - from
  {
    if from == |texts| then []
    else if texts[from].Some? then [from] + Failing(texts, from + 1)
    else Failing(texts, from + 1)
  }

  ghost predicate Increasing(at: seq<nat>) {
    forall i, j :: 0 <= i < j < |at| ==> at[i] < at[j]
  }

  lemma {:induction false} FailingIncreases(texts: seq<Option<string>>, from: nat)
    requires from <= |texts|
    ensures Increasing(Failing(texts, from))
    decreases |texts| - from
  {
    if from < |texts| {
      FailingIncreases(texts, from + 1);
      var rest := Failing(texts, from + 1);
      if texts[from].Some? {
        assert Increasing([from] + rest);
      }
    }
  }

  /** They are exactly the failing entries. */
  lemma {:induction false} FailingIff(texts: seq<Option<string>>, from: nat, k: nat)
    requires from <= k < |texts|
    ensures k in Failing(texts, from) <==> texts[k].Some?
    decreases |texts| - from
  {
    if from < k {
      FailingIff(texts, from + 1, k);
    } else if texts[k].Some? {
      assert Failing(texts, from)[0] == k;
    }
  }

  predicate Lists<W>(steps: seq<SagaStep<W>>, trace: seq<Did>, texts: seq<Option<string>>,
                     at: seq<nat>, errs: seq<SagaError>)
    requires |texts| == |trace|
  {
    && |errs| == |at|
    && forall j :: 0 <= j < |at| ==>
         && at[j] < |trace| && texts[at[j]].Some?
         && errs[j] == Complaint(steps, trace[at[j]], texts[at[j]].value)
  }

  lemma {:induction false} ListsOneMore<W>(steps: seq<SagaStep<W>>, trace: seq<Did>, texts: seq<Option<string>>,
                                           k: nat, at: seq<nat>, errs: seq<SagaError>)
    requires |texts| == |trace| && k < |trace| && texts[k].Some? && Lists(steps, trace, texts, at, errs)
    ensures Lists(steps, trace, texts, [k] + at, [Complaint(steps, trace[k], texts[k].value)] + errs)
  {
  }

  /** The complaints are as many as the failing entries, and each names its own entry's step and text. */
  lemma {:induction false} ComplaintsListed<W>(steps: seq<SagaStep<W>>, trace: seq<Did>,
                                               texts: seq<Option<string>>, from: nat)
    requires |texts| == |trace| && from <= |trace|
    ensures Lists(steps, trace, texts, Failing(texts, from), Complaints(steps, trace[from..], texts[from..]))
    decreases |trace| - from
  {
    if from < |trace| {
      var errs := Complaints(steps, trace[from + 1..], texts[from + 1..]);
      ComplaintsListed(steps, trace, texts, from + 1);
      assert trace[from..][1..] == trace[from + 1..] && texts[from..][1..] == texts[from + 1..];
      if texts[from].Some? {
        ListsOneMore(steps, trace, texts, from, Failing(texts, from + 1), errs);
      } else {
        assert [] + errs == errs;
      }
    }
  }

  /** `undo` is what performing its trace from `w` leaves and reports. */
  ghost predicate Replays<W>(steps: seq<SagaStep<W>>, w: W, undo: Undo<W>) {
    && undo.world == WorldAfterTrace(steps, undo.trace, w)
    && undo.errs == Complaints(steps, undo.trace, Texts(steps, undo.trace, w))
  }

  lemma {:induction false} OneEntryBefore<W>(steps: seq<SagaStep<W>>, did: Did, w: W, rest: Undo<W>)
    requires Replays(steps, Perform(steps, did, w).0, rest)
    ensures var text := Perform(steps, did, w).1;
      var own := if text.Some? then [Complaint(steps, did, text.value)] else [];
      Replays(steps, w, Undo(rest.world, own + rest.errs, [did] + rest.trace))
  {
    var (w', text) := Perform(steps, did, w);
    var trace := [did] + rest.trace;
    assert trace[1..] == rest.trace;
    assert Texts(steps, trace, w) == [text] + Texts(steps, rest.trace, w');
    assert Texts(steps, trace, w)[1..] == Texts(steps, rest.trace, w');
  }

  lemma {:induction false} UnwindReplays<W>(steps: seq<SagaStep<W>>, n: nat, w: W)
    requires n <= |steps|
    ensures Replays(steps, w, Unwind(steps, n, w))
  {
    if n > 0 {
      if steps[n - 1].compensate.None? {
        UnwindReplays(steps, n - 1, w);
      } else {
        var w' := steps[n - 1].compensate.value(w).0;
        UnwindReplays(steps, n - 1, w');
        OneEntryBefore(steps, Undone(n - 1), w, Unwind(steps, n - 1, w'));
      }
    }
  }

  lemma {:induction false} FailedRunReplays<W>(steps: seq<SagaStep<W>>, start: W, n: nat)
    requires n == FirstFailure(steps, start, 0) < |steps|
    ensures var r := Ran(steps, start);
      |r.trace| > n && Replays(steps, WorldAfter(steps, start, n), Undo(r.world, r.errs, r.trace[n..]))
  {
    var r, w := Ran(steps, start), WorldAfter(steps, start, n);
    var undo := Unwind(steps, n, WorldAfter(steps, start, n + 1));
    UnwindReplays(steps, n, WorldAfter(steps, start, n + 1));
    OneEntryBefore(steps, Forward(n), w, undo);
    assert r.trace[n..] == [Forward(n)] + undo.trace;
  }

  lemma {:induction false} RunReplaysFrom<W>(steps: seq<SagaStep<W>>, start: W, k: nat)
    requires k <= FirstFailure(steps, start, 0)
    ensures var r := Ran(steps, start);
      k <= |r.trace| && Replays(steps, WorldAfter(steps, start, k), Undo(r.world, r.errs, r.trace[k..]))
    decreases FirstFailure(steps, start, 0) - k
  {
    var n, r := FirstFailure(steps, start, 0), Ran(steps, start);
    if k < n {
      RunReplaysFrom(steps, start, k + 1);
      assert r.trace[k..] == [Forward(k)] + r.trace[k + 1..];
      assert ForwardError(steps, start, k) == None;
      OneEntryBefore(steps, Forward(k), WorldAfter(steps, start, k), Undo(r.world, r.errs, r.trace[k + 1..]));
    } else if n < |steps| {
      FailedRunReplays(steps, start, n);
    } else {
      assert r.trace[n..] == [];
    }
  }

  /**
   What a run reports: performing its trace from the start gives its world, and its errors are one for each failing
   entry and no other, in trace order, each naming its step: the failed step first, then every compensation that
   failed in the world it found.
   */
  lemma {:induction false} RunReportsItsTrace<W>(steps: seq<SagaStep<W>>, start: W)
    ensures var r := Ran(steps, start);
      var texts := Texts(steps, r.trace, start);
      var at := Failing(texts, 0);
      && r.world == WorldAfterTrace(steps, r.trace, start)
      && Lists(steps, r.trace, texts, at, r.errs)
      && Increasing(at)
      && (forall k: nat :: k < |texts| ==> (k in at <==> texts[k].Some?))
  {
    var r := Ran(steps, start);
    RunReplaysFrom(steps, start, 0);
    assert r.trace[0..] == r.trace;
    var texts := Texts(steps, r.trace, start);
    ComplaintsListed(steps, r.trace, texts, 0);
    FailingIncreases(texts, 0);
    forall k: nat | k < |texts| ensures k in Failing(texts, 0) <==> texts[k].Some? {
      FailingIff(texts, 0, k);
    }
    assert texts[0..] == texts;
  }

  /**
   Which entries a run's trace has: the forward actions up to the first that fails, then, if one does, exactly the
   steps before it that have a compensation, latest first.
   */
  lemma {:induction false} RunTrace<W>(steps: seq<SagaStep<W>>, start: W)
    ensures var n, trace := FirstFailure(steps, start, 0), Ran(steps, start).trace;
      var forwards := if n == |steps| then n else n + 1;
      && forwards <= |trace| && (n == |steps| ==> |trace| == n)
      && (forall k :: 0 <= k < forwards ==> trace[k] == Forward(k))
      && (forall k :: forwards <= k < |trace| ==> trace[k].Undone?)
      && (n < |steps| ==> forall i: nat :: Undone(i) in trace <==> i < n && steps[i].compensate.Some?)
      && (forall j, k :: forwards <= j < k < |trace| ==> trace[j].step > trace[k].step)
  {
    var n := FirstFailure(steps, start, 0);
    if n < |steps| {
      var undo := Unwind(steps, n, WorldAfter(steps, start, n + 1));
      UndoneInReverse(steps, n, WorldAfter(steps, start, n + 1));
      forall i: nat ensures Undone(i) in Ran(steps, start).trace <==> Undone(i) in undo.trace {
        assert Ran(steps, start).trace == Forwards(n + 1) + undo.trace;
      }
    }
  }
}
