/**
 An error text that quotes the race's phrase: the client takes the answer for a race and submits the
 command again, which a new life of the entity executes again.
 */
module RetryWitnesses {
  import opened Entity
  import opened DedupCache
  import opened EntitySystem
  import opened LifeDeletion
  import opened RequestIds
  import opened ClientRetry

  /** A kind with one command and no hooks. */
  const OneCommandKind :=
    Kind({"run"}, (n, s, p) => None, p => Err("no patch"), false, false, false, false, 0)

  function Settle(): seq<Event> {
    [Launch, Turn]
  }

  function Submit(id: RequestId, payload: Raw): seq<Event> {
    [Update("run", id, payload), Resume, Turn]
  }

  function Fail(text: string): seq<Event> {
    [ExecReturns("", Some(text)), Turn, Wake(0)]
  }

  function TearDown(): seq<Event> {
    [DeleteSignal, Resume, Turn]
  }

  /** An entity is created, runs one command that fails with `text`, answers its caller and is deleted. */
  function FailingLife(spec: Spec, zero: State, id: RequestId, payload: Raw, text: string): Life {
    Life(OneCommandKind, spec, zero, map[], Settle() + Submit(id, payload) + Fail(text) + TearDown())
  }

  lemma {:induction false} Grow(d: Kind, s: Sys, evs: seq<Event>, e: Event) returns (t: Sys)
    requires Valid(d, s, evs) && Enabled(d, After(d, s, evs), e)
    ensures Valid(d, s, evs + [e]) && After(d, s, evs + [e]) == t == Next(d, After(d, s, evs), e)
  {
    t := Next(d, After(d, s, evs), e);
    OneStep(d, After(d, s, evs), e);
    AfterAppend(d, s, evs, [e]);
  }

  predicate Leads(s: Sys, evs: seq<Event>, t: Sys) {
    Valid(OneCommandKind, s, evs) && After(OneCommandKind, s, evs) == t
  }

  lemma {:induction false} ThreeSteps(s: Sys, a: Event, b: Event, c: Event) returns (t: Sys)
    requires var d := OneCommandKind;
      Enabled(d, s, a) && Enabled(d, Next(d, s, a), b) && Enabled(d, Next(d, Next(d, s, a), b), c)
    ensures var d := OneCommandKind; t == Next(d, Next(d, Next(d, s, a), b), c)
    ensures Leads(s, [a, b, c], t)
  {
    var d := OneCommandKind;
    assert Valid(d, s, []) && After(d, s, []) == s;
    t := Grow(d, s, [], a);
    t := Grow(d, s, [] + [a], b);
    t := Grow(d, s, [] + [a] + [b], c);
    assert [] + [a] + [b] + [c] == [a, b, c];
  }

  lemma {:induction false} Settles(spec: Spec, zero: State) returns (t: Sys)
    ensures Leads(Fresh(spec, zero, map[]), Settle(), t)
    ensures Unused(t)
  {
    var d, s := OneCommandKind, Fresh(spec, zero, map[]);
    assert Valid(d, s, []) && After(d, s, []) == s;
    t := Grow(d, s, [], Launch);
    t := Grow(d, s, [] + [Launch], Turn);
    assert [] + [Launch] + [Turn] == Settle();
  }

  /** Idle, with nothing ever accepted. */
  predicate Unused(s: Sys) {
    && s.pc == Idle && !s.env.marked && s.env.pending == [] && s.env.cache == EmptyCache && s.waiting == {}
    && !CanWanted(OneCommandKind, s.run) && s.log.accepted == [] && s.log.dispatched == [] && s.log.records == []
  }

  lemma {:induction false} Submitted(s: Sys, id: RequestId, payload: Raw) returns (t: Sys)
    requires Unused(s)
    ensures IsAdmission(OneCommandKind, s, Submit(id, payload)[0], id) && Leads(s, Submit(id, payload), t)
    ensures var c := Command(id, "run", payload);
      t.pc == Executing(c) && !t.env.marked && t.env.pending == [] && t.env.cache == EmptyCache
      && t.waiting == {0} && t.log.accepted == [c] && t.log.dispatched == [c] && t.log.records == []
      && !t.run.canSuggested
  {
    assert [] + [Command(id, "run", payload)] == [Command(id, "run", payload)];
    t := ThreeSteps(s, Update("run", id, payload), Resume, Turn);
  }

  lemma {:induction false} Failed(s: Sys, c: Command, text: string) returns (t: Sys)
    requires s.pc == Executing(c) && c.name == "run" && !s.env.marked && s.env.pending == [] && s.waiting == {0}
    requires s.env.cache == EmptyCache && s.log.accepted == [c] && s.log.dispatched == [c] && s.log.records == []
    requires !s.run.canSuggested
    ensures Leads(s, Fail(text), t) && t.pc == Idle && !t.env.marked && t.env.pending == [] && t.waiting == {}
    ensures t.log.dispatched == [c] && t.log.records == [Record(c.id, OpResult("", text))]
    ensures 0 in t.log.replies && t.log.replies[0].outcome == OpResult("", text)
  {
    var r := Record(c.id, OpResult("", text));
    assert ReplayFrom(EmptyCache, [r]) == Recorded(EmptyCache, r) by {
      assert [r][..0] == [];
    }
    RecordedShape(EmptyCache, r);
    t := ThreeSteps(s, ExecReturns("", Some(text)), Turn, Wake(0));
  }

  lemma {:induction false} TornDown(s: Sys) returns (t: Sys)
    requires s.pc == Idle && s.env.pending == [] && s.waiting == {}
    ensures Leads(s, TearDown(), t) && t.pc == Closed
    ensures t.log.dispatched == s.log.dispatched && t.log.records == s.log.records
  {
    assert Rejections([]) == [] && s.log.records + [] == s.log.records;
    t := ThreeSteps(s, DeleteSignal, Resume, Turn);
  }

  lemma {:induction false} LeadsOn(s: Sys, a: seq<Event>, t: Sys, b: seq<Event>, u: Sys)
    requires Leads(s, a, t) && Leads(t, b, u)
    ensures Leads(s, a + b, u)
  {
    AfterAppend(OneCommandKind, s, a, b);
  }

  lemma {:induction false} StateAtPrefix(d: Kind, s: Sys, a: seq<Event>, b: seq<Event>)
    requires Valid(d, s, a + b) && Valid(d, s, a)
    ensures StateAt(d, s, a + b, |a|) == After(d, s, a)
    decreases |a|
  {
    if a != [] {
      assert (a + b)[1..] == a[1..] + b;
      StateAtPrefix(d, Next(d, s, a[0]), a[1..], b);
    }
  }

  /** What such a life amounts to, whatever the text. */
  ghost predicate FailsOnce(l: Life, id: RequestId, text: string)
  {
    && l.Possible() && |l.evs| == 11 && l.End().pc == Closed
    && IsSubmission(l.evs[2], id) && (forall k :: 0 <= k < |l.evs| && l.evs[k].Update? ==> k == 2)
    && IsAdmission(l.kind, l.At(2), l.evs[2], id)
    && AnswerTo(l.At(2), l.At(8), id) == Some(OpResult("", text))
    && Count(l.End().log.dispatched, id) == 1 && l.End().log.records == [Record(id, OpResult("", text))]
  }

  lemma {:induction false} FailingLifeStates(l: Life, s: Sys, id: RequestId, payload: Raw, text: string,
                                             idle: Sys, busy: Sys, answered: Sys, closed: Sys)
    requires l.kind == OneCommandKind && s == Fresh(l.spec, l.zero, l.labels)
    requires l.evs == Settle() + Submit(id, payload) + Fail(text) + TearDown()
    requires Leads(s, Settle(), idle) && Leads(idle, Submit(id, payload), busy)
    requires Leads(busy, Fail(text), answered) && Leads(answered, TearDown(), closed)
    ensures l.Possible() && |l.evs| == 11 && l.At(2) == idle && l.At(8) == answered && l.End() == closed
  {
    var a, b, c := Settle(), Settle() + Submit(id, payload), Settle() + Submit(id, payload) + Fail(text);
    LeadsOn(s, a, idle, Submit(id, payload), busy);
    LeadsOn(s, b, busy, Fail(text), answered);
    LeadsOn(s, c, answered, TearDown(), closed);
    var rest := Submit(id, payload) + Fail(text) + TearDown();
    assert l.evs == a + rest;
    StateAtPrefix(OneCommandKind, s, a, rest);
    StateAtPrefix(OneCommandKind, s, c, TearDown());
    assert |a| == 2 && |c| == 8;
  }

  lemma {:induction false} OnlySubmission(id: RequestId, payload: Raw, text: string)
    ensures var evs := Settle() + Submit(id, payload) + Fail(text) + TearDown();
      |evs| == 11 && evs[2] == Submit(id, payload)[0] && forall k :: 0 <= k < |evs| && evs[k].Update? ==> k == 2
  {
  }

  lemma {:induction false} FailingLifeFailsOnce(spec: Spec, zero: State, id: RequestId, payload: Raw, text: string)
    ensures FailsOnce(FailingLife(spec, zero, id, payload, text), id, text)
  {
    var l := FailingLife(spec, zero, id, payload, text);
    var c := Command(id, "run", payload);
    var idle := Settles(spec, zero);
    var busy := Submitted(idle, id, payload);
    var answered := Failed(busy, c, text);
    var closed := TornDown(answered);
    FailingLifeStates(l, Fresh(spec, zero, map[]), id, payload, text, idle, busy, answered, closed);
    OnlySubmission(id, payload, text);
    OwnReply(idle, answered, id, text);
    CountOne(c);
  }

  lemma {:induction false} OwnReply(before: Sys, after: Sys, id: RequestId, text: string)
    requires Unused(before) && 0 in after.log.replies && after.log.replies[0].outcome == OpResult("", text)
    ensures AnswerTo(before, after, id) == Some(OpResult("", text))
  {
  }

  lemma {:induction false} CountOne(c: Command)
    ensures Count([c], c.id) == 1
  {
    CountPush([], c, c.id);
    assert [] + [c] == [c];
  }

  // ----- one operation, five executions -----

  function FailingLives(n: nat, spec: Spec, zero: State, id: RequestId, payload: Raw, text: string): (ls: seq<Life>)
    ensures |ls| == n && forall k :: 0 <= k < n ==> ls[k] == FailingLife(spec, zero, id, payload, text)
  {
    seq(n, k => FailingLife(spec, zero, id, payload, text))
  }

  lemma {:induction false} EachFailsOnce(lives: seq<Life>, spec: Spec, zero: State, id: RequestId,
                                         payload: Raw, text: string)
    requires forall k :: 0 <= k < |lives| ==> lives[k] == FailingLife(spec, zero, id, payload, text)
    ensures forall k :: 0 <= k < |lives| ==> FailsOnce(lives[k], id, text)
  {
    FailingLifeFailsOnce(spec, zero, id, payload, text);
  }

  lemma {:induction false} EachLifeDispatches(lives: seq<Life>, id: RequestId, text: string)
    requires forall k :: 0 <= k < |lives| ==> FailsOnce(lives[k], id, text)
    ensures AllPossible(lives) && Dispatches(lives, id) == |lives|
  {
    if lives != [] {
      EachLifeDispatches(lives[..|lives| - 1], id, text);
      assert FailsOnce(lives[|lives| - 1], id, text);
    }
  }

  /** The `k`-th call is answered in the `k`-th life. */
  function AnsweredInTurn(k: nat): Fate {
    Answered(Position(k, 2), Position(k, 8))
  }

  lemma {:induction false} AnsweredFate(lives: seq<Life>, k: nat, id: RequestId, text: string, err: CallError, res: Raw)
    requires AllPossible(lives) && k < |lives| && FailsOnce(lives[k], id, text)
    requires text != "" && err == CallError(None, text)
    ensures Explains(lives, AnsweredInTurn(k), id, Some(err), res)
  {
    assert Told(OpResult("", text), Some(err), res);
    assert Submits(lives, Position(k, 2), id) && LetThrough(lives, Position(k, 2), id);
  }

  lemma {:induction false} OnlyTheseCalls(lives: seq<Life>, p: Position, id: RequestId, text: string)
    requires Submits(lives, p, id) && FailsOnce(lives[p.life], id, text)
    ensures IsCall(AnsweredInTurn, |lives|, p)
  {
    assert AnsweredInTurn(p.life).Delivery() == Some(p);
  }

  lemma {:induction false} FailingTimeline(lives: seq<Life>, id: RequestId, text: string,
                                           call: nat -> Option<CallError>, out: nat -> Raw)
    requires AllPossible(lives) && forall k :: 0 <= k < |lives| ==> FailsOnce(lives[k], id, text)
    requires text != "" && forall k: nat :: call(k) == Some(CallError(None, text))
    ensures Timeline(lives, AnsweredInTurn, call, out, |lives|, id)
  {
    forall k: nat | k < |lives| ensures Explains(lives, AnsweredInTurn(k), id, call(k), out(k)) {
      AnsweredFate(lives, k, id, text, CallError(None, text), out(k));
    }
    forall p | Submits(lives, p, id) ensures IsCall(AnsweredInTurn, |lives|, p) {
      OnlyTheseCalls(lives, p, id, text);
    }
  }

  /**
   A handler error whose text contains the phrase is taken for a race every time: if the entity is deleted and
   started again between the attempts, one operation executes its command five times.
   */
  lemma {:induction false} RaceTextRunsFiveTimes(text: string, id: RequestId, payload: Raw, spec: Spec, zero: State)
    returns (lives: seq<Life>, fate: nat -> Fate, call: nat -> Option<CallError>, out: nat -> Raw)
    requires Contains(text, RaceText)
    ensures Timeline(lives, fate, call, out, MaxAttempts, id) && Made(call, k => false, MaxAttempts)
    ensures OnlyText(lives, id, text) && Dispatches(lives, id) == MaxAttempts
  {
    lives := FailingLives(MaxAttempts, spec, zero, id, payload, text);
    fate, call, out := AnsweredInTurn, k => Some(CallError(None, text)), k => "";
    EachFailsOnce(lives, spec, zero, id, payload, text);
    EmptyContainsNothing(RaceText);
    EachLifeDispatches(lives, id, text);
    FailingTimeline(lives, id, text, call, out);
    FailsWithThisText(lives, id, text);
    FiveMade(call, text);
  }

  lemma {:induction false} FiveMade(call: nat -> Option<CallError>, text: string)
    requires Contains(text, RaceText) && forall k: nat :: call(k) == Some(CallError(None, text))
    ensures Made(call, k => false, MaxAttempts)
  {
  }

  lemma {:induction false} FailsWithThisText(lives: seq<Life>, id: RequestId, text: string)
    requires AllPossible(lives) && forall k :: 0 <= k < |lives| ==> FailsOnce(lives[k], id, text)
    ensures OnlyText(lives, id, text)
  {
    forall i | 0 <= i < |lives| ensures OnlyTextIn(lives[i].End().log.records, id, text) {
      assert FailsOnce(lives[i], id, text);
    }
  }

  /** Every error recorded for the id has this text. */
  ghost predicate OnlyText(lives: seq<Life>, id: RequestId, text: string)
    requires AllPossible(lives)
  {
    forall i :: 0 <= i < |lives| ==> OnlyTextIn(lives[i].End().log.records, id, text)
  }

  predicate OnlyTextIn(records: seq<Record>, id: RequestId, text: string) {
    forall m :: 0 <= m < |records| && records[m].id == id ==> records[m].outcome.err in {"", text}
  }

  /** Some operation whose id only ever fails with this text is dispatched more than once. */
  ghost predicate CanRepeat(text: string) {
    exists lives, fate, call, out, n, id ::
      && Timeline(lives, fate, call, out, n, id) && RacedUntil(call, n)
      && OnlyText(lives, id, text) && Dispatches(lives, id) > 1
  }

  /** Exactly the error texts containing the phrase can make one operation execute more than once. */
  lemma {:induction false} RepeatsIffRaceText(text: string)
    ensures CanRepeat(text) <==> Contains(text, RaceText)
  {
    if Contains(text, RaceText) {
      var spec: Spec, zero: State :| true;
      var lives, fate, call, out := RaceTextRunsFiveTimes(text, "1", "", spec, zero);
      assert RacedUntil(call, MaxAttempts);
    }
    if CanRepeat(text) && !Contains(text, RaceText) {
      var lives, fate, call, out, n, id :|
        && Timeline(lives, fate, call, out, n, id) && RacedUntil(call, n)
        && OnlyText(lives, id, text) && Dispatches(lives, id) > 1;
      OtherTextIsNoRace(lives, id, text);
      OperationDispatchesOnce(lives, fate, call, out, n, id);
      assert false;
    }
  }

  lemma {:induction false} OtherTextIsNoRace(lives: seq<Life>, id: RequestId, text: string)
    requires AllPossible(lives) && OnlyText(lives, id, text) && !Contains(text, RaceText)
    ensures NoRaceText(lives, id)
  {
    EmptyContainsNothing(RaceText);
    forall i | 0 <= i < |lives| ensures NoRaceTextIn(lives[i].End().log.records, id) {
      assert OnlyTextIn(lives[i].End().log.records, id, text);
    }
  }
}
