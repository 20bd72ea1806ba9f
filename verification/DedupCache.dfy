/**
 The completed-operations cache (internal/wire/wire.go): a map bounded by
 `CompletedOpsCap`, evicted in insertion order, and its specification over the
 whole history of recorded outcomes.
 */
module DedupCache {
  import opened Entity

  const CompletedOpsCap: nat := 100

  datatype OpResult = OpResult(result: Raw, err: string)

  /** One call of RecordCompleted. */
  datatype Record = Record(id: RequestId, outcome: OpResult)

  datatype Cache = Cache(completed: map<RequestId, OpResult>, order: seq<RequestId>)

  const EmptyCache := Cache(map[], [])

  /** A handler error keeps only its text; an empty text is indistinguishable from success. */
  function Outcome(res: Raw, err: Option<string>): OpResult {
    OpResult(res, if err.Some? then err.value else "")
  }

  function UpdateResult(r: OpResult): Result<Raw> {
    if r.err != "" then Err(r.err) else Ok(r.result)
  }

  /** What the caller should be told about an outcome. */
  function Meaning(res: Raw, err: Option<string>): Result<Raw> {
    if err.Some? then Err(err.value) else Ok(res)
  }

  /** The cached form of an outcome reads back as that outcome exactly when its error text is not empty. */
  lemma {:induction false} OutcomeRoundTrip(res: Raw, err: Option<string>)
    ensures UpdateResult(Outcome(res, err)) == Meaning(res, err) <==> err != Some("")
  {
    if err.Some? {
      assert err == Some(err.value);
    }
  }

  // ----- one call of RecordCompleted -----

  function Evict(c: Cache): Cache
    decreases |c.order|
  {
    if |c.order| <= CompletedOpsCap then c else Evict(Cache(c.completed - {c.order[0]}, c.order[1..]))
  }

  function Recorded(c: Cache, r: Record): Cache {
    var order := if r.id in c.completed then c.order else c.order + [r.id];
    Evict(Cache(c.completed[r.id := r.outcome], order))
  }

  function Replay(h: seq<Record>): Cache {
    ReplayFrom(EmptyCache, h)
  }

  function ReplayFrom(c: Cache, h: seq<Record>): Cache {
    if h == [] then c else Recorded(ReplayFrom(c, h[..|h| - 1]), h[|h| - 1])
  }

  lemma {:induction false} ReplayAppend(c: Cache, h: seq<Record>, g: seq<Record>)
    ensures ReplayFrom(c, h + g) == ReplayFrom(ReplayFrom(c, h), g)
    decreases |g|
  {
    if g == [] {
      assert h + g == h;
    } else {
      var last := |g| - 1;
      assert (h + g)[..|h + g| - 1] == h + g[..last];
      ReplayAppend(c, h, g[..last]);
    }
  }

  // ----- the history specification -----

  /** The last `CompletedOpsCap` elements of a sequence. */
  function Window(ids: seq<RequestId>): seq<RequestId> {
    if |ids| <= CompletedOpsCap then ids else ids[|ids| - CompletedOpsCap..]
  }

  /** The ids a history inserts as new entries, oldest first; overwriting a windowed id inserts nothing. */
  function Insertions(h: seq<Record>): seq<RequestId> {
    if h == [] then [] else
      var before := Insertions(h[..|h| - 1]);
      var id := h[|h| - 1].id;
      if id in Window(before) then before else before + [id]
  }

  function Latest(h: seq<Record>, id: RequestId): Option<OpResult> {
    if h == [] then None
    else if h[|h| - 1].id == id then Some(h[|h| - 1].outcome)
    else Latest(h[..|h| - 1], id)
  }

  predicate EverRecorded(h: seq<Record>, id: RequestId) {
    exists k :: 0 <= k < |h| && h[k].id == id
  }

  function LastIndex(ids: seq<RequestId>, id: RequestId): (i: int)
    ensures -1 <= i < |ids|
    ensures i >= 0 ==> ids[i] == id
    ensures forall k :: i < k < |ids| ==> ids[k] != id
  {
    if ids == [] then -1
    else if ids[|ids| - 1] == id then |ids| - 1
    else LastIndex(ids[..|ids| - 1], id)
  }

  /** How many new ids a history inserted after its latest insertion of `id`. */
  function InsertedSince(h: seq<Record>, id: RequestId): int {
    var ids := Insertions(h);
    |ids| - 1 - LastIndex(ids, id)
  }

  ghost predicate NoDuplicates(ids: seq<RequestId>) {
    forall i, j :: 0 <= i < j < |ids| ==> ids[i] != ids[j]
  }

  /** The shape every replayed cache has. */
  ghost predicate WellFormed(c: Cache) {
    && |c.order| <= CompletedOpsCap
    && NoDuplicates(c.order)
    && forall id :: id in c.completed <==> id in c.order
  }

  lemma {:induction false} MembersOfTail(ids: seq<RequestId>)
    requires |ids| > 0 && NoDuplicates(ids)
    ensures NoDuplicates(ids[1..])
    ensures forall id :: id in ids[1..] <==> id in ids && id != ids[0]
  {
    forall id | id in ids && id != ids[0] ensures id in ids[1..] {
      var k :| 0 <= k < |ids| && ids[k] == id;
      assert ids[1..][k - 1] == id;
    }
  }

  lemma {:induction false} EvictsOldest(c: Cache)
    requires |c.order| == CompletedOpsCap + 1 && NoDuplicates(c.order)
    requires forall id :: id in c.completed <==> id in c.order
    ensures Evict(c) == Cache(c.completed - {c.order[0]}, c.order[1..])
    ensures WellFormed(Evict(c))
  {
    MembersOfTail(c.order);
    var narrow := Cache(c.completed - {c.order[0]}, c.order[1..]);
    assert Evict(c) == Evict(narrow);
    assert Evict(narrow) == narrow;
  }

  lemma {:induction false} MembersOfPush(ids: seq<RequestId>, id: RequestId)
    requires NoDuplicates(ids) && id !in ids
    ensures NoDuplicates(ids + [id])
    ensures forall x :: x in ids + [id] <==> x in ids || x == id
  {
  }

  /** Inserting a new id: the oldest entry leaves if the cache was full. */
  lemma {:induction false} InsertedShape(c: Cache, r: Record)
    requires WellFormed(c) && r.id !in c.completed
    ensures WellFormed(Recorded(c, r)) && Recorded(c, r).order == Window(c.order + [r.id])
    ensures Recorded(c, r).completed ==
      c.completed[r.id := r.outcome] - if |c.order| < CompletedOpsCap then {} else {c.order[0]}
    ensures |c.order| == CompletedOpsCap ==> c.order[0] != r.id
  {
    var order := c.order + [r.id];
    var wide := Cache(c.completed[r.id := r.outcome], order);
    MembersOfPush(c.order, r.id);
    assert Recorded(c, r) == Evict(wide);
    if |order| > CompletedOpsCap {
      assert order[0] == c.order[0];
      EvictsOldest(wide);
    }
  }

  /** One record on a well-formed cache: at most the oldest entry leaves, and never the recorded id. */
  lemma {:induction false} RecordedShape(c: Cache, r: Record)
    requires WellFormed(c)
    ensures WellFormed(Recorded(c, r))
    ensures r.id in Recorded(c, r).completed && Recorded(c, r).completed[r.id] == r.outcome
    ensures forall id :: id in Recorded(c, r).completed && id != r.id ==>
      id in c.completed && Recorded(c, r).completed[id] == c.completed[id]
    ensures r.id in c.completed ==> Recorded(c, r).order == c.order
    ensures r.id !in c.completed ==> Recorded(c, r).order == Window(c.order + [r.id])
  {
    if r.id !in c.completed {
      InsertedShape(c, r);
    }
  }

  lemma {:induction false} WindowOfWindow(ids: seq<RequestId>, id: RequestId)
    ensures Window(Window(ids) + [id]) == Window(ids + [id])
  {
  }

  /**
   The cache refines its history: after any sequence of records it is well formed,
   its order is the last `CompletedOpsCap` insertions, and every value is the
   latest one recorded for its id.
   */
  lemma {:induction false} CacheRefinesHistory(h: seq<Record>)
    ensures WellFormed(Replay(h))
    ensures Replay(h).order == Window(Insertions(h))
    ensures forall id {:induction false} :: id in Replay(h).completed ==> Latest(h, id) == Some(Replay(h).completed[id])
  {
    if h != [] {
      var before := h[..|h| - 1];
      CacheRefinesHistory(before);
      var c := Replay(before);
      RecordedShape(c, h[|h| - 1]);
      assert Replay(h) == Recorded(c, h[|h| - 1]);
      if h[|h| - 1].id !in c.completed {
        WindowOfWindow(Insertions(before), h[|h| - 1].id);
      }
    }
  }

  lemma {:induction false} RecordedIsInserted(h: seq<Record>, id: RequestId)
    ensures EverRecorded(h, id) <==> id in Insertions(h)
  {
    if h != [] {
      var before := h[..|h| - 1];
      RecordedIsInserted(before, id);
      var last := h[|h| - 1];
      if EverRecorded(h, id) {
        var k :| 0 <= k < |h| && h[k].id == id;
        if k < |h| - 1 {
          assert before[k].id == id;
        } else if id !in Window(Insertions(before)) {
          assert Insertions(h)[|Insertions(before)|] == id;
        }
      }
      if id in Insertions(h) && id in Insertions(before) {
        var k :| 0 <= k < |before| && before[k].id == id;
        assert h[k].id == id;
      }
      assert h[|h| - 1] == last;
    }
  }

  lemma {:induction false} MemberOfWindow(ids: seq<RequestId>, id: RequestId)
    ensures id in Window(ids) <==> id in ids && |ids| - 1 - LastIndex(ids, id) < CompletedOpsCap
  {
    var last := LastIndex(ids, id);
    var first := |ids| - |Window(ids)|;
    if id in Window(ids) {
      var k :| 0 <= k < |Window(ids)| && Window(ids)[k] == id;
      assert ids[first + k] == id;
    }
    if last >= first {
      assert Window(ids)[last - first] == id;
    }
  }

  /** An id is cached exactly when it was recorded and fewer than a hundred insertions followed its own. */
  lemma {:induction false} CachedIffRecent(h: seq<Record>, id: RequestId)
    ensures CompletedOpsCap == 100
    ensures id in Replay(h).completed <==> EverRecorded(h, id) && InsertedSince(h, id) < CompletedOpsCap
  {
    CacheRefinesHistory(h);
    RecordedIsInserted(h, id);
    MemberOfWindow(Insertions(h), id);
  }
}
