/** The envelope object of internal/wire/wire.go, updated in place. */
module Wire {
  import opened Entity
  import opened DedupCache
  import opened EntitySystem
  import opened LabelMerge

  class Envelope {
    var initialized: bool
    var phase: Phase
    var spec: Spec
    var state: State
    var labels: Labels
    var markedForDeletion: bool
    var pending: seq<Command>
    var completed: map<RequestId, OpResult>
    var completedOrder: seq<RequestId>

    /** The envelope's abstract value. */
    function View(): Env
      reads this
    {
      Env(initialized, phase, spec, state, labels, markedForDeletion, pending, Cache(completed, completedOrder))
    }

    constructor (spec: Spec, zero: State, labels: Labels)
      ensures View() == Fresh(spec, zero, labels).env
      ensures !initialized && phase == Unset && this.spec == spec && state == zero && this.labels == labels
      ensures !markedForDeletion && pending == [] && completed == map[] && completedOrder == []
    {
      initialized, phase, this.spec, state, this.labels := false, Unset, spec, zero, labels;
      markedForDeletion, pending, completed, completedOrder := false, [], map[], [];
    }

    method RecordCompleted(requestID: RequestId, res: Raw, err: Option<string>)
      modifies this`completed, this`completedOrder
      ensures Cache(completed, completedOrder)
           == Recorded(old(Cache(completed, completedOrder)), Record(requestID, Outcome(res, err)))
    {
      var r := Outcome(res, err);
      if requestID !in completed {
        completedOrder := completedOrder + [requestID];
      }
      completed := completed[requestID := r];
      while |completedOrder| > CompletedOpsCap
        invariant Evict(Cache(completed, completedOrder))
               == Recorded(old(Cache(completed, completedOrder)), Record(requestID, r))
        decreases |completedOrder|
      {
        var oldest := completedOrder[0];
        completedOrder := completedOrder[1..];
        completed := completed - {oldest};
      }
    }

    /** One key of a patch: an empty value deletes, another value overwrites. */
    method PatchLabel(k: string, v: string) returns (changed: bool)
      modifies this`labels
      ensures labels == Merged(old(labels), map[k := v])
      ensures k in labels <==> v != ""
      ensures v != "" ==> labels[k] == v
      ensures forall j :: j != k ==>
        (j in labels <==> j in old(labels)) && (j in labels ==> labels[j] == old(labels)[j])
      ensures changed <==> labels != old(labels)
    {
      changed := if v == "" then k in labels else k !in labels || labels[k] != v;
      if changed {
        labels := if v == "" then labels - {k} else labels[k := v];
      }
      assert changed ==> (k in labels) != (k in old(labels)) || labels[k] != old(labels)[k];
    }

    /** Every order of visiting the patch gives the same labels, and `changed` says whether they differ. */
    method MergeLabels(patch: Labels) returns (changed: bool)
      modifies this`labels
      ensures labels == Merged(old(labels), patch)
      ensures forall k :: k in labels <==> if k in patch then patch[k] != "" else k in old(labels)
      ensures forall k :: k in labels ==> labels[k] == if k in patch then patch[k] else old(labels)[k]
      ensures changed <==> labels != old(labels)
    {
      changed := false;
      var todo := patch.Keys;
      while todo != {}
        invariant todo <= patch.Keys
        invariant labels == Merged(old(labels), patch - todo)
        invariant changed <==> labels != old(labels)
        decreases todo
      {
        var k :| k in todo;
        MergeStep(old(labels), patch, todo, k);
        var one := PatchLabel(k, patch[k]);
        changed := changed || one;
        todo := todo - {k};
      }
      assert patch - {} == patch;
    }

    /** The by-value view queries and validators get. */
    method TakeSnapshot() returns (s: Snapshot)
      ensures s.phase == phase && s.spec == spec && s.state == state && s.labels == labels
      ensures s.pendingCommands == |pending| && s.markedForDeletion == markedForDeletion
      ensures s == SnapshotOf(View())
    {
      s := Snapshot(phase, spec, state, labels, |pending|, markedForDeletion);
    }
  }

  /** Visiting one more key: the patch so far grows by it, and no later key undoes a change. */
  lemma {:induction false} MergeStep(labels: Labels, patch: Labels, todo: set<string>, k: string)
    requires k in todo && todo <= patch.Keys
    ensures Merged(Merged(labels, patch - todo), map[k := patch[k]]) == Merged(labels, patch - (todo - {k}))
    ensures Merged(labels, patch - (todo - {k})) == labels ==> Merged(labels, patch - todo) == labels
  {
    MergeComposes(labels, patch - todo, map[k := patch[k]]);
    assert (patch - todo) + map[k := patch[k]] == patch - (todo - {k});
    if Merged(labels, patch - (todo - {k})) == labels {
      assert forall j :: j in labels <==> j in Merged(labels, patch - (todo - {k}));
      assert forall j :: j in labels <==> j in Merged(labels, patch - todo);
    }
  }
}
