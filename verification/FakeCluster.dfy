/** The in-memory cluster (examples/reconciler/k8slib/fake/fake.go); each call is atomic. */
module FakeCluster {
  import opened Entity

  function Lookup(m: map<string, string>, key: string): Option<string> {
    if key in m then Some(m[key]) else None
  }

  /** What the next Get of a live object shows. */
  function Converged<T>(converge: Option<T -> T>, live: T): T {
    if converge.Some? then converge.value(live) else live
  }

  /** Changes made behind the entity's back. */
  datatype Fault<T> = CorruptTo(manifest: T) | Vanished

  function AfterFault<T>(objects: map<string, T>, key: string, f: Fault<T>): map<string, T> {
    match f
    case CorruptTo(m) => if key in objects then objects[key := m] else objects
    case Vanished => objects - {key}
  }

  /** What another user of the cluster may do to a key. */
  datatype Meddling<T> = LeaveAlone | Put(manifest: T) | Take

  function AfterMeddling<T>(objects: map<string, T>, key: string, m: Meddling<T>): map<string, T> {
    match m
    case LeaveAlone => objects
    case Put(x) => objects[key := x]
    case Take => objects - {key}
  }

  class Cluster<T> {
    var objects: map<string, T>
    var converge: Option<T -> T>
    var failApply: map<string, string>
    var failDelete: map<string, string>

    constructor ()
      ensures objects == map[] && converge == None && failApply == map[] && failDelete == map[]
    {
      objects, converge, failApply, failDelete := map[], None, map[], map[];
    }

    method FailApplyWith(key: string, err: Option<string>)
      modifies this`failApply
      ensures failApply == if err.Some? then old(failApply)[key := err.value] else old(failApply) - {key}
    {
      failApply := if err.Some? then failApply[key := err.value] else failApply - {key};
    }

    method FailDeleteWith(key: string, err: Option<string>)
      modifies this`failDelete
      ensures failDelete == if err.Some? then old(failDelete)[key := err.value] else old(failDelete) - {key}
    {
      failDelete := if err.Some? then failDelete[key := err.value] else failDelete - {key};
    }

    /** Apply is an upsert, unless a failure is injected. */
    method Apply(key: string, manifest: T) returns (err: Option<string>)
      modifies this`objects
      ensures err == Lookup(failApply, key)
      ensures objects == if err.None? then old(objects)[key := manifest] else old(objects)
    {
      err := Lookup(failApply, key);
      if err.None? {
        objects := objects[key := manifest];
      }
    }

    /** Get itself moves the live object one step towards readiness. */
    method Get(key: string) returns (live: Option<T>)
      modifies this`objects
      ensures live == if key in old(objects) then Some(Converged(converge, old(objects)[key])) else None
      ensures objects == if live.Some? then old(objects)[key := live.value] else old(objects)
    {
      if key !in objects {
        return None;
      }
      if converge.Some? {
        objects := objects[key := converge.value(objects[key])];
      }
      live := Some(objects[key]);
    }

    method Delete(key: string) returns (err: Option<string>)
      modifies this`objects
      ensures err == Lookup(failDelete, key)
      ensures objects == if err.None? then old(objects) - {key} else old(objects)
    {
      err := Lookup(failDelete, key);
      if err.None? {
        objects := objects - {key};
      }
    }

    method Corrupt(key: string, manifest: T)
      modifies this`objects
      ensures objects == AfterFault(old(objects), key, CorruptTo(manifest))
    {
      if key in objects {
        objects := objects[key := manifest];
      }
    }

    method Vanish(key: string)
      modifies this`objects
      ensures objects == AfterFault(old(objects), key, Vanished)
    {
      objects := objects - {key};
    }

    /** What someone else does to the key before the next call. */
    method Meddle(key: string, m: Meddling<T>)
      modifies this`objects
      ensures objects == AfterMeddling(old(objects), key, m)
    {
      match m
      case LeaveAlone =>
      case Put(x) => objects := objects[key := x];
      case Take => objects := objects - {key};
    }
  }
}
