/** Which updates an entity lets in: each is checked against the kind before anything is written. */
module LifeAdmission {
  import opened Entity
  import opened DedupCache
  import opened EntitySystem
  import opened LifeChanges

  /** The kind's validator objects, given the entity's current values. */
  predicate Objects(d: Kind, s: Sys, name: CommandName, payload: Raw) {
    var env := s.env;
    d.validate(name, Snapshot(env.phase, env.spec, env.state, env.labels, |env.pending|, env.marked), payload) != None
  }

  /**
   An update leaves no trace exactly when the entity is marked, when it is a label patch that does not decode, or when
   it names an unregistered command or one the validator objects to; but a remembered id is not validated again.
   */
  lemma {:induction false} RefusedIff(d: Kind, s: Sys, name: CommandName, id: RequestId, payload: Raw)
    requires AtYield(s.pc)
    ensures Next(d, s, Update(name, id, payload)) == s <==>
      || s.env.marked
      || (name == "entity-set-labels" && d.decodePatch(payload).Err?)
      || (name != "entity-set-labels" && name !in d.commands)
      || (name != "entity-set-labels" && id !in s.env.cache.completed && Objects(d, s, name, payload))
  {
    if Admitted(d, s, name, id, payload) {
      var t := Next(d, s, Update(name, id, payload));
      assert |t.log.accepted| > |s.log.accepted| || |t.log.hits| > |s.log.hits|;
    }
  }

  /** Only an update adds a command, and only one the entity is free to take: new, runnable and without objection. */
  lemma {:induction false} AcceptedWasChecked(d: Kind, s: Sys, e: Event)
    requires Enabled(d, s, e) && Next(d, s, e).log.accepted != s.log.accepted
    ensures e.Update? && !s.env.marked && e.id !in s.env.cache.completed
    ensures var t, c := Next(d, s, e), Command(e.id, e.name, e.payload);
      && t.log.accepted == s.log.accepted + [c] && t.env.pending == s.env.pending + [c]
      && t.waiting == s.waiting + {|s.log.accepted|}
    ensures e.name == "entity-set-labels" ==> d.decodePatch(e.payload).Ok?
    ensures e.name != "entity-set-labels" ==> e.name in d.commands && !Objects(d, s, e.name, e.payload)
  {
    StepChanges(d, s, e);
  }

  /** An update let in with a remembered id is answered on the spot with that outcome and changes nothing else. */
  lemma {:induction false} RememberedIsServed(d: Kind, s: Sys, name: CommandName, id: RequestId, payload: Raw)
    requires AtYield(s.pc) && id in s.env.cache.completed && Next(d, s, Update(name, id, payload)) != s
    ensures var t := Next(d, s, Update(name, id, payload));
      && t.env == s.env && t.pc == s.pc && t.waiting == s.waiting && t.log.accepted == s.log.accepted
      && t.log.hits == s.log.hits + [Hit(id, Reply(s.env.cache.completed[id], |s.log.records|))]
  {
  }
}
