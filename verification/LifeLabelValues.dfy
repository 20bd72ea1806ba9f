/** Which labels an entity has: under each key, what was last written there. */
module LifeLabelValues {
  import opened Entity
  import opened DedupCache
  import opened LabelMerge
  import opened EntitySystem
  import opened LifeChanges
  import opened LifeInvariants
  import opened LifeTheorems
  import opened LifeLabels

  /** What one event writes under a key: user code by SetLabel, callers by a set-labels command when its turn comes. */
  function Wrote(d: Kind, s: Sys, e: Event, key: string): Option<string> {
    match e
    case SetLabel(k, v) => if k == key then Some(v) else None
    case Turn =>
      if s.env.marked || s.env.pending == [] || s.env.pending[0].name != "entity-set-labels" then None
      else
        var patch := d.decodePatch(s.env.pending[0].payload);
        if patch.Ok? && key in patch.value then Some(patch.value[key]) else None
    case _ => None
  }

  function LabelAt(labels: Labels, key: string): Option<string> {
    if key in labels then Some(labels[key]) else None
  }

  /** The last value written under the key in a life, where writing an empty value clears it. */
  function LastWritten(d: Kind, s: Sys, evs: seq<Event>, key: string, before: Option<string>): Option<string>
    requires Valid(d, s, evs)
    decreases |evs|
  {
    if evs == [] then before
    else
      var w := Wrote(d, s, evs[0], key);
      LastWritten(d, Next(d, s, evs[0]), evs[1..], key,
                  if w == None then before else if w.value == "" then None else w)
  }

  lemma {:induction false} TurnWrites(d: Kind, s: Sys, key: string)
    requires s.pc == LoopHead
    ensures var w := Wrote(d, s, Turn, key);
      LabelAt(TurnLoop(d, s).env.labels, key)
      == if w == None then LabelAt(s.env.labels, key) else if w.value == "" then None else w
  {
    if s.env.pending != [] {
      var patch := d.decodePatch(s.env.pending[0].payload);
      if patch.Ok? {
        MergedValue(s.env.labels, patch.value, key);
      }
    }
  }

  lemma {:induction false} OtherWrites(d: Kind, s: Sys, e: Event, key: string)
    requires Enabled(d, s, e) && !e.Turn?
    ensures var w := Wrote(d, s, e, key);
      LabelAt(Next(d, s, e).env.labels, key)
      == if w == None then LabelAt(s.env.labels, key) else if w.value == "" then None else w
  {
    if e.SetLabel? {
      MergedValue(s.env.labels, map[e.key := e.value], key);
    }
  }

  /**
   Across every command, tick and handoff an entity has under each key exactly the last value written there, and none if
   that was empty: nothing else adds, changes or removes a label.
   */
  lemma {:induction false} LabelsAreLastWritten(d: Kind, s: Sys, evs: seq<Event>, key: string)
    requires Valid(d, s, evs)
    ensures LabelAt(After(d, s, evs).env.labels, key)
         == LastWritten(d, s, evs, key, LabelAt(s.env.labels, key))
    decreases |evs|
  {
    if evs != [] {
      StepWrites(d, s, evs[0], key);
      LabelsAreLastWritten(d, Next(d, s, evs[0]), evs[1..], key);
    }
  }

  // ----- empty values, and what is published -----

  predicate NoEmptyValue(labels: Labels) {
    forall k :: k in labels ==> labels[k] != ""
  }

  predicate CleanLabels(d: Kind, s: Sys) {
    NoEmptyValue(s.env.labels) && NoEmptyValue(s.run.mirror) && (!d.searchAttrs ==> s.run.mirror == map[])
  }

  lemma {:induction false} StepWrites(d: Kind, s: Sys, e: Event, key: string)
    requires Enabled(d, s, e)
    ensures var w := Wrote(d, s, e, key);
      LabelAt(Next(d, s, e).env.labels, key)
      == if w == None then LabelAt(s.env.labels, key) else if w.value == "" then None else w
  {
    if e.Turn? {
      TurnWrites(d, s, key);
    } else {
      OtherWrites(d, s, e, key);
    }
  }

  lemma {:induction false} LabelsStayNonEmpty(d: Kind, s: Sys, e: Event)
    requires NoEmptyValue(s.env.labels) && Enabled(d, s, e)
    ensures NoEmptyValue(Next(d, s, e).env.labels)
  {
    var labels := Next(d, s, e).env.labels;
    forall k | k in labels ensures labels[k] != "" {
      StepWrites(d, s, e, k);
      assert LabelAt(labels, k) == Some(labels[k]);
    }
  }

  /** What is published changes only to the labels, and only with search attributes. */
  predicate PublishesLabels(d: Kind, s: Sys, t: Sys) {
    t.run.mirror == s.run.mirror || (d.searchAttrs && t.run.mirror == t.env.labels)
  }

  lemma {:induction false} DeletionPublishesLabels(d: Kind, s: Sys)
    ensures PublishesLabels(d, s, BeginDeletion(d, s))
  {
  }

  lemma {:induction false} DispatchPublishesLabels(d: Kind, s: Sys)
    requires s.env.pending != []
    ensures PublishesLabels(d, s, Dispatch(d, s))
  {
  }

  lemma {:induction false} TurnPublishes(d: Kind, s: Sys)
    requires s.pc == LoopHead
    ensures PublishesLabels(d, s, TurnLoop(d, s))
  {
    if s.env.marked {
      DeletionPublishesLabels(d, s);
    } else if s.env.pending != [] {
      DispatchPublishesLabels(d, s);
    }
  }

  lemma {:induction false} CreationPublishes(d: Kind, s: Sys, e: Event)
    requires Enabled(d, s, e) && (e.Launch? || e.Resume?)
    ensures PublishesLabels(d, s, Next(d, s, e))
  {
  }

  lemma {:induction false} OtherPublishes(d: Kind, s: Sys, e: Event)
    requires Enabled(d, s, e) && !e.Turn?
    ensures PublishesLabels(d, s, Next(d, s, e))
  {
    if e.Launch? || e.Resume? {
      CreationPublishes(d, s, e);
    }
  }

  /**
   An entity started without empty label values never has one and never publishes one; a kind without search attributes
   never publishes any label.
   */
  lemma {:induction false} NoEmptyLabelEver(d: Kind, s: Sys, evs: seq<Event>)
    requires CleanLabels(d, s) && Valid(d, s, evs)
    ensures CleanLabels(d, After(d, s, evs))
    decreases |evs|
  {
    if evs != [] {
      LabelsStayNonEmpty(d, s, evs[0]);
      if evs[0].Turn? {
        TurnPublishes(d, s);
      } else {
        OtherPublishes(d, s, evs[0]);
      }
      NoEmptyLabelEver(d, Next(d, s, evs[0]), evs[1..]);
    }
  }

  /**
   A deleted label is gone: if the last value written under a key is empty, the entity does not have the key, and
   whenever the published labels are current they do not either.
   */
  lemma {:induction false} DeletedLabelIsGone(d: Kind, spec: Spec, zero: State, labels: Labels, evs: seq<Event>,
                                              key: string)
    requires NoEmptyValue(labels) && Valid(d, Fresh(spec, zero, labels), evs)
    ensures var s := Fresh(spec, zero, labels);
      var t, last := After(d, s, evs), LastWritten(d, s, evs, key, LabelAt(labels, key));
      && (key in t.env.labels <==> last.Some?) && (last.Some? ==> t.env.labels[key] == last.value != "")
      && (last == None && Current(t) ==> key !in t.run.mirror)
  {
    LabelsAreLastWritten(d, Fresh(spec, zero, labels), evs, key);
    NoEmptyLabelEver(d, Fresh(spec, zero, labels), evs);
  }
}
