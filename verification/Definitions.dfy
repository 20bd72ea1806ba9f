/** Registering commands and queries on an entity kind (pkg/entdefine/definition.go). */
module Definitions {
  import opened Entity
  import opened EntitySystem

  const DeleteSignalName := "entity-delete"
  const DescribeQueryName := "describe"

  /** A registration attempt, in the order the kind's author makes them. */
  datatype Attempt = CommandNamed(name: CommandName) | QueryNamed(name: string)

  datatype RegError =
    | EmptyKind
    | ReservedName(attempt: Attempt)
    | DuplicateName(attempt: Attempt)

  predicate Reserved(a: Attempt) {
    match a
    case CommandNamed(name) => name in {"", DeleteSignalName, DescribeQueryName, SetLabelsCommandName}
    case QueryNamed(name) => name in {"", DescribeQueryName}
  }

  // ----- what a sequence of attempts registers -----

  /** The attempts that registered something: unreserved first uses of a name. */
  function Registered(attempts: seq<Attempt>): set<Attempt> {
    set a | a in attempts && !Reserved(a)
  }

  function Errors(kind: string, attempts: seq<Attempt>): seq<RegError> {
    if attempts == [] then (if kind == "" then [EmptyKind] else [])
    else
      var before, a := attempts[..|attempts| - 1], attempts[|attempts| - 1];
      Errors(kind, before) +
      if Reserved(a) then [ReservedName(a)] else if a in Registered(before) then [DuplicateName(a)] else []
  }

  ghost predicate Distinct(attempts: seq<Attempt>) {
    forall i, j :: 0 <= i < j < |attempts| ==> attempts[i] != attempts[j]
  }

  /** Registration succeeds exactly when the kind is named and every attempt uses a fresh, unreserved name. */
  lemma {:induction false} NoErrorsIff(kind: string, attempts: seq<Attempt>)
    ensures Errors(kind, attempts) == []
       <==> kind != "" && Distinct(attempts) && forall a :: a in attempts ==> !Reserved(a)
  {
    if attempts != [] {
      var before, a := attempts[..|attempts| - 1], attempts[|attempts| - 1];
      assert attempts == before + [a];
      NoErrorsIff(kind, before);
      DistinctPush(before, a);
    }
  }

  lemma {:induction false} DistinctPush(attempts: seq<Attempt>, a: Attempt)
    ensures Distinct(attempts + [a]) <==> Distinct(attempts) && a !in attempts
  {
    var all := attempts + [a];
    assert all[|attempts|] == a;
    assert forall k :: 0 <= k < |attempts| ==> attempts[k] == all[k];
  }

  // ----- validators -----

  /** A validator over the wire payload; None accepts. */
  type Validator = (Snapshot, Raw) -> Option<string>

  function Chained(previous: Validator, next: Validator): Validator {
    (s: Snapshot, p: Raw) => if previous(s, p).Some? then previous(s, p) else next(s, p)
  }

  function ChainAll(base: Validator, more: seq<Validator>): Validator {
    if more == [] then base else Chained(ChainAll(base, more[..|more| - 1]), more[|more| - 1])
  }

  /** The first complaint of a list of validators. */
  function FirstComplaint(vs: seq<Validator>, s: Snapshot, p: Raw): (r: Option<string>)
    ensures r == None <==> forall k :: 0 <= k < |vs| ==> vs[k](s, p) == None
    ensures r.Some? ==> exists k :: 0 <= k < |vs| && vs[k](s, p) == r && forall j :: 0 <= j < k ==> vs[j](s, p) == None
  {
    if vs == [] then None
    else if vs[0](s, p).Some? then vs[0](s, p)
    else FirstComplaint(vs[1..], s, p)
  }

  lemma {:induction false} FirstComplaintAppend(vs: seq<Validator>, v: Validator, s: Snapshot, p: Raw)
    ensures FirstComplaint(vs + [v], s, p)
         == if FirstComplaint(vs, s, p).Some? then FirstComplaint(vs, s, p) else v(s, p)
    decreases |vs|
  {
    if vs == [] {
      assert [v][1..] == [];
      assert vs + [v] == [v];
    } else {
      assert (vs + [v])[1..] == vs[1..] + [v];
      FirstComplaintAppend(vs[1..], v, s, p);
    }
  }

  /** Chained validators refuse exactly what one of them refuses, with the first complaint in order of attachment. */
  lemma {:induction false} ChainIsFirstComplaint(base: Validator, more: seq<Validator>, s: Snapshot, p: Raw)
    ensures ChainAll(base, more)(s, p) == FirstComplaint([base] + more, s, p)
    decreases |more|
  {
    if more == [] {
      assert [base] + more == [base] && [base][1..] == [];
    } else {
      var before, last := more[..|more| - 1], more[|more| - 1];
      ChainIsFirstComplaint(base, before, s, p);
      assert [base] + more == ([base] + before) + [last];
      FirstComplaintAppend([base] + before, last, s, p);
    }
  }

  // ----- the definition object -----

  class CommandImpl {
    const name: CommandName
    var validate: Validator

    constructor (name: CommandName, validate: Validator)
      ensures this.name == name && this.validate == validate
    {
      this.name, this.validate := name, validate;
    }
  }

  /** The fluent tail of Handle. A dead registration belongs to no command. */
  class CommandRegistration {
    const impl: CommandImpl
    const dead: bool

    constructor (impl: CommandImpl, dead: bool)
      ensures this.impl == impl && this.dead == dead
    {
      this.impl, this.dead := impl, dead;
    }

    method Validate(fn: Validator)
      modifies impl
      ensures impl.validate == if dead then old(impl.validate) else Chained(old(impl.validate), fn)
    {
      if dead {
        return;
      }
      impl.validate := Chained(impl.validate, fn);
    }
  }

  class Definition {
    const kind: string
    var commands: map<CommandName, CommandImpl>
    var queries: set<string>
    var errs: seq<RegError>
    ghost var attempts: seq<Attempt>

    /** The registries hold what the attempts so far registered, each command under its own name. */
    ghost predicate Valid()
      reads this
    {
      && (forall n :: n in commands <==> CommandNamed(n) in Registered(attempts))
      && (forall q :: q in queries <==> QueryNamed(q) in Registered(attempts))
      && (forall n :: n in commands ==> commands[n].name == n)
      && errs == Errors(kind, attempts)
    }

    constructor (kind: string)
      ensures Valid() && this.kind == kind && attempts == []
    {
      this.kind := kind;
      commands, queries, attempts := map[], {}, [];
      errs := if kind == "" then [EmptyKind] else [];
    }

    /** Registers a command, or records why not and hands out a dead registration. */
    method Handle(name: CommandName, base: Validator) returns (r: CommandRegistration)
      requires Valid()
      modifies this
      ensures Valid() && attempts == old(attempts) + [CommandNamed(name)] && queries == old(queries)
      ensures fresh(r) && fresh(r.impl) && (r.dead <==> |errs| > |old(errs)|)
      ensures r.dead <==> name in {"", "entity-delete", "describe", "entity-set-labels"} || name in old(commands)
      ensures r.dead ==> commands == old(commands)
      ensures var why := if name in old(commands) then DuplicateName(CommandNamed(name))
                         else ReservedName(CommandNamed(name));
        errs == old(errs) + if r.dead then [why] else []
      ensures !r.dead ==> name !in old(commands) && commands == old(commands)[name := r.impl] && r.impl.validate == base
    {
      var a := CommandNamed(name);
      var impl := new CommandImpl(name, base);
      assert (attempts + [a])[..|attempts|] == attempts;
      if Reserved(a) {
        errs := errs + [ReservedName(a)];
        r := new CommandRegistration(impl, true);
      } else if name in commands {
        errs := errs + [DuplicateName(a)];
        r := new CommandRegistration(impl, true);
      } else {
        commands := commands[name := impl];
        r := new CommandRegistration(impl, false);
      }
      attempts := attempts + [a];
    }

    method HandleQuery(name: string)
      requires Valid()
      modifies this
      ensures Valid() && attempts == old(attempts) + [QueryNamed(name)] && commands == old(commands)
      ensures queries == if name in {"", "describe"} then old(queries) else old(queries) + {name}
      ensures |errs| > |old(errs)| <==> name in {"", "describe"} || name in old(queries)
    {
      var a := QueryNamed(name);
      assert (attempts + [a])[..|attempts|] == attempts;
      if Reserved(a) {
        errs := errs + [ReservedName(a)];
      } else if name in queries {
        errs := errs + [DuplicateName(a)];
      } else {
        queries := queries + {name};
      }
      attempts := attempts + [a];
    }

    /** Registration hands the loop a set of commands that never shadows the built-in one. */
    method Register() returns (ok: bool, names: set<CommandName>)
      requires Valid()
      ensures ok <==> kind != "" && Distinct(attempts) && forall a :: a in attempts ==>
        if a.CommandNamed? then a.name !in {"", "entity-delete", "describe", "entity-set-labels"}
        else a.name !in {"", "describe"}
      ensures ok ==> forall n :: n in names <==> CommandNamed(n) in attempts
      ensures SetLabelsCommandName !in names && "" !in names
    {
      NoErrorsIff(kind, attempts);
      ok := errs == [];
      names := commands.Keys;
    }
  }
}
