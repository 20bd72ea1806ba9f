/**
 The vocabulary shared by every part of the chassis (pkg/entity): identifiers,
 lifecycle phases and the read-only snapshot. Desired specs and user states are
 opaque, and JSON documents are kept as their text.
 */
module Entity {

  datatype Option<+T> = None | Some(value: T)

  datatype Result<+T> = Ok(value: T) | Err(error: string)

  /** The user's desired specification and state. */
  type Spec(==, !new, 0)
  type State(==, !new, 0)

  type RequestId = string
  type CommandName = string
  type Raw = string
  type Labels = map<string, string>

  /** `Unset` is the zero phase of an envelope no run has started yet. */
  datatype Phase = Unset | Creating | Ready | Deleting | Deleted | DeleteFailed | CreateFailed

  /** The arrows of the lifecycle: which phase may replace which. */
  predicate PhaseArrow(before: Phase, after: Phase) {
    match before
    case Unset => after == Creating
    case Creating => after in {Ready, CreateFailed, Deleting}
    case Ready => after == Deleting
    case Deleting => after in {Deleted, DeleteFailed}
    case Deleted => false
    case DeleteFailed => false
    case CreateFailed => false
  }

  datatype Snapshot = Snapshot(
    phase: Phase, spec: Spec, state: State, labels: Labels, pendingCommands: nat, markedForDeletion: bool)

  datatype Command = Command(id: RequestId, name: CommandName, payload: Raw)
}
