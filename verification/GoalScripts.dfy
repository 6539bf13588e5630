/**
 * The remote side of an action as straight-line pieces: the scripts of the
 * callbacks and of the reject path, and the decisions of the executing thread.
 */
module GoalScripts {
  import opened Types
  import opened Sequences

  // ---------- straight-line code as scripts ----------

  /** One access to shared state: a send, or a store to an atomic flag. */
  datatype Micro = Emit(op: Op, data: Bytes) | ClearGoal | ClearCancel | SetDone

  type Script = seq<Micro>

  // The callbacks and the reject path of executeGoal, in program order. Other
  // threads may run between any two accesses.
  const REFUSE: Script := [Emit(GoalReject, []), ClearGoal, SetDone]
  const GOAL_ACCEPTED: Script := [Emit(GoalAccept, []), ClearGoal]
  const GOAL_REJECTED: Script := [Emit(GoalAccept, []), SetDone, ClearGoal]   // sends GOAL_ACCEPT, not GOAL_REJECT
  const CANCEL_ACCEPTED: Script := [Emit(CancelAccept, []), SetDone, ClearCancel]
  const CANCEL_REJECTED: Script := [Emit(CancelReject, []), ClearCancel]

  function ResultScript(op: Op, data: Bytes): Script {
    [Emit(op, data), SetDone]
  }

  // ---------- the flags of a handle ----------

  datatype Flags = Flags(handlingGoal: bool, handlingCancel: bool, done: bool)

  function Stored(f: Flags, m: Micro): Flags {
    match m
    case Emit(_, _) => f
    case ClearGoal => f.(handlingGoal := false)
    case ClearCancel => f.(handlingCancel := false)
    case SetDone => f.(done := true)
  }

  function SentBy(gid: Bytes, m: Micro): seq<Message> {
    if m.Emit? then [Message(m.op, gid, Some(m.data))] else []
  }

  // ---------- the decisions of the executing thread ----------

  /** executeGoal: whether a goal is refused before it reaches the local action. */
  predicate Refused(limits: Limits, m: Message, available: bool) {
    || m.content.None?
    || !Fits(limits, m.content.value)
    || !available
  }

  datatype Decision = StartGoal | DropGoal | Requeue | Absorb | StartCancel | DropUnknown

  /** executeHandle: what happens to a dequeued message. */
  function Decide(f: Flags, op: Op): Decision {
    match op
    case GoalRequest => if f.handlingGoal || f.handlingCancel then DropGoal else StartGoal
    case CancelRequest => if f.handlingGoal then Requeue else if f.handlingCancel then Absorb else StartCancel
    case _ => DropUnknown
  }
}
