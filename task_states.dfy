/** The `TaskState` enumeration (src/common/enum.py): every state carries a
    fixed (reporting code, ordinal) pair, the Python enum member's value. */
module TaskStates {
  import opened Wrappers

  datatype TaskState = PENDING | STARTED | SENT | PROGRESS | RETRY | REVOKED | SUCCESS | FAILURE

  /** The enum member's value `(code, ordinal)`. */
  function Value(s: TaskState): (v: (int, int))
  {
    match s
    case PENDING  => (202, 0)
    case STARTED  => (202, 1)
    case SENT     => (202, 2)
    case PROGRESS => (200, 3)
    case RETRY    => (503, 4)
    case REVOKED  => (403, 5)
    case SUCCESS  => (200, 6)
    case FAILURE  => (500, 7)
  }

  /** The status code a caller reports for a task in this state (`state.value[0]`). */
  function Code(s: TaskState): (c: int)
    ensures c in {200, 202, 403, 500, 503}
    ensures c == 202 <==> s in {PENDING, STARTED, SENT}
    ensures c == 200 <==> s in {PROGRESS, SUCCESS}
    ensures c == 500 <==> s == FAILURE
    ensures c == 503 <==> s == RETRY
    ensures c == 403 <==> s == REVOKED
  {
    Value(s).0
  }

  /** The declaration position of the state (`state.value[1]`). */
  function Ordinal(s: TaskState): (o: nat)
    ensures o < 8
  {
    Value(s).1
  }

  /** The states in declaration order. */
  const Declared: seq<TaskState> := [PENDING, STARTED, SENT, PROGRESS, RETRY, REVOKED, SUCCESS, FAILURE]

  /** Enum lookup by value, `TaskState((code, ordinal))`: the member with that
      value, or None where Python raises ValueError. */
  function FromValue(v: (int, int)): (r: Option<TaskState>)
    ensures r.Some? ==> Value(r.value) == v
    ensures r.None? ==> forall s: TaskState :: Value(s) != v
  {
    if 0 <= v.1 < |Declared| && Value(Declared[v.1]) == v then Some(Declared[v.1]) else None
  }

  /** SUCCESS and FAILURE end a task's run; `result` consumes tasks in these states. */
  predicate IsTerminal(s: TaskState)
  {
    s == SUCCESS || s == FAILURE
  }

  /** The ordinals are 0..7 in declaration order. */
  lemma OrdinalIsDeclarationIndex(s: TaskState)
    ensures Ordinal(s) < |Declared| && Declared[Ordinal(s)] == s
  {
  }

  /** Every member is found again by its own value: no member is an alias of another. */
  lemma ValueRoundTrip(s: TaskState)
    ensures FromValue(Value(s)) == Some(s)
  {
    OrdinalIsDeclarationIndex(s);
  }

  /** The eight (code, ordinal) pairs are pairwise distinct. */
  lemma ValuesDistinct(s: TaskState, t: TaskState)
    ensures Value(s) == Value(t) ==> s == t
  {
    ValueRoundTrip(s);
    ValueRoundTrip(t);
  }
}
