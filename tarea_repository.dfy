/** The store contract every task repository implements (`TareaRepository`).
    The abstract base class only throws; what its documentation promises of an
    implementation is stated here as relations between the table before a
    call, the call's arguments and result, and the table after it, keyed by
    task id. The one implementation, `MySqlStore.MySQLTareaRepository`, is
    proved against them. */
module TareaRepository {
  import opened Js
  import opened TareaEntity

  /** The five operations of the contract. */
  datatype Operation = GetAll | GetById | Create | Update | Delete

  /** The method name the base class uses in its messages. */
  function MethodName(op: Operation): string {
    match op
    case GetAll => "getAll"
    case GetById => "getById"
    case Create => "create"
    case Update => "update"
    case Delete => "delete"
  }

  /** What every method of the base class throws: it names the method and
      says that it must be implemented. */
  function NotImplemented(op: Operation): (message: string)
    ensures Includes(message, MethodName(op))
    ensures Includes(message, "debe ser implementado")
    ensures Includes(message, "debe ser")
  {
    var prefix := "El método ";
    var suffix := " debe ser implementado";
    var message := prefix + MethodName(op) + suffix;
    assert OccursAt(message, MethodName(op), |prefix|);
    assert message[|prefix| + |MethodName(op)|..] == suffix;
    assert OccursAt(message, suffix[1..], |prefix| + |MethodName(op)| + 1);
    assert OccursAt(suffix[1..], "debe ser", 0);
    IncludesPart(message, suffix[1..], "debe ser", 0);
    message
  }

  /** `getAll`: a list of the stored tasks, possibly empty, one entry per
      stored task. */
  ghost predicate GetAllContract(view: map<int, Tarea>, r: seq<Tarea>) {
    && |r| == |view|
    && forall t :: t in r <==> exists id :: id in view && view[id] == t
  }

  /** `getById`: the task with that id, or `null` when there is none. */
  ghost predicate GetByIdContract(view: map<int, Tarea>, id: int, r: Option<Tarea>) {
    && (r.Some? <==> id in view)
    && (r.Some? ==> r.value == view[id])
  }

  /** `create`: the created task comes back under a fresh id that now holds a
      row, other rows untouched; a failed creation writes nothing. */
  ghost predicate CreateContract(before: map<int, Tarea>, r: Result<Tarea>, after: map<int, Tarea>) {
    && (r.Err? ==> after == before)
    && (r.Ok? ==>
          && r.value.id.Num?
          && r.value.id.n !in before
          && after.Keys == before.Keys + {r.value.id.n}
          && forall k :: k in before ==> after[k] == before[k])
  }

  /** `update`: `null` exactly when the id does not exist; the updated task
      otherwise, under the same id. Only that row may change, and nothing
      changes unless a task comes back. */
  ghost predicate UpdateContract(before: map<int, Tarea>, id: int, r: Result<Option<Tarea>>, after: map<int, Tarea>) {
    && (r == Ok(None) <==> id !in before)
    && (r.Ok? && r.value.Some? ==>
          && r.value.value.id == Num(id)
          && after.Keys == before.Keys
          && forall k :: k in before && k != id ==> after[k] == before[k])
    && (!(r.Ok? && r.value.Some?) ==> after == before)
  }

  /** `delete`: `true` if a task was removed, `false` if none existed; either
      way no task has that id afterwards and the others are untouched. */
  ghost predicate DeleteContract(before: map<int, Tarea>, id: int, r: bool, after: map<int, Tarea>) {
    r == (id in before) && after == before - {id}
  }
}
