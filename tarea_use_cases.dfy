/** The use-case layer (`TareaUseCases`): one operation per CRUD verb, each
    driving the repository and turning an absent or false store result into
    the not-found error. */
module UseCases {
  import opened Js
  import opened TareaEntity
  import opened MySqlStore

  /** Decimal digits of a natural number, as a template literal prints it. */
  function NatToString(n: nat): string
    decreases n
  {
    var digit := ["0123456789"[n % 10]];
    if n < 10 then digit else NatToString(n / 10) + digit
  }

  /** An integer as a template literal prints it. */
  function IntToString(n: int): string {
    if n < 0 then "-" + NatToString(-n) else NatToString(n)
  }

  const NoSeEncontro := "No se encontró"

  /** The error a use case throws when the store has no task with that id. */
  function NotFoundMessage(id: int): (message: string)
    ensures Includes(message, NoSeEncontro)
  {
    var rest := " la tarea con ID " + IntToString(id);
    IncludesPrefix(NoSeEncontro, rest);
    NoSeEncontro + rest
  }

  /** How `obtenerTareaPorId` and `actualizarTarea` treat an absent store
      result: as the not-found error. Errors pass through unchanged. */
  function RequireFound(r: Result<Option<Tarea>>, id: int): (u: Result<Tarea>)
    ensures u.Err? <==> r.Err? || r == Ok(None)
    ensures r.Err? ==> u == Err(r.message)
    ensures r == Ok(None) ==> u == Err(NotFoundMessage(id))
    ensures r.Ok? && r.value.Some? ==> u == Ok(r.value.value)
  {
    match r
    case Err(e) => Err(e)
    case Ok(None) => Err(NotFoundMessage(id))
    case Ok(Some(t)) => Ok(t)
  }

  class TareaUseCases {
    const repository: MySQLTareaRepository

    ghost predicate Valid()
      reads repository
    {
      repository.Valid()
    }

    constructor (repository: MySQLTareaRepository)
      ensures this.repository == repository
    {
      this.repository := repository;
    }

    /** `obtenerTodasLasTareas()`: the store's `getAll` result, verbatim. */
    method ObtenerTodasLasTareas() returns (r: seq<Tarea>)
      requires Valid()
      ensures r == GetAllOp(repository.State())
    {
      r := repository.GetAll();
    }

    /** `obtenerTareaPorId(id)`: the stored task, or the not-found error. */
    method ObtenerTareaPorId(id: int) returns (r: Result<Tarea>)
      requires Valid()
      ensures r.Err? <==> id !in repository.table
      ensures r.Err? ==> r.message == NotFoundMessage(id)
      ensures r.Ok? ==> r.value == repository.table[id]
    {
      var tarea := repository.GetById(id);
      r := RequireFound(Ok(tarea), id);
    }

    /** `crearTarea(tareaData)`: build the task with its defaults and hand it
        to the store, which validates it; nothing is checked here. */
    method CrearTarea(data: Payload, dbNow: int, now: int) returns (r: Result<Tarea>)
      requires Valid()
      modifies repository
      ensures Valid()
      ensures Step(r, repository.State()) == CreateOp(old(repository.State()), New(data, now), dbNow, now)
    {
      var tarea := New(data, now);
      r := repository.Create(tarea, dbNow, now);
    }

    /** `actualizarTarea(id, tareaData)`: the store's update, with `null`
        turned into the not-found error. */
    method ActualizarTarea(id: int, data: Payload, now: int) returns (r: Result<Tarea>)
      requires Valid()
      modifies repository
      ensures Valid()
      ensures var s := UpdateOp(old(repository.State()), id, data, now);
        repository.State() == s.db && r == RequireFound(s.result, id)
    {
      var tareaActualizada := repository.Update(id, data, now);
      r := RequireFound(tareaActualizada, id);
    }

    /** `eliminarTarea(id)`: `true`, or the not-found error when the store
        removed nothing. */
    method EliminarTarea(id: int) returns (r: Result<bool>)
      requires Valid()
      modifies repository
      ensures Valid()
      ensures repository.State() == DeleteOp(old(repository.State()), id).db
      ensures old(id in repository.table) ==> r == Ok(true)
      ensures old(id !in repository.table) ==> r == Err(NotFoundMessage(id))
    {
      var resultado := repository.Delete(id);
      if !resultado {
        return Err(NotFoundMessage(id));
      }
      r := Ok(true);
    }
  }

  /** A task `crearTarea` stores is the request body with its defaults: every
      supplied field of the body that the INSERT writes is kept, `estado` and
      `prioridad` default to "pendiente" and "media", and a body that fails
      `validar` stores nothing and reports that rule's message. */
  lemma CrearTareaStoresBody(db: Db, data: Payload, dbNow: int, now: int)
    requires Consistent(db)
    ensures var t := New(data, now);
      var s := CreateOp(db, t, dbNow, now);
      && (Validar(t).Err? ==> s.db == db && s.result == Err(Validar(t).message))
      && (Validar(t).Ok? ==>
            && s.result.Ok?
            && s.result.value.id == Num(db.nextId)
            && (forall k :: k in FieldNames - {"id", "fecha_creacion"} && Supplied(data, k) ==>
                  Field(s.result.value, k) == data[k])
            && (!Supplied(data, "estado") ==> s.result.value.estado == Str("pendiente"))
            && (!Supplied(data, "prioridad") ==> s.result.value.prioridad == Str("media"))
            && GetByIdOp(s.db, db.nextId) == Some(s.result.value.(fecha_creacion := Date(dbNow))))
  {
    var t := New(data, now);
    if Validar(t).Ok? {
      CreatedKeepsFields(db, t, dbNow, now);
      CreateThenGetById(db, t, dbNow, now);
      var c := CreateOp(db, t, dbNow, now).result.value;
      forall k | k in FieldNames - {"id", "fecha_creacion"} && Supplied(data, k)
        ensures Field(c, k) == data[k]
      {
        assert Field(c, k) == Field(t, k);
      }
    }
  }

  /** Deleting and then reading the same id fails with the not-found error,
      whether or not the task existed. */
  lemma DeleteThenNotFound(db: Db, id: int)
    ensures RequireFound(Ok(GetByIdOp(DeleteOp(db, id).db, id)), id) == Err(NotFoundMessage(id))
  {
  }

  /** `actualizarTarea` on an id the store does not hold fails with the
      not-found error and writes nothing; on a held id it reports either the
      validation error of the merged task or the merged task itself. */
  lemma ActualizarTareaOutcomes(db: Db, id: int, data: Payload, now: int)
    ensures var s := UpdateOp(db, id, data, now);
      var u := RequireFound(s.result, id);
      && (id !in db.table ==> u == Err(NotFoundMessage(id)) && s.db == db)
      && (id in db.table ==>
            var m := Merge(db.table[id], data, id, now);
            && (Validar(m).Err? ==> u == Err(Validar(m).message) && s.db == db)
            && (Validar(m).Ok? ==> u == Ok(m)))
  {
  }
}
