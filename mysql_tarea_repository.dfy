/** The MySQL repository (`MySQLTareaRepository`), with the `tareas` table
    replaced by a map from id to row and the AUTO_INCREMENT counter. Each
    operation is first given as a function from the table state before the
    call to the result and the state after it; the class's methods are proved
    to do exactly that. */
module MySqlStore {
  import opened Js
  import opened TareaEntity
  import TareaRepository

  /** The `tareas` table and the id its next insert receives. */
  datatype Db = Db(table: map<int, Tarea>, nextId: int)

  /** A result together with the table state an operation leaves behind. */
  datatype Step<R> = Step(result: R, db: Db)

  /** What holds of the table between calls: ids below the counter, each row
      carrying its own id, no `undefined` column, and every row passing
      `validar` (both writes validate what they write). */
  ghost predicate Consistent(db: Db) {
    && 1 <= db.nextId
    && forall k :: k in db.table ==>
         && 1 <= k < db.nextId
         && db.table[k].id == Num(k)
         && Defined(db.table[k])
         && Validar(db.table[k]).Ok?
  }

  /** How a bound query parameter is stored: the driver sends `undefined` as
      NULL. */
  function Sql(v: Value): (stored: Value)
    ensures stored != Undefined
    ensures v != Undefined ==> stored == v
    ensures v == Undefined ==> stored == Null
  {
    if v == Undefined then Null else v
  }

  /** The rows with ids in [lo, hi), in id order. */
  function Rows(table: map<int, Tarea>, lo: int, hi: int): seq<Tarea>
    decreases hi - lo
  {
    if hi <= lo then []
    else Rows(table, lo, hi - 1) + (if hi - 1 in table then [table[hi - 1]] else [])
  }

  /** The ids of the table in [lo, hi). */
  ghost function KeysIn(table: map<int, Tarea>, lo: int, hi: int): set<int> {
    set k | k in table && lo <= k < hi
  }

  /** Every listed row is a row of the table with an id in range, every such
      row is listed, and there is one entry per id in range. */
  lemma {:induction false} RowsListsTable(table: map<int, Tarea>, lo: int, hi: int)
    ensures forall t :: t in Rows(table, lo, hi) <==> exists k :: lo <= k < hi && k in table && table[k] == t
    ensures |Rows(table, lo, hi)| == |KeysIn(table, lo, hi)|
    decreases hi - lo
  {
    if lo < hi {
      RowsListsTable(table, lo, hi - 1);
      if hi - 1 in table {
        assert KeysIn(table, lo, hi) == KeysIn(table, lo, hi - 1) + {hi - 1};
      } else {
        assert KeysIn(table, lo, hi) == KeysIn(table, lo, hi - 1);
      }
    } else {
      assert KeysIn(table, lo, hi) == {};
    }
  }

  /** `SELECT * FROM tareas`, each row rebuilt as a task. */
  function GetAllOp(db: Db): (r: seq<Tarea>)
    requires Consistent(db)
    ensures TareaRepository.GetAllContract(db.table, r)
  {
    var r := Rows(db.table, 1, db.nextId);
    RowsListsTable(db.table, 1, db.nextId);
    assert KeysIn(db.table, 1, db.nextId) == db.table.Keys;
    r
  }

  /** `SELECT * FROM tareas WHERE id = ?`: `null` for no row, never an error. */
  function GetByIdOp(db: Db, id: int): (r: Option<Tarea>)
    ensures TareaRepository.GetByIdContract(db.table, id, r)
  {
    if id in db.table then Some(db.table[id]) else None
  }

  /** The row the INSERT leaves: the fresh id, the five written columns, and
      the database's own creation time `dbNow` (the column default). */
  function InsertedRow(id: int, t: Tarea, dbNow: int): (row: Tarea)
    ensures Defined(row)
    ensures row.id == Num(id) && row.fecha_creacion == Date(dbNow)
    ensures Defined(t) ==> row == t.(id := Num(id), fecha_creacion := Date(dbNow))
  {
    Tarea(Num(id), Sql(t.titulo), Sql(t.descripcion), Sql(t.estado), Date(dbNow),
          Sql(t.fecha_limite), Sql(t.prioridad))
  }

  /** The task `create` returns: built anew from the insert id, the five
      columns of the input and the application clock `now`. */
  function Created(id: int, t: Tarea, now: int): (c: Tarea)
    ensures c.id == Num(id) && c.fecha_creacion == Date(now)
    ensures Defined(t) ==> c == t.(id := Num(id), fecha_creacion := Date(now))
  {
    New(map["id" := Num(id), "titulo" := t.titulo, "descripcion" := t.descripcion,
             "estado" := t.estado, "fecha_creacion" := Date(now),
             "fecha_limite" := t.fecha_limite, "prioridad" := t.prioridad], now)
  }

  /** `create(tarea)`: validate, then insert under the next id. */
  function CreateOp(db: Db, t: Tarea, dbNow: int, now: int): (s: Step<Result<Tarea>>)
    requires Consistent(db)
    ensures TareaRepository.CreateContract(db.table, s.result, s.db.table)
  {
    match Validar(t)
    case Err(e) => Step(Err(e), db)
    case Ok(_) =>
      var id := db.nextId;
      assert Created(id, t, now).id == Num(id);
      Step(Ok(Created(id, t, now)), Db(db.table[id := InsertedRow(id, t, dbNow)], id + 1))
  }

  /** `{...existing, ...data, id}` rebuilt as a task: payload keys win over
      the existing record's, and the id is always the one in the path. */
  function Merge(existing: Tarea, data: Payload, id: int, now: int): (m: Tarea)
    ensures m.id == Num(id)
    ensures forall k :: k in FieldNames && k != "id" && Supplied(data, k) ==> Field(m, k) == data[k]
  {
    New(ToPayload(existing) + data + map["id" := Num(id)], now)
  }

  /** The row the UPDATE leaves: five columns from the merged task; the id and
      the creation time stay as they were. */
  function WriteBack(row: Tarea, m: Tarea): (w: Tarea)
    ensures w.id == row.id && w.fecha_creacion == row.fecha_creacion
    ensures Defined(row) ==> Defined(w)
    ensures Defined(m) ==> w == m.(id := row.id, fecha_creacion := row.fecha_creacion)
  {
    row.(titulo := Sql(m.titulo), descripcion := Sql(m.descripcion), estado := Sql(m.estado),
         fecha_limite := Sql(m.fecha_limite), prioridad := Sql(m.prioridad))
  }

  /** `update(id, data)`: read, merge, validate, write. */
  function UpdateOp(db: Db, id: int, data: Payload, now: int): (s: Step<Result<Option<Tarea>>>)
    ensures TareaRepository.UpdateContract(db.table, id, s.result, s.db.table)
  {
    match GetByIdOp(db, id)
    case None => Step(Ok(None), db)
    case Some(existing) =>
      var m := Merge(existing, data, id, now);
      match Validar(m)
      case Err(e) => Step(Err(e), db)
      case Ok(_) => Step(Ok(Some(m)), db.(table := db.table[id := WriteBack(existing, m)]))
  }

  /** `delete(id)`: `affectedRows > 0`. */
  function DeleteOp(db: Db, id: int): (s: Step<bool>)
    ensures TareaRepository.DeleteContract(db.table, id, s.result, s.db.table)
  {
    Step(id in db.table, db.(table := db.table - {id}))
  }

  // ---------------------------------------------------------------------------
  // Properties of the operations

  /** Creation keeps the table consistent. */
  lemma CreatePreservesConsistency(db: Db, t: Tarea, dbNow: int, now: int)
    requires Consistent(db)
    ensures Consistent(CreateOp(db, t, dbNow, now).db)
  {
    if Validar(t).Ok? {
      assert Validar(InsertedRow(db.nextId, t, dbNow)).Ok?;
    }
  }

  /** Updating keeps the table consistent. */
  lemma UpdatePreservesConsistency(db: Db, id: int, data: Payload, now: int)
    requires Consistent(db)
    ensures Consistent(UpdateOp(db, id, data, now).db)
  {
    if id in db.table {
      var m := Merge(db.table[id], data, id, now);
      if Validar(m).Ok? {
        assert Validar(WriteBack(db.table[id], m)).Ok?;
      }
    }
  }

  /** Deleting keeps the table consistent. */
  lemma DeletePreservesConsistency(db: Db, id: int)
    requires Consistent(db)
    ensures Consistent(DeleteOp(db, id).db)
  {
  }

  /** `create` reports the first rule `validar` rejects and then writes
      nothing; a valid task is inserted under the counter's id, and the
      counter moves on. */
  lemma CreateValidatesFirst(db: Db, t: Tarea, dbNow: int, now: int)
    requires Consistent(db)
    ensures var s := CreateOp(db, t, dbNow, now);
      && (Validar(t).Err? ==> s == Step(Err(Validar(t).message), db))
      && (Validar(t).Ok? ==> s.result.Ok? && s.result.value.id == Num(db.nextId)
                             && s.db.nextId == db.nextId + 1)
  {
  }

  /** The task `create` returns has the insert id and, for a task with no
      `undefined` field (every task built by `new Tarea`), the input's five
      written fields unchanged. */
  lemma CreatedKeepsFields(db: Db, t: Tarea, dbNow: int, now: int)
    requires Consistent(db) && Defined(t) && Validar(t).Ok?
    ensures var c := CreateOp(db, t, dbNow, now).result.value;
      && c.id == Num(db.nextId)
      && c.titulo == t.titulo && c.descripcion == t.descripcion && c.estado == t.estado
      && c.fecha_limite == t.fecha_limite && c.prioridad == t.prioridad
      && c.fecha_creacion == Date(now)
  {
    var c := Created(db.nextId, t, now);
    assert c.titulo == t.titulo;
  }

  /** Round trip: reading back the id `create` returned gives the returned
      task, except that the stored creation time is the database's own. */
  lemma CreateThenGetById(db: Db, t: Tarea, dbNow: int, now: int)
    requires Consistent(db) && Defined(t)
    ensures var s := CreateOp(db, t, dbNow, now);
      s.result.Ok? ==>
        GetByIdOp(s.db, s.result.value.id.n) == Some(s.result.value.(fecha_creacion := Date(dbNow)))
  {
    if Validar(t).Ok? {
      CreatedKeepsFields(db, t, dbNow, now);
    }
  }

  /** The overlay of `update`: the id is the path id; a key the payload
      supplies wins; a key it omits keeps the existing value; a key it sets
      to `undefined` falls back to the constructor default. */
  lemma MergeOverlay(existing: Tarea, data: Payload, id: int, now: int)
    requires Defined(existing)
    ensures Merge(existing, data, id, now).id == Num(id)
    ensures forall k :: k in FieldNames && k != "id" && Supplied(data, k) ==>
      Field(Merge(existing, data, id, now), k) == data[k]
    ensures forall k :: k in FieldNames && k != "id" && k !in data ==>
      Field(Merge(existing, data, id, now), k) == Field(existing, k)
    ensures forall k :: k in FieldNames && k != "id" && k in data && data[k] == Undefined ==>
      Field(Merge(existing, data, id, now), k) == Default(k, now)
  {
    forall k | k in FieldNames && k != "id"
      ensures Field(Merge(existing, data, id, now), k) ==
        if Supplied(data, k) then data[k] else if k in data then Default(k, now) else Field(existing, k)
    {
      MergeField(existing, data, id, now, k);
    }
  }

  /** One key of the overlay. */
  lemma MergeField(existing: Tarea, data: Payload, id: int, now: int, k: string)
    requires Defined(existing) && k in FieldNames && k != "id"
    ensures Field(Merge(existing, data, id, now), k) ==
      if Supplied(data, k) then data[k] else if k in data then Default(k, now) else Field(existing, k)
  {
    var p := ToPayload(existing) + data + map["id" := Num(id)];
    assert p[k] == if k in data then data[k] else Field(existing, k);
    assert k !in data ==> Field(existing, k) != Undefined;
    assert Supplied(p, k) <==> Supplied(data, k) || k !in data;
  }

  /** An unknown id makes `update` return `null` and write nothing. */
  lemma UpdateUnknownIdWritesNothing(db: Db, id: int, data: Payload, now: int)
    requires id !in db.table
    ensures UpdateOp(db, id, data, now) == Step(Ok(None), db)
  {
  }

  /** A merged task that fails `validar` is reported and nothing is written. */
  lemma UpdateValidatesMerged(db: Db, id: int, data: Payload, now: int)
    requires id in db.table
    ensures var m := Merge(db.table[id], data, id, now);
      Validar(m).Err? ==> UpdateOp(db, id, data, now) == Step(Err(Validar(m).message), db)
  {
  }

  /** A successful `update` writes the five mutable columns of the merged
      task; the stored id and creation time never change. It returns the
      merged task, which agrees with the stored row except for the creation
      time, and agrees with it fully when the payload has no `fecha_creacion`
      key. */
  lemma UpdateWritesFiveColumns(db: Db, id: int, data: Payload, now: int)
    requires Consistent(db) && id in db.table
    ensures var s := UpdateOp(db, id, data, now);
      s.result.Ok? ==>
        && s.result.value.Some?
        && var m := s.result.value.value;
           var row := s.db.table[id];
           && row.id == db.table[id].id
           && row.fecha_creacion == db.table[id].fecha_creacion
           && row == m.(fecha_creacion := db.table[id].fecha_creacion)
           && ("fecha_creacion" !in data ==> row == m)
  {
    var existing := db.table[id];
    var m := Merge(existing, data, id, now);
    if Validar(m).Ok? {
      MergeOverlay(existing, data, id, now);
      assert Field(m, "titulo") == m.titulo;
      if "fecha_creacion" !in data {
        assert Field(m, "fecha_creacion") == m.fecha_creacion;
      }
    }
  }

  /** After `delete`, `getById` finds nothing under that id. */
  lemma DeleteThenGetById(db: Db, id: int)
    ensures GetByIdOp(DeleteOp(db, id).db, id) == None
  {
  }

  // ---------------------------------------------------------------------------
  // The repository object

  class MySQLTareaRepository {
    var table: map<int, Tarea>
    var nextId: int

    /** The table state this repository holds. */
    function State(): Db
      reads this
    {
      Db(table, nextId)
    }

    ghost predicate Valid()
      reads this
    {
      Consistent(State())
    }

    /** A repository over a freshly created, empty table. */
    constructor ()
      ensures Valid() && State() == Db(map[], 1)
    {
      table := map[];
      nextId := 1;
    }

    /** `getAll()`: the rows in id order. */
    method GetAll() returns (r: seq<Tarea>)
      requires Valid()
      ensures r == GetAllOp(State())
    {
      r := [];
      var i := 1;
      while i < nextId
        invariant 1 <= i <= nextId
        invariant r == Rows(table, 1, i)
      {
        if i in table {
          r := r + [table[i]];
        }
        i := i + 1;
      }
    }

    /** `getById(id)`. */
    method GetById(id: int) returns (r: Option<Tarea>)
      ensures r == GetByIdOp(State(), id)
    {
      if id in table {
        r := Some(table[id]);
      } else {
        r := None;
      }
    }

    /** `create(tarea)`; `dbNow` is the database clock, `now` the
        application's. */
    method Create(t: Tarea, dbNow: int, now: int) returns (r: Result<Tarea>)
      requires Valid()
      modifies this
      ensures Valid()
      ensures Step(r, State()) == CreateOp(old(State()), t, dbNow, now)
    {
      CreatePreservesConsistency(State(), t, dbNow, now);
      var ok := Validar(t);
      if ok.Err? {
        return Err(ok.message);
      }
      var id := nextId;
      table := table[id := InsertedRow(id, t, dbNow)];
      nextId := nextId + 1;
      r := Ok(Created(id, t, now));
    }

    /** `update(id, tareaData)`; `now` is the application clock, read only
        when the payload sets `fecha_creacion` to `undefined`. */
    method Update(id: int, data: Payload, now: int) returns (r: Result<Option<Tarea>>)
      requires Valid()
      modifies this
      ensures Valid()
      ensures Step(r, State()) == UpdateOp(old(State()), id, data, now)
    {
      UpdatePreservesConsistency(State(), id, data, now);
      var existing := GetById(id);
      if existing.None? {
        return Ok(None);
      }
      var m := Merge(existing.value, data, id, now);
      var ok := Validar(m);
      if ok.Err? {
        return Err(ok.message);
      }
      table := table[id := WriteBack(table[id], m)];
      r := Ok(Some(m));
    }

    /** `delete(id)`. */
    method Delete(id: int) returns (r: bool)
      requires Valid()
      modifies this
      ensures Valid()
      ensures Step(r, State()) == DeleteOp(old(State()), id)
    {
      DeletePreservesConsistency(State(), id);
      r := id in table;
      table := table - {id};
    }
  }
}
