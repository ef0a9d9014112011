/** The task entity (`Tarea`): construction with defaults, and `validar`. */
module TareaEntity {
  import opened Js

  /** A task. Every field holds whatever JavaScript value it was given; the
      database columns and the validation rules restrict them further. */
  datatype Tarea = Tarea(
    id: Value,
    titulo: Value,
    descripcion: Value,
    estado: Value,
    fecha_creacion: Value,
    fecha_limite: Value,
    prioridad: Value)

  /** The seven keys the constructor reads from its argument. */
  const FieldNames: set<string> :=
    {"id", "titulo", "descripcion", "estado", "fecha_creacion", "fecha_limite", "prioridad"}

  /** The field of `t` named by key `k`; `undefined` for any other key. */
  function Field(t: Tarea, k: string): Value {
    if k == "id" then t.id
    else if k == "titulo" then t.titulo
    else if k == "descripcion" then t.descripcion
    else if k == "estado" then t.estado
    else if k == "fecha_creacion" then t.fecha_creacion
    else if k == "fecha_limite" then t.fecha_limite
    else if k == "prioridad" then t.prioridad
    else Undefined
  }

  /** The destructuring default of key `k`, where `now` is the instant the
      constructor runs (`new Date()`). `titulo` has none. */
  function Default(k: string, now: int): Value {
    if k == "id" then Null
    else if k == "descripcion" then Null
    else if k == "estado" then Str("pendiente")
    else if k == "fecha_creacion" then Date(now)
    else if k == "fecha_limite" then Null
    else if k == "prioridad" then Str("media")
    else Undefined
  }

  /** A destructuring default is replaced exactly when the key is present with
      a value other than `undefined`; an explicit `null` counts as supplied. */
  predicate Supplied(data: Payload, k: string) {
    k in data && data[k] != Undefined
  }

  function Arg(data: Payload, k: string, now: int): Value {
    if Supplied(data, k) then data[k] else Default(k, now)
  }

  /** `new Tarea(data)`: supplied fields are kept as given, the others take
      their defaults, and keys outside the seven are dropped. */
  function New(data: Payload, now: int): (t: Tarea)
    ensures forall k :: k in FieldNames && Supplied(data, k) ==> Field(t, k) == data[k]
    ensures !Supplied(data, "id") ==> t.id == Null
    ensures !Supplied(data, "titulo") ==> t.titulo == Undefined
    ensures !Supplied(data, "descripcion") ==> t.descripcion == Null
    ensures !Supplied(data, "estado") ==> t.estado == Str("pendiente")
    ensures !Supplied(data, "fecha_creacion") ==> t.fecha_creacion == Date(now)
    ensures !Supplied(data, "fecha_limite") ==> t.fecha_limite == Null
    ensures !Supplied(data, "prioridad") ==> t.prioridad == Str("media")
  {
    Tarea(
      Arg(data, "id", now),
      Arg(data, "titulo", now),
      Arg(data, "descripcion", now),
      Arg(data, "estado", now),
      Arg(data, "fecha_creacion", now),
      Arg(data, "fecha_limite", now),
      Arg(data, "prioridad", now))
  }

  /** The own properties of a task object, as `{...tarea}` spreads them. */
  function ToPayload(t: Tarea): (p: Payload)
    ensures p.Keys == FieldNames
    ensures forall k :: k in p ==> p[k] == Field(t, k)
  {
    map["id" := t.id, "titulo" := t.titulo, "descripcion" := t.descripcion,
        "estado" := t.estado, "fecha_creacion" := t.fecha_creacion,
        "fecha_limite" := t.fecha_limite, "prioridad" := t.prioridad]
  }

  /** No field of `t` is `undefined` (true of every database row). */
  predicate Defined(t: Tarea) {
    t.id != Undefined && t.titulo != Undefined && t.descripcion != Undefined &&
    t.estado != Undefined && t.fecha_creacion != Undefined &&
    t.fecha_limite != Undefined && t.prioridad != Undefined
  }

  /** Keys other than the seven named ones have no effect on construction. */
  lemma NewIgnoresOtherKeys(data: Payload, extra: Payload, now: int)
    requires forall k :: k in extra ==> k !in FieldNames
    ensures New(data + extra, now) == New(data, now)
  {
    var d := data + extra;
    forall k | k in FieldNames ensures Arg(d, k, now) == Arg(data, k, now) {
      assert k !in extra;
    }
  }

  /** Rebuilding a task from its own properties (`new Tarea(row)`) gives the
      same task back when no field is `undefined`, at any clock reading. */
  lemma RebuildIsIdentity(t: Tarea, now: int)
    requires Defined(t)
    ensures New(ToPayload(t), now) == t
  {
    var p := ToPayload(t);
    assert Supplied(p, "id") && Supplied(p, "titulo") && Supplied(p, "descripcion");
    assert Supplied(p, "estado") && Supplied(p, "fecha_creacion");
    assert Supplied(p, "fecha_limite") && Supplied(p, "prioridad");
  }

  // The three messages `validar` throws. Each is written as two pieces so
  // that the verifier can reason about its characters one piece at a time.
  const TituloObligatorio := "El título de la tarea " + "es obligatorio"
  const EstadoInvalido := "El estado debe ser " + "\"pendiente\" o \"completada\""
  const PrioridadInvalida := "La prioridad debe ser " + "\"baja\", \"media\" o \"alta\""

  const Estados: set<Value> := {Str("pendiente"), Str("completada")}
  const Prioridades: set<Value> := {Str("baja"), Str("media"), Str("alta")}

  /** `validar()`: the title must be truthy; a truthy `estado` must be one of
      the two states; a truthy `prioridad` one of the three priorities. The
      first rule that fails is the one reported; `true` when all pass. */
  function Validar(t: Tarea): (r: Result<bool>)
    ensures r.Ok? <==>
      && Truthy(t.titulo)
      && (Truthy(t.estado) ==> t.estado in Estados)
      && (Truthy(t.prioridad) ==> t.prioridad in Prioridades)
    ensures r.Ok? ==> r.value
    ensures !Truthy(t.titulo) ==> r == Err(TituloObligatorio)
    ensures Truthy(t.titulo) && Truthy(t.estado) && t.estado !in Estados ==>
      r == Err(EstadoInvalido)
    ensures (Truthy(t.titulo) && (Truthy(t.estado) ==> t.estado in Estados) &&
             Truthy(t.prioridad) && t.prioridad !in Prioridades) ==>
      r == Err(PrioridadInvalida)
  {
    if !Truthy(t.titulo) then Err(TituloObligatorio)
    else if Truthy(t.estado) && t.estado !in Estados then Err(EstadoInvalido)
    else if Truthy(t.prioridad) && t.prioridad !in Prioridades then Err(PrioridadInvalida)
    else Ok(true)
  }

  /** Validation looks at `titulo`, `estado` and `prioridad` only. */
  lemma ValidarReadsRuleFields(t: Tarea, u: Tarea)
    requires t.titulo == u.titulo && t.estado == u.estado && t.prioridad == u.prioridad
    ensures Validar(t) == Validar(u)
  {
  }

  /** A falsy `estado` or `prioridad` (an explicit `null`, `""`, `0`, `false`)
      skips its membership check, so a task with a truthy title and nothing
      else valid still passes. */
  lemma FalsyEnumsPass(t: Tarea)
    requires Truthy(t.titulo) && !Truthy(t.estado) && !Truthy(t.prioridad)
    ensures Validar(t) == Ok(true)
  {
  }

  lemma DebeSerAt(s: string, i: nat)
    requires i + 8 <= |s|
    requires s[i] == 'd' && s[i + 1] == 'e' && s[i + 2] == 'b' && s[i + 3] == 'e'
    requires s[i + 4] == ' ' && s[i + 5] == 's' && s[i + 6] == 'e' && s[i + 7] == 'r'
    ensures OccursAt(s, "debe ser", i)
  {
    assert s[i..i + 8] == "debe ser";
  }

  /** Every message `validar` throws names the failed rule with the words
      "obligatorio" (missing title) or "debe ser" (bad enumeration value). */
  lemma ValidarMessages(t: Tarea)
    ensures Validar(t).Err? && !Truthy(t.titulo) ==> Includes(Validar(t).message, "obligatorio")
    ensures Validar(t).Err? && Truthy(t.titulo) ==> Includes(Validar(t).message, "debe ser")
  {
    assert OccursAt(TituloObligatorio, "obligatorio", 25);
    DebeSerAt(EstadoInvalido, 10);
    DebeSerAt(PrioridadInvalida, 13);
  }
}
