/** The HTTP controller (`TareaController`): each handler calls its use case
    and turns the outcome into a status code and a JSON body. Errors are told
    apart by words in their message. The response is returned as a value
    instead of being written through `res`. */
module Controller {
  import opened Js
  import opened TareaEntity
  import TareaRepository
  import opened MySqlStore
  import opened UseCases

  /** The JSON body of a response. */
  datatype Body =
    | TaskBody(tarea: Tarea)
    | TaskListBody(tareas: seq<Tarea>)
    | ErrorBody(error: string)
    | MessageBody(mensaje: string)

  datatype Response = Response(status: int, body: Body)

  /** The message of a not-found error, as the handlers recognise it. */
  predicate IsNotFound(message: string) {
    Includes(message, NoSeEncontro)
  }

  /** The message of a validation error, as the handlers recognise it. */
  predicate IsValidationFailure(message: string) {
    Includes(message, "obligatorio") || Includes(message, "debe ser")
  }

  const ErrorListar := "Error al obtener las tareas"
  const ErrorObtener := "Error al obtener la tarea"
  const ErrorCrear := "Error al crear la tarea"
  const ErrorActualizar := "Error al actualizar la tarea"
  const ErrorEliminar := "Error al eliminar la tarea"
  const TareaEliminada := "Tarea eliminada exitosamente"

  /** `obtenerTareas`: the list with 200, or 500 with a fixed message. */
  function ListResponse(o: Result<seq<Tarea>>): (r: Response)
    ensures r.status == 200 <==> o.Ok?
    ensures o.Ok? ==> r.body == TaskListBody(o.value)
    ensures o.Err? ==> r == Response(500, ErrorBody(ErrorListar))
  {
    match o
    case Ok(tareas) => Response(200, TaskListBody(tareas))
    case Err(_) => Response(500, ErrorBody(ErrorListar))
  }

  /** `obtenerTareaPorId`: 200 with the task; 404 echoing a not-found
      message; 500 with a fixed message for anything else. */
  function GetByIdResponse(o: Result<Tarea>): (r: Response)
    ensures r.status in {200, 404, 500}
    ensures r.status == 200 <==> o.Ok?
    ensures o.Ok? ==> r.body == TaskBody(o.value)
    ensures r.status == 404 <==> o.Err? && IsNotFound(o.message)
    ensures r.status == 404 ==> r.body == ErrorBody(o.message)
    ensures r.status == 500 ==> r.body == ErrorBody(ErrorObtener)
  {
    match o
    case Ok(t) => Response(200, TaskBody(t))
    case Err(m) =>
      if IsNotFound(m) then Response(404, ErrorBody(m))
      else Response(500, ErrorBody(ErrorObtener))
  }

  /** `crearTarea`: 201 with the created task; 400 echoing a validation
      message; 500 with a fixed message for anything else. */
  function CreateResponse(o: Result<Tarea>): (r: Response)
    ensures r.status in {201, 400, 500}
    ensures r.status == 201 <==> o.Ok?
    ensures o.Ok? ==> r.body == TaskBody(o.value)
    ensures r.status == 400 <==> o.Err? && IsValidationFailure(o.message)
    ensures r.status == 400 ==> r.body == ErrorBody(o.message)
    ensures r.status == 500 ==> r.body == ErrorBody(ErrorCrear)
  {
    match o
    case Ok(t) => Response(201, TaskBody(t))
    case Err(m) =>
      if IsValidationFailure(m) then Response(400, ErrorBody(m))
      else Response(500, ErrorBody(ErrorCrear))
  }

  /** `actualizarTarea`: 200 with the updated task; 404 for a not-found
      message, which is checked first and so wins over the validation words;
      400 for a validation message; 500 with a fixed message otherwise. */
  function UpdateResponse(o: Result<Tarea>): (r: Response)
    ensures r.status in {200, 400, 404, 500}
    ensures r.status == 200 <==> o.Ok?
    ensures o.Ok? ==> r.body == TaskBody(o.value)
    ensures r.status == 404 <==> o.Err? && IsNotFound(o.message)
    ensures r.status == 400 <==> o.Err? && !IsNotFound(o.message) && IsValidationFailure(o.message)
    ensures r.status in {400, 404} ==> r.body == ErrorBody(o.message)
    ensures r.status == 500 ==> r.body == ErrorBody(ErrorActualizar)
  {
    match o
    case Ok(t) => Response(200, TaskBody(t))
    case Err(m) =>
      if IsNotFound(m) then Response(404, ErrorBody(m))
      else if IsValidationFailure(m) then Response(400, ErrorBody(m))
      else Response(500, ErrorBody(ErrorActualizar))
  }

  /** `eliminarTarea`: 200 with a confirmation; 404 echoing a not-found
      message; 500 with a fixed message for anything else. */
  function DeleteResponse(o: Result<bool>): (r: Response)
    ensures r.status in {200, 404, 500}
    ensures r.status == 200 <==> o.Ok?
    ensures o.Ok? ==> r.body == MessageBody(TareaEliminada)
    ensures r.status == 404 <==> o.Err? && IsNotFound(o.message)
    ensures r.status == 404 ==> r.body == ErrorBody(o.message)
    ensures r.status == 500 ==> r.body == ErrorBody(ErrorEliminar)
  {
    match o
    case Ok(_) => Response(200, MessageBody(TareaEliminada))
    case Err(m) =>
      if IsNotFound(m) then Response(404, ErrorBody(m))
      else Response(500, ErrorBody(ErrorEliminar))
  }

  // ---------------------------------------------------------------------------
  // The classification against the errors the service actually produces

  /** None of the three `validar` messages mentions a missing task: none
      holds the capital letter "No se encontró" starts with. */
  lemma ValidarMessagesAreNotNotFound()
    ensures !IsNotFound(TituloObligatorio)
    ensures !IsNotFound(EstadoInvalido)
    ensures !IsNotFound(PrioridadInvalida)
  {
    assert 'N' !in TituloObligatorio && 'N' !in EstadoInvalido && 'N' !in PrioridadInvalida;
    NotIncludedWithoutFirstChar(TituloObligatorio, NoSeEncontro);
    NotIncludedWithoutFirstChar(EstadoInvalido, NoSeEncontro);
    NotIncludedWithoutFirstChar(PrioridadInvalida, NoSeEncontro);
  }

  /** Every error `validar` raises is answered 400 by the create and update
      handlers, with the message echoed. */
  lemma ValidationErrorsAreBadRequest(t: Tarea)
    requires Validar(t).Err?
    ensures var m := Validar(t).message;
      && CreateResponse(Err(m)) == Response(400, ErrorBody(m))
      && UpdateResponse(Err(m)) == Response(400, ErrorBody(m))
  {
    ValidarMessages(t);
    ValidarMessagesAreNotNotFound();
  }

  /** The not-found error of the use cases is answered 404, with the message
      echoed, by every handler that can receive it. */
  lemma NotFoundErrorsAre404(id: int)
    ensures var m := NotFoundMessage(id);
      && GetByIdResponse(Err(m)) == Response(404, ErrorBody(m))
      && UpdateResponse(Err(m)) == Response(404, ErrorBody(m))
      && DeleteResponse(Err(m)) == Response(404, ErrorBody(m))
  {
  }

  /** A 500 response never depends on the error behind it: any two errors
      that a handler answers with 500 get the very same response. */
  lemma ServerErrorsAreGeneric(m1: string, m2: string)
    ensures ListResponse(Err(m1)) == ListResponse(Err(m2))
    ensures GetByIdResponse(Err(m1)).status == 500 && GetByIdResponse(Err(m2)).status == 500 ==>
      GetByIdResponse(Err(m1)) == GetByIdResponse(Err(m2))
    ensures CreateResponse(Err(m1)).status == 500 && CreateResponse(Err(m2)).status == 500 ==>
      CreateResponse(Err(m1)) == CreateResponse(Err(m2))
    ensures UpdateResponse(Err(m1)).status == 500 && UpdateResponse(Err(m2)).status == 500 ==>
      UpdateResponse(Err(m1)) == UpdateResponse(Err(m2))
    ensures DeleteResponse(Err(m1)).status == 500 && DeleteResponse(Err(m2)).status == 500 ==>
      DeleteResponse(Err(m1)) == DeleteResponse(Err(m2))
  {
  }

  /** The base repository's "must be implemented" errors contain "debe ser",
      so the create and update handlers would answer them 400 as if the
      client had sent a bad task; the other handlers answer 500. */
  lemma NotImplementedReadsAsValidation(op: TareaRepository.Operation)
    ensures var m := TareaRepository.NotImplemented(op);
      && CreateResponse(Err(m)).status == 400
      && UpdateResponse(Err(m)).status == 400
      && GetByIdResponse(Err(m)).status == 500
      && DeleteResponse(Err(m)).status == 500
  {
    var name := TareaRepository.MethodName(op);
    var m := TareaRepository.NotImplemented(op);
    assert m == "El método " + name + " debe ser implementado";
    assert 'N' !in "El método " && 'N' !in name && 'N' !in " debe ser implementado";
    NotIncludedWithoutFirstChar(m, NoSeEncontro);
  }

  // ---------------------------------------------------------------------------
  // The controller object

  class TareaController {
    const useCases: TareaUseCases

    ghost predicate Valid()
      reads useCases.repository
    {
      useCases.Valid()
    }

    constructor (useCases: TareaUseCases)
      ensures this.useCases == useCases
    {
      this.useCases := useCases;
    }

    /** The table behind the controller. */
    function State(): Db
      reads useCases.repository
    {
      useCases.repository.State()
    }

    /** GET /: 200 with every stored task. */
    method ObtenerTareas() returns (res: Response)
      requires Valid()
      ensures res == Response(200, TaskListBody(GetAllOp(State())))
    {
      var tareas := useCases.ObtenerTodasLasTareas();
      res := ListResponse(Ok(tareas));
    }

    /** GET /:id: 200 with the stored task, or 404 echoing the not-found
        message. */
    method ObtenerTareaPorId(id: int) returns (res: Response)
      requires Valid()
      ensures id in State().table ==> res == Response(200, TaskBody(State().table[id]))
      ensures id !in State().table ==> res == Response(404, ErrorBody(NotFoundMessage(id)))
    {
      var tarea := useCases.ObtenerTareaPorId(id);
      res := GetByIdResponse(tarea);
    }

    /** POST /: 201 with the created task, or 400 echoing the rule the body
        breaks; never 500, since the table here has no failure of its own. */
    method CrearTarea(body: Payload, dbNow: int, now: int) returns (res: Response)
      requires Valid()
      modifies useCases.repository
      ensures Valid()
      ensures var s := CreateOp(old(State()), New(body, now), dbNow, now);
        State() == s.db && res == CreateResponse(s.result)
      ensures res.status in {201, 400}
    {
      var nuevaTarea := useCases.CrearTarea(body, dbNow, now);
      if nuevaTarea.Err? {
        ValidationErrorsAreBadRequest(New(body, now));
      }
      res := CreateResponse(nuevaTarea);
    }

    /** PUT /:id: 200 with the merged task, 404 for an unknown id, or 400
        echoing the rule the merged task breaks. */
    method ActualizarTarea(id: int, body: Payload, now: int) returns (res: Response)
      requires Valid()
      modifies useCases.repository
      ensures Valid()
      ensures var s := UpdateOp(old(State()), id, body, now);
        State() == s.db && res == UpdateResponse(RequireFound(s.result, id))
      ensures res.status == 404 <==> id !in old(State().table)
      ensures res.status in {200, 400, 404}
    {
      ghost var before := State();
      var tareaActualizada := useCases.ActualizarTarea(id, body, now);
      NotFoundErrorsAre404(id);
      if id in before.table {
        var m := Merge(before.table[id], body, id, now);
        if Validar(m).Err? {
          ValidationErrorsAreBadRequest(m);
        }
      }
      res := UpdateResponse(tareaActualizada);
    }

    /** DELETE /:id: 200 with the confirmation when a task was removed, 404
        echoing the not-found message when there was none. */
    method EliminarTarea(id: int) returns (res: Response)
      requires Valid()
      modifies useCases.repository
      ensures Valid()
      ensures State() == DeleteOp(old(State()), id).db
      ensures old(id in State().table) ==> res == Response(200, MessageBody(TareaEliminada))
      ensures old(id !in State().table) ==> res == Response(404, ErrorBody(NotFoundMessage(id)))
    {
      var resultado := useCases.EliminarTarea(id);
      NotFoundErrorsAre404(id);
      res := DeleteResponse(resultado);
    }
  }
}
