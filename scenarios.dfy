/** Whole requests through controller, use cases and repository, starting
    from an empty table, as on the first start of the service. */
module Scenarios {
  import opened Js
  import opened TareaEntity
  import opened MySqlStore
  import opened UseCases
  import opened Controller

  /** POST a task, read it, change its priority, delete it, read it again. */
  method WriteReport(dbNow: int, now: int)
    returns (post: Response, get: Response, put: Response, del: Response, getAfter: Response)
    ensures post.status == 201 && post.body.TaskBody?
    ensures var t := post.body.tarea;
      && t.id == Num(1) && t.titulo == Str("Write report") && t.descripcion == Null
      && t.estado == Str("pendiente") && t.prioridad == Str("alta") && t.fecha_limite == Null
    ensures get == Response(200, TaskBody(post.body.tarea.(fecha_creacion := Date(dbNow))))
    ensures put == Response(200, TaskBody(get.body.tarea.(prioridad := Str("baja"))))
    ensures del == Response(200, MessageBody(TareaEliminada))
    ensures getAfter == Response(404, ErrorBody(NotFoundMessage(1)))
  {
    var repository := new MySQLTareaRepository();
    var useCases := new TareaUseCases(repository);
    var controller := new TareaController(useCases);
    var body := map["titulo" := Str("Write report"), "prioridad" := Str("alta")];
    CrearTareaStoresBody(repository.State(), body, dbNow, now);
    post := controller.CrearTarea(body, dbNow, now);
    get := controller.ObtenerTareaPorId(1);
    ghost var stored := repository.table[1];
    var change := map["prioridad" := Str("baja")];
    MergeOverlay(stored, change, 1, now);
    assert Field(stored, "prioridad") == stored.prioridad;
    put := controller.ActualizarTarea(1, change, now);
    del := controller.EliminarTarea(1);
    getAfter := controller.ObtenerTareaPorId(1);
  }

  /** An empty title and an unknown state are both refused with 400, and
      neither request adds a row. */
  method RejectedBodies(dbNow: int, now: int) returns (noTitle: Response, badState: Response, rows: seq<Tarea>)
    ensures noTitle == Response(400, ErrorBody(TituloObligatorio))
    ensures badState == Response(400, ErrorBody(EstadoInvalido))
    ensures rows == []
  {
    var repository := new MySQLTareaRepository();
    var useCases := new TareaUseCases(repository);
    var controller := new TareaController(useCases);
    var untitled := map["titulo" := Str("")];
    assert Validar(New(untitled, now)) == Err(TituloObligatorio);
    ValidationErrorsAreBadRequest(New(untitled, now));
    noTitle := controller.CrearTarea(untitled, dbNow, now);
    var archived := map["titulo" := Str("x"), "estado" := Str("archivada")];
    assert Validar(New(archived, now)) == Err(EstadoInvalido);
    ValidationErrorsAreBadRequest(New(archived, now));
    badState := controller.CrearTarea(archived, dbNow, now);
    rows := useCases.ObtenerTodasLasTareas();
  }
}
