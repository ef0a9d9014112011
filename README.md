# To-do service task handling, in Dafny

A model of the task-handling core of a small Express/MySQL to-do service. The
service manages tasks (`Tarea`). Each task has an id, a title (`titulo`), a
description, a state (`estado`: pendiente | completada), a creation time, a
due date and a priority (`prioridad`: baja | media | alta). The model has one
module per layer:

- `TareaEntity` (`tarea.dfy`): the task as a record of JavaScript values.
  `New` is the constructor with its destructuring defaults. `Validar` checks
  the three ordered rules.
- `TareaRepository` (`tarea_repository.dfy`): the store contract. It has the
  errors the abstract base class throws. It also states, as predicates, what
  its documentation promises of `getAll`, `getById`, `create`, `update` and
  `delete`.
- `MySqlStore` (`mysql_tarea_repository.dfy`): the MySQL repository. The
  `tareas` table is a map from id to row plus the AUTO_INCREMENT counter. Each
  operation is a function from the state before the call to the result and
  the state after it, and is proved to meet the store contract. The class
  `MySQLTareaRepository` holds that state in fields, and its methods are
  proved to compute those functions.
- `UseCases` (`tarea_use_cases.dfy`): the class `TareaUseCases`. It turns an
  absent or false store result into the error "No se encontró la tarea con
  ID n".
- `Controller` (`tarea_controller.dfy`): one function per handler, mapping an
  outcome to a status code and body by looking for words in the error message.
  The class `TareaController` calls the use cases and returns the response as
  a value.
- `Scenarios` (`scenarios.dfy`): whole requests against an empty table.

`Js` (`js.dfy`) holds the JavaScript values (`undefined`, `null`, booleans,
integers, strings and Date objects), their truthiness, request bodies as maps
from key to value, thrown errors as `Result.Err(message)`, and
`String.prototype.includes`.

Validation and the update merge happen in the repository
(`MySQLTareaRepository.js`), not in the use cases. `crearTarea` and
`actualizarTarea` add no check of their own. The model follows the code. The
handlers classify errors by substrings of the message, as the code does.

Two behaviours of the code are stated as lemmas rather than changed:

- A successful `update` returns the merged task, but writes only five columns.
  So a payload carrying `fecha_creacion` gets that value back in the response,
  while the stored creation time stays the same
  (`MySqlStore.UpdateWritesFiveColumns`).
- The base repository's "El método … debe ser implementado" errors contain
  "debe ser". The create and update handlers would answer them with 400
  (`Controller.NotImplementedReadsAsValidation`).

## Model

| member | source | states |
|---|---|---|
| `TareaEntity.New` | src/domain/entities/Tarea.js:2-18 | every supplied field among the seven is stored as given (an explicit `null` counts as supplied); an absent or `undefined` one takes its default: id `null`, descripcion `null`, estado "pendiente", fecha_creacion the current time, fecha_limite `null`, prioridad "media"; titulo has none |
| `TareaEntity.NewIgnoresOtherKeys` | src/domain/entities/Tarea.js:2-17 | keys other than the seven named ones do not affect the constructed task |
| `TareaEntity.ToPayload` | src/infrastructure/database/MySQLTareaRepository.js:63 | spreading a task gives exactly the seven own properties, each holding that field's value |
| `TareaEntity.RebuildIsIdentity` | src/infrastructure/database/MySQLTareaRepository.js:20 | rebuilding a task from a row with no `undefined` column gives that row back, whatever the clock |
| `TareaEntity.Validar` | src/domain/entities/Tarea.js:20-34 | passes (with `true`) iff the title is truthy, a truthy estado is pendiente or completada, and a truthy prioridad is baja, media or alta; otherwise reports the first failing rule's message, in the order titulo, estado, prioridad |
| `TareaEntity.ValidarReadsRuleFields` | src/domain/entities/Tarea.js:20-34 | the verdict depends on titulo, estado and prioridad only |
| `TareaEntity.FalsyEnumsPass` | src/domain/entities/Tarea.js:25-31 | a falsy estado or prioridad (null, "", 0, false) skips its membership check |
| `TareaEntity.ValidarMessages` | src/domain/entities/Tarea.js:21-31 | the title failure message includes "obligatorio"; the two enumeration failure messages include "debe ser" |
| `TareaRepository.NotImplemented` | src/domain/repositories/TareaRepository.js:10-48 | every base-class method throws a message that names the method and includes "debe ser implementado" |
| `MySqlStore.RowsListsTable` | src/infrastructure/database/MySQLTareaRepository.js:8-9 | the listed rows are exactly the table's rows with ids in the scanned range, one entry per id |
| `MySqlStore.GetAllOp` | src/infrastructure/database/MySQLTareaRepository.js:6-14 | lists every stored task and nothing else (possibly none), as many entries as stored tasks |
| `MySqlStore.GetByIdOp` | src/infrastructure/database/MySQLTareaRepository.js:16-25 | yields the stored task, or `null` exactly when no row has that id; never an error |
| `MySqlStore.Sql` | src/infrastructure/database/MySQLTareaRepository.js:32-37 | a bound parameter is stored as given, except that `undefined` is stored as NULL; a column never holds `undefined` |
| `MySqlStore.InsertedRow` | src/infrastructure/database/MySQLTareaRepository.js:32-37 | the inserted row has the AUTO_INCREMENT id, the database's creation time (the column default of init-db.js:29) and no `undefined` column; for a task with no `undefined` field the other five columns are the task's |
| `MySqlStore.Created` | src/infrastructure/database/MySQLTareaRepository.js:40-48 | the returned task has the insert id and the application clock as creation time; for a task with no `undefined` field the other five fields are the task's |
| `MySqlStore.CreateOp` | src/infrastructure/database/MySQLTareaRepository.js:27-53 | a failed creation writes nothing; a successful one returns a task under a fresh id, adds exactly that row and leaves the other rows alone |
| `MySqlStore.Merge` | src/infrastructure/database/MySQLTareaRepository.js:62-66 | the merged task has the path id, and every field the payload supplies takes the payload's value |
| `MySqlStore.WriteBack` | src/infrastructure/database/MySQLTareaRepository.js:71-77 | the updated row keeps its id and creation time; with no `undefined` field in the merged task, its other five columns are the merged task's; a row with no `undefined` column keeps none |
| `MySqlStore.UpdateOp` | src/infrastructure/database/MySQLTareaRepository.js:55-84 | `null` exactly for an unknown id; otherwise the returned task has the path id, only that row may change, and nothing changes unless a task is returned |
| `MySqlStore.DeleteOp` | src/infrastructure/database/MySQLTareaRepository.js:86-94 | true iff a row with that id existed; afterwards no row has that id and the others are untouched |
| `MySqlStore.CreatePreservesConsistency` | src/infrastructure/database/MySQLTareaRepository.js:30-37 | after a create every row still has its own id below the counter, no `undefined` column, and passes `validar` |
| `MySqlStore.UpdatePreservesConsistency` | src/infrastructure/database/MySQLTareaRepository.js:69-77 | after an update every row still passes `validar` and keeps its id |
| `MySqlStore.DeletePreservesConsistency` | src/infrastructure/database/MySQLTareaRepository.js:86-89 | a delete keeps the table consistent |
| `MySqlStore.CreateValidatesFirst` | src/infrastructure/database/MySQLTareaRepository.js:30-37 | an invalid task yields its `validar` error and leaves the table and counter unchanged; a valid one gets the counter's id and the counter advances |
| `MySqlStore.CreatedKeepsFields` | src/infrastructure/database/MySQLTareaRepository.js:32-48 | the returned task has the insert id, the current time, and titulo, descripcion, estado, fecha_limite, prioridad equal to the input's |
| `MySqlStore.CreateThenGetById` | src/infrastructure/database/MySQLTareaRepository.js:34-48 | reading back the returned id yields the returned task, except that the stored creation time is the database's |
| `MySqlStore.MergeField` | src/infrastructure/database/MySQLTareaRepository.js:62-66 | for one key other than id: the payload's value if supplied, the constructor default if present but `undefined`, the existing value if absent |
| `MySqlStore.MergeOverlay` | src/infrastructure/database/MySQLTareaRepository.js:62-66 | the merged task has the path id; a key the payload supplies wins; a key it omits keeps the existing value; a key it sets to `undefined` takes the constructor default |
| `MySqlStore.UpdateUnknownIdWritesNothing` | src/infrastructure/database/MySQLTareaRepository.js:58-59 | an unknown id returns `null` and leaves the table as it was |
| `MySqlStore.UpdateValidatesMerged` | src/infrastructure/database/MySQLTareaRepository.js:69 | a merged task that fails `validar` yields that error and the table is unchanged |
| `MySqlStore.UpdateWritesFiveColumns` | src/infrastructure/database/MySQLTareaRepository.js:71-79 | a successful update keeps the stored id and creation time and writes the merged task's other five fields; the returned task equals the stored row except for the creation time, and equals it fully when the payload has no fecha_creacion key |
| `MySqlStore.DeleteThenGetById` | src/infrastructure/database/MySQLTareaRepository.js:86-89 | after a delete, reading that id yields `null` |
| `MySqlStore.MySQLTareaRepository.constructor` | src/infrastructure/database/init-db.js:23-33 | the repository starts, as on the first start of the service, over an empty table whose next id is 1 |
| `MySqlStore.MySQLTareaRepository.GetAll` | src/infrastructure/database/MySQLTareaRepository.js:6-14 | the scan returns the rows in id order, which is `GetAllOp` of the current state |
| `MySqlStore.MySQLTareaRepository.GetById` | src/infrastructure/database/MySQLTareaRepository.js:16-25 | returns `GetByIdOp` of the current state |
| `MySqlStore.MySQLTareaRepository.Create` | src/infrastructure/database/MySQLTareaRepository.js:27-53 | result and new state are those of `CreateOp`; the table stays consistent |
| `MySqlStore.MySQLTareaRepository.Update` | src/infrastructure/database/MySQLTareaRepository.js:55-84 | result and new state are those of `UpdateOp`; the table stays consistent |
| `MySqlStore.MySQLTareaRepository.Delete` | src/infrastructure/database/MySQLTareaRepository.js:86-94 | result and new state are those of `DeleteOp`; the table stays consistent |
| `UseCases.NotFoundMessage` | src/application/use_cases/TareaUseCases.js:25 | the not-found message includes "No se encontró" |
| `UseCases.RequireFound` | src/application/use_cases/TareaUseCases.js:22-27 | fails iff the store failed or gave `null`; a store error passes through unchanged; `null` becomes the not-found error; a task passes through |
| `UseCases.TareaUseCases.constructor` | src/application/use_cases/TareaUseCases.js:4-6 | the use cases hold the given repository |
| `UseCases.TareaUseCases.ObtenerTodasLasTareas` | src/application/use_cases/TareaUseCases.js:12-14 | returns the store's list verbatim |
| `UseCases.TareaUseCases.ObtenerTareaPorId` | src/application/use_cases/TareaUseCases.js:22-28 | fails iff no stored task has the id, then with "No se encontró la tarea con ID n"; otherwise returns the stored task |
| `UseCases.TareaUseCases.CrearTarea` | src/application/use_cases/TareaUseCases.js:35-38 | builds the task with its defaults and hands it to the store's create; result and state are the store's |
| `UseCases.TareaUseCases.ActualizarTarea` | src/application/use_cases/TareaUseCases.js:47-53 | state is the store's update; the result is its task, its error unchanged, or the not-found error when it gave `null` |
| `UseCases.TareaUseCases.EliminarTarea` | src/application/use_cases/TareaUseCases.js:61-67 | removes the row; returns true if it existed, the not-found error otherwise |
| `UseCases.CrearTareaStoresBody` | src/application/use_cases/TareaUseCases.js:35-38 | a body that fails validation stores nothing and reports the rule; a valid body is stored under the next id with its supplied fields, estado defaulting to pendiente and prioridad to media, and reads back equal but for the creation time |
| `UseCases.DeleteThenNotFound` | src/application/use_cases/TareaUseCases.js:22-27 | after deleting an id, getting it fails with the not-found error |
| `UseCases.ActualizarTareaOutcomes` | src/application/use_cases/TareaUseCases.js:47-53 | an unknown id fails with the not-found error and writes nothing; a known id yields the merged task's validation error without writing, or the merged task |
| `Controller.ListResponse` | src/interfaces/controllers/TareaController.js:24-31 | 200 with the list on success; any error gives 500 with the fixed "Error al obtener las tareas" |
| `Controller.GetByIdResponse` | src/interfaces/controllers/TareaController.js:59-71 | 200 with the task iff success; 404 echoing the message iff it includes "No se encontró"; else 500 with a fixed message |
| `Controller.CreateResponse` | src/interfaces/controllers/TareaController.js:98-109 | 201 iff success; 400 echoing the message iff it includes "obligatorio" or "debe ser"; else 500 with a fixed message |
| `Controller.UpdateResponse` | src/interfaces/controllers/TareaController.js:145-158 | 200 iff success; 404 iff the message includes "No se encontró", even when it also holds the validation words; 400 iff it holds those words and not that one; else 500 with a fixed message |
| `Controller.DeleteResponse` | src/interfaces/controllers/TareaController.js:183-195 | 200 with "Tarea eliminada exitosamente" iff success; 404 echoing a not-found message; else 500 with a fixed message |
| `Controller.ValidarMessagesAreNotNotFound` | src/domain/entities/Tarea.js:22-30 | none of the three validation messages includes "No se encontró" |
| `Controller.ValidationErrorsAreBadRequest` | src/interfaces/controllers/TareaController.js:98-158 | every error `validar` raises is answered 400 with the message by the create handler (line 104) and the update handler (lines 152-155) |
| `Controller.NotFoundErrorsAre404` | src/interfaces/controllers/TareaController.js:59-196 | the use cases' not-found error, for any id, is answered 404 with the message by the get (line 66), update (line 152) and delete (line 190) handlers |
| `Controller.ServerErrorsAreGeneric` | src/interfaces/controllers/TareaController.js:24-196 | any two errors a handler answers with 500 get the same response, so no error text reaches the client (lines 30, 69, 107, 157, 193) |
| `Controller.NotImplementedReadsAsValidation` | src/interfaces/controllers/TareaController.js:104-105 | the base repository's errors would be answered 400 by create and update, and 500 by get and delete |
| `Controller.TareaController.ObtenerTareas` | src/interfaces/controllers/TareaController.js:24-31 | answers 200 with every stored task |
| `Controller.TareaController.ObtenerTareaPorId` | src/interfaces/controllers/TareaController.js:59-71 | 200 with the stored task, or 404 with the not-found message when none has the id |
| `Controller.TareaController.CrearTarea` | src/interfaces/controllers/TareaController.js:98-109 | the state is the store's create of the defaulted body and the response classifies its outcome; always 201 or 400 |
| `Controller.TareaController.ActualizarTarea` | src/interfaces/controllers/TareaController.js:145-158 | the state is the store's update; 404 iff the id was unknown; always 200, 400 or 404 |
| `Controller.TareaController.EliminarTarea` | src/interfaces/controllers/TareaController.js:183-195 | removes the row; 200 with the confirmation if it existed, 404 with the not-found message otherwise |
| `Scenarios.WriteReport` | src/interfaces/controllers/TareaController.js:98-195 | on an empty table: POST gives 201 with id 1, the given title and priority and default state; GET returns it (with the database's creation time); PUT of a priority changes only that field; DELETE gives 200; a second GET gives 404 |
| `Scenarios.RejectedBodies` | src/domain/entities/Tarea.js:21-27 | an empty title and an unknown state are each refused with 400 and the rule's message, and no row is added |

## Left out

- The HTTP server, route binding, API documentation, start-up wiring and logging (`console.error`) are not part of this model.
- SQL is replaced by a map and a counter. Backend failures of `pool.query` (lost connection, constraint violations) are not modelled. So the store never fails except through `validar`, and no model path reaches a handler's 500 branch. The handler functions still define that branch for any message.
- The column constraints of the table are not modelled: the ENUM and NOT NULL clauses, and type conversion of strings into DATE or TIMESTAMP columns. The database would reject an explicit `null` estado that `validar` lets through; the model stores it.
- `MySqlStore.GetAllOp`: lists rows in primary-key order. The query has no ORDER BY, so the database does not promise an order; the contract states which tasks are listed and that each is listed once, not their order.
- Column types are not modelled: a number or boolean sent as `titulo` or `descripcion` is stored by MySQL as text (`5` as "5", `true` as "1") and read back as a string, while the model stores and reads back the value unchanged.
- Restarts are not modelled. The table is created only if it does not exist (init-db.js:24), so rows and the AUTO_INCREMENT counter survive a restart; the model's repository, and the scenarios built on it, start from the empty table of a first start.
- Both clocks are parameters. `now` stands for `new Date()` in the application. `dbNow` stands for the database's CURRENT_TIMESTAMP default of `fecha_creacion`.
- `parseInt` on path ids (NaN, prefix parsing) is left out: ids are integers. `UseCases.IntToString` prints every integer in full, while a JavaScript number above 2^53 loses precision and one at or above 1e21 prints in exponent form ("1e+21") in the not-found message.
- JSON numbers are integers, and NaN is left out. Nested objects and arrays as field values are left out.
- async/await is left out, and so is interleaving of concurrent requests, including the window between the read and the write in `update`. Each call is atomic in the model.
- Traits are not used. The abstract repository's contract is a set of predicates that the one implementation is proved against, rather than an interface a second implementation could plug into.
