# CourierSync user service, modelled in Dafny

This project models `UsuarioService`, the service of the CourierSync backend
that creates, updates, reads and deletes users (`Usuario`). It works against
four repositories: users, cities (`Ciudad`), departments (`Departamento`) and
roles (`Rol`). The rules it enforces are these:

- A new user's e-mail must be unique, compared ignoring case.
- On update, that check runs again only when the e-mail really changes.
- Every referenced id must resolve, otherwise the service raises NotFound.
- A user's city must belong to the user's department. This is checked on
  create, and on update against the final city/department pair.
- Update merges a partial payload: an absent field leaves the stored value.
- Delete returns false for an unknown id. When other rows depend on the
  user, the integrity failure is reported as Conflict.

Files:

- `texto.dfy` (module `Texto`): ASCII upper-casing. It defines Java's
  `equalsIgnoreCase`, which compares character by character, and the
  database's `UPPER(a) = UPPER(b)` used by `existsByCorreoIgnoreCase`. A lemma
  proves that the two agree under ASCII case folding; beyond ASCII they can
  differ (see "Left out").
- `dominio.dfy` (module `Dominio`): the entities as values, the create and
  update payloads (absent fields are `Option.None`), the flat view, the three
  error kinds, and the city/department validator.
- `usuario_logica.dfy` (module `UsuarioLogica`): the repositories as one value
  (`Almacen`), their invariants, and one function per operation
  (`Crear`, `Actualizar`, `BuscarPorId`, `Eliminar`). Each function gives the
  result and the repositories afterwards. Its contract states the source's
  rules: the order of the checks, the error raised by each, and what is saved.
- `usuario_propiedades.dfy` (module `UsuarioPropiedades`): properties that
  span calls. Every write keeps the invariants. Reads after writes see what
  the writes promised. An error leaves the store unchanged.
- `usuario_service.dfy` (module `UsuarioServicio`): the class `UsuarioService`.
  Its repositories are map fields. `Create`, `Update` and `Delete` change the
  user map step by step, as the Java methods do, and are proved equal to the
  functions above. The private helpers `actualizarCamposBasicos` and
  `actualizarRelaciones` are methods of the class too, and so is the
  repository call `usuarioRepo.deleteById`, as `DeleteById`. The
  file ends with client methods over the unit-test fixtures. They show what a
  caller can conclude from the contracts alone.

The invariants (`UsuarioLogica.Consistente`) are:

- every user's city belongs to the user's department;
- every user's city, department and role is a stored row;
- no two users have e-mails equal ignoring case.

`UsuarioLogica.Integro` states that every row is keyed by its own id, that
the identity counter is ahead of every user id, that each stored city holds
the stored row of its department (they are one row in the database), and
that only stored users have dependent rows. The class requires it
(`Valid()`). Each write preserves `Integro` and `Consistente`.

Three points of the code shape the model:

- `toView` dereferences city, department and role directly, so every stored
  user holds all three; the model's `Usuario` has no absent relation.
- `update` sets the basic fields on the managed entity before it resolves the
  relations. When a relation lookup or the city/department rule then fails,
  the transaction rolls back and discards those changes. The model merges on
  a value and saves only at the end, which gives the same outcome.
- On create the validator receives the resolved department's id, not the id
  from the payload. The two agree when the repository is keyed by id.

## Model

| member | source | states |
|---|---|---|
| `Texto.EqualsIgnoreCaseSiIgualesEnMayusculas` | couriersync-backend/src/main/java/com/ep18/couriersync/backend/customers/service/UsuarioService.java:144-147 | under ASCII case folding, the in-memory `equalsIgnoreCase` used to skip the check holds exactly when the database's `UPPER` comparison used by the uniqueness query holds |
| `Dominio.AssertCiudadPerteneceADepartamento` | couriersync-backend/src/main/java/com/ep18/couriersync/backend/customers/service/UsuarioService.java:40 | passes exactly when the city's department id equals the given id, otherwise raises a Validation error |
| `UsuarioLogica.ValidarCorreoUnico` | couriersync-backend/src/main/java/com/ep18/couriersync/backend/customers/service/UsuarioService.java:106-109 | raises Conflict("El correo ya está registrado") exactly when some stored user's e-mail equals the given one ignoring case |
| `UsuarioLogica.Obtener` | couriersync-backend/src/main/java/com/ep18/couriersync/backend/customers/service/UsuarioService.java:111-129 | a lookup succeeds exactly when the id is stored and returns that row; otherwise it raises NotFound with the repository's own message |
| `UsuarioLogica.ConstruirUsuario` | couriersync-backend/src/main/java/com/ep18/couriersync/backend/customers/service/UsuarioService.java:131-142 | the new user carries the payload's name, e-mail, phone and address, the given city, department and role, and the given registration date or today when none is given |
| `UsuarioLogica.ToView` | couriersync-backend/src/main/java/com/ep18/couriersync/backend/customers/service/UsuarioService.java:172-187 | the view loses nothing but the city's own copy of its department: a user whose city holds the user's department is rebuilt exactly from its view (`DesdeVista`) |
| `UsuarioLogica.PrepararCreacion` | couriersync-backend/src/main/java/com/ep18/couriersync/backend/customers/service/UsuarioService.java:35-42 | a taken e-mail raises Conflict before any lookup; then, in order, a missing city, department or role raises its NotFound and a city outside the department raises Validation; the checks pass exactly when none applies, and then the user built is `construirUsuario` of the resolved rows under the next id |
| `UsuarioLogica.Crear` | couriersync-backend/src/main/java/com/ep18/couriersync/backend/customers/service/UsuarioService.java:33-44 | a taken e-mail raises Conflict before any lookup. Then, in order, a missing city, department or role raises NotFound, and a city outside the department raises Validation. It succeeds exactly when none applies. On error the store is unchanged. On success exactly one row is added under the next id. That row holds the payload's name, e-mail, phone and address, the given date or today, and the resolved city, department and role. The result is that row's view |
| `UsuarioLogica.ActualizarCorreo` | couriersync-backend/src/main/java/com/ep18/couriersync/backend/customers/service/UsuarioService.java:144-147 | raises Conflict exactly when an e-mail is given, differs from the current one ignoring case, and is already taken |
| `UsuarioLogica.ActualizarCamposBasicos` | couriersync-backend/src/main/java/com/ep18/couriersync/backend/customers/service/UsuarioService.java:149-155 | each absent basic field keeps the stored value and each present one overwrites it; id, city, department and role are untouched |
| `UsuarioLogica.ActualizarRelaciones` | couriersync-backend/src/main/java/com/ep18/couriersync/backend/customers/service/UsuarioService.java:157-166 | in order: a given but unknown city raises NotFound("Ciudad no encontrada"), then a given but unknown department NotFound("Departamento no encontrado"), then a final pair (given or kept) outside the belongs-to rule Validation, then a given but unknown role NotFound("Rol no encontrado"). It succeeds exactly when none applies. With neither city nor department given both are kept; otherwise they are the given rows or kept. The role is replaced exactly when its id is given. Nothing else changes |
| `UsuarioLogica.PrepararActualizacion` | couriersync-backend/src/main/java/com/ep18/couriersync/backend/customers/service/UsuarioService.java:50-53 | an unknown id raises NotFound("Usuario no encontrado"), then a failing e-mail check raises Conflict; past both, the outcome (user or error) is exactly that of the relation update applied to the stored user with the basic fields merged |
| `UsuarioLogica.Actualizar` | couriersync-backend/src/main/java/com/ep18/couriersync/backend/customers/service/UsuarioService.java:48-55 | an unknown id raises NotFound. Conflict is raised exactly as the e-mail rule says. For a stored user whose e-mail check passes, a given but unknown city, department or role raises its NotFound, and Validation is raised exactly when the given ids resolve and the final pair breaks the rule, in the order of the relation update. It succeeds exactly when the e-mail check passes, the given ids resolve and the final pair passes the rule. On error the store is unchanged. On success only that user's row changes: it is merged field by field, its relations are replaced as the relation rule says, and the city/department invariant is kept for it |
| `UsuarioLogica.BuscarPorId` | couriersync-backend/src/main/java/com/ep18/couriersync/backend/customers/service/UsuarioService.java:59-64 | succeeds exactly when the id is stored and returns the stored user's view; otherwise NotFound("Usuario no encontrado") |
| `UsuarioLogica.Eliminar` | couriersync-backend/src/main/java/com/ep18/couriersync/backend/customers/service/UsuarioService.java:93-102 | returns false exactly for an unknown id. Conflict is raised exactly when the user has dependent rows. It returns true otherwise, with exactly that row removed, and nothing else changes |
| `UsuarioPropiedades.CrearPreservaInvariantes` | couriersync-backend/src/main/java/com/ep18/couriersync/backend/customers/service/UsuarioService.java:34-43 | create keeps every row keyed by its id and keeps the three domain invariants, e-mail uniqueness included; a success adds exactly one fresh key |
| `UsuarioPropiedades.ActualizarPreservaInvariantes` | couriersync-backend/src/main/java/com/ep18/couriersync/backend/customers/service/UsuarioService.java:49-54 | update keeps the key set and all invariants; under ASCII case folding, e-mail uniqueness survives the skipped check because a same-but-for-case e-mail clashes with no other user |
| `UsuarioPropiedades.VistaSinPerdida` | couriersync-backend/src/main/java/com/ep18/couriersync/backend/customers/service/UsuarioService.java:172-187 | in a store that keeps the invariants, every stored user's city holds the user's department, so the user is rebuilt exactly from the view `findById` returns |
| `UsuarioPropiedades.EliminarPreservaInvariantes` | couriersync-backend/src/main/java/com/ep18/couriersync/backend/customers/service/UsuarioService.java:94-101 | delete keeps all invariants and removes the key only when it returns true |
| `UsuarioPropiedades.CrearLuegoBuscar` | couriersync-backend/src/main/java/com/ep18/couriersync/backend/customers/service/UsuarioService.java:172-187 | after a successful create, findById on the new id returns the same view. It carries the requested city, department and role ids and the stored rows' names |
| `UsuarioPropiedades.EliminarLuegoBuscar` | couriersync-backend/src/main/java/com/ep18/couriersync/backend/customers/service/UsuarioService.java:94-98 | after a delete that returned true, findById on that id raises NotFound and every other user reads as before. A second delete returns false |
| `UsuarioPropiedades.ErrorNoModifica` | couriersync-backend/src/main/java/com/ep18/couriersync/backend/customers/service/UsuarioService.java:33-55 | gathers the no-change-on-error clauses of `Crear`, `Actualizar` and `Eliminar`: a create, update or delete that raises leaves all repositories unchanged |
| `UsuarioPropiedades.VistaCoherente` | couriersync-backend/src/main/java/com/ep18/couriersync/backend/customers/service/UsuarioService.java:172-187 | in a consistent store the view's city, department and role ids name stored rows with the view's names, and the city lies in the view's department |
| `UsuarioPropiedades.MismoCorreoSinConflicto` | couriersync-backend/src/main/java/com/ep18/couriersync/backend/customers/service/UsuarioService.java:145-146 | re-submitting the current e-mail in any case never raises Conflict |
| `UsuarioPropiedades.ActualizarSinCambios` | couriersync-backend/src/main/java/com/ep18/couriersync/backend/customers/service/UsuarioService.java:149-165 | a payload with no field set returns the user's current view and leaves the store as it was |
| `UsuarioPropiedades.ActualizarCamposBasicosIdempotente` | couriersync-backend/src/main/java/com/ep18/couriersync/backend/customers/service/UsuarioService.java:149-155 | merging the same payload twice gives the same user as merging it once |
| `UsuarioPropiedades.SoloDepartamentoSinCiudadFalla` | couriersync-backend/src/main/java/com/ep18/couriersync/backend/customers/service/UsuarioService.java:158-161 | changing only the department raises Validation when the user's current city is not in it, and saves nothing |
| `UsuarioServicio.UsuarioService.constructor` | couriersync-backend/src/main/java/com/ep18/couriersync/backend/customers/service/UsuarioService.java:24-29 | the service is built over the given repositories, which must be keyed by id |
| `UsuarioServicio.UsuarioService.Create` | couriersync-backend/src/main/java/com/ep18/couriersync/backend/customers/service/UsuarioService.java:33-44 | runs the checks step by step, saves, and returns exactly what `Crear` gives. The repositories afterwards are `Crear`'s, only the user map and id counter change, and the invariants are kept |
| `UsuarioServicio.UsuarioService.Update` | couriersync-backend/src/main/java/com/ep18/couriersync/backend/customers/service/UsuarioService.java:48-55 | returns and leaves exactly what `Actualizar` gives, changes only the user map, and keeps the invariants |
| `UsuarioServicio.UsuarioService.ActualizarCamposBasicos` | couriersync-backend/src/main/java/com/ep18/couriersync/backend/customers/service/UsuarioService.java:149-155 | the setter-by-setter merge yields the user `UsuarioLogica.ActualizarCamposBasicos` describes |
| `UsuarioServicio.UsuarioService.ActualizarRelaciones` | couriersync-backend/src/main/java/com/ep18/couriersync/backend/customers/service/UsuarioService.java:157-166 | the step-by-step relation update yields exactly the user or error that `UsuarioLogica.ActualizarRelaciones` describes |
| `UsuarioServicio.UsuarioService.FindById` | couriersync-backend/src/main/java/com/ep18/couriersync/backend/customers/service/UsuarioService.java:59-64 | reads exactly what `BuscarPorId` gives on the current repositories |
| `UsuarioServicio.UsuarioService.DeleteById` | couriersync-backend/src/main/java/com/ep18/couriersync/backend/customers/service/UsuarioService.java:97 | reports an integrity violation exactly for a user with dependent rows and then removes nothing; otherwise it removes that row |
| `UsuarioServicio.UsuarioService.Delete` | couriersync-backend/src/main/java/com/ep18/couriersync/backend/customers/service/UsuarioService.java:93-102 | returns and leaves exactly what `Eliminar` gives, translating the integrity violation into Conflict, and keeps the invariants |
| `UsuarioServicio.Fixtura` | couriersync-backend/src/test/java/com/ep18/couriersync/backend/customers/service/UsuarioServiceTest.java:41-72 | the unit tests' fixtures, plus city 2 in department 2, form a store keyed by id |

## Left out

- `search`, `listByCiudad`, `listByDepartamento` and `listByRol` (UsuarioService.java:66-89, 168-170) are left out. Their behaviour lives in Spring Data derived queries, `PageRequestUtil` and `PageMapper`, which are not part of this model. The only logic of their own is that a null search query becomes "" (line 69).
- Transactions and rollback are not modelled as such. Each operation is one step that either saves or leaves the repositories unchanged.
- A user is modelled as a value, not as the managed entity mutated in place. Before a later check fails, `update` mutates the managed entity. That mutation is not modelled, because the rollback discards it.
- `LocalDate.now()` is the parameter `hoy`.
- The integrity failure of `deleteById` is modelled as membership in `conDependientes`, the set of users that rows outside this service refer to. The flush timing of the persistence layer is not modelled. When the DELETE is deferred to commit, the failure would surface outside the `try` block.
- Null ids and null strings in the create payload, and a null user id in the update payload, are not modelled. Bean Validation of the payloads (e-mail and phone formats) happens on DTOs that are not part of this model.
- Case folding covers ASCII letters only. Java's Unicode `toUpperCase` and the database's locale rules for `UPPER` are not modelled.
- `Texto.EqualsIgnoreCaseSiIgualesEnMayusculas`: the agreement of `equalsIgnoreCase` and `UPPER(a) = UPPER(b)` is proved for ASCII folding only, and so is the e-mail uniqueness that `UsuarioPropiedades.ActualizarPreservaInvariantes` derives from it. Java's `equalsIgnoreCase` also compares the lower-cased forms of the upper-cased characters, so `"\u212A"` (KELVIN SIGN) equals `"k"` ignoring case. A database whose `UPPER` leaves U+212A as it is can then store both "k@x.com" and "\u212A@x.com"; when the second user updates to "k@x.com", UsuarioService.java:145 skips the uniqueness query and a duplicate is saved. The model, with ASCII folding, raises Conflict there instead.
- `UsuarioValidator` is not part of this model. Its check is modelled as "the city's department id equals the given id". The text of its error message is a placeholder.
- Cities, departments and roles are copied into the user row as values. `CiudadService`, `DepartamentoService` and `RolService` are not part of this model. This service never changes those repositories, so the copies stay equal to the stored rows (`ReferenciasResueltas`).
- `UsuarioLogica.Actualizar` requires that the repository returns the row with the id it was asked for. The service assumes this of `findById` and does not check it.
