/** What each operation of the user service does to the four repositories,
    stated as functions of their contents: the checks in the order the service
    runs them, the record it builds or merges, the row it saves or removes, and
    the view it returns. The class in module UsuarioServicio is proved to
    behave as these functions say. */
module UsuarioLogica {
  import opened Texto
  import opened Dominio

  const CorreoYaRegistrado := "El correo ya está registrado"
  const UsuarioNoEncontrado := "Usuario no encontrado"
  const CiudadNoEncontrada := "Ciudad no encontrada"
  const DepartamentoNoEncontrado := "Departamento no encontrado"
  const RolNoEncontrado := "Rol no encontrado"
  const NoSePuedeEliminar := "No se puede eliminar: existen registros relacionados"

  /** The contents of the user, city, department and role repositories.
      `conDependientes` holds the ids of users that rows outside this service
      refer to (deleting one of them violates referential integrity), and
      `siguienteId` is the id the identity column gives the next saved user. */
  datatype Almacen = Almacen(
    usuarios: map<int, Usuario>,
    ciudades: map<int, Ciudad>,
    departamentos: map<int, Departamento>,
    roles: map<int, Rol>,
    conDependientes: set<int>,
    siguienteId: int)

  /** What an operation returns, and the repositories after it. */
  datatype Salida<T> = Salida(resultado: Result<T>, despues: Almacen)

  // ---------- invariants of the repositories ----------

  /** Every row is stored under its own id, the identity column is ahead of
      every user id in use, each stored city holds the stored row of its
      department (one row in the database), and only stored users can have
      dependent rows. */
  ghost predicate Integro(st: Almacen)
  {
    && (forall k :: k in st.usuarios ==> st.usuarios[k].idUsuario == k && k < st.siguienteId)
    && (forall k :: k in st.ciudades ==> st.ciudades[k].idCiudad == k)
    && (forall k :: k in st.ciudades ==>
          st.ciudades[k].departamento.idDepartamento in st.departamentos
          && st.departamentos[st.ciudades[k].departamento.idDepartamento] == st.ciudades[k].departamento)
    && st.conDependientes <= st.usuarios.Keys
    && (forall k :: k in st.departamentos ==> st.departamentos[k].idDepartamento == k)
    && (forall k :: k in st.roles ==> st.roles[k].idRol == k)
  }

  /** Every user's city belongs to the user's department. */
  ghost predicate CiudadesEnSuDepartamento(usuarios: map<int, Usuario>)
  {
    forall k :: k in usuarios ==>
      CiudadPerteneceADepartamento(usuarios[k].ciudad, usuarios[k].departamento.idDepartamento)
  }

  /** Every user's city, department and role is a stored row. */
  ghost predicate ReferenciasResueltas(st: Almacen)
  {
    forall k :: k in st.usuarios ==>
      && st.usuarios[k].ciudad.idCiudad in st.ciudades
      && st.ciudades[st.usuarios[k].ciudad.idCiudad] == st.usuarios[k].ciudad
      && st.usuarios[k].departamento.idDepartamento in st.departamentos
      && st.departamentos[st.usuarios[k].departamento.idDepartamento] == st.usuarios[k].departamento
      && st.usuarios[k].rol.idRol in st.roles
      && st.roles[st.usuarios[k].rol.idRol] == st.usuarios[k].rol
  }

  /** No two users have e-mails that are equal ignoring case. */
  ghost predicate CorreosUnicos(usuarios: map<int, Usuario>)
  {
    forall a, b :: a in usuarios && b in usuarios && a != b ==>
      !IgualesEnMayusculas(usuarios[a].correo, usuarios[b].correo)
  }

  /** The domain invariants the service keeps. */
  ghost predicate Consistente(st: Almacen)
  {
    CiudadesEnSuDepartamento(st.usuarios) && ReferenciasResueltas(st) && CorreosUnicos(st.usuarios)
  }

  // ---------- helpers of the service ----------

  /** The repository query `existsByCorreoIgnoreCase`. */
  predicate ExisteCorreoIgnoreCase(usuarios: map<int, Usuario>, correo: string)
  {
    exists k :: k in usuarios && IgualesEnMayusculas(usuarios[k].correo, correo)
  }

  /** `validarCorreoUnico`: raises a conflict when some stored user already has
      the e-mail, ignoring case. */
  function ValidarCorreoUnico(usuarios: map<int, Usuario>, correo: string): (r: Check)
    ensures r.Fail? <==> ExisteCorreoIgnoreCase(usuarios, correo)
    ensures r.Fail? ==> r.error == Conflict(CorreoYaRegistrado)
  {
    if ExisteCorreoIgnoreCase(usuarios, correo) then Fail(Conflict(CorreoYaRegistrado)) else Pass
  }

  /** `findById(id).orElseThrow(NotFound)`, as `obtenerUsuario`, `obtenerCiudad`,
      `obtenerDepartamento` and `obtenerRol` do it on their repositories. */
  function Obtener<T>(repositorio: map<int, T>, id: int, mensaje: string): (r: Result<T>)
    ensures r.Ok? <==> id in repositorio
    ensures r.Ok? ==> r.value == repositorio[id]
    ensures r.Err? ==> r.error == NotFound(mensaje)
  {
    if id in repositorio then Ok(repositorio[id]) else Err(NotFound(mensaje))
  }

  /** `construirUsuario`: the new user carries the payload's own fields, the
      given relations, and today's date when no registration date is given. */
  function ConstruirUsuario(id: int, input: CreateUsuarioInput, c: Ciudad, d: Departamento, rol: Rol, hoy: Fecha): (u: Usuario)
    ensures u.idUsuario == id
    ensures u.nombre == input.nombre && u.correo == input.correo && u.telefono == input.telefono
    ensures u.detalleDireccion == input.detalleDireccion
    ensures input.fechaRegistro.Some? ==> u.fechaRegistro == input.fechaRegistro.value
    ensures input.fechaRegistro.None? ==> u.fechaRegistro == hoy
    ensures u.ciudad == c && u.departamento == d && u.rol == rol
  {
    Usuario(id, input.nombre, input.correo, input.telefono, input.fechaRegistro.GetOr(hoy),
            input.detalleDireccion, c, d, rol)
  }

  /** The user a view describes, taking the city's department to be the
      user's department. */
  function DesdeVista(v: UsuarioView): Usuario
  {
    var d := Departamento(v.idDepartamento, v.nombreDepartamento);
    Usuario(v.idUsuario, v.nombre, v.correo, v.telefono, v.fechaRegistro, v.detalleDireccion,
            Ciudad(v.idCiudad, v.nombreCiudad, d), d, Rol(v.idRol, v.nombreRol))
  }

  /** `toView`: the flat projection of a user. It loses nothing but the city's
      own copy of its department: a user whose city holds the user's
      department is rebuilt exactly from its view. */
  function ToView(u: Usuario): (v: UsuarioView)
    ensures u.ciudad.departamento == u.departamento ==> DesdeVista(v) == u
  {
    UsuarioView(u.idUsuario, u.nombre, u.correo, u.telefono, u.fechaRegistro, u.detalleDireccion,
                u.ciudad.idCiudad, u.ciudad.nombreCiudad,
                u.departamento.idDepartamento, u.departamento.nombreDepartamento,
                u.rol.idRol, u.rol.nombreRol)
  }

  /** `usuarioRepo.save` of an existing user, or of a new one (which takes the
      next identity value). */
  function Guardar(st: Almacen, u: Usuario): Almacen
  {
    st.(usuarios := st.usuarios[u.idUsuario := u])
  }

  // ---------- create ----------

  /** The checks of `create`, in order, and the user it builds. */
  function PrepararCreacion(st: Almacen, input: CreateUsuarioInput, hoy: Fecha): (r: Result<Usuario>)
    ensures ExisteCorreoIgnoreCase(st.usuarios, input.correo) ==> r == Err(Conflict(CorreoYaRegistrado))
    ensures !ExisteCorreoIgnoreCase(st.usuarios, input.correo) && input.idCiudad !in st.ciudades ==>
      r == Err(NotFound(CiudadNoEncontrada))
    ensures !ExisteCorreoIgnoreCase(st.usuarios, input.correo) && input.idCiudad in st.ciudades
            && input.idDepartamento !in st.departamentos ==>
      r == Err(NotFound(DepartamentoNoEncontrado))
    ensures !ExisteCorreoIgnoreCase(st.usuarios, input.correo) && input.idCiudad in st.ciudades
            && input.idDepartamento in st.departamentos && input.idRol !in st.roles ==>
      r == Err(NotFound(RolNoEncontrado))
    ensures !ExisteCorreoIgnoreCase(st.usuarios, input.correo) && input.idCiudad in st.ciudades
            && input.idDepartamento in st.departamentos && input.idRol in st.roles
            && !CiudadPerteneceADepartamento(st.ciudades[input.idCiudad],
                                             st.departamentos[input.idDepartamento].idDepartamento) ==>
      r.Err? && r.error.Validation?
    ensures r.Ok? <==>
      && !ExisteCorreoIgnoreCase(st.usuarios, input.correo)
      && input.idCiudad in st.ciudades && input.idDepartamento in st.departamentos && input.idRol in st.roles
      && CiudadPerteneceADepartamento(st.ciudades[input.idCiudad],
                                      st.departamentos[input.idDepartamento].idDepartamento)
    ensures r.Ok? ==>
      r.value == ConstruirUsuario(st.siguienteId, input, st.ciudades[input.idCiudad],
                                  st.departamentos[input.idDepartamento], st.roles[input.idRol], hoy)
  {
    var correoLibre := ValidarCorreoUnico(st.usuarios, input.correo);
    :- correoLibre;
    var ciudad :- Obtener(st.ciudades, input.idCiudad, CiudadNoEncontrada);
    var depto :- Obtener(st.departamentos, input.idDepartamento, DepartamentoNoEncontrado);
    var rol :- Obtener(st.roles, input.idRol, RolNoEncontrado);
    :- AssertCiudadPerteneceADepartamento(ciudad, depto.idDepartamento);
    Ok(ConstruirUsuario(st.siguienteId, input, ciudad, depto, rol, hoy))
  }

  /** `create`. The e-mail check comes first, then the city, department and
      role lookups in that order, then the city/department rule; the row is
      saved only when all of them pass, and it holds exactly what was given
      and what was resolved. */
  function Crear(st: Almacen, input: CreateUsuarioInput, hoy: Fecha): (s: Salida<UsuarioView>)
    ensures ExisteCorreoIgnoreCase(st.usuarios, input.correo) ==>
      s.resultado == Err(Conflict(CorreoYaRegistrado))
    ensures !ExisteCorreoIgnoreCase(st.usuarios, input.correo) && input.idCiudad !in st.ciudades ==>
      s.resultado == Err(NotFound(CiudadNoEncontrada))
    ensures !ExisteCorreoIgnoreCase(st.usuarios, input.correo) && input.idCiudad in st.ciudades
            && input.idDepartamento !in st.departamentos ==>
      s.resultado == Err(NotFound(DepartamentoNoEncontrado))
    ensures !ExisteCorreoIgnoreCase(st.usuarios, input.correo) && input.idCiudad in st.ciudades
            && input.idDepartamento in st.departamentos && input.idRol !in st.roles ==>
      s.resultado == Err(NotFound(RolNoEncontrado))
    ensures !ExisteCorreoIgnoreCase(st.usuarios, input.correo) && input.idCiudad in st.ciudades
            && input.idDepartamento in st.departamentos && input.idRol in st.roles
            && !CiudadPerteneceADepartamento(st.ciudades[input.idCiudad],
                                             st.departamentos[input.idDepartamento].idDepartamento) ==>
      s.resultado.Err? && s.resultado.error.Validation?
    ensures s.resultado.Ok? <==>
      && !ExisteCorreoIgnoreCase(st.usuarios, input.correo)
      && input.idCiudad in st.ciudades && input.idDepartamento in st.departamentos && input.idRol in st.roles
      && CiudadPerteneceADepartamento(st.ciudades[input.idCiudad],
                                      st.departamentos[input.idDepartamento].idDepartamento)
    ensures s.resultado.Err? ==> s.despues == st
    ensures s.resultado.Ok? ==>
      && st.siguienteId in s.despues.usuarios
      && var u := s.despues.usuarios[st.siguienteId];
      && s.despues == st.(usuarios := st.usuarios[st.siguienteId := u], siguienteId := st.siguienteId + 1)
      && s.resultado.value == ToView(u)
      && u.idUsuario == st.siguienteId
      && u.nombre == input.nombre && u.correo == input.correo && u.telefono == input.telefono
      && u.detalleDireccion == input.detalleDireccion
      && (input.fechaRegistro.Some? ==> u.fechaRegistro == input.fechaRegistro.value)
      && (input.fechaRegistro.None? ==> u.fechaRegistro == hoy)
      && u.ciudad == st.ciudades[input.idCiudad]
      && u.departamento == st.departamentos[input.idDepartamento]
      && u.rol == st.roles[input.idRol]
      && CiudadPerteneceADepartamento(u.ciudad, u.departamento.idDepartamento)
  {
    match PrepararCreacion(st, input, hoy)
    case Err(e) => Salida(Err(e), st)
    case Ok(u) =>
      var guardado := Guardar(st, u);
      Salida(Ok(ToView(u)), guardado.(siguienteId := st.siguienteId + 1))
  }

  // ---------- update ----------

  /** `actualizarCorreo`: the uniqueness check runs only for a given e-mail
      that differs, ignoring case, from the current one. */
  function ActualizarCorreo(usuarios: map<int, Usuario>, input: UpdateUsuarioInput, u: Usuario): (r: Check)
    ensures r.Fail? <==>
      input.correo.Some? && !EqualsIgnoreCase(input.correo.value, u.correo)
      && ExisteCorreoIgnoreCase(usuarios, input.correo.value)
    ensures r.Fail? ==> r.error == Conflict(CorreoYaRegistrado)
  {
    if input.correo.Some? && !EqualsIgnoreCase(input.correo.value, u.correo)
    then ValidarCorreoUnico(usuarios, input.correo.value)
    else Pass
  }

  /** `actualizarCamposBasicos`: an absent field keeps the stored value, a
      present one replaces it; identity and relations are not touched. */
  function ActualizarCamposBasicos(input: UpdateUsuarioInput, u: Usuario): (r: Usuario)
    ensures r.idUsuario == u.idUsuario
    ensures r.ciudad == u.ciudad && r.departamento == u.departamento && r.rol == u.rol
    ensures input.nombre.None? ==> r.nombre == u.nombre
    ensures input.nombre.Some? ==> r.nombre == input.nombre.value
    ensures input.correo.None? ==> r.correo == u.correo
    ensures input.correo.Some? ==> r.correo == input.correo.value
    ensures input.telefono.None? ==> r.telefono == u.telefono
    ensures input.telefono.Some? ==> r.telefono == input.telefono.value
    ensures input.fechaRegistro.None? ==> r.fechaRegistro == u.fechaRegistro
    ensures input.fechaRegistro.Some? ==> r.fechaRegistro == input.fechaRegistro.value
    ensures input.detalleDireccion.None? ==> r.detalleDireccion == u.detalleDireccion
    ensures input.detalleDireccion.Some? ==> r.detalleDireccion == input.detalleDireccion.value
  {
    u.(nombre := input.nombre.GetOr(u.nombre),
       correo := input.correo.GetOr(u.correo),
       telefono := input.telefono.GetOr(u.telefono),
       fechaRegistro := input.fechaRegistro.GetOr(u.fechaRegistro),
       detalleDireccion := input.detalleDireccion.GetOr(u.detalleDireccion))
  }

  /** True when the update payload names a city or a department. */
  predicate CambiaUbicacion(input: UpdateUsuarioInput)
  {
    input.idCiudad.Some? || input.idDepartamento.Some?
  }

  /** The city/department part of `actualizarRelaciones` lets the update
      through: neither is given, or every given id resolves and the final pair
      (given, or kept from the user) passes the city/department rule. */
  predicate UbicacionAceptada(st: Almacen, input: UpdateUsuarioInput, u: Usuario)
  {
    && (input.idCiudad.Some? ==> input.idCiudad.value in st.ciudades)
    && (input.idDepartamento.Some? ==> input.idDepartamento.value in st.departamentos)
    && (CambiaUbicacion(input) ==>
          CiudadPerteneceADepartamento(
            if input.idCiudad.Some? then st.ciudades[input.idCiudad.value] else u.ciudad,
            (if input.idDepartamento.Some? then st.departamentos[input.idDepartamento.value] else u.departamento).idDepartamento))
  }

  /** `actualizarRelaciones`. When a city or a department is given, both are
      resolved to their final values (given, or kept from the user) and the
      pair must pass the city/department rule; the role is resolved on its own
      when given. Lookups run city, department, rule, role, and the first one
      that fails decides the error. */
  function ActualizarRelaciones(st: Almacen, input: UpdateUsuarioInput, u: Usuario): (r: Result<Usuario>)
    ensures input.idCiudad.Some? && input.idCiudad.value !in st.ciudades ==>
      r == Err(NotFound(CiudadNoEncontrada))
    ensures (input.idCiudad.Some? ==> input.idCiudad.value in st.ciudades)
            && input.idDepartamento.Some? && input.idDepartamento.value !in st.departamentos ==>
      r == Err(NotFound(DepartamentoNoEncontrado))
    ensures (r.Err? && r.error.Validation?) <==>
      && CambiaUbicacion(input)
      && (input.idCiudad.Some? ==> input.idCiudad.value in st.ciudades)
      && (input.idDepartamento.Some? ==> input.idDepartamento.value in st.departamentos)
      && !CiudadPerteneceADepartamento(
           if input.idCiudad.Some? then st.ciudades[input.idCiudad.value] else u.ciudad,
           (if input.idDepartamento.Some? then st.departamentos[input.idDepartamento.value] else u.departamento).idDepartamento)
    ensures UbicacionAceptada(st, input, u) && input.idRol.Some? && input.idRol.value !in st.roles ==>
      r == Err(NotFound(RolNoEncontrado))
    ensures r.Ok? <==> UbicacionAceptada(st, input, u) && (input.idRol.Some? ==> input.idRol.value in st.roles)
    ensures !CambiaUbicacion(input) && r.Ok? ==>
      r.value.ciudad == u.ciudad && r.value.departamento == u.departamento
    ensures CambiaUbicacion(input) && r.Ok? ==>
      && (input.idCiudad.Some? ==> r.value.ciudad == st.ciudades[input.idCiudad.value])
      && (input.idCiudad.None? ==> r.value.ciudad == u.ciudad)
      && (input.idDepartamento.Some? ==> r.value.departamento == st.departamentos[input.idDepartamento.value])
      && (input.idDepartamento.None? ==> r.value.departamento == u.departamento)
      && CiudadPerteneceADepartamento(r.value.ciudad, r.value.departamento.idDepartamento)
    ensures r.Ok? && input.idRol.Some? ==> r.value.rol == st.roles[input.idRol.value]
    ensures r.Ok? && input.idRol.None? ==> r.value.rol == u.rol
    ensures r.Ok? ==> r.value == u.(ciudad := r.value.ciudad, departamento := r.value.departamento, rol := r.value.rol)
  {
    var conUbicacion :-
      if CambiaUbicacion(input) then
        var c :- if input.idCiudad.Some? then Obtener(st.ciudades, input.idCiudad.value, CiudadNoEncontrada) else Ok(u.ciudad);
        var d :- if input.idDepartamento.Some? then Obtener(st.departamentos, input.idDepartamento.value, DepartamentoNoEncontrado) else Ok(u.departamento);
        :- AssertCiudadPerteneceADepartamento(c, d.idDepartamento);
        Ok(u.(ciudad := c, departamento := d))
      else Ok(u);
    if input.idRol.Some? then
      var rol :- Obtener(st.roles, input.idRol.value, RolNoEncontrado);
      Ok(conUbicacion.(rol := rol))
    else Ok(conUbicacion)
  }

  /** The steps of `update` up to the save: look the user up, check the
      e-mail, merge the basic fields, then the relations. */
  function PrepararActualizacion(st: Almacen, input: UpdateUsuarioInput): (r: Result<Usuario>)
    ensures input.idUsuario !in st.usuarios ==> r == Err(NotFound(UsuarioNoEncontrado))
    ensures input.idUsuario in st.usuarios && ActualizarCorreo(st.usuarios, input, st.usuarios[input.idUsuario]).Fail? ==>
      r == Err(Conflict(CorreoYaRegistrado))
    ensures input.idUsuario in st.usuarios && ActualizarCorreo(st.usuarios, input, st.usuarios[input.idUsuario]).Pass? ==>
      r == ActualizarRelaciones(st, input, ActualizarCamposBasicos(input, st.usuarios[input.idUsuario]))
  {
    var u :- Obtener(st.usuarios, input.idUsuario, UsuarioNoEncontrado);
    :- ActualizarCorreo(st.usuarios, input, u);
    ActualizarRelaciones(st, input, ActualizarCamposBasicos(input, u))
  }

  /** `update`. An unknown id is not found; a conflict is raised exactly when a
      given e-mail differs (ignoring case) from the current one and is taken;
      then a given but unknown city, department or role is not found, and a
      final city/department pair that breaks the rule fails validation, in the
      order `ActualizarRelaciones` runs them; on success only that user's row changes, merged field by field and with
      its relations replaced as `ActualizarRelaciones` says. */
  function Actualizar(st: Almacen, input: UpdateUsuarioInput): (s: Salida<UsuarioView>)
    requires input.idUsuario in st.usuarios ==> st.usuarios[input.idUsuario].idUsuario == input.idUsuario
    ensures input.idUsuario !in st.usuarios ==> s.resultado == Err(NotFound(UsuarioNoEncontrado))
    ensures s.resultado == Err(Conflict(CorreoYaRegistrado)) <==>
      && input.idUsuario in st.usuarios
      && input.correo.Some? && !EqualsIgnoreCase(input.correo.value, st.usuarios[input.idUsuario].correo)
      && ExisteCorreoIgnoreCase(st.usuarios, input.correo.value)
    ensures input.idUsuario in st.usuarios && ActualizarCorreo(st.usuarios, input, st.usuarios[input.idUsuario]).Pass? ==>
      && (input.idCiudad.Some? && input.idCiudad.value !in st.ciudades ==>
            s.resultado == Err(NotFound(CiudadNoEncontrada)))
      && ((input.idCiudad.Some? ==> input.idCiudad.value in st.ciudades)
          && input.idDepartamento.Some? && input.idDepartamento.value !in st.departamentos ==>
            s.resultado == Err(NotFound(DepartamentoNoEncontrado)))
      && (s.resultado.Err? && s.resultado.error.Validation? <==>
            && CambiaUbicacion(input)
            && (input.idCiudad.Some? ==> input.idCiudad.value in st.ciudades)
            && (input.idDepartamento.Some? ==> input.idDepartamento.value in st.departamentos)
            && !UbicacionAceptada(st, input, st.usuarios[input.idUsuario]))
      && (UbicacionAceptada(st, input, st.usuarios[input.idUsuario])
          && input.idRol.Some? && input.idRol.value !in st.roles ==>
            s.resultado == Err(NotFound(RolNoEncontrado)))
    ensures s.resultado.Ok? <==>
      && input.idUsuario in st.usuarios
      && ActualizarCorreo(st.usuarios, input, st.usuarios[input.idUsuario]).Pass?
      && UbicacionAceptada(st, input, st.usuarios[input.idUsuario])
      && (input.idRol.Some? ==> input.idRol.value in st.roles)
    ensures s.resultado.Err? ==> s.despues == st
    ensures s.resultado.Ok? ==>
      && input.idUsuario in st.usuarios
      && input.idUsuario in s.despues.usuarios
      && var antes := st.usuarios[input.idUsuario];
      && var u := s.despues.usuarios[input.idUsuario];
      && s.despues == st.(usuarios := st.usuarios[input.idUsuario := u])
      && s.resultado.value == ToView(u)
      && u.idUsuario == antes.idUsuario
      && u == ActualizarRelaciones(st, input, ActualizarCamposBasicos(input, antes)).value
      && (!CambiaUbicacion(input) ==> u.ciudad == antes.ciudad && u.departamento == antes.departamento)
      && (CiudadPerteneceADepartamento(antes.ciudad, antes.departamento.idDepartamento) ==>
            CiudadPerteneceADepartamento(u.ciudad, u.departamento.idDepartamento))
  {
    match PrepararActualizacion(st, input)
    case Err(e) => Salida(Err(e), st)
    case Ok(u) => Salida(Ok(ToView(u)), Guardar(st, u))
  }

  // ---------- read and delete ----------

  /** `findById`: the view of the stored user, or not found. */
  function BuscarPorId(st: Almacen, id: int): (r: Result<UsuarioView>)
    ensures r.Ok? <==> id in st.usuarios
    ensures r.Ok? ==> r.value == ToView(st.usuarios[id])
    ensures r.Err? ==> r.error == NotFound(UsuarioNoEncontrado)
  {
    var u :- Obtener(st.usuarios, id, UsuarioNoEncontrado);
    Ok(ToView(u))
  }

  /** `delete`: false for a missing id, a conflict for a user other rows
      depend on, and otherwise true with exactly that row removed. */
  function Eliminar(st: Almacen, id: int): (s: Salida<bool>)
    ensures s.resultado == Ok(false) <==> id !in st.usuarios
    ensures s.resultado == Ok(true) <==> id in st.usuarios && id !in st.conDependientes
    ensures s.resultado.Err? <==> id in st.usuarios && id in st.conDependientes
    ensures s.resultado.Err? ==> s.resultado.error == Conflict(NoSePuedeEliminar)
    ensures s.despues == st.(usuarios := if s.resultado == Ok(true) then st.usuarios - {id} else st.usuarios)
  {
    if id !in st.usuarios then Salida(Ok(false), st)
    else if id in st.conDependientes then Salida(Err(Conflict(NoSePuedeEliminar)), st)
    else Salida(Ok(true), st.(usuarios := st.usuarios - {id}))
  }
}
