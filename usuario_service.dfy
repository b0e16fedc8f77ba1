/** `UsuarioService`: the user service over its four repositories. The
    repositories are map fields of the service; create, update and delete
    change the user repository in place, step by step as the service does,
    and each is proved to do what the matching function of UsuarioLogica
    says. */
module UsuarioServicio {
  import opened Texto
  import opened Dominio
  import opened UsuarioLogica
  import UsuarioPropiedades

  class UsuarioService {
    var usuarios: map<int, Usuario>
    var ciudades: map<int, Ciudad>
    var departamentos: map<int, Departamento>
    var roles: map<int, Rol>
    /** Ids of users that rows outside this service refer to. */
    var conDependientes: set<int>
    /** The value the identity column gives the next saved user. */
    var siguienteId: int

    /** The contents of the repositories, as one value. */
    function Estado(): Almacen
      reads this
    {
      Almacen(usuarios, ciudades, departamentos, roles, conDependientes, siguienteId)
    }

    /** The repositories key every row by its own id. */
    ghost predicate Valid()
      reads this
    {
      Integro(Estado())
    }

    constructor (inicial: Almacen)
      requires Integro(inicial)
      ensures Valid() && Estado() == inicial
    {
      usuarios := inicial.usuarios;
      ciudades := inicial.ciudades;
      departamentos := inicial.departamentos;
      roles := inicial.roles;
      conDependientes := inicial.conDependientes;
      siguienteId := inicial.siguienteId;
    }

    /** `create`: e-mail check, lookups, city/department rule, then save. */
    method Create(input: CreateUsuarioInput, hoy: Fecha) returns (r: Result<UsuarioView>)
      requires Valid()
      modifies this`usuarios, this`siguienteId
      ensures Valid()
      ensures r == Crear(old(Estado()), input, hoy).resultado
      ensures Estado() == Crear(old(Estado()), input, hoy).despues
      ensures old(Consistente(Estado())) ==> Consistente(Estado())
    {
      UsuarioPropiedades.CrearPreservaInvariantes(Estado(), input, hoy);
      // validarCorreoUnico
      if ExisteCorreoIgnoreCase(usuarios, input.correo) {
        return Err(Conflict(CorreoYaRegistrado));
      }
      var ciudad :- Obtener(ciudades, input.idCiudad, CiudadNoEncontrada);
      var depto :- Obtener(departamentos, input.idDepartamento, DepartamentoNoEncontrado);
      var rol :- Obtener(roles, input.idRol, RolNoEncontrado);
      :- AssertCiudadPerteneceADepartamento(ciudad, depto.idDepartamento);
      var u := ConstruirUsuario(siguienteId, input, ciudad, depto, rol, hoy);
      // usuarioRepo.save: the identity column hands out the id
      usuarios := usuarios[u.idUsuario := u];
      siguienteId := siguienteId + 1;
      r := Ok(ToView(u));
    }

    /** `update`: look the user up, check the e-mail if it changes, merge the
        basic fields, then the relations, then save. */
    method Update(input: UpdateUsuarioInput) returns (r: Result<UsuarioView>)
      requires Valid()
      modifies this`usuarios
      ensures Valid()
      ensures r == Actualizar(old(Estado()), input).resultado
      ensures Estado() == Actualizar(old(Estado()), input).despues
      ensures old(Consistente(Estado())) ==> Consistente(Estado())
    {
      UsuarioPropiedades.ActualizarPreservaInvariantes(Estado(), input);
      var u :- Obtener(usuarios, input.idUsuario, UsuarioNoEncontrado);
      // actualizarCorreo
      if input.correo.Some? && !EqualsIgnoreCase(input.correo.value, u.correo) {
        :- ValidarCorreoUnico(usuarios, input.correo.value);
      }
      u := ActualizarCamposBasicos(input, u);
      u :- ActualizarRelaciones(input, u);
      // usuarioRepo.save
      usuarios := usuarios[u.idUsuario := u];
      r := Ok(ToView(u));
    }

    /** `actualizarCamposBasicos`: each given field is set on the user, one
        setter after the other. */
    method ActualizarCamposBasicos(input: UpdateUsuarioInput, u0: Usuario) returns (u: Usuario)
      ensures u == UsuarioLogica.ActualizarCamposBasicos(input, u0)
    {
      u := u0;
      if input.nombre.Some? { u := u.(nombre := input.nombre.value); }
      if input.correo.Some? { u := u.(correo := input.correo.value); }
      if input.telefono.Some? { u := u.(telefono := input.telefono.value); }
      if input.fechaRegistro.Some? { u := u.(fechaRegistro := input.fechaRegistro.value); }
      if input.detalleDireccion.Some? { u := u.(detalleDireccion := input.detalleDireccion.value); }
    }

    /** `actualizarRelaciones`: resolve and check the city/department pair when
        either is given, then the role when it is given. */
    method ActualizarRelaciones(input: UpdateUsuarioInput, u0: Usuario) returns (r: Result<Usuario>)
      ensures r == UsuarioLogica.ActualizarRelaciones(Estado(), input, u0)
    {
      var u := u0;
      if input.idCiudad.Some? || input.idDepartamento.Some? {
        var c := u.ciudad;
        if input.idCiudad.Some? {
          c :- Obtener(ciudades, input.idCiudad.value, CiudadNoEncontrada);
        }
        var d := u.departamento;
        if input.idDepartamento.Some? {
          d :- Obtener(departamentos, input.idDepartamento.value, DepartamentoNoEncontrado);
        }
        :- AssertCiudadPerteneceADepartamento(c, d.idDepartamento);
        u := u.(ciudad := c, departamento := d);
      }
      if input.idRol.Some? {
        var rol :- Obtener(roles, input.idRol.value, RolNoEncontrado);
        u := u.(rol := rol);
      }
      r := Ok(u);
    }

    /** `findById`. */
    function FindById(id: int): (r: Result<UsuarioView>)
      reads this
      ensures r == BuscarPorId(Estado(), id)
    {
      BuscarPorId(Estado(), id)
    }

    /** `usuarioRepo.deleteById`: removes the row, or reports an integrity
        violation (and removes nothing) when other rows depend on it. */
    method DeleteById(id: int) returns (violacion: bool)
      modifies this`usuarios
      ensures violacion <==> id in conDependientes
      ensures usuarios == if violacion then old(usuarios) else old(usuarios) - {id}
    {
      violacion := id in conDependientes;
      if !violacion {
        usuarios := usuarios - {id};
      }
    }

    /** `delete`: false for an unknown id; the integrity violation of
        `deleteById` becomes a conflict; true otherwise. */
    method Delete(id: int) returns (r: Result<bool>)
      requires Valid()
      modifies this`usuarios
      ensures Valid()
      ensures r == Eliminar(old(Estado()), id).resultado
      ensures Estado() == Eliminar(old(Estado()), id).despues
      ensures old(Consistente(Estado())) ==> Consistente(Estado())
    {
      UsuarioPropiedades.EliminarPreservaInvariantes(Estado(), id);
      if id !in usuarios {
        return Ok(false);
      }
      var violacion := DeleteById(id);
      if violacion {
        return Err(Conflict(NoSePuedeEliminar));
      }
      r := Ok(true);
    }
  }

  /** The fixtures of the service's unit tests: department 1 with city 1,
      role 1 and user 1 ("juan@example.com"), plus city 2 in department 2. */
  function Fixtura(hoy: Fecha): (st: Almacen)
    ensures Integro(st)
  {
    var depto := Departamento(1, "Departamento 1");
    var ciudad := Ciudad(1, "Ciudad 1", depto);
    var rol := Rol(1, "Admin");
    var juan := Usuario(1, "Juan Perez", "juan@example.com", "1234567890", hoy,
                        "Calle Falsa 123", ciudad, depto, rol);
    var otroDepto := Departamento(2, "Departamento 2");
    var otraCiudad := Ciudad(2, "Ciudad 2", otroDepto);
    Almacen(map[1 := juan], map[1 := ciudad, 2 := otraCiudad],
            map[1 := depto, 2 := otroDepto], map[1 := rol], {}, 2)
  }

  /** What a caller of `create` concludes from the contracts alone: a taken
      e-mail conflicts and saves nothing. */
  method UsoCrearConflicto(hoy: Fecha)
  {
    var svc := new UsuarioService(Fixtura(hoy));
    var r := svc.Create(CreateUsuarioInput("Maria Lopez", "juan@example.com", "0987654321", None,
                                           "Direccion X", 1, 1, 1), hoy);
    assert r == Err(Conflict(CorreoYaRegistrado));
    assert svc.Estado() == Fixtura(hoy);
  }

  /** "maria@example.com" is not stored in the fixtures (it is longer than the
      only e-mail there). */
  lemma CorreoDeMariaLibre(hoy: Fecha)
    ensures !ExisteCorreoIgnoreCase(Fixtura(hoy).usuarios, "maria@example.com")
  {
  }

  /** What a caller of `create` concludes from the contracts alone: a city
      outside the requested department is refused. */
  method UsoCrearCiudadAjena(hoy: Fecha)
  {
    var st := Fixtura(hoy);
    var svc := new UsuarioService(st);
    CorreoDeMariaLibre(hoy);
    assert 2 in st.ciudades && 1 in st.departamentos && 1 in st.roles;
    assert !CiudadPerteneceADepartamento(st.ciudades[2], st.departamentos[1].idDepartamento);
    var r := svc.Create(CreateUsuarioInput("Maria Lopez", "maria@example.com", "0987654321", None,
                                           "Direccion X", 2, 1, 1), hoy);
    assert r.Err? && r.error.Validation?;
  }

  /** What a caller of `create` concludes from the contracts alone: a valid
      payload is saved under id 2 with today's date and the resolved names. */
  method UsoCrear(hoy: Fecha)
  {
    var svc := new UsuarioService(Fixtura(hoy));
    CorreoDeMariaLibre(hoy);
    var r := svc.Create(CreateUsuarioInput("Maria Lopez", "maria@example.com", "0987654321", None,
                                           "Direccion X", 1, 1, 1), hoy);
    assert r.Ok? && r.value.idUsuario == 2 && r.value.fechaRegistro == hoy;
    assert r.value.nombre == "Maria Lopez" && r.value.nombreCiudad == "Ciudad 1";
    assert svc.FindById(2) == r;
  }

  /** What a caller of `update` concludes from the contracts alone. */
  method UsoActualizar(hoy: Fecha)
  {
    var svc := new UsuarioService(Fixtura(hoy));
    // the current e-mail again: no conflict; city and department move together
    var r := svc.Update(UpdateUsuarioInput(1, Some("Juan FK"), Some("juan@example.com"), None, None, None,
                                           Some(2), Some(2), None));
    assert r.Ok? && r.value.nombre == "Juan FK" && r.value.idCiudad == 2 && r.value.idDepartamento == 2;
    assert r.value.telefono == "1234567890" && r.value.idRol == 1;
    // department 1 alone, while the city is now 2: validation error
    var s := svc.Update(UpdateUsuarioInput(1, None, None, None, None, None, None, Some(1), None));
    assert s.Err? && s.error.Validation?;
    // an unknown user
    s := svc.Update(UpdateUsuarioInput(99, None, None, None, None, None, None, None, None));
    assert s == Err(NotFound(UsuarioNoEncontrado));
  }

  /** What a caller of `delete` concludes from the contracts alone. */
  method UsoEliminar(hoy: Fecha)
  {
    var svc := new UsuarioService(Fixtura(hoy));
    var b := svc.Delete(99);
    assert b == Ok(false);
    b := svc.Delete(1);
    assert b == Ok(true);
    assert svc.FindById(1) == Err(NotFound(UsuarioNoEncontrado));
    b := svc.Delete(1);
    assert b == Ok(false);
  }
}
