/** Properties that relate several calls of the user service, or a call and
    the invariants of the repositories: every write keeps the repositories
    consistent, and reads after writes see what the writes promised. */
module UsuarioPropiedades {
  import opened Texto
  import opened Dominio
  import opened UsuarioLogica

  // ---------- invariants kept by every write ----------

  /** A successful create adds exactly one row, under a fresh id, and keeps
      every invariant: the new user's city is in its department, its relations
      are stored rows, and its e-mail clashes with no other user's. */
  lemma CrearPreservaInvariantes(st: Almacen, input: CreateUsuarioInput, hoy: Fecha)
    requires Integro(st)
    ensures var s := Crear(st, input, hoy);
      && Integro(s.despues)
      && (Consistente(st) ==> Consistente(s.despues))
      && (s.resultado.Ok? ==>
            st.siguienteId !in st.usuarios
            && s.despues.usuarios.Keys == st.usuarios.Keys + {st.siguienteId}
            && |s.despues.usuarios| == |st.usuarios| + 1)
  {
  }

  /** A successful update rewrites one row and keeps every invariant. The
      e-mail part is the subtle one: when the new e-mail equals the current one
      ignoring case no query runs, and uniqueness still holds because
      `equalsIgnoreCase` agrees with the database's `UPPER` comparison. */
  lemma ActualizarPreservaInvariantes(st: Almacen, input: UpdateUsuarioInput)
    requires Integro(st)
    ensures var s := Actualizar(st, input);
      && Integro(s.despues)
      && (Consistente(st) ==> Consistente(s.despues))
      && s.despues.usuarios.Keys == st.usuarios.Keys
  {
    var s := Actualizar(st, input);
    if s.resultado.Ok? && Consistente(st) {
      var id := input.idUsuario;
      var antes := st.usuarios[id];
      var u := s.despues.usuarios[id];
      var basico := ActualizarCamposBasicos(input, antes);
      assert u == ActualizarRelaciones(st, input, basico).value;
      assert s.despues.usuarios.Keys == st.usuarios.Keys;
      // relations come from the stored rows, or are kept
      assert u.ciudad.idCiudad in st.ciudades && st.ciudades[u.ciudad.idCiudad] == u.ciudad;
      assert u.departamento.idDepartamento in st.departamentos
        && st.departamentos[u.departamento.idDepartamento] == u.departamento;
      assert u.rol.idRol in st.roles && st.roles[u.rol.idRol] == u.rol;
      // the e-mail of the rewritten row clashes with no other row
      forall k | k in st.usuarios && k != id
        ensures !IgualesEnMayusculas(u.correo, st.usuarios[k].correo)
      {
        if input.correo.Some? {
          if EqualsIgnoreCase(input.correo.value, antes.correo) {
            EqualsIgnoreCaseSiIgualesEnMayusculas(input.correo.value, antes.correo);
            assert !IgualesEnMayusculas(antes.correo, st.usuarios[k].correo);
          } else {
            assert !ExisteCorreoIgnoreCase(st.usuarios, input.correo.value);
            assert !IgualesEnMayusculas(st.usuarios[k].correo, input.correo.value);
          }
        } else {
          assert !IgualesEnMayusculas(antes.correo, st.usuarios[k].correo);
        }
      }
      forall a, b | a in s.despues.usuarios && b in s.despues.usuarios && a != b
        ensures !IgualesEnMayusculas(s.despues.usuarios[a].correo, s.despues.usuarios[b].correo)
      {
        if a == id {
          assert !IgualesEnMayusculas(u.correo, st.usuarios[b].correo);
        } else if b == id {
          assert !IgualesEnMayusculas(u.correo, st.usuarios[a].correo);
        }
      }
    }
  }

  /** Delete removes at most one row and keeps every invariant. */
  lemma EliminarPreservaInvariantes(st: Almacen, id: int)
    requires Integro(st)
    ensures var s := Eliminar(st, id);
      && Integro(s.despues)
      && (Consistente(st) ==> Consistente(s.despues))
      && s.despues.usuarios.Keys == (if s.resultado == Ok(true) then st.usuarios.Keys - {id} else st.usuarios.Keys)
  {
  }

  // ---------- reads after writes ----------

  /** After a successful create, `findById` on the new id returns the view that
      create returned, and that view carries the requested city, department
      and role ids together with the names of the stored rows. */
  lemma CrearLuegoBuscar(st: Almacen, input: CreateUsuarioInput, hoy: Fecha)
    requires Integro(st)
    ensures var s := Crear(st, input, hoy);
      s.resultado.Ok? ==>
        && BuscarPorId(s.despues, st.siguienteId) == s.resultado
        && var v := s.resultado.value;
        && v.idUsuario == st.siguienteId
        && v.nombre == input.nombre && v.correo == input.correo
        && v.idCiudad == input.idCiudad && v.nombreCiudad == st.ciudades[input.idCiudad].nombreCiudad
        && v.idDepartamento == input.idDepartamento
        && v.nombreDepartamento == st.departamentos[input.idDepartamento].nombreDepartamento
        && v.idRol == input.idRol && v.nombreRol == st.roles[input.idRol].nombreRol
  {
  }

  /** After a delete that returned true, `findById` on that id is not found,
      every other user reads as before, and a second delete returns false. */
  lemma EliminarLuegoBuscar(st: Almacen, id: int, otro: int)
    ensures var s := Eliminar(st, id);
      s.resultado == Ok(true) ==>
        && BuscarPorId(s.despues, id) == Err(NotFound(UsuarioNoEncontrado))
        && (otro != id ==> BuscarPorId(s.despues, otro) == BuscarPorId(st, otro))
        && Eliminar(s.despues, id) == Salida(Ok(false), s.despues)
  {
  }

  /** A failed create, update or delete leaves the repositories as they were.
      This only gathers, for all three writes side by side, the clause that
      `Crear`, `Actualizar` and `Eliminar` each state on their own. */
  lemma ErrorNoModifica(st: Almacen, c: CreateUsuarioInput, hoy: Fecha, a: UpdateUsuarioInput, id: int)
    requires a.idUsuario in st.usuarios ==> st.usuarios[a.idUsuario].idUsuario == a.idUsuario
    ensures Crear(st, c, hoy).resultado.Err? ==> Crear(st, c, hoy).despues == st
    ensures Actualizar(st, a).resultado.Err? ==> Actualizar(st, a).despues == st
    ensures Eliminar(st, id).resultado.Err? ==> Eliminar(st, id).despues == st
  {
  }

  /** In a consistent store, the view of every stored user names rows that
      exist, with their current names, and its city lies in its department. */
  lemma VistaCoherente(st: Almacen, id: int)
    requires Consistente(st)
    requires id in st.usuarios
    ensures var v := BuscarPorId(st, id).value;
      && v.idCiudad in st.ciudades && st.ciudades[v.idCiudad].nombreCiudad == v.nombreCiudad
      && st.ciudades[v.idCiudad].departamento.idDepartamento == v.idDepartamento
      && v.idDepartamento in st.departamentos
      && st.departamentos[v.idDepartamento].nombreDepartamento == v.nombreDepartamento
      && v.idRol in st.roles && st.roles[v.idRol].nombreRol == v.nombreRol
  {
  }

  /** In a store kept consistent, every stored user's city holds the user's
      department, so `findById` loses nothing: the user is rebuilt exactly
      from its view. */
  lemma VistaSinPerdida(st: Almacen, id: int)
    requires Integro(st) && Consistente(st)
    requires id in st.usuarios
    ensures st.usuarios[id].ciudad.departamento == st.usuarios[id].departamento
    ensures DesdeVista(BuscarPorId(st, id).value) == st.usuarios[id]
  {
  }

  // ---------- the update rules ----------

  /** Re-submitting the current e-mail, in any case, never conflicts. */
  lemma MismoCorreoSinConflicto(st: Almacen, input: UpdateUsuarioInput)
    requires input.idUsuario in st.usuarios
    requires st.usuarios[input.idUsuario].idUsuario == input.idUsuario
    requires input.correo.Some? && EqualsIgnoreCase(input.correo.value, st.usuarios[input.idUsuario].correo)
    ensures Actualizar(st, input).resultado != Err(Conflict(CorreoYaRegistrado))
  {
  }

  /** A payload without any field leaves the user exactly as it was. */
  lemma ActualizarSinCambios(st: Almacen, input: UpdateUsuarioInput)
    requires input.idUsuario in st.usuarios
    requires st.usuarios[input.idUsuario].idUsuario == input.idUsuario
    requires input == UpdateUsuarioInput(input.idUsuario, None, None, None, None, None, None, None, None)
    ensures Actualizar(st, input) == Salida(Ok(ToView(st.usuarios[input.idUsuario])), st)
  {
    var u := st.usuarios[input.idUsuario];
    assert ActualizarCamposBasicos(input, u) == u;
    assert st.usuarios[input.idUsuario := u] == st.usuarios;
  }

  /** Merging the same payload twice is merging it once. */
  lemma ActualizarCamposBasicosIdempotente(input: UpdateUsuarioInput, u: Usuario)
    ensures ActualizarCamposBasicos(input, ActualizarCamposBasicos(input, u)) == ActualizarCamposBasicos(input, u)
  {
  }

  /** A payload that changes only the department fails validation when the
      user's current city is not in the new department. */
  lemma SoloDepartamentoSinCiudadFalla(st: Almacen, input: UpdateUsuarioInput)
    requires input.idUsuario in st.usuarios
    requires st.usuarios[input.idUsuario].idUsuario == input.idUsuario
    requires input.correo.None? && input.idCiudad.None? && input.idDepartamento.Some?
    requires input.idDepartamento.value in st.departamentos
    requires !CiudadPerteneceADepartamento(st.usuarios[input.idUsuario].ciudad,
                                           st.departamentos[input.idDepartamento.value].idDepartamento)
    ensures Actualizar(st, input).resultado.Err? && Actualizar(st, input).resultado.error.Validation?
    ensures Actualizar(st, input).despues == st
  {
  }
}
