/** The entities, payloads and error kinds of the customers domain as the user
    service sees them: departments, cities (each inside one department), roles
    and users, the create and update payloads, and the flat user view. */
module Dominio {

  /** An absent (null) value, or a present one. */
  datatype Option<T> = None | Some(value: T) {
    /** The value if present, otherwise `default`. */
    function GetOr(default: T): T
    {
      match this
      case Some(v) => v
      case None => default
    }
  }

  /** The three exception kinds the service raises, with their messages. */
  datatype Error =
    | NotFound(mensaje: string)
    | Conflict(mensaje: string)
    | Validation(mensaje: string)

  /** A value, or the exception that aborted the operation. */
  datatype Result<T> = Ok(value: T) | Err(error: Error) {
    predicate IsFailure() { Err? }
    function PropagateFailure<U>(): Result<U>
      requires Err?
    {
      Err(error)
    }
    function Extract(): T
      requires Ok?
    {
      value
    }
  }

  /** The outcome of a check that returns nothing or raises. */
  datatype Check = Pass | Fail(error: Error) {
    predicate IsFailure() { Fail? }
    function PropagateFailure<U>(): Result<U>
      requires Fail?
    {
      Err(error)
    }
  }

  /** A calendar date (`LocalDate`); the service only stores and copies it. */
  datatype Fecha = Fecha(anio: int, mes: int, dia: int)

  datatype Departamento = Departamento(idDepartamento: int, nombreDepartamento: string)

  datatype Ciudad = Ciudad(idCiudad: int, nombreCiudad: string, departamento: Departamento)

  datatype Rol = Rol(idRol: int, nombreRol: string)

  /** A stored user row together with the city, department and role it refers to. */
  datatype Usuario = Usuario(
    idUsuario: int,
    nombre: string,
    correo: string,
    telefono: string,
    fechaRegistro: Fecha,
    detalleDireccion: string,
    ciudad: Ciudad,
    departamento: Departamento,
    rol: Rol)

  /** Payload of `create`; only the registration date may be absent. */
  datatype CreateUsuarioInput = CreateUsuarioInput(
    nombre: string,
    correo: string,
    telefono: string,
    fechaRegistro: Option<Fecha>,
    detalleDireccion: string,
    idCiudad: int,
    idDepartamento: int,
    idRol: int)

  /** Payload of `update`; every field but the user id may be absent, and an
      absent field means "leave as it is". */
  datatype UpdateUsuarioInput = UpdateUsuarioInput(
    idUsuario: int,
    nombre: Option<string>,
    correo: Option<string>,
    telefono: Option<string>,
    fechaRegistro: Option<Fecha>,
    detalleDireccion: Option<string>,
    idCiudad: Option<int>,
    idDepartamento: Option<int>,
    idRol: Option<int>)

  /** The flat projection returned to callers: the user's own fields and the
      id and name of each of its three relations. */
  datatype UsuarioView = UsuarioView(
    idUsuario: int,
    nombre: string,
    correo: string,
    telefono: string,
    fechaRegistro: Fecha,
    detalleDireccion: string,
    idCiudad: int,
    nombreCiudad: string,
    idDepartamento: int,
    nombreDepartamento: string,
    idRol: int,
    nombreRol: string)

  const CiudadNoPerteneceADepartamento := "La ciudad no pertenece al departamento"

  /** The city/department rule: a city belongs to the department with that id. */
  predicate CiudadPerteneceADepartamento(ciudad: Ciudad, idDepartamento: int)
  {
    ciudad.departamento.idDepartamento == idDepartamento
  }

  /** `UsuarioValidator.assertCiudadPerteneceADepartamento`: passes exactly when
      the city belongs to the department, and raises a validation error
      otherwise. */
  function AssertCiudadPerteneceADepartamento(ciudad: Ciudad, idDepartamento: int): (r: Check)
    ensures r.Pass? <==> CiudadPerteneceADepartamento(ciudad, idDepartamento)
    ensures r.Fail? ==> r.error.Validation?
  {
    if CiudadPerteneceADepartamento(ciudad, idDepartamento) then Pass
    else Fail(Validation(CiudadNoPerteneceADepartamento))
  }
}
