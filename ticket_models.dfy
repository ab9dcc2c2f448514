/**
 * The shapes shared by the ticket create and update forms: the stored ticket, the form's
 * value, the request built from it, and the module catalogue response.
 */
module TicketModels {
  import opened Wrappers

  /** A stored ticket as the detail endpoint returns it; any field may be null. */
  datatype TicketDetail = TicketDetail(
    IdTickets: int,
    sCodigo: Option<string>,
    sDescripcion: Option<string>,
    IdUsuario: Option<int>,
    IdAplicacion: Option<int>,
    IdModulo: Option<int>,
    IdTipo: Option<int>,
    IdPrioridad: Option<int>,
    IdEstado: Option<int>,
    IdInpacto: Option<int>)

  /** The ticket form's controls (`None` is null). */
  datatype TicketFormValue = TicketFormValue(
    codigo: Option<string>,
    descripcion: Option<string>,
    idAplicacion: Option<int>,
    idModulo: Option<int>,
    idTipo: Option<int>,
    idEstado: Option<int>,
    idPrioridad: Option<int>,
    idImpacto: Option<int>)

  /** The form after `reset()`: every control null. */
  const ResetForm: TicketFormValue := TicketFormValue(None, None, None, None, None, None, None, None)

  /** The body of a create or update request. */
  datatype TicketRequest = TicketRequest(
    codigo: Option<string>,
    descripcion: Option<string>,
    idAplicacion: Option<int>,
    idModulo: Option<int>,
    idTipo: Option<int>,
    idEstado: Option<int>,
    idPrioridad: Option<int>,
    idImpacto: Option<int>)

  /** A module of the per-application catalogue. */
  datatype Modulo = Modulo(idModulo: int, nombreModulo: string)

  /** The module catalogue response; `data` is `None` when null or missing. */
  datatype ModulosResponse = ModulosResponse(success: bool, data: Option<seq<Modulo>>)

  /** A number is truthy when present and non-zero. */
  predicate TruthyId(v: Option<int>) {
    v.Some? && v.value != 0
  }

  /** `v || null`: a falsy number becomes null, a truthy one is kept. */
  function NullIfFalsy(v: Option<int>): (r: Option<int>)
    ensures TruthyId(v) ==> r == v
    ensures !TruthyId(v) ==> r == None
  {
    if TruthyId(v) then v else None
  }

  /** `s || ''`: a missing or empty text becomes empty. */
  function TextOrEmpty(s: Option<string>): (r: string)
    ensures s.Some? ==> r == s.value
    ensures s.None? ==> r == ""
  {
    if s.Some? then s.value else ""
  }

  /** The request a valid form sends: the texts as they are, every falsy id as null. */
  function RequestOf(f: TicketFormValue): (r: TicketRequest)
    ensures r.codigo == f.codigo && r.descripcion == f.descripcion
    ensures NoFalsyIds(r)
    ensures TruthyId(f.idAplicacion) ==> r.idAplicacion == f.idAplicacion
    ensures TruthyId(f.idModulo) ==> r.idModulo == f.idModulo
    ensures TruthyId(f.idTipo) ==> r.idTipo == f.idTipo
    ensures TruthyId(f.idEstado) ==> r.idEstado == f.idEstado
    ensures TruthyId(f.idPrioridad) ==> r.idPrioridad == f.idPrioridad
    ensures TruthyId(f.idImpacto) ==> r.idImpacto == f.idImpacto
  {
    TicketRequest(f.codigo, f.descripcion,
      NullIfFalsy(f.idAplicacion), NullIfFalsy(f.idModulo), NullIfFalsy(f.idTipo),
      NullIfFalsy(f.idEstado), NullIfFalsy(f.idPrioridad), NullIfFalsy(f.idImpacto))
  }

  /** No id of the request is zero: each is null or a truthy number. */
  predicate NoFalsyIds(r: TicketRequest) {
    (r.idAplicacion.None? || TruthyId(r.idAplicacion)) && (r.idModulo.None? || TruthyId(r.idModulo)) &&
    (r.idTipo.None? || TruthyId(r.idTipo)) && (r.idEstado.None? || TruthyId(r.idEstado)) &&
    (r.idPrioridad.None? || TruthyId(r.idPrioridad)) && (r.idImpacto.None? || TruthyId(r.idImpacto))
  }

  /** The request of a reset form carries no ids at all. */
  lemma RequestOfReset()
    ensures RequestOf(ResetForm) == TicketRequest(None, None, None, None, None, None, None, None)
  {
  }
}
