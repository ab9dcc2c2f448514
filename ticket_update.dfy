/**
 * The ticket update form: loading a stored ticket into the form (with the module
 * selection restored by a delayed patch), the application-to-module cascade guarded by
 * `loadingTicket`, the modal, and the update request built from a valid form.
 */
module TicketUpdate {
  import opened Wrappers
  import opened TicketModels

  /** The requests the form issues. */
  datatype UpdateRequest =
    | LoadCatalogos                                   // the four catalogue loads of cargarCatalogos
    | ObtenerTicket(id: int)                          // obtenerTicket
    | ListModulos(idAplicacion: int)                  // listarModulos
    | ActualizarTicket(id: int, data: TicketRequest)  // actualizarTicket

  const RequiredMessage: string := "Por favor complete todos los campos requeridos"
  const LoadErrorMessage: string := "Error al cargar el ticket"

  /** The form a stored ticket loads as: missing texts become empty, falsy ids null. */
  function FormOf(t: TicketDetail): (r: TicketFormValue)
    ensures r.codigo == Some(TextOrEmpty(t.sCodigo)) && r.descripcion == Some(TextOrEmpty(t.sDescripcion))
    ensures r.idAplicacion == NullIfFalsy(t.IdAplicacion) && r.idModulo == NullIfFalsy(t.IdModulo)
    ensures r.idTipo == NullIfFalsy(t.IdTipo) && r.idEstado == NullIfFalsy(t.IdEstado)
    ensures r.idPrioridad == NullIfFalsy(t.IdPrioridad) && r.idImpacto == NullIfFalsy(t.IdInpacto)
  {
    TicketFormValue(Some(TextOrEmpty(t.sCodigo)), Some(TextOrEmpty(t.sDescripcion)),
      NullIfFalsy(t.IdAplicacion), NullIfFalsy(t.IdModulo), NullIfFalsy(t.IdTipo),
      NullIfFalsy(t.IdEstado), NullIfFalsy(t.IdPrioridad), NullIfFalsy(t.IdInpacto))
  }

  /**
   * Saving a loaded ticket unedited sends back exactly what was loaded: the request's
   * nulling of falsy ids changes nothing that loading had not already nulled.
   */
  lemma SaveAfterLoad(t: TicketDetail)
    ensures var f := FormOf(t);
      RequestOf(f) == TicketRequest(f.codigo, f.descripcion, f.idAplicacion, f.idModulo,
                                    f.idTipo, f.idEstado, f.idPrioridad, f.idImpacto)
  {
  }

  class TicketUpdateComponent {
    var form: TicketFormValue
    var mostrarModal: bool
    var loading: bool
    var loadingTicket: bool
    var errorMessage: string
    var successMessage: string
    var ticketId: int
    var ticketActual: Option<TicketDetail>
    var modulos: seq<Modulo>
    /** Every request issued, in order. */
    var requests: seq<UpdateRequest>
    /** The module restores scheduled by ticket loads and not yet fired, oldest first. */
    var scheduled: seq<Option<int>>

    /** The form as `ngOnInit` builds it: empty texts and null ids. */
    constructor ()
      ensures form == ResetForm.(codigo := Some(""), descripcion := Some(""))
      ensures !mostrarModal && !loading && !loadingTicket && errorMessage == "" && successMessage == ""
      ensures ticketId == 0 && ticketActual == None && modulos == [] && requests == [] && scheduled == []
    {
      form := ResetForm.(codigo := Some(""), descripcion := Some(""));
      mostrarModal := false;
      loading := false;
      loadingTicket := false;
      errorMessage := "";
      successMessage := "";
      ticketId := 0;
      ticketActual := None;
      modulos := [];
      requests := [];
      scheduled := [];
    }

    /**
     * A new application: the module selection is cleared only when no ticket is loading,
     * the module list is always emptied, and the modules are requested for a truthy id.
     */
    method OnAplicacionChange(idAplicacion: Option<int>)
      modifies this`form, this`modulos, this`requests
      ensures !loadingTicket ==> form == old(form).(idModulo := None)
      ensures loadingTicket ==> form == old(form)
      ensures modulos == []
      ensures TruthyId(idAplicacion) ==> requests == old(requests) + [ListModulos(idAplicacion.value)]
      ensures !TruthyId(idAplicacion) ==> requests == old(requests)
    {
      if !loadingTicket {
        form := form.(idModulo := None);
      }
      modulos := [];
      if TruthyId(idAplicacion) {
        requests := requests + [ListModulos(idAplicacion.value)];
      }
    }

    /** The modules arrived: a successful response with data replaces the list; otherwise it stays. */
    method OnModulosResponse(response: ModulosResponse)
      modifies this`modulos
      ensures response.success && response.data.Some? ==> modulos == response.data.value
      ensures !(response.success && response.data.Some?) ==> modulos == old(modulos)
    {
      if response.success && response.data.Some? {
        modulos := response.data.value;
      }
    }

    /** Opening for ticket `id`: the modal shows, the messages clear, the form resets, and the catalogues and the ticket are requested. */
    method AbrirModal(id: int)
      modifies this`ticketId, this`mostrarModal, this`errorMessage, this`successMessage, this`form
      modifies this`loadingTicket, this`requests
      ensures ticketId == id && mostrarModal && errorMessage == "" && successMessage == "" && form == ResetForm
      ensures loadingTicket && requests == old(requests) + [LoadCatalogos, ObtenerTicket(id)]
    {
      ticketId := id;
      mostrarModal := true;
      errorMessage := "";
      successMessage := "";
      form := ResetForm;
      requests := requests + [LoadCatalogos];
      CargarTicket(id);
    }

    /** Loading ticket `id` marks the load in progress and requests it. */
    method CargarTicket(id: int)
      modifies this`loadingTicket, this`requests
      ensures loadingTicket && requests == old(requests) + [ObtenerTicket(id)]
    {
      loadingTicket := true;
      requests := requests + [ObtenerTicket(id)];
    }

    /**
     * The ticket arrived. The load ends first, so when the ticket has an application the
     * cascade that follows clears the module just patched in; a restore of the ticket's
     * module is scheduled for later. Without an application the module stays as loaded.
     */
    method OnTicketLoaded(ticket: TicketDetail)
      modifies this`loadingTicket, this`ticketActual, this`form, this`modulos, this`requests, this`scheduled
      ensures !loadingTicket && ticketActual == Some(ticket)
      ensures TruthyId(ticket.IdAplicacion) ==>
        form == FormOf(ticket).(idModulo := None) && modulos == [] &&
        requests == old(requests) + [ListModulos(ticket.IdAplicacion.value)] &&
        scheduled == old(scheduled) + [NullIfFalsy(ticket.IdModulo)]
      ensures !TruthyId(ticket.IdAplicacion) ==>
        form == FormOf(ticket) && modulos == old(modulos) && requests == old(requests) && scheduled == old(scheduled)
    {
      loadingTicket := false;
      ticketActual := Some(ticket);
      form := FormOf(ticket);
      if TruthyId(ticket.IdAplicacion) {
        OnAplicacionChange(ticket.IdAplicacion);
        scheduled := scheduled + [NullIfFalsy(ticket.IdModulo)];
      }
    }

    /** The oldest scheduled restore fires: it patches the module selection and nothing else. */
    method OnRestoreTimer()
      requires scheduled != []
      modifies this`form, this`scheduled
      ensures form == old(form).(idModulo := old(scheduled)[0]) && scheduled == old(scheduled)[1..]
    {
      form := form.(idModulo := scheduled[0]);
      scheduled := scheduled[1..];
    }

    /** The ticket could not be loaded: the load ends with an error message. */
    method OnTicketError()
      modifies this`loadingTicket, this`errorMessage
      ensures !loadingTicket && errorMessage == LoadErrorMessage
    {
      loadingTicket := false;
      errorMessage := LoadErrorMessage;
    }

    /** Closing: the modal hides, the form resets, the messages clear and the loaded ticket is forgotten. */
    method CerrarModal()
      modifies this`mostrarModal, this`form, this`errorMessage, this`successMessage, this`ticketActual
      ensures !mostrarModal && form == ResetForm && errorMessage == "" && successMessage == "" && ticketActual == None
    {
      mostrarModal := false;
      form := ResetForm;
      errorMessage := "";
      successMessage := "";
      ticketActual := None;
    }

    /**
     * Save. An invalid form only sets the required-fields message and issues nothing; a
     * valid one starts loading, clears the messages and sends the form for `ticketId` with
     * every falsy id as null.
     */
    method Actualizar(valid: bool)
      modifies this`loading, this`errorMessage, this`successMessage, this`requests
      ensures !valid ==> errorMessage == RequiredMessage && requests == old(requests)
      ensures !valid ==> loading == old(loading) && successMessage == old(successMessage)
      ensures valid ==> loading && errorMessage == "" && successMessage == ""
      ensures valid ==> requests == old(requests) + [ActualizarTicket(ticketId, RequestOf(form))]
    {
      if !valid {
        errorMessage := RequiredMessage;
        return;
      }
      loading := true;
      errorMessage := "";
      successMessage := "";
      var data := TicketRequest(form.codigo, form.descripcion,
        if TruthyId(form.idAplicacion) then form.idAplicacion else None,
        if TruthyId(form.idModulo) then form.idModulo else None,
        if TruthyId(form.idTipo) then form.idTipo else None,
        if TruthyId(form.idEstado) then form.idEstado else None,
        if TruthyId(form.idPrioridad) then form.idPrioridad else None,
        if TruthyId(form.idImpacto) then form.idImpacto else None);
      requests := requests + [ActualizarTicket(ticketId, data)];
    }
  }

  /**
   * Loading a ticket that has an application and then letting its restore fire leaves
   * the form exactly as the ticket loads.
   */
  method LoadThenRestore(c: TicketUpdateComponent, ticket: TicketDetail)
    requires c.scheduled == [] && TruthyId(ticket.IdAplicacion)
    modifies c
    ensures c.form == FormOf(ticket) && c.scheduled == [] && c.modulos == []
  {
    c.OnTicketLoaded(ticket);
    c.OnRestoreTimer();
    assert c.form == FormOf(ticket);
  }
}
