/**
 * The ticket creation form: the application-to-module cascade, the modal, and the create
 * request built from a valid form.
 */
module TicketForm {
  import opened Wrappers
  import opened TicketModels

  /** The requests the form issues. */
  datatype FormRequest =
    | ListModulos(idAplicacion: int)    // listarModulos
    | CrearTicket(data: TicketRequest)  // crearTicket

  const RequiredMessage: string := "Por favor complete todos los campos requeridos"

  class TicketFormComponent {
    var form: TicketFormValue
    var mostrarModal: bool
    var loading: bool
    var errorMessage: string
    var successMessage: string
    var modulos: seq<Modulo>
    /** Every request issued, in order. */
    var requests: seq<FormRequest>

    /** The form as `ngOnInit` builds it: empty texts and null ids. */
    constructor ()
      ensures form == ResetForm.(codigo := Some(""), descripcion := Some(""))
      ensures !mostrarModal && !loading && errorMessage == "" && successMessage == ""
      ensures modulos == [] && requests == []
    {
      form := ResetForm.(codigo := Some(""), descripcion := Some(""));
      mostrarModal := false;
      loading := false;
      errorMessage := "";
      successMessage := "";
      modulos := [];
      requests := [];
    }

    /**
     * A new application was chosen: the module selection is cleared and the module list
     * emptied first; the modules are requested only for a truthy application id.
     */
    method OnAplicacionChange(idAplicacion: Option<int>)
      modifies this`form, this`modulos, this`requests
      ensures form == old(form).(idModulo := None) && modulos == []
      ensures TruthyId(idAplicacion) ==> requests == old(requests) + [ListModulos(idAplicacion.value)]
      ensures !TruthyId(idAplicacion) ==> requests == old(requests)
    {
      form := form.(idModulo := None);
      modulos := [];
      if TruthyId(idAplicacion) {
        requests := requests + [ListModulos(idAplicacion.value)];
      }
    }

    /** The modules arrived: a successful response with data replaces the list; otherwise it stays. */
    method OnModulosResponse(response: ModulosResponse)
      modifies this`modulos
      ensures response.success && response.data.Some? ==> modulos == response.data.value
      ensures !(response.success && response.data.Some?) ==> modulos == old(modulos)
    {
      if response.success && response.data.Some? {
        modulos := response.data.value;
      }
    }

    /** Opening: the modal shows, both messages clear and the form resets. */
    method AbrirModal()
      modifies this`mostrarModal, this`errorMessage, this`successMessage, this`form
      ensures mostrarModal && errorMessage == "" && successMessage == "" && form == ResetForm
    {
      mostrarModal := true;
      errorMessage := "";
      successMessage := "";
      form := ResetForm;
    }

    /** Closing: the modal hides, the form resets and both messages clear. */
    method CerrarModal()
      modifies this`mostrarModal, this`errorMessage, this`successMessage, this`form
      ensures !mostrarModal && errorMessage == "" && successMessage == "" && form == ResetForm
    {
      mostrarModal := false;
      form := ResetForm;
      errorMessage := "";
      successMessage := "";
    }

    /**
     * Save. An invalid form only sets the required-fields message and issues nothing;
     * a valid one starts loading, clears the messages and sends the form with every
     * falsy id as null.
     */
    method GuardarTicket(valid: bool)
      modifies this`loading, this`errorMessage, this`successMessage, this`requests
      ensures !valid ==> errorMessage == RequiredMessage && requests == old(requests)
      ensures !valid ==> loading == old(loading) && successMessage == old(successMessage)
      ensures valid ==> loading && errorMessage == "" && successMessage == ""
      ensures valid ==> requests == old(requests) + [CrearTicket(RequestOf(form))]
    {
      if !valid {
        errorMessage := RequiredMessage;
        return;
      }
      loading := true;
      errorMessage := "";
      successMessage := "";
      var data := TicketRequest(form.codigo, form.descripcion,
        if TruthyId(form.idAplicacion) then form.idAplicacion else None,
        if TruthyId(form.idModulo) then form.idModulo else None,
        if TruthyId(form.idTipo) then form.idTipo else None,
        if TruthyId(form.idEstado) then form.idEstado else None,
        if TruthyId(form.idPrioridad) then form.idPrioridad else None,
        if TruthyId(form.idImpacto) then form.idImpacto else None);
      requests := requests + [CrearTicket(data)];
    }
  }
}
