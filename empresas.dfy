/**
 * The company maintenance screen: the applications multiselect stored as a comma-separated
 * id string, the application colours, and the create/edit modal with its save branch.
 */
module Empresas {
  import opened Wrappers
  import opened Text
  import opened Models
  import FormValues
  import Palette

  /** The fields of a save request. */
  datatype EmpresaData = EmpresaData(codigo: Option<string>, razonSocial: Option<string>, idAplicacion: string, usuaario: string)

  /** The requests the screen issues. */
  datatype EmpresaRequest =
    | Load(id: int)                          // obtenerEmpresa
    | Create(data: EmpresaData)              // crearEmpresa
    | Update(id: int, data: EmpresaData)     // actualizarEmpresa

  const RequiredMessage: string := "Por favor complete todos los campos requeridos"
  const LoadErrorMessage: string := "Error al cargar los datos de la empresa"

  /** The application list a stored value loads as: split and converted when truthy, else empty. */
  function LoadedApplications(stored: FormValues.Raw): (r: seq<JsNum>)
    ensures !FormValues.Truthy(stored) ==> r == []
    ensures stored.RStr? && stored.s != "" ==> r == SplitNums(stored.s)
  {
    FormValues.SplitIds(stored)
  }

  /** A list saved by this screen loads back unchanged, so editing and saving again stores the same string. */
  lemma StoredListSurvivesEdit(xs: seq<JsNum>)
    ensures var saved := FormValues.ConvertirArrayAString(FormValues.RArray(xs));
      LoadedApplications(FormValues.RStr(saved)) == xs &&
      FormValues.ConvertirArrayAString(FormValues.RArray(LoadedApplications(FormValues.RStr(saved)))) == saved
  {
    FormValues.CsvRoundTrip(xs);
  }

  class EmpresasComponent {
    var aplicaciones: seq<ComboItem>
    var coloresAplicaciones: map<int, string>
    var mostrarModal: bool
    var modoEdicion: bool
    var tituloModal: string
    var empresaIdEdicion: Option<int>
    /** The `Codigo`, `RazonSocial` and `IdAplicacion` form controls (`None` is null). */
    var codigo: Option<string>
    var razonSocial: Option<string>
    var idAplicacion: Option<seq<JsNum>>
    var errorMessage: string
    var errorModal: string
    var successMessage: string
    var loadingModal: bool
    /** Every request issued, in order. */
    var requests: seq<EmpresaRequest>

    /** `ngOnInit`'s form: empty code and name, no application selected. */
    constructor ()
      ensures aplicaciones == [] && coloresAplicaciones == map[]
      ensures !mostrarModal && !modoEdicion && tituloModal == "" && empresaIdEdicion == None
      ensures codigo == Some("") && razonSocial == Some("") && idAplicacion == Some([])
      ensures errorMessage == "" && errorModal == "" && successMessage == "" && !loadingModal
      ensures requests == []
    {
      aplicaciones := [];
      coloresAplicaciones := map[];
      mostrarModal := false;
      modoEdicion := false;
      tituloModal := "";
      empresaIdEdicion := None;
      codigo := Some("");
      razonSocial := Some("");
      idAplicacion := Some([]);
      errorMessage := "";
      errorModal := "";
      successMessage := "";
      loadingModal := false;
      requests := [];
    }

    /** The application catalogue arrived: keep it and colour it by index. */
    method OnAplicacionesLoaded(data: seq<ComboItem>)
      modifies this`aplicaciones, this`coloresAplicaciones
      ensures aplicaciones == data && coloresAplicaciones == Palette.IndexColors(data)
    {
      aplicaciones := data;
      AsignarColoresAplicaciones(data);
    }

    method AsignarColoresAplicaciones(apps: seq<ComboItem>)
      modifies this`coloresAplicaciones
      ensures coloresAplicaciones == Palette.IndexColors(apps)
    {
      coloresAplicaciones := Palette.AssignIndexColors(apps);
    }

    /** A new company: not editing, no edit id, an empty form, the modal open and no messages. */
    method AbrirModalNuevo()
      modifies this`modoEdicion, this`tituloModal, this`empresaIdEdicion, this`codigo, this`razonSocial
      modifies this`idAplicacion, this`mostrarModal, this`errorModal, this`successMessage
      ensures !modoEdicion && tituloModal == "Nueva Empresa" && empresaIdEdicion == None
      ensures codigo == Some("") && razonSocial == Some("") && idAplicacion == Some([])
      ensures mostrarModal && errorModal == "" && successMessage == ""
    {
      modoEdicion := false;
      tituloModal := "Nueva Empresa";
      empresaIdEdicion := None;
      codigo, razonSocial, idAplicacion := Some(""), Some(""), Some([]);
      mostrarModal := true;
      errorModal := "";
      successMessage := "";
    }

    /** Editing company `id`: the edit mode and id are set at once and the full record is requested. */
    method AbrirModalEditar(id: int)
      modifies this`modoEdicion, this`tituloModal, this`empresaIdEdicion, this`requests
      ensures modoEdicion && tituloModal == "Editar Empresa" && empresaIdEdicion == Some(id)
      ensures requests == old(requests) + [Load(id)]
    {
      modoEdicion := true;
      tituloModal := "Editar Empresa";
      empresaIdEdicion := Some(id);
      requests := requests + [Load(id)];
    }

    /** The full record arrived: the form takes its code, name and stored application list; the modal opens. */
    method OnEmpresaLoaded(sRuc: Option<string>, sRazonSocialE: Option<string>, stored: FormValues.Raw)
      modifies this`codigo, this`razonSocial, this`idAplicacion, this`mostrarModal, this`errorModal, this`successMessage
      ensures codigo == sRuc && razonSocial == sRazonSocialE && idAplicacion == Some(LoadedApplications(stored))
      ensures mostrarModal && errorModal == "" && successMessage == ""
    {
      var aplicacionesArray := if FormValues.Truthy(stored) then SplitNums(FormValues.JsString(stored)) else [];
      codigo, razonSocial, idAplicacion := sRuc, sRazonSocialE, Some(aplicacionesArray);
      mostrarModal := true;
      errorModal := "";
      successMessage := "";
    }

    /** The record could not be loaded: only the page error is set; the modal stays closed. */
    method OnEmpresaError()
      modifies this`errorMessage
      ensures errorMessage == LoadErrorMessage
    {
      errorMessage := LoadErrorMessage;
    }

    /**
     * Closing: the modal hides, the form resets with an empty application list (code and
     * name become null), the messages clear and the edit id is forgotten; the edit mode stays.
     */
    method CerrarModal()
      modifies this`mostrarModal, this`codigo, this`razonSocial, this`idAplicacion
      modifies this`errorModal, this`successMessage, this`empresaIdEdicion
      ensures !mostrarModal && codigo == None && razonSocial == None && idAplicacion == Some([])
      ensures errorModal == "" && successMessage == "" && empresaIdEdicion == None
    {
      mostrarModal := false;
      codigo, razonSocial, idAplicacion := None, None, Some([]);
      errorModal := "";
      successMessage := "";
      empresaIdEdicion := None;
    }

    /**
     * Save. An invalid form only sets the required-fields message and issues nothing.
     * Otherwise the request carries the form's code and name, the application list joined
     * with commas and the fixed user `ADMIN`; it is an update exactly when editing with an
     * edit id, else a creation.
     */
    method GuardarEmpresa(valid: bool)
      modifies this`errorModal, this`successMessage, this`loadingModal, this`requests
      ensures !valid ==> errorModal == RequiredMessage && requests == old(requests)
      ensures !valid ==> successMessage == old(successMessage) && loadingModal == old(loadingModal)
      ensures valid ==> loadingModal && errorModal == "" && successMessage == ""
      ensures valid ==>
        var data := EmpresaData(codigo, razonSocial,
                                FormValues.ConvertirArrayAString(if idAplicacion.Some? then FormValues.RArray(idAplicacion.value) else FormValues.RNull),
                                "ADMIN");
        requests == old(requests) +
          [if modoEdicion && empresaIdEdicion.Some? then Update(empresaIdEdicion.value, data) else Create(data)]
    {
      if !valid {
        errorModal := RequiredMessage;
        return;
      }
      loadingModal := true;
      errorModal := "";
      successMessage := "";
      var raw := if idAplicacion.Some? then FormValues.RArray(idAplicacion.value) else FormValues.RNull;
      var data := EmpresaData(codigo, razonSocial, FormValues.ConvertirArrayAString(raw), "ADMIN");
      if modoEdicion && empresaIdEdicion.Some? {
        requests := requests + [Update(empresaIdEdicion.value, data)];
      } else {
        requests := requests + [Create(data)];
      }
    }
  }
}
