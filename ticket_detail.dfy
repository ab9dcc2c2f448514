/**
 * The ticket detail modal: loading a ticket and then the seven catalogues, turning each
 * catalogue into an id-to-description map, and describing an id through such a map.
 */
module TicketDetailModal {
  import opened Wrappers
  import opened Text
  import opened Models
  import opened TicketModels

  // ---------------------------------------------------------------- id-to-description maps

  /** The map `crearMapeo` builds: each item's id to its description, a later duplicate overwriting an earlier one. */
  function Mapping(items: seq<ComboItem>): map<int, string> {
    if items == [] then map[]
    else
      var last := items[|items| - 1];
      Mapping(items[..|items| - 1])[last.Id := last.Descripcion]
  }

  /** The map has a key for exactly the ids of the items. */
  lemma {:induction false} MappingKeys(items: seq<ComboItem>)
    ensures forall i | 0 <= i < |items| :: items[i].Id in Mapping(items)
    ensures forall k | k in Mapping(items) :: exists i :: 0 <= i < |items| && items[i].Id == k
  {
    if items != [] {
      var init := items[..|items| - 1];
      MappingKeys(init);
      assert forall i | 0 <= i < |init| :: init[i] == items[i];
    }
  }

  /** The description an id maps to is that of its last item. */
  lemma {:induction false} MappingLast(items: seq<ComboItem>, j: int)
    requires 0 <= j < |items|
    requires forall i | j < i < |items| :: items[i].Id != items[j].Id
    ensures items[j].Id in Mapping(items) && Mapping(items)[items[j].Id] == items[j].Descripcion
    decreases |items|
  {
    var n := |items| - 1;
    if j < n {
      var init := items[..n];
      assert forall i | j < i < n :: init[i] == items[i];
      assert init[j] == items[j];
      MappingLast(init, j);
    }
  }

  /** Building the map item by item, as the `forEach` does. */
  method CrearMapeo(items: seq<ComboItem>) returns (mapa: map<int, string>)
    ensures mapa == Mapping(items)
  {
    mapa := map[];
    var i := 0;
    while i < |items|
      invariant 0 <= i <= |items|
      invariant mapa == Mapping(items[..i])
    {
      assert items[..i + 1][..i] == items[..i];
      mapa := mapa[items[i].Id := items[i].Descripcion];
      i := i + 1;
    }
    assert items[..i] == items;
  }

  /**
   * How every `obtenerX` describes an id: `N/A` for a null, undefined or zero id; the
   * mapped description when present and non-empty; otherwise `ID: ` and the number.
   */
  function Describe(m: map<int, string>, id: Option<int>): (r: string)
    ensures r != ""
    ensures !TruthyId(id) ==> r == "N/A"
    ensures TruthyId(id) && id.value in m && m[id.value] != "" ==> r == m[id.value]
    ensures TruthyId(id) && !(id.value in m && m[id.value] != "") ==> r == "ID: " + ShowInt(id.value)
  {
    if !TruthyId(id) then "N/A"
    else if id.value in m && m[id.value] != "" then m[id.value]
    else "ID: " + ShowInt(id.value)
  }

  /**
   * Describing an id through a catalogue's map: the description of the last item with
   * that id when it is non-empty, and the `ID: n` fallback when no item has the id.
   */
  lemma DescribeCatalogue(items: seq<ComboItem>, j: int, id: int)
    requires id != 0
    requires 0 <= j < |items| && items[j].Id == id && items[j].Descripcion != ""
    requires forall i | j < i < |items| :: items[i].Id != id
    ensures Describe(Mapping(items), Some(id)) == items[j].Descripcion
  {
    MappingLast(items, j);
  }

  lemma {:induction false} DescribeUnlisted(items: seq<ComboItem>, id: int)
    requires id != 0
    requires forall i | 0 <= i < |items| :: items[i].Id != id
    ensures Describe(Mapping(items), Some(id)) == "ID: " + ShowInt(id)
  {
    MappingKeys(items);
  }

  // ---------------------------------------------------------------- the modal

  /** The requests the modal issues. */
  datatype DetailRequest =
    | ObtenerTicket(id: int)   // obtenerTicket
    | LoadCatalogos            // the forkJoin of the seven catalogue loads

  const CatalogueErrorMessage: string := "Error al cargar los catálogos"
  const TicketErrorMessage: string := "Error al cargar el detalle del ticket"

  class TicketDetailComponent {
    var isOpen: bool
    var loading: bool
    var errorMessage: string
    var ticket: Option<TicketDetail>
    var ticketId: Option<int>
    var usuarios: map<int, string>
    var modulos: map<int, string>
    var aplicaciones: map<int, string>
    var tiposIncidencia: map<int, string>
    var prioridades: map<int, string>
    var estados: map<int, string>
    var impactos: map<int, string>
    /** How many times `closed` has been emitted. */
    var closedEmitted: nat
    /** Every request issued, in order. */
    var requests: seq<DetailRequest>

    constructor ()
      ensures !isOpen && !loading && errorMessage == "" && ticket == None && ticketId == None
      ensures usuarios == map[] && modulos == map[] && aplicaciones == map[] && tiposIncidencia == map[]
      ensures prioridades == map[] && estados == map[] && impactos == map[]
      ensures closedEmitted == 0 && requests == []
    {
      isOpen, loading, errorMessage, ticket, ticketId := false, false, "", None, None;
      usuarios, modulos, aplicaciones, tiposIncidencia := map[], map[], map[], map[];
      prioridades, estados, impactos := map[], map[], map[];
      closedEmitted := 0;
      requests := [];
    }

    /** Opening for ticket `id`: the id is kept, the modal opens, loading starts with no error and the ticket is requested. */
    method AbrirModal(id: int)
      modifies this`ticketId, this`isOpen, this`loading, this`errorMessage, this`requests
      ensures ticketId == Some(id) && isOpen && loading && errorMessage == ""
      ensures requests == old(requests) + [ObtenerTicket(id)]
    {
      ticketId := Some(id);
      isOpen := true;
      loading := true;
      errorMessage := "";
      requests := requests + [ObtenerTicket(id)];
    }

    /** Closing: the modal hides, the ticket and its id are forgotten, the error clears and `closed` is emitted once. */
    method CerrarModal()
      modifies this`isOpen, this`ticket, this`ticketId, this`errorMessage, this`closedEmitted
      ensures !isOpen && ticket == None && ticketId == None && errorMessage == ""
      ensures closedEmitted == old(closedEmitted) + 1
    {
      isOpen := false;
      ticket := None;
      ticketId := None;
      errorMessage := "";
      closedEmitted := closedEmitted + 1;
    }

    /** The ticket arrived: it is kept and the catalogues are requested; loading goes on. */
    method OnTicketLoaded(t: TicketDetail)
      modifies this`ticket, this`requests
      ensures ticket == Some(t) && requests == old(requests) + [LoadCatalogos]
    {
      ticket := Some(t);
      requests := requests + [LoadCatalogos];
    }

    /** The ticket could not be loaded: loading ends with its error message. */
    method OnTicketError()
      modifies this`loading, this`errorMessage
      ensures !loading && errorMessage == TicketErrorMessage
    {
      loading := false;
      errorMessage := TicketErrorMessage;
    }

    /** All seven catalogues arrived: loading ends and each becomes its id-to-description map. */
    method OnCatalogosLoaded(
      usuariosItems: seq<ComboItem>, modulosItems: seq<ComboItem>, aplicacionesItems: seq<ComboItem>,
      tiposItems: seq<ComboItem>, prioridadesItems: seq<ComboItem>, estadosItems: seq<ComboItem>,
      impactosItems: seq<ComboItem>)
      modifies this`loading, this`usuarios, this`modulos, this`aplicaciones, this`tiposIncidencia
      modifies this`prioridades, this`estados, this`impactos
      ensures !loading
      ensures usuarios == Mapping(usuariosItems) && modulos == Mapping(modulosItems)
      ensures aplicaciones == Mapping(aplicacionesItems) && tiposIncidencia == Mapping(tiposItems)
      ensures prioridades == Mapping(prioridadesItems) && estados == Mapping(estadosItems)
      ensures impactos == Mapping(impactosItems)
    {
      loading := false;
      usuarios := CrearMapeo(usuariosItems);
      modulos := CrearMapeo(modulosItems);
      aplicaciones := CrearMapeo(aplicacionesItems);
      tiposIncidencia := CrearMapeo(tiposItems);
      prioridades := CrearMapeo(prioridadesItems);
      estados := CrearMapeo(estadosItems);
      impactos := CrearMapeo(impactosItems);
    }

    /** One catalogue failed: loading ends with the catalogue error; the maps keep what they held. */
    method OnCatalogosError()
      modifies this`loading, this`errorMessage
      ensures !loading && errorMessage == CatalogueErrorMessage
    {
      loading := false;
      errorMessage := CatalogueErrorMessage;
    }

    function ObtenerUsuario(id: Option<int>): (r: string)
      reads this`usuarios
      ensures r == Describe(usuarios, id)
    {
      Describe(usuarios, id)
    }

    function ObtenerModulo(id: Option<int>): (r: string)
      reads this`modulos
      ensures r == Describe(modulos, id)
    {
      Describe(modulos, id)
    }

    function ObtenerAplicacion(id: Option<int>): (r: string)
      reads this`aplicaciones
      ensures r == Describe(aplicaciones, id)
    {
      Describe(aplicaciones, id)
    }

    function ObtenerTipoIncidencia(id: Option<int>): (r: string)
      reads this`tiposIncidencia
      ensures r == Describe(tiposIncidencia, id)
    {
      Describe(tiposIncidencia, id)
    }

    function ObtenerPrioridad(id: Option<int>): (r: string)
      reads this`prioridades
      ensures r == Describe(prioridades, id)
    {
      Describe(prioridades, id)
    }

    function ObtenerEstado(id: Option<int>): (r: string)
      reads this`estados
      ensures r == Describe(estados, id)
    {
      Describe(estados, id)
    }

    function ObtenerImpacto(id: Option<int>): (r: string)
      reads this`impactos
      ensures r == Describe(impactos, id)
    {
      Describe(impactos, id)
    }
  }
}
