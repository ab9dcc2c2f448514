/**
 * The ticket list: the filter sent with every load, the page bookkeeping taken from the
 * response (with defaults for missing fields), the first and last row shown, and the
 * window of at most five page numbers.
 */
module TicketList {
  import opened Wrappers

  /** The list filter; every field is optional (`None` is an absent key). */
  datatype TicketFilter = TicketFilter(
    Usuario: Option<int>, Aplicacion: Option<int>, Modulo: Option<int>, Tipo: Option<int>,
    Prioridad: Option<int>, Estado: Option<int>, Inpacto: Option<int>,
    numPagina: Option<int>, allReg: Option<int>, iCantFilas: Option<int>)

  /** The filter the list starts with, and the one clearing restores. */
  const DefaultFilter: TicketFilter :=
    TicketFilter(None, None, None, None, None, None, None, Some(1), Some(0), Some(10))

  /** A patch that sets no key. */
  const EmptyPatch: TicketFilter :=
    TicketFilter(None, None, None, None, None, None, None, None, None, None)

  /** `{...base, ...patch, numPagina: 1}`: the keys the patch sets win, and the page is always 1. */
  function Overlay(base: TicketFilter, patch: TicketFilter): (r: TicketFilter)
    ensures r.numPagina == Some(1)
    ensures r.Usuario == (if patch.Usuario.Some? then patch.Usuario else base.Usuario)
    ensures r.Aplicacion == (if patch.Aplicacion.Some? then patch.Aplicacion else base.Aplicacion)
    ensures r.Modulo == (if patch.Modulo.Some? then patch.Modulo else base.Modulo)
    ensures r.Tipo == (if patch.Tipo.Some? then patch.Tipo else base.Tipo)
    ensures r.Prioridad == (if patch.Prioridad.Some? then patch.Prioridad else base.Prioridad)
    ensures r.Estado == (if patch.Estado.Some? then patch.Estado else base.Estado)
    ensures r.Inpacto == (if patch.Inpacto.Some? then patch.Inpacto else base.Inpacto)
    ensures r.allReg == (if patch.allReg.Some? then patch.allReg else base.allReg)
    ensures r.iCantFilas == (if patch.iCantFilas.Some? then patch.iCantFilas else base.iCantFilas)
  {
    TicketFilter(
      Or(patch.Usuario, base.Usuario), Or(patch.Aplicacion, base.Aplicacion), Or(patch.Modulo, base.Modulo),
      Or(patch.Tipo, base.Tipo), Or(patch.Prioridad, base.Prioridad), Or(patch.Estado, base.Estado),
      Or(patch.Inpacto, base.Inpacto), Some(1), Or(patch.allReg, base.allReg), Or(patch.iCantFilas, base.iCantFilas))
  }

  function Or(a: Option<int>, b: Option<int>): Option<int> {
    if a.Some? then a else b
  }

  /** Applying the same patch twice is the same as applying it once. */
  lemma OverlayIdempotent(base: TicketFilter, patch: TicketFilter)
    ensures Overlay(Overlay(base, patch), patch) == Overlay(base, patch)
  {
  }

  /** Applying no filter only moves back to the first page. */
  lemma OverlayEmpty(base: TicketFilter)
    ensures Overlay(base, EmptyPatch) == base.(numPagina := Some(1))
  {
  }

  /** `v || d` on an optional number: a missing or zero value gives the default. */
  function OrDefault(v: Option<int>, d: int): (r: int)
    ensures v.Some? && v.value != 0 ==> r == v.value
    ensures v.None? || v.value == 0 ==> r == d
  {
    if v.Some? && v.value != 0 then v.value else d
  }

  /** A list response as it arrives; any field may be missing. */
  datatype TicketRow = TicketRow(IdTickets: int, sCodigo: string, sDescripcion: string)
  datatype ListResponse = ListResponse(
    tickets: Option<seq<TicketRow>>, total: Option<int>, totalPaginas: Option<int>,
    paginaActual: Option<int>, cantidadPorPagina: Option<int>)

  /** The number of the first row on the page. */
  function PaginaInicio(paginaActual: int, cantidadPorPagina: int): int {
    (paginaActual - 1) * cantidadPorPagina + 1
  }

  /** The number of the last row on the page: the page's end, cut at the total. */
  function PaginaFin(paginaActual: int, cantidadPorPagina: int, total: int): int {
    if paginaActual * cantidadPorPagina < total then paginaActual * cantidadPorPagina else total
  }

  /**
   * On a page that has rows, the first and last row numbers lie within the total and span
   * at most one page; the last row is never past the total.
   */
  lemma PageRows(paginaActual: int, cantidadPorPagina: int, total: int)
    requires paginaActual >= 1 && cantidadPorPagina >= 1
    requires (paginaActual - 1) * cantidadPorPagina < total
    ensures 1 <= PaginaInicio(paginaActual, cantidadPorPagina) <= PaginaFin(paginaActual, cantidadPorPagina, total) <= total
    ensures PaginaFin(paginaActual, cantidadPorPagina, total) - PaginaInicio(paginaActual, cantidadPorPagina) + 1 <= cantidadPorPagina
  {
    assert (paginaActual - 1) * cantidadPorPagina >= 0;
    assert paginaActual * cantidadPorPagina == (paginaActual - 1) * cantidadPorPagina + cantidadPorPagina;
  }

  /** Consecutive pages cover consecutive rows: the next page starts right after this one ends. */
  lemma PagesAdjacent(paginaActual: int, cantidadPorPagina: int, total: int)
    requires paginaActual * cantidadPorPagina <= total
    ensures PaginaInicio(paginaActual + 1, cantidadPorPagina) == PaginaFin(paginaActual, cantidadPorPagina, total) + 1
  {
  }

  const MaxPaginas: int := 5

  /** The first page shown: two before the current one (at least 1), pulled back when the end is cut. */
  function WindowStart(paginaActual: int, totalPaginas: int): int {
    var inicio := if paginaActual - MaxPaginas / 2 > 1 then paginaActual - MaxPaginas / 2 else 1;
    var fin := WindowEnd(paginaActual, totalPaginas);
    if fin - inicio + 1 < MaxPaginas then (if fin - MaxPaginas + 1 > 1 then fin - MaxPaginas + 1 else 1) else inicio
  }

  /** The last page shown: four after the unadjusted start, cut at the last page. */
  function WindowEnd(paginaActual: int, totalPaginas: int): int {
    var inicio := if paginaActual - MaxPaginas / 2 > 1 then paginaActual - MaxPaginas / 2 else 1;
    if totalPaginas < inicio + MaxPaginas - 1 then totalPaginas else inicio + MaxPaginas - 1
  }

  /** The page numbers offered: every number from the start to the end of the window. */
  function PageWindow(paginaActual: int, totalPaginas: int): (r: seq<int>) {
    var inicio := WindowStart(paginaActual, totalPaginas);
    var fin := WindowEnd(paginaActual, totalPaginas);
    seq(if fin >= inicio then fin - inicio + 1 else 0, i => inicio + i)
  }

  /**
   * The window is a run of consecutive pages inside `[1, totalPaginas]`, of length five or
   * the number of pages when there are fewer, and empty when there are none.
   */
  lemma PageWindowShape(paginaActual: int, totalPaginas: int)
    ensures var r := PageWindow(paginaActual, totalPaginas);
      (forall i | 0 <= i < |r| :: 1 <= r[i] <= totalPaginas) &&
      (forall i | 0 <= i < |r| - 1 :: r[i + 1] == r[i] + 1) &&
      |r| == (if totalPaginas <= 0 then 0 else if totalPaginas < MaxPaginas then totalPaginas else MaxPaginas)
  {
  }

  /** A current page within range is always among the pages offered. */
  lemma PageWindowHasCurrent(paginaActual: int, totalPaginas: int)
    requires 1 <= paginaActual <= totalPaginas
    ensures paginaActual in PageWindow(paginaActual, totalPaginas)
  {
    var r := PageWindow(paginaActual, totalPaginas);
    var inicio := WindowStart(paginaActual, totalPaginas);
    assert r[paginaActual - inicio] == paginaActual;
  }

  class TicketListComponent {
    var tickets: seq<TicketRow>
    var loading: bool
    var errorMessage: string
    var paginaActual: int
    var totalPaginas: int
    var total: int
    var cantidadPorPagina: int
    var filtros: TicketFilter
    /** The filter sent with every load request, in order. */
    var requests: seq<TicketFilter>

    /** The list as created; `ngOnInit` loads it right away. */
    constructor ()
      ensures tickets == [] && !loading && errorMessage == ""
      ensures paginaActual == 1 && totalPaginas == 0 && total == 0 && cantidadPorPagina == 10
      ensures filtros == DefaultFilter && requests == []
    {
      tickets := [];
      loading := false;
      errorMessage := "";
      paginaActual := 1;
      totalPaginas := 0;
      total := 0;
      cantidadPorPagina := 10;
      filtros := DefaultFilter;
      requests := [];
    }

    /** A load: loading starts, the error clears and the current filter is sent. */
    method CargarTickets()
      modifies this`loading, this`errorMessage, this`requests
      ensures loading && errorMessage == "" && requests == old(requests) + [filtros]
    {
      loading := true;
      errorMessage := "";
      requests := requests + [filtros];
    }

    /**
     * The list arrived: loading ends and each field is taken from the response, a missing
     * (or zero) one falling back to no tickets, a total of 0, no pages, page 1 and 10 rows.
     */
    method OnTicketsResponse(response: ListResponse)
      modifies this`loading, this`tickets, this`total, this`totalPaginas, this`paginaActual, this`cantidadPorPagina
      ensures !loading
      ensures tickets == (if response.tickets.Some? then response.tickets.value else [])
      ensures total == OrDefault(response.total, 0) && totalPaginas == OrDefault(response.totalPaginas, 0)
      ensures paginaActual == OrDefault(response.paginaActual, 1)
      ensures cantidadPorPagina == OrDefault(response.cantidadPorPagina, 10)
      ensures paginaActual != 0 && cantidadPorPagina != 0
    {
      loading := false;
      tickets := if response.tickets.Some? then response.tickets.value else [];
      total := OrDefault(response.total, 0);
      totalPaginas := OrDefault(response.totalPaginas, 0);
      paginaActual := OrDefault(response.paginaActual, 1);
      cantidadPorPagina := OrDefault(response.cantidadPorPagina, 10);
    }

    /** The load failed: loading ends with an error; the list and the pages are kept. */
    method OnTicketsError()
      modifies this`loading, this`errorMessage
      ensures !loading && errorMessage == "Error al cargar tickets"
    {
      loading := false;
      errorMessage := "Error al cargar tickets";
    }

    /** A page in `[1, totalPaginas]` becomes the requested page and is loaded; any other changes nothing. */
    method CambiarPagina(pagina: int)
      modifies this`filtros, this`loading, this`errorMessage, this`requests
      ensures 1 <= pagina <= totalPaginas ==>
        filtros == old(filtros).(numPagina := Some(pagina)) && loading && errorMessage == "" &&
        requests == old(requests) + [filtros]
      ensures !(1 <= pagina <= totalPaginas) ==>
        filtros == old(filtros) && loading == old(loading) && errorMessage == old(errorMessage) &&
        requests == old(requests)
    {
      if pagina >= 1 && pagina <= totalPaginas {
        filtros := filtros.(numPagina := Some(pagina));
        CargarTickets();
      }
    }

    /** A new page size: the first page is requested with that many rows. */
    method CambiarCantidadPorPagina(cantidad: int)
      modifies this`filtros, this`loading, this`errorMessage, this`requests
      ensures filtros == old(filtros).(iCantFilas := Some(cantidad), numPagina := Some(1))
      ensures loading && errorMessage == "" && requests == old(requests) + [filtros]
    {
      filtros := filtros.(iCantFilas := Some(cantidad));
      filtros := filtros.(numPagina := Some(1));
      CargarTickets();
    }

    /** The given filter keys override the current ones, the page goes back to 1, and the list reloads. */
    method AplicarFiltros(patch: TicketFilter)
      modifies this`filtros, this`loading, this`errorMessage, this`requests
      ensures filtros == Overlay(old(filtros), patch)
      ensures loading && errorMessage == "" && requests == old(requests) + [filtros]
    {
      filtros := Overlay(filtros, patch);
      CargarTickets();
    }

    /** Every filter is dropped: back to page 1, `allReg` 0 and 10 rows, then the list reloads. */
    method LimpiarFiltros()
      modifies this`filtros, this`loading, this`errorMessage, this`requests
      ensures filtros == DefaultFilter
      ensures loading && errorMessage == "" && requests == old(requests) + [DefaultFilter]
    {
      filtros := DefaultFilter;
      CargarTickets();
    }

    /** The page-number buttons: built one by one from the window's start to its end. */
    method Paginas() returns (paginas: seq<int>)
      ensures paginas == PageWindow(paginaActual, totalPaginas)
      ensures forall i | 0 <= i < |paginas| :: 1 <= paginas[i] <= totalPaginas
      ensures 1 <= paginaActual <= totalPaginas ==> paginaActual in paginas
    {
      paginas := [];
      var inicio := if paginaActual - MaxPaginas / 2 > 1 then paginaActual - MaxPaginas / 2 else 1;
      var fin := if totalPaginas < inicio + MaxPaginas - 1 then totalPaginas else inicio + MaxPaginas - 1;
      if fin - inicio + 1 < MaxPaginas {
        inicio := if fin - MaxPaginas + 1 > 1 then fin - MaxPaginas + 1 else 1;
      }
      var i := inicio;
      while i <= fin
        invariant inicio <= i && (fin >= inicio ==> i <= fin + 1) && (fin < inicio ==> i == inicio)
        invariant paginas == seq(i - inicio, k => inicio + k)
      {
        paginas := paginas + [i];
        i := i + 1;
      }
      assert inicio == WindowStart(paginaActual, totalPaginas) && fin == WindowEnd(paginaActual, totalPaginas);
      var window := PageWindow(paginaActual, totalPaginas);
      assert |paginas| == |window|;
      forall k | 0 <= k < |paginas| ensures paginas[k] == window[k] {
      }
      PageWindowShape(paginaActual, totalPaginas);
      if 1 <= paginaActual <= totalPaginas {
        PageWindowHasCurrent(paginaActual, totalPaginas);
      }
    }
  }
}
