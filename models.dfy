/** The data shapes the core reads: combo items, menu records and the user record. */
module Models {
  import opened Wrappers

  /** An entry of a drop-down list as the combo endpoints return it. */
  datatype ComboItem = ComboItem(Id: int, Descripcion: string, text: string)

  /**
   * One flat menu record as the backend sends it. `subItems` and `expanded` are not
   * part of the record: the tree builder overwrites whatever the record carried.
   */
  datatype MenuItem = MenuItem(
    IdMenu: int,
    Menu: string,
    Orden: int,
    Vista: string,
    Controlador: string,
    IdPadre: Option<int>,
    sIcono: Option<string>,
    isActive: Option<bool>)

  /** The answer of the menu endpoint; `data` is `None` when the field is null or missing. */
  datatype MenuResponse = MenuResponse(success: bool, data: Option<seq<MenuItem>>)

  /** The logged-in user; only `nombre` matters to the core. */
  datatype Usuario = Usuario(idUsuario: int, nombre: string)
}
