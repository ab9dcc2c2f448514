# Sis.Tickets admin client — a Dafny model of its core logic

This project models the local logic of the Angular admin client of the Sis.Tickets help
desk. Most of the client is modal and form wiring around HTTP calls. The model keeps the
parts that compute or change state on their own:

- **Menu** (`menu_service.dfy`). The flat menu records become a forest. Every node starts
  collapsed and childless. Each record is attached to the root list or to its parent's
  `subItems`, and orphans are dropped. Every reachable list is sorted by `Orden`. The file
  also holds the header test, the route derivation and the published-menu store.
- **Navigation shell** (`main_layout.dfy`). The menu load guard, the click decision
  (a container toggles, a header does nothing, a leaf navigates), the collapse flag and the
  logout order.
- **Multi-select tags** (`multi_select_tags.dfy`). The selection list with toggle and
  remove, the `"1,2,3"` value parser, and the colour lookup with its `id % 10` fallback.
- **Users screen** (`usuarios.dfy`). The Aplicación → Módulo cascade:
  - the per-application module lists are merged by `Id`, and selected modules that are no
    longer offered are pruned;
  - the application and module colours;
  - the id-string readers and the credential fallback used on save.
- **Companies screen** (`empresas.dfy`). The stored `"1,2,3"` application list and its
  round trip, the index colours, and the modal reset and save branch.
- **Ticket list** (`ticket_list.dfy`). The filter overlay, the paging defaults, the first and
  last row shown, and the five-page window.
- **Ticket create, update and detail modals** (`ticket_models.dfy`, `ticket_form.dfy`,
  `ticket_update.dfy`, `ticket_detail.dfy`). The Aplicación → Módulo cascade, the
  `loadingTicket` guard with its delayed module restore, the request built from a form,
  and the id → description lookup.

Shared pieces:

- `text.dfy`: strings and numbers as JavaScript treats them (`split`, `join`, `trim`,
  `toLowerCase`, `parseInt`, `Number`, `String(n)`).
- `form_values.dfy`: loosely typed form values and the CSV conversions.
- `palette.dfy`: the ten-colour palette.
- `models.dfy`, `wrappers.dfy`: data shapes and `Option`.

Modelling conventions:

- HTTP responses and timers are explicit event methods (`On…Loaded`, `On…Error`,
  `OnRestoreTimer`). Every request a component issues is appended to a `requests` log, so
  "issues no request" is a statement about that log.
- Components whose fields the code updates are classes. Each method's `modifies` clause
  names the fields it may change. Everything else is stated unchanged by the frame.
- A JavaScript number that can be NaN is `Text.JsNum`. A nullable value is `Option`.
- Form validity (Angular validators) is an input boolean.

## Model

| member | source | states |
|---|---|---|
| MenuService.IsHeader | src/app/core/services/menu.service.ts:95-97 | a record is a header iff its `Vista` or its `Controlador` is `##` |
| MenuService.GetRoute | src/app/core/services/menu.service.ts:103-114 | headers get `""`; any other record gets `/`, its controller lower-cased, `/`, then its view with case kept |
| MenuService.RouteEmptyIffHeader | src/app/core/services/menu.service.ts:103-114 | the route is empty exactly for headers; the controller part of a route has no upper-case letter |
| MenuService.RouteOfTickets | src/app/app.routes.ts:36-39 | controller `Gestion` with view `Tickets` routes to `/gestion/Tickets` |
| MenuService.RecordTableKeys | src/app/core/services/menu.service.ts:42-48 | the id → node table has a slot for exactly the ids of the records |
| MenuService.RecordTableLastWins | src/app/core/services/menu.service.ts:42-48 | with duplicate ids, the last record wins the slot |
| MenuService.IndexRecords | src/app/core/services/menu.service.ts:42-48 | the first pass stores every record collapsed (`expanded` false) with empty `subItems`, whatever the input carried |
| MenuService.ChildKeysMembers | src/app/core/services/menu.service.ts:51-65 | an id is pushed into a parent's list (or into the roots for a null parent) iff some record has that id and that `IdPadre` |
| MenuService.PlacedOnce | src/app/core/services/menu.service.ts:51-65 | with unique ids, each record is pushed exactly once, into its own parent's list, and into no other list |
| MenuService.PlacedLast | src/app/core/services/menu.service.ts:51-65 | the same for the last record |
| MenuService.OrphanDropped | src/app/core/services/menu.service.ts:59-62 | a record whose parent id matches no record is in neither the roots nor any node's list |
| MenuService.LinkRecords | src/app/core/services/menu.service.ts:51-65 | the second pass leaves each node with exactly the children its records name, in record order, and the roots as the null-parent records |
| MenuService.AssembleHierarchy | src/app/core/services/menu.service.ts:36-65 | both passes together: every node collapsed, holding its record and its children; the roots as above |
| MenuService.SortByOrden | src/app/core/services/menu.service.ts:83 | the comparator sort returns a permutation of its input |
| MenuService.SortByOrdenSorted | src/app/core/services/menu.service.ts:83 | the result is non-decreasing by `Orden` |
| MenuService.SortByOrdenStable | src/app/core/services/menu.service.ts:83 | entries with equal `Orden` keep their relative order (stable sort) |
| MenuService.SortByOrdenIdempotent | src/app/core/services/menu.service.ts:83 | sorting a sorted list changes nothing |
| MenuService.SortStepPermutes | src/app/core/services/menu.service.ts:82-89 | the recursive sort changes a node only by permuting its `subItems`; record and `expanded` are kept |
| MenuService.SortMenuItems | src/app/core/services/menu.service.ts:82-89 | the list is returned sorted and, recursively, every non-empty reachable child list is sorted in the node table |
| MenuService.BuildMenuHierarchy | src/app/core/services/menu.service.ts:36-76 | the built forest: roots are the null-parent records sorted by `Orden`; every reachable list is a sorted permutation of the children the records name |
| MenuService.FlatMenuRanked | src/app/core/services/menu.service.ts:82-89 | a menu with no parent links always admits the termination witness |
| MenuService.TwoLevelMenuRanked | src/app/core/services/menu.service.ts:36-89 | a menu whose parents are all roots admits a witness of height 2, whatever the record order and even with repeated ids |
| MenuService.LevelsRanked | src/app/core/services/menu.service.ts:36-89 | with unique ids, any assignment of levels that drops from each parent to its children gives a witness, at any depth |
| MenuService.SelfParentUnranked | src/app/core/services/menu.service.ts:43-65 | two records with id 1, one a root and one its own child, admit no witness: on them the source's recursive sort exhausts the call stack instead of returning |
| MenuService.MenuStore.constructor | src/app/core/services/menu.service.ts:13-14 | the service starts by publishing the empty menu |
| MenuService.MenuStore.GetMenuPorUsuario | src/app/core/services/menu.service.ts:20-30 | the published menu is replaced by the built forest only when `success` holds and `data` is present; the response is passed on unchanged |
| MenuService.MenuStore.ClearMenu | src/app/core/services/menu.service.ts:119-121 | clearing publishes the empty menu |
| MenuService.MenuStore.GetCurrentMenu | src/app/core/services/menu.service.ts:126-128 | returns the menu last published |
| MainLayout.Toggled | src/app/shared/layouts/main-layout/main-layout.component.ts:79-89 | a node with sub-items flips `expanded`; a childless node and every other node stay as they were |
| MainLayout.ToggleTwice | src/app/shared/layouts/main-layout/main-layout.component.ts:84 | toggling the same node twice restores the menu |
| MainLayout.DecideCases | src/app/shared/layouts/main-layout/main-layout.component.ts:104-121 | a click toggles iff the node has sub-items, is ignored iff it is a childless header, and otherwise navigates to the node's route, which starts with `/` |
| MainLayout.Layout.NgOnInit | src/app/shared/layouts/main-layout/main-layout.component.ts:27-30 | the current user is taken as given, then the menu load runs |
| MainLayout.Layout.LoadMenu | src/app/shared/layouts/main-layout/main-layout.component.ts:35-42 | with no user or an empty `nombre` the loading flag drops and no request is issued; otherwise the menu is requested for that name |
| MainLayout.Layout.OnMenuResponse | src/app/shared/layouts/main-layout/main-layout.component.ts:43-61 | the loading flag always drops; on success the layout takes the service's current menu; when data came, that menu is the built forest: roots sorted by `Orden`, every node table entry a sorted permutation of the assembled children, every reachable list sorted |
| MainLayout.Layout.constructor | src/app/shared/layouts/main-layout/main-layout.component.ts:16-25 | the layout starts with no user, an empty menu, no selection, loading on and the sidebar expanded, over the given service |
| MainLayout.Layout.OnMenuError | src/app/shared/layouts/main-layout/main-layout.component.ts:62-65 | the loading flag drops and nothing else changes |
| MainLayout.Layout.ToggleMenuItem | src/app/shared/layouts/main-layout/main-layout.component.ts:79-89 | the menu becomes `Toggled` at that node; nothing else changes |
| MainLayout.Layout.NavigateToMenuItem | src/app/shared/layouts/main-layout/main-layout.component.ts:94-122 | a container toggles with no navigation and no change to `selectedMenu`; a childless header changes nothing; a leaf sets `selectedMenu` to its `Menu` and navigates to its route |
| MainLayout.Layout.NavigateTo | src/app/shared/layouts/main-layout/main-layout.component.ts:127-129 | navigates to the given route and changes nothing else |
| MainLayout.Layout.NavigateToDashboard | src/app/shared/layouts/main-layout/main-layout.component.ts:134-136 | navigates to `/dashboard` |
| MainLayout.Layout.ToggleMenu | src/app/shared/layouts/main-layout/main-layout.component.ts:141-143 | flips `menuCollapsed` and nothing else |
| MainLayout.Layout.Logout | src/app/shared/layouts/main-layout/main-layout.component.ts:148-151 | the menu is cleared before the auth logout is delegated |
| MultiSelectTags.Without | src/app/shared/components/multi-select-tags/multi-select-tags.component.ts:85-91 | removal keeps exactly the entries other than the id |
| MultiSelectTags.WithoutConcat | src/app/shared/components/multi-select-tags/multi-select-tags.component.ts:88 | removal distributes over concatenation, so the other ids keep their order |
| MultiSelectTags.WithoutAbsent | src/app/shared/components/multi-select-tags/multi-select-tags.component.ts:85-91 | removing an absent id is a no-op |
| MultiSelectTags.WithoutCounts | src/app/shared/components/multi-select-tags/multi-select-tags.component.ts:88 | every occurrence of the id goes; every other value keeps its count |
| MultiSelectTags.Toggle | src/app/shared/components/multi-select-tags/multi-select-tags.component.ts:72-83 | a present id is removed everywhere and the other members are kept; an absent id is appended at the end |
| MultiSelectTags.ToggleTwiceAbsent | src/app/shared/components/multi-select-tags/multi-select-tags.component.ts:72-83 | toggling an absent id twice restores the selection |
| MultiSelectTags.ToggleTwicePresent | src/app/shared/components/multi-select-tags/multi-select-tags.component.ts:72-83 | toggling a present id twice moves it, once, to the end |
| MultiSelectTags.SelectedItems | src/app/shared/components/multi-select-tags/multi-select-tags.component.ts:93-95 | the filter never returns more items than it is given |
| MultiSelectTags.SelectedItemsMembers | src/app/shared/components/multi-select-tags/multi-select-tags.component.ts:93-95 | an item is returned iff it is one of the items and its id is selected |
| MultiSelectTags.SelectedItemsConcat | src/app/shared/components/multi-select-tags/multi-select-tags.component.ts:93-95 | the selected items come in item order |
| MultiSelectTags.SelectedItemsBySet | src/app/shared/components/multi-select-tags/multi-select-tags.component.ts:93-95 | the result depends only on which ids are selected, not on their order or repetition |
| MultiSelectTags.ParseValue | src/app/shared/components/multi-select-tags/multi-select-tags.component.ts:98-107 | a non-empty string gives its trimmed, base-10 parsed pieces with non-numbers dropped; `""` gives `[]`; an array is taken as is; anything else gives `[]` |
| MultiSelectTags.ParseValueJoin | src/app/shared/components/multi-select-tags/multi-select-tags.component.ts:98-107 | a comma-joined list of integers parses back to that list |
| MultiSelectTags.GetColor | src/app/shared/components/multi-select-tags/multi-select-tags.component.ts:48-55 | the mapped colour when present, else palette entry `id % 10`; a negative id outside the map gets a colour only when it is a multiple of ten, and then the first palette entry (JavaScript `%` keeps the sign, and `-0` indexes entry 0) |
| MultiSelectTags.GetColorPeriodic | src/app/shared/components/multi-select-tags/multi-select-tags.component.ts:48-55 | unmapped non-negative ids ten apart get the same colour |
| MultiSelectTags.TagSelector.constructor | src/app/shared/components/multi-select-tags/multi-select-tags.component.ts:34-45 | starts with no selection, the dropdown closed and enabled |
| MultiSelectTags.TagSelector.IsSelected | src/app/shared/components/multi-select-tags/multi-select-tags.component.ts:68-70 | holds iff the id is in the selection |
| MultiSelectTags.TagSelector.GetSelectedItems | src/app/shared/components/multi-select-tags/multi-select-tags.component.ts:93-95 | exactly the items whose id is selected |
| MultiSelectTags.TagSelector.ColorOf | src/app/shared/components/multi-select-tags/multi-select-tags.component.ts:48-55 | the component's colour for an id is `GetColor` over its own map: the mapped colour when present, else the palette rule |
| MultiSelectTags.TagSelector.ToggleItem | src/app/shared/components/multi-select-tags/multi-select-tags.component.ts:72-83 | when disabled nothing changes; otherwise the selection becomes `Toggle` of it and is reported to the form |
| MultiSelectTags.TagSelector.RemoveItem | src/app/shared/components/multi-select-tags/multi-select-tags.component.ts:85-91 | when disabled nothing changes; otherwise every occurrence is removed and the result reported |
| MultiSelectTags.TagSelector.WriteValue | src/app/shared/components/multi-select-tags/multi-select-tags.component.ts:98-107 | the selection becomes the parsed value, without reporting a change |
| MultiSelectTags.TagSelector.ToggleDropdown | src/app/shared/components/multi-select-tags/multi-select-tags.component.ts:57-61 | flips the dropdown only when enabled |
| MultiSelectTags.TagSelector.CerrarDropdown | src/app/shared/components/multi-select-tags/multi-select-tags.component.ts:63-66 | always closes the dropdown and marks the control touched |
| MultiSelectTags.TagSelector.SetDisabledState | src/app/shared/components/multi-select-tags/multi-select-tags.component.ts:117-119 | sets the disabled flag and nothing else |
| MultiSelectTags.IndexOf | src/app/shared/components/multi-select-tags/multi-select-tags.component.ts:75 | `indexOf`: the first position of the value, or -1 iff it is absent |
| Text.JoinSplit | src/app/pages/mantenimiento/empresas/empresas.component.ts:113-115 | joining the pieces of a split gives back the string |
| Text.SplitJoin | src/app/pages/mantenimiento/empresas/empresas.component.ts:241-243 | splitting a join of comma-free pieces gives back the pieces |
| Text.NumberOfShow | src/app/pages/mantenimiento/empresas/empresas.component.ts:114 | `Number(String(x))` is `x` for every integer and NaN |
| Text.ParseIntShow | src/app/pages/mantenimiento/usuarios/usuarios.component.ts:591 | `parseInt(String(i), 10)` is `i` |
| Text.SplitNumsJoinNums | src/app/pages/mantenimiento/empresas/empresas.component.ts:113-115 | a non-empty number array survives `join(',')` then `split(',').map(Number)` |
| FormValues.SplitIds | src/app/pages/mantenimiento/usuarios/usuarios.component.ts:330-331 | a falsy stored value loads as `[]`; a truthy one as at least one number |
| FormValues.ConvertirArrayAString | src/app/pages/mantenimiento/usuarios/usuarios.component.ts:599-607 | an array is joined with commas (empty iff the array is), a string passes through, anything else is `""` |
| FormValues.CsvRoundTrip | src/app/pages/mantenimiento/empresas/empresas.component.ts:113-115 | every array saved as a string loads back as the same array, `[]` ↔ `""` included |
| FormValues.EmptyPieceIsZero | src/app/pages/mantenimiento/empresas/empresas.component.ts:114 | `"a,,b"` loads as `[a, 0, b]`, since `Number("")` is 0 |
| FormValues.SplitIdsEmptyPiece | src/app/pages/mantenimiento/empresas/empresas.component.ts:114 | an empty piece between two others loads as 0 |
| FormValues.EmptyArrayLoadsAsZero | src/app/pages/mantenimiento/usuarios/usuarios.component.ts:330 | an empty array is truthy and loads as `[0]` |
| FormValues.ConvertirANumero | src/app/pages/mantenimiento/usuarios/usuarios.component.ts:587-593 | null and `""` give null; anything else is `parseInt` of its string, null when that is NaN |
| FormValues.ConvertirANumeroOfNumbers | src/app/pages/mantenimiento/usuarios/usuarios.component.ts:587-593 | an integer, or its decimal text, converts to itself; NaN converts to null |
| FormValues.IdsOfJoin | src/app/pages/mantenimiento/usuarios/usuarios.component.ts:664 | a comma-joined list of integers parses back to that list, in order with duplicates |
| FormValues.IdsOfBlank | src/app/pages/mantenimiento/usuarios/usuarios.component.ts:660-664 | a blank string parses to no ids |
| Palette.IndexColorsKeys | src/app/pages/mantenimiento/usuarios/usuarios.component.ts:626-632 | after clearing, an id has a colour iff some application carries it |
| Palette.IndexColorsLast | src/app/pages/mantenimiento/usuarios/usuarios.component.ts:628-631 | the application at index `j` (the last with its id) gets palette entry `j mod 10` |
| Palette.IndexColorsFromPalette | src/app/pages/mantenimiento/usuarios/usuarios.component.ts:613-630 | every assigned colour is a non-empty palette entry |
| Palette.AssignIndexColors | src/app/pages/mantenimiento/empresas/empresas.component.ts:254-275 | the loop builds exactly the index colouring |
| Usuarios.FirstIdsKeys | src/app/pages/mantenimiento/usuarios/usuarios.component.ts:544-556 | a module id is a key of the merge iff some per-application result offers it |
| Usuarios.FirstIdsDistinct | src/app/pages/mantenimiento/usuarios/usuarios.component.ts:544-558 | the merged list has each id once |
| Usuarios.FirstIdsPrefix | src/app/pages/mantenimiento/usuarios/usuarios.component.ts:544-558 | later results never move an id already placed: position is that of the first occurrence |
| Usuarios.LastByIdLast | src/app/pages/mantenimiento/usuarios/usuarios.component.ts:554 | the value kept for an id is its last occurrence |
| Usuarios.Merged | src/app/pages/mantenimiento/usuarios/usuarios.component.ts:558 | one entry per distinct id |
| Usuarios.MergedOfUnique | src/app/pages/mantenimiento/usuarios/usuarios.component.ts:544-558 | when no id repeats, the merge is the concatenation itself |
| Usuarios.MergedEntries | src/app/pages/mantenimiento/usuarios/usuarios.component.ts:544-558 | the last entry offered for each id is in the merge |
| Usuarios.MergeModules | src/app/pages/mantenimiento/usuarios/usuarios.component.ts:544-558 | the nested loop computes exactly the merge of the concatenated results |
| Usuarios.MergeInto | src/app/pages/mantenimiento/usuarios/usuarios.component.ts:553-555 | the inner loop extends the keys and values by one result's modules |
| Usuarios.PruneMembers | src/app/pages/mantenimiento/usuarios/usuarios.component.ts:568-570 | a value survives iff it was selected and is still offered |
| Usuarios.PruneConcat | src/app/pages/mantenimiento/usuarios/usuarios.component.ts:570 | pruning distributes over concatenation: survivors keep their order |
| Usuarios.PruneSameLength | src/app/pages/mantenimiento/usuarios/usuarios.component.ts:572 | equal lengths mean nothing was removed, so skipping the patch then loses nothing |
| Usuarios.FilterOffered | src/app/pages/mantenimiento/usuarios/usuarios.component.ts:568-570 | the filter loop computes exactly the pruned selection |
| Usuarios.AppColor | src/app/pages/mantenimiento/usuarios/usuarios.component.ts:642-644 | an application paints its modules iff it has a non-empty colour |
| Usuarios.PaintSnoc | src/app/pages/mantenimiento/usuarios/usuarios.component.ts:645-648 | painting one more module sets just that module |
| Usuarios.ModuleColorsKeys | src/app/pages/mantenimiento/usuarios/usuarios.component.ts:639-650 | after clearing, a module has a colour iff some coloured application offers it |
| Usuarios.ModuleColorsLast | src/app/pages/mantenimiento/usuarios/usuarios.component.ts:641-650 | its colour is that of the last coloured application offering it |
| Usuarios.ModuleColorsStep | src/app/pages/mantenimiento/usuarios/usuarios.component.ts:641-650 | one outer step paints that application's modules, or skips it when it has no colour |
| Usuarios.ColorModules | src/app/pages/mantenimiento/usuarios/usuarios.component.ts:638-653 | the nested loop computes exactly the module colouring |
| Usuarios.FindById | src/app/pages/mantenimiento/usuarios/usuarios.component.ts:667 | `find` returns a catalogue entry with the id, or none when no entry has it |
| Usuarios.FindByIdFirst | src/app/pages/mantenimiento/usuarios/usuarios.component.ts:667 | the entry found is the first with that id |
| Usuarios.NamesOf | src/app/pages/mantenimiento/usuarios/usuarios.component.ts:666-672 | one entry per id in order, named by the catalogue or by the prefix and the number |
| Usuarios.NamedIds | src/app/pages/mantenimiento/usuarios/usuarios.component.ts:659-673 | a missing or blank string gives `[]`; otherwise the parsed ids, named |
| Usuarios.NamedIdsOfJoin | src/app/pages/mantenimiento/usuarios/usuarios.component.ts:659-693 | a stored list of integers reads back as those ids, in order with duplicates |
| Usuarios.CredentialFallback | src/app/pages/mantenimiento/usuarios/usuarios.component.ts:394-395 | a typed value wins; an empty one falls back to the original only when editing with an original loaded, else `""` |
| Usuarios.AuditUser | src/app/pages/mantenimiento/usuarios/usuarios.component.ts:388-389 | the lower-cased name of the current user, or `admin` when there is none or it is empty |
| Usuarios.UsuariosComponent.constructor | src/app/pages/mantenimiento/usuarios/usuarios.component.ts:84-128 | the form starts with empty credentials and empty selections |
| Usuarios.UsuariosComponent.OnAplicacionesLoaded | src/app/pages/mantenimiento/usuarios/usuarios.component.ts:173-183 | keeps the catalogue and colours it by index |
| Usuarios.UsuariosComponent.OnModulosCompletosLoaded | src/app/pages/mantenimiento/usuarios/usuarios.component.ts:186-195 | keeps the full module catalogue and empties the offered modules |
| Usuarios.UsuariosComponent.AsignarColoresAplicaciones | src/app/pages/mantenimiento/usuarios/usuarios.component.ts:612-633 | the map becomes the index colouring |
| Usuarios.UsuariosComponent.SetAplicaciones | src/app/pages/mantenimiento/usuarios/usuarios.component.ts:511-516 | writing the control runs the filter with the new value |
| Usuarios.UsuariosComponent.FiltrarModulosPorAplicaciones | src/app/pages/mantenimiento/usuarios/usuarios.component.ts:521-541 | an empty or absent list clears the modules and the selection; with no catalogue nothing changes; otherwise one batch of requests is issued |
| Usuarios.UsuariosComponent.OnModulosPorAplicacion | src/app/pages/mantenimiento/usuarios/usuarios.component.ts:542-576 | the modules become the merge, the module colours are reassigned, and the selection is pruned to the offered ids |
| Usuarios.UsuariosComponent.OnModulosPorAplicacionError | src/app/pages/mantenimiento/usuarios/usuarios.component.ts:577-580 | the modules empty; the selection is untouched |
| Usuarios.UsuariosComponent.AbrirModalNuevo | src/app/pages/mantenimiento/usuarios/usuarios.component.ts:248-284 | not editing, no edit id or original, empty credentials and selections, no modules, the modal open and no request issued |
| Usuarios.UsuariosComponent.OnUsuarioCargado | src/app/pages/mantenimiento/usuarios/usuarios.component.ts:288-356 | editing that user with its original kept, credentials empty, selections loaded from the stored strings; a truthy application list with a catalogue issues two identical request batches |
| Usuarios.UsuariosComponent.EntrarEdicion | src/app/pages/mantenimiento/usuarios/usuarios.component.ts:290-306 | edit mode for that user with its original record kept and both credentials blank |
| Usuarios.UsuariosComponent.PatchSelecciones | src/app/pages/mantenimiento/usuarios/usuarios.component.ts:330-341 | the patch writes applications (running the filter) then modules, and the explicit filter runs again for a truthy stored list |
| Usuarios.UsuariosComponent.CerrarModal | src/app/pages/mantenimiento/usuarios/usuarios.component.ts:364-375 | the modal hides, the selections and modules empty, the edit id is forgotten |
| Usuarios.UsuariosComponent.GuardarUsuario | src/app/pages/mantenimiento/usuarios/usuarios.component.ts:377-475 | an invalid form only sets the message; otherwise one save with the fallback credentials, both lists as CSV and the audit user, an update exactly when editing with an id |
| Usuarios.UsuariosComponent.AsignarColoresModulos | src/app/pages/mantenimiento/usuarios/usuarios.component.ts:638-653 | the module colours become the computed colouring |
| Usuarios.UsuariosComponent.ObtenerAplicaciones | src/app/pages/mantenimiento/usuarios/usuarios.component.ts:659-673 | the id string read against the application catalogue with prefix `App ` |
| Usuarios.UsuariosComponent.ObtenerModulos | src/app/pages/mantenimiento/usuarios/usuarios.component.ts:679-693 | the id string read against the full module catalogue with prefix `Mod ` |
| Usuarios.UsuariosComponent.ObtenerColorAplicacion | src/app/pages/mantenimiento/usuarios/usuarios.component.ts:698-700 | the non-empty stored colour, else grey `#6b7280` |
| Usuarios.UsuariosComponent.ObtenerColorModulo | src/app/pages/mantenimiento/usuarios/usuarios.component.ts:705-714 | for a catalogued module its non-empty colour, else grey; grey for an unknown module |
| Empresas.LoadedApplications | src/app/pages/mantenimiento/empresas/empresas.component.ts:113-115 | an absent or empty stored list loads as `[]`; a non-empty string is split and converted with `Number` |
| Empresas.StoredListSurvivesEdit | src/app/pages/mantenimiento/empresas/empresas.component.ts:113-115 | a list saved by the screen loads back unchanged and saves again as the same string |
| Empresas.EmpresasComponent.constructor | src/app/pages/mantenimiento/empresas/empresas.component.ts:48-54 | the form starts with empty code and name and no application |
| Empresas.EmpresasComponent.OnAplicacionesLoaded | src/app/pages/mantenimiento/empresas/empresas.component.ts:59-71 | keeps the catalogue and colours it by index |
| Empresas.EmpresasComponent.AsignarColoresAplicaciones | src/app/pages/mantenimiento/empresas/empresas.component.ts:254-275 | the map becomes the index colouring |
| Empresas.EmpresasComponent.AbrirModalNuevo | src/app/pages/mantenimiento/empresas/empresas.component.ts:90-102 | not editing, no edit id, empty code, name and applications, the modal open, no messages |
| Empresas.EmpresasComponent.AbrirModalEditar | src/app/pages/mantenimiento/empresas/empresas.component.ts:104-110 | edit mode and id are set at once and the record is requested |
| Empresas.EmpresasComponent.OnEmpresaLoaded | src/app/pages/mantenimiento/empresas/empresas.component.ts:111-126 | the form takes the code, the name and the loaded application list; the modal opens |
| Empresas.EmpresasComponent.OnEmpresaError | src/app/pages/mantenimiento/empresas/empresas.component.ts:130-133 | only the page error is set |
| Empresas.EmpresasComponent.CerrarModal | src/app/pages/mantenimiento/empresas/empresas.component.ts:137-145 | the modal hides, code and name become null, the applications `[]`, messages clear, the edit id is forgotten |
| Empresas.EmpresasComponent.GuardarEmpresa | src/app/pages/mantenimiento/empresas/empresas.component.ts:147-166 | an invalid form only sets the message; otherwise one request with the CSV list and user `ADMIN`, an update exactly when editing with a non-null id |
| TicketList.Overlay | src/app/pages/gestion/tickets/ticket-list/ticket-list.component.ts:81-88 | every key the patch sets wins, every other key is kept, and the page is always 1 |
| TicketList.OverlayIdempotent | src/app/pages/gestion/tickets/ticket-list/ticket-list.component.ts:81-88 | applying the same filters twice equals applying them once |
| TicketList.OverlayEmpty | src/app/pages/gestion/tickets/ticket-list/ticket-list.component.ts:81-88 | an empty patch only resets the page to 1 |
| TicketList.OrDefault | src/app/pages/gestion/tickets/ticket-list/ticket-list.component.ts:55-58 | `v \|\| d`: a missing or zero field gives the default |
| TicketList.PageRows | src/app/pages/gestion/tickets/ticket-list/ticket-list.component.ts:121-127 | on a page with rows, `1 <= first <= last <= total` and the page spans at most its size |
| TicketList.PagesAdjacent | src/app/pages/gestion/tickets/ticket-list/ticket-list.component.ts:121-127 | a full page ends right before the next one starts |
| TicketList.PageWindowShape | src/app/pages/gestion/tickets/ticket-list/ticket-list.component.ts:129-144 | the window is consecutive pages within `[1, totalPaginas]`, five of them or all pages when fewer, none when there are no pages |
| TicketList.PageWindowHasCurrent | src/app/pages/gestion/tickets/ticket-list/ticket-list.component.ts:132-140 | a valid current page is always in the window |
| TicketList.TicketListComponent.constructor | src/app/pages/gestion/tickets/ticket-list/ticket-list.component.ts:26-41 | page 1 of size 10, no totals, the default filter |
| TicketList.TicketListComponent.CargarTickets | src/app/pages/gestion/tickets/ticket-list/ticket-list.component.ts:47-51 | loading starts, the error clears, the current filter is sent |
| TicketList.TicketListComponent.OnTicketsResponse | src/app/pages/gestion/tickets/ticket-list/ticket-list.component.ts:52-59 | missing fields default to `[]`, 0, 0, page 1 and size 10; page and size are never 0 |
| TicketList.TicketListComponent.OnTicketsError | src/app/pages/gestion/tickets/ticket-list/ticket-list.component.ts:60-64 | loading stops with the load error message |
| TicketList.TicketListComponent.CambiarPagina | src/app/pages/gestion/tickets/ticket-list/ticket-list.component.ts:68-73 | a page in `[1, totalPaginas]` is set and reloaded; any other changes nothing and issues no request |
| TicketList.TicketListComponent.CambiarCantidadPorPagina | src/app/pages/gestion/tickets/ticket-list/ticket-list.component.ts:75-79 | sets the size, resets the page to 1, reloads |
| TicketList.TicketListComponent.AplicarFiltros | src/app/pages/gestion/tickets/ticket-list/ticket-list.component.ts:81-88 | the filter becomes the overlay and is sent |
| TicketList.TicketListComponent.LimpiarFiltros | src/app/pages/gestion/tickets/ticket-list/ticket-list.component.ts:90-97 | the filter becomes exactly `{numPagina: 1, allReg: 0, iCantFilas: 10}` and is sent |
| TicketList.TicketListComponent.Paginas | src/app/pages/gestion/tickets/ticket-list/ticket-list.component.ts:129-144 | the loop builds the window: consecutive pages inside `[1, totalPaginas]`, including a valid current page |
| TicketModels.NullIfFalsy | src/app/pages/gestion/tickets/ticket-form/ticket-form.component.ts:143-148 | `v \|\| null`: a truthy id is kept, 0 or null becomes null |
| TicketModels.TextOrEmpty | src/app/pages/gestion/tickets/ticket-update/ticket-update.component.ts:145-146 | `s \|\| ''`: a missing text becomes empty |
| TicketModels.RequestOf | src/app/pages/gestion/tickets/ticket-form/ticket-form.component.ts:141-150 | the texts are sent as they are; no id is 0; every truthy id is kept |
| TicketForm.TicketFormComponent.constructor | src/app/pages/gestion/tickets/ticket-form/ticket-form.component.ts:45-54 | empty texts, null ids, modal closed |
| TicketForm.TicketFormComponent.OnAplicacionChange | src/app/pages/gestion/tickets/ticket-form/ticket-form.component.ts:99-104 | the module selection and list are always cleared; modules are requested only for a truthy id |
| TicketForm.TicketFormComponent.OnModulosResponse | src/app/pages/gestion/tickets/ticket-form/ticket-form.component.ts:106-111 | a successful response with data replaces the list; otherwise it stays (empty after a change) |
| TicketForm.TicketFormComponent.AbrirModal | src/app/pages/gestion/tickets/ticket-form/ticket-form.component.ts:116-121 | the modal shows, the messages clear, the form resets |
| TicketForm.TicketFormComponent.CerrarModal | src/app/pages/gestion/tickets/ticket-form/ticket-form.component.ts:123-128 | the modal hides, the form resets, the messages clear |
| TicketForm.TicketFormComponent.GuardarTicket | src/app/pages/gestion/tickets/ticket-form/ticket-form.component.ts:130-150 | an invalid form only sets the message; otherwise loading starts and the create request carries the form with falsy ids as null |
| TicketUpdate.FormOf | src/app/pages/gestion/tickets/ticket-update/ticket-update.component.ts:144-153 | a stored ticket loads with missing texts as `''` and falsy ids as null |
| TicketUpdate.SaveAfterLoad | src/app/pages/gestion/tickets/ticket-update/ticket-update.component.ts:144-153 | saving a loaded ticket unedited sends the loaded texts and ids unchanged |
| TicketUpdate.TicketUpdateComponent.constructor | src/app/pages/gestion/tickets/ticket-update/ticket-update.component.ts:25-56 | empty texts, null ids, ticket id 0, nothing loading |
| TicketUpdate.TicketUpdateComponent.OnAplicacionChange | src/app/pages/gestion/tickets/ticket-update/ticket-update.component.ts:102-119 | the module selection is cleared only when no ticket is loading; the list is always emptied; modules are requested only for a truthy id |
| TicketUpdate.TicketUpdateComponent.OnModulosResponse | src/app/pages/gestion/tickets/ticket-update/ticket-update.component.ts:111-115 | a successful response with data replaces the list |
| TicketUpdate.TicketUpdateComponent.AbrirModal | src/app/pages/gestion/tickets/ticket-update/ticket-update.component.ts:121-133 | the id is kept, the modal shows, messages clear, the form resets, catalogues then the ticket are requested with `loadingTicket` set |
| TicketUpdate.TicketUpdateComponent.CargarTicket | src/app/pages/gestion/tickets/ticket-update/ticket-update.component.ts:135-138 | `loadingTicket` is set and the ticket requested |
| TicketUpdate.TicketUpdateComponent.OnTicketLoaded | src/app/pages/gestion/tickets/ticket-update/ticket-update.component.ts:139-162 | the load ends first, so with an application the cascade clears the module just patched and a restore of the ticket's module is scheduled; without one the form is the loaded ticket |
| TicketUpdate.TicketUpdateComponent.OnRestoreTimer | src/app/pages/gestion/tickets/ticket-update/ticket-update.component.ts:159-161 | the delayed patch sets only the module selection, to the ticket's module or null |
| TicketUpdate.TicketUpdateComponent.OnTicketError | src/app/pages/gestion/tickets/ticket-update/ticket-update.component.ts:164-168 | the load ends with its error message |
| TicketUpdate.TicketUpdateComponent.CerrarModal | src/app/pages/gestion/tickets/ticket-update/ticket-update.component.ts:172-178 | the modal hides, the form resets, messages clear, the loaded ticket is forgotten |
| TicketUpdate.TicketUpdateComponent.Actualizar | src/app/pages/gestion/tickets/ticket-update/ticket-update.component.ts:180-200 | an invalid form only sets the message; otherwise the update request for the ticket id carries the form with falsy ids as null |
| TicketUpdate.LoadThenRestore | src/app/pages/gestion/tickets/ticket-update/ticket-update.component.ts:139-161 | loading a ticket with an application and letting its restore fire leaves the form exactly as the ticket loads |
| TicketDetailModal.MappingKeys | src/app/pages/gestion/tickets/ticket-detail/ticket-detail.component.ts:103-109 | every item's id is a key and every key is some item's id |
| TicketDetailModal.MappingLast | src/app/pages/gestion/tickets/ticket-detail/ticket-detail.component.ts:105-107 | a later duplicate overwrites: an id maps to the description of its last item |
| TicketDetailModal.CrearMapeo | src/app/pages/gestion/tickets/ticket-detail/ticket-detail.component.ts:103-109 | the loop builds exactly the mapping |
| TicketDetailModal.Describe | src/app/pages/gestion/tickets/ticket-detail/ticket-detail.component.ts:112-115 | `N/A` for a null or zero id; the mapped description when present and non-empty; else `ID: ` and the number; never empty |
| TicketDetailModal.DescribeCatalogue | src/app/pages/gestion/tickets/ticket-detail/ticket-detail.component.ts:103-115 | through a catalogue's map, an id reads as the non-empty description of its last item |
| TicketDetailModal.DescribeUnlisted | src/app/pages/gestion/tickets/ticket-detail/ticket-detail.component.ts:103-115 | an id no catalogue item carries reads as `ID: ` and the number |
| TicketDetailModal.TicketDetailComponent.constructor | src/app/pages/gestion/tickets/ticket-detail/ticket-detail.component.ts:23-36 | the modal starts closed and idle with no error, no ticket and every catalogue map empty |
| TicketDetailModal.TicketDetailComponent.AbrirModal | src/app/pages/gestion/tickets/ticket-detail/ticket-detail.component.ts:37-41 | the id is kept, the modal opens, loading starts with no error, the ticket is requested |
| TicketDetailModal.TicketDetailComponent.CerrarModal | src/app/pages/gestion/tickets/ticket-detail/ticket-detail.component.ts:43-49 | the modal hides, ticket and id become null, the error clears, `closed` is emitted once |
| TicketDetailModal.TicketDetailComponent.OnTicketLoaded | src/app/pages/gestion/tickets/ticket-detail/ticket-detail.component.ts:57-71 | the ticket is kept and the catalogues are requested |
| TicketDetailModal.TicketDetailComponent.OnCatalogosLoaded | src/app/pages/gestion/tickets/ticket-detail/ticket-detail.component.ts:72-82 | loading ends and each catalogue becomes its mapping |
| TicketDetailModal.TicketDetailComponent.OnCatalogosError | src/app/pages/gestion/tickets/ticket-detail/ticket-detail.component.ts:88-92 | loading ends with the catalogue error |
| TicketDetailModal.TicketDetailComponent.OnTicketError | src/app/pages/gestion/tickets/ticket-detail/ticket-detail.component.ts:95-99 | loading ends with the ticket error |
| TicketDetailModal.TicketDetailComponent.ObtenerUsuario | src/app/pages/gestion/tickets/ticket-detail/ticket-detail.component.ts:112-115 | the lookup rule over the users map |
| TicketDetailModal.TicketDetailComponent.ObtenerModulo | src/app/pages/gestion/tickets/ticket-detail/ticket-detail.component.ts:117-120 | the lookup rule over the modules map |
| TicketDetailModal.TicketDetailComponent.ObtenerAplicacion | src/app/pages/gestion/tickets/ticket-detail/ticket-detail.component.ts:122-125 | the lookup rule over the applications map |
| TicketDetailModal.TicketDetailComponent.ObtenerTipoIncidencia | src/app/pages/gestion/tickets/ticket-detail/ticket-detail.component.ts:127-130 | the lookup rule over the incident types map |
| TicketDetailModal.TicketDetailComponent.ObtenerPrioridad | src/app/pages/gestion/tickets/ticket-detail/ticket-detail.component.ts:132-135 | the lookup rule over the priorities map |
| TicketDetailModal.TicketDetailComponent.ObtenerEstado | src/app/pages/gestion/tickets/ticket-detail/ticket-detail.component.ts:137-140 | the lookup rule over the states map |
| TicketDetailModal.TicketDetailComponent.ObtenerImpacto | src/app/pages/gestion/tickets/ticket-detail/ticket-detail.component.ts:142-145 | the lookup rule over the impacts map |

## Left out

- MenuService.SortMenuItems, MenuService.BuildMenuHierarchy, MenuService.MenuStore.GetMenuPorUsuario and MainLayout.Layout.OnMenuResponse: a successful response with data must come with a ghost rank witness that no reachable list contains a cycle (`MenuService.FlatMenuRanked`, `MenuService.TwoLevelMenuRanked` and `MenuService.LevelsRanked` build one for flat, two-level and level-ordered menus). On cyclic data, such as a record that is its own parent under a duplicated id (`MenuService.SelfParentUnranked`), the source's recursive sort overflows the call stack inside the response handler. The stream then errors, nothing is published, and the layout runs its error branch (`MainLayout.Layout.OnMenuError`). The rank requirement excludes that error path, so it is not modelled as an outcome of a response.
- MainLayout.Layout: the layout's `menuItems` is a value copy of the service's menu, so the aliasing between the two arrays is not modelled. The same holds for the `expanded` flags, which the source flips on objects shared with the service.
- Text.Lower, Text.ParseInt and Text.NumberOf: `toLowerCase` is modelled on ASCII letters only. `parseInt` and `Number` are modelled on decimal integers with ASCII blanks; fractions, exponents, hex, `Infinity` and Unicode spaces are not.
- Usuarios.UsuariosComponent: `reset()` turns the `sUsuario`/`sClave` controls into null; the model writes `""`. Both are falsy and every use goes through `||`. The other form fields (names, documents, workgroups, profile, company, branch, impact/priority/state) are not modelled, beyond the coercion `FormValues.ConvertirANumero` they go through.
- Usuarios.UsuariosComponent.OnUsuarioCargado: the page-level `successMessage` it clears, and the error path of the edit load (which sets the page `errorMessage`), are not modelled. The users screen keeps no page messages in this model.
- Usuarios.UsuariosComponent.OnModulosPorAplicacion: `forkJoin` results are an aligned list (`|resultados| == |ids|`), which is what `forkJoin` guarantees.
- Catalogue loaders with no local logic are not modelled: profiles, companies, branches and document types in the users screen; the type, state, priority and impact catalogues of the ticket forms; the user and company lists (`cargarUsuarios`, `cargarEmpresas`).
- The save-response handlers (`loadingModal`/`loading` reset, the success message, and the `setTimeout` that closes the modal and emits) are not modelled. The same goes for the delete and status-toggle actions of the maintenance screens.
- Console logging, `stopPropagation`/`preventDefault`, `marcarCamposComoTocados`, the validator changes in the users screen, `tabActiva` and `tituloModal` outside the companies screen are not modelled.
- The module fetch error of the ticket forms only logs, so it has no event method.
- Timers: the `setTimeout` delays themselves are not modelled. The update form's delayed module restore is an explicit `OnRestoreTimer` event, and the users screen's 0 ms credential clear coincides with the values already written.
- TicketList.Overlay: object spread is modelled key by key with `None` as an absent key. A key present with the value `undefined` is not distinguished from an absent key.
- TicketList.TicketRow: only the fields the list logic reads are kept.
- TicketDetailModal.Describe: ids are integers, so a NaN id (falsy in JavaScript, hence `N/A`) is not represented.
- Route activation by current URL and the discarding of stale responses do not exist in the source and are not modelled.
- `auth.service.ts` is not part of this model. The current user is an input (`Option<Usuario>`).
