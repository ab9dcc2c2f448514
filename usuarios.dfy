/**
 * The user maintenance screen: the modules offered for the selected applications (one
 * request per application, results merged by module `Id`), the pruning of selected
 * modules that are no longer offered, the colour of each application and module, the
 * read-only rendering of stored id lists, and the credential fallback when saving.
 */
module Usuarios {
  import opened Wrappers
  import opened Text
  import opened Models
  import FormValues
  import Palette

  // ================================================================ merging module lists

  /** All per-application results, one after the other. */
  function Flatten(results: seq<seq<ComboItem>>): seq<ComboItem> {
    if results == [] then [] else Flatten(results[..|results| - 1]) + results[|results| - 1]
  }

  /** The keys of a `Map` after `set(m.Id, m)` for every entry: each id once, where it first appeared. */
  function FirstIds(flat: seq<ComboItem>): seq<int> {
    if flat == [] then []
    else
      var keys := FirstIds(flat[..|flat| - 1]);
      var id := flat[|flat| - 1].Id;
      if id in keys then keys else keys + [id]
  }

  /** The values of that `Map`: for each id, the entry set last. */
  function LastById(flat: seq<ComboItem>): map<int, ComboItem> {
    if flat == [] then map[]
    else LastById(flat[..|flat| - 1])[flat[|flat| - 1].Id := flat[|flat| - 1]]
  }

  lemma {:induction false} FirstIdsKeys(flat: seq<ComboItem>, id: int)
    ensures id in FirstIds(flat) <==> id in LastById(flat)
    ensures id in LastById(flat) <==> exists j | 0 <= j < |flat| :: flat[j].Id == id
  {
    if flat != [] {
      var init := flat[..|flat| - 1];
      FirstIdsKeys(init, id);
      if exists j | 0 <= j < |flat| :: flat[j].Id == id {
        var j :| 0 <= j < |flat| && flat[j].Id == id;
        if j < |init| { assert init[j].Id == id; }
      }
      if exists j | 0 <= j < |init| :: init[j].Id == id {
        var j :| 0 <= j < |init| && init[j].Id == id;
        assert flat[j].Id == id;
      }
    }
  }

  predicate Distinct(keys: seq<int>) {
    forall i, j | 0 <= i < j < |keys| :: keys[i] != keys[j]
  }

  /** Every id is a key once. */
  lemma {:induction false} FirstIdsDistinct(flat: seq<ComboItem>)
    ensures Distinct(FirstIds(flat))
  {
    if flat != [] {
      FirstIdsDistinct(flat[..|flat| - 1]);
    }
  }

  /** Keys already present keep their place: later results only append new ids. */
  lemma {:induction false} FirstIdsPrefix(a: seq<ComboItem>, b: seq<ComboItem>)
    ensures FirstIds(a) <= FirstIds(a + b)
  {
    if b != [] {
      var b' := b[..|b| - 1];
      FirstIdsPrefix(a, b');
      assert (a + b)[..|a + b| - 1] == a + b';
    } else {
      assert a + b == a;
    }
  }

  /** The value kept for an id is its last entry. */
  lemma {:induction false} LastByIdLast(flat: seq<ComboItem>, j: int)
    requires 0 <= j < |flat|
    requires forall l | j < l < |flat| :: flat[l].Id != flat[j].Id
    ensures flat[j].Id in LastById(flat) && LastById(flat)[flat[j].Id] == flat[j]
  {
    if j < |flat| - 1 {
      LastByIdLast(flat[..|flat| - 1], j);
    }
  }

  /** `Array.from(map.values())`. */
  function Merged(flat: seq<ComboItem>): (r: seq<ComboItem>)
    ensures |r| == |FirstIds(flat)|
  {
    var keys := FirstIds(flat);
    assert forall i | 0 <= i < |keys| :: keys[i] in LastById(flat) by {
      forall i | 0 <= i < |keys| ensures keys[i] in LastById(flat) {
        FirstIdsKeys(flat, keys[i]);
      }
    }
    seq(|keys|, i requires 0 <= i < |keys| => LastById(flat)[keys[i]])
  }

  predicate UniqueIds(items: seq<ComboItem>) {
    forall i, j | 0 <= i < j < |items| :: items[i].Id != items[j].Id
  }

  /** When no module is offered twice, merging changes nothing. */
  lemma {:induction false} MergedOfUnique(flat: seq<ComboItem>)
    requires UniqueIds(flat)
    ensures FirstIds(flat) == seq(|flat|, i requires 0 <= i < |flat| => flat[i].Id)
    ensures Merged(flat) == flat
  {
    if flat != [] {
      var init := flat[..|flat| - 1];
      MergedOfUnique(init);
      var x := flat[|flat| - 1];
      assert x.Id !in FirstIds(init) by {
        FirstIdsKeys(init, x.Id);
      }
      var r := Merged(flat);
      forall i | 0 <= i < |flat| ensures r[i] == flat[i] {
        LastByIdLast(flat, i);
      }
    }
  }

  /** The merged list holds one entry per offered id, the last one offered. */
  lemma MergedEntries(flat: seq<ComboItem>, j: int)
    requires 0 <= j < |flat|
    requires forall l | j < l < |flat| :: flat[l].Id != flat[j].Id
    ensures flat[j] in Merged(flat)
  {
    LastByIdLast(flat, j);
    FirstIdsKeys(flat, flat[j].Id);
    var keys := FirstIds(flat);
    var i :| 0 <= i < |keys| && keys[i] == flat[j].Id;
    assert Merged(flat)[i] == flat[j];
  }

  // ================================================================ pruning the selection

  /** The ids of the offered modules. */
  function OfferedIds(modulos: seq<ComboItem>): (r: seq<JsNum>)
    ensures |r| == |modulos| && forall i | 0 <= i < |r| :: r[i] == Num(modulos[i].Id)
  {
    seq(|modulos|, i requires 0 <= i < |modulos| => Num(modulos[i].Id))
  }

  /** `actual.filter(id => offered.includes(id))`. */
  function Prune(actual: seq<JsNum>, offered: seq<JsNum>): (r: seq<JsNum>)
    ensures |r| <= |actual|
  {
    if actual == [] then []
    else
      var n := |actual| - 1;
      Prune(actual[..n], offered) + (if actual[n] in offered then [actual[n]] else [])
  }

  /** An id survives exactly when it was selected and is still offered. */
  lemma {:induction false} PruneMembers(actual: seq<JsNum>, offered: seq<JsNum>, x: JsNum)
    ensures x in Prune(actual, offered) <==> x in actual && x in offered
  {
    if actual != [] {
      var n := |actual| - 1;
      PruneMembers(actual[..n], offered, x);
      assert actual == actual[..n] + [actual[n]];
    }
  }

  /** Pruning keeps the survivors in their order. */
  lemma {:induction false} PruneConcat(a: seq<JsNum>, b: seq<JsNum>, offered: seq<JsNum>)
    ensures Prune(a + b, offered) == Prune(a, offered) + Prune(b, offered)
  {
    if b == [] {
      assert a + b == a;
    } else {
      var n := |b| - 1;
      var ab := a + b;
      var last := if b[n] in offered then [b[n]] else [];
      assert ab[..|ab| - 1] == a + b[..n] && ab[|ab| - 1] == b[n];
      assert Prune(ab, offered) == Prune(a + b[..n], offered) + last;
      PruneConcat(a, b[..n], offered);
      assert Prune(b, offered) == Prune(b[..n], offered) + last;
    }
  }

  /** Pruning that removes nothing returns the selection itself, so patching only on a change is the same as always patching. */
  lemma {:induction false} PruneSameLength(actual: seq<JsNum>, offered: seq<JsNum>)
    requires |Prune(actual, offered)| == |actual|
    ensures Prune(actual, offered) == actual
  {
    if actual != [] {
      var n := |actual| - 1;
      var kept := Prune(actual[..n], offered);
      assert actual[n] in offered && |kept| == n by {
        assert |kept| <= n;
      }
      PruneSameLength(actual[..n], offered);
      assert actual[..n] + [actual[n]] == actual;
    }
  }

  // ================================================================ colours

  /** `coloresAplicaciones.get(id)` used as a condition: a present, non-empty colour. */
  function AppColor(appColors: map<int, string>, id: JsNum): (r: Option<string>)
    ensures r.Some? <==> id.Num? && id.n in appColors && appColors[id.n] != ""
    ensures r.Some? ==> r.value == appColors[id.n]
  {
    if id.Num? && id.n in appColors && appColors[id.n] != "" then Some(appColors[id.n]) else None
  }

  /** The ids carried by a list of modules. */
  function IdSet(mods: seq<ComboItem>): set<int> {
    set i | 0 <= i < |mods| :: mods[i].Id
  }

  /** Every module of `mods` set to `color`, every other entry of `m` kept. */
  function PaintAll(m: map<int, string>, mods: seq<ComboItem>, color: string): map<int, string> {
    map k | k in m.Keys + IdSet(mods) :: if k in IdSet(mods) then color else m[k]
  }

  lemma PaintNone(m: map<int, string>, color: string)
    ensures PaintAll(m, [], color) == m
  {
    assert IdSet([]) == {};
  }

  lemma PaintSnoc(m: map<int, string>, mods: seq<ComboItem>, x: ComboItem, color: string)
    ensures PaintAll(m, mods + [x], color) == PaintAll(m, mods, color)[x.Id := color]
  {
    var s := mods + [x];
    assert IdSet(s) == IdSet(mods) + {x.Id} by {
      forall k | k in IdSet(s) ensures k in IdSet(mods) + {x.Id} {
        var i :| 0 <= i < |s| && s[i].Id == k;
        if i < |mods| { assert mods[i].Id == k; }
      }
      forall k | k in IdSet(mods) ensures k in IdSet(s) {
        var i :| 0 <= i < |mods| && mods[i].Id == k;
        assert s[i].Id == k;
      }
      assert s[|mods|].Id == x.Id;
    }
  }

  /**
   * The module colour map after clearing and then, for each application in request order
   * whose colour is known, painting every module of its result with that colour.
   */
  function ModuleColors(appColors: map<int, string>, ids: seq<JsNum>, results: seq<seq<ComboItem>>): map<int, string>
    requires |ids| == |results|
  {
    if ids == [] then map[]
    else
      var n := |ids| - 1;
      var prev := ModuleColors(appColors, ids[..n], results[..n]);
      match AppColor(appColors, ids[n])
      case Some(c) => PaintAll(prev, results[n], c)
      case None => prev
  }

  /** Application `a` has a known colour and offers module `id`. */
  predicate PaintsWith(appColors: map<int, string>, ids: seq<JsNum>, results: seq<seq<ComboItem>>, a: int, id: int)
    requires |ids| == |results|
  {
    0 <= a < |ids| && AppColor(appColors, ids[a]).Some? && id in IdSet(results[a])
  }

  /** A module is coloured exactly when some application with a known colour offers it. */
  lemma {:induction false} ModuleColorsKeys(appColors: map<int, string>, ids: seq<JsNum>,
                                            results: seq<seq<ComboItem>>, id: int)
    requires |ids| == |results|
    ensures id in ModuleColors(appColors, ids, results) <==>
      exists a :: PaintsWith(appColors, ids, results, a, id)
  {
    if ids != [] {
      var n := |ids| - 1;
      ModuleColorsKeys(appColors, ids[..n], results[..n], id);
      if exists a :: PaintsWith(appColors, ids, results, a, id) {
        var a :| PaintsWith(appColors, ids, results, a, id);
        if a < n {
          assert PaintsWith(appColors, ids[..n], results[..n], a, id);
        }
      }
      if exists a :: PaintsWith(appColors, ids[..n], results[..n], a, id) {
        var a :| PaintsWith(appColors, ids[..n], results[..n], a, id);
        assert PaintsWith(appColors, ids, results, a, id);
      }
      if PaintsWith(appColors, ids, results, n, id) {
        assert exists a :: PaintsWith(appColors, ids, results, a, id);
      }
    }
  }

  /** A coloured module carries the colour of the last application in request order that paints it. */
  lemma {:induction false} ModuleColorsLast(appColors: map<int, string>, ids: seq<JsNum>,
                                            results: seq<seq<ComboItem>>, a: int, id: int)
    requires |ids| == |results|
    requires PaintsWith(appColors, ids, results, a, id)
    requires forall b | a < b < |ids| :: !PaintsWith(appColors, ids, results, b, id)
    ensures id in ModuleColors(appColors, ids, results)
    ensures ModuleColors(appColors, ids, results)[id] == AppColor(appColors, ids[a]).value
  {
    var n := |ids| - 1;
    if a < n {
      assert PaintsWith(appColors, ids[..n], results[..n], a, id);
      forall b | a < b < n ensures !PaintsWith(appColors, ids[..n], results[..n], b, id) {
        assert !PaintsWith(appColors, ids, results, b, id);
      }
      ModuleColorsLast(appColors, ids[..n], results[..n], a, id);
      assert !PaintsWith(appColors, ids, results, n, id);
    }
  }

  /** One more application's result: painted with its colour when it has one. */
  lemma ModuleColorsStep(appColors: map<int, string>, ids: seq<JsNum>, results: seq<seq<ComboItem>>, a: int)
    requires |ids| == |results| && 0 <= a < |ids|
    ensures ModuleColors(appColors, ids[..a + 1], results[..a + 1]) ==
      match AppColor(appColors, ids[a])
      case Some(c) => PaintAll(ModuleColors(appColors, ids[..a], results[..a]), results[a], c)
      case None => ModuleColors(appColors, ids[..a], results[..a])
  {
    assert ids[..a + 1][..a] == ids[..a] && results[..a + 1][..a] == results[..a];
  }

  // ================================================================ reading stored id lists

  /** One entry of the read-only list: the id and the name shown for it. */
  datatype Named = Named(id: int, nombre: string)

  /** `catalogue.find(c => c.Id === id)`. */
  function FindById(catalogue: seq<ComboItem>, id: int): (r: Option<ComboItem>)
    ensures r.Some? ==> r.value in catalogue && r.value.Id == id
    ensures r.None? ==> forall c | c in catalogue :: c.Id != id
  {
    if catalogue == [] then None
    else if catalogue[0].Id == id then Some(catalogue[0])
    else FindById(catalogue[1..], id)
  }

  /** The first catalogue entry with the id wins. */
  lemma {:induction false} FindByIdFirst(catalogue: seq<ComboItem>, id: int, j: int)
    requires 0 <= j < |catalogue| && catalogue[j].Id == id
    requires forall l | 0 <= l < j :: catalogue[l].Id != id
    ensures FindById(catalogue, id) == Some(catalogue[j])
  {
    if j > 0 {
      FindByIdFirst(catalogue[1..], id, j - 1);
    }
  }

  /** Each id with its catalogue description, or `prefix` followed by the id when the catalogue lacks it. */
  function NamesOf(ids: seq<int>, catalogue: seq<ComboItem>, prefix: string): (r: seq<Named>)
    ensures |r| == |ids|
    ensures forall i | 0 <= i < |ids| :: r[i].id == ids[i]
    ensures forall i | 0 <= i < |ids| :: FindById(catalogue, ids[i]).Some? ==>
      r[i].nombre == FindById(catalogue, ids[i]).value.Descripcion
    ensures forall i | 0 <= i < |ids| :: FindById(catalogue, ids[i]).None? ==>
      r[i].nombre == prefix + ShowInt(ids[i])
  {
    seq(|ids|, i requires 0 <= i < |ids| =>
      Named(ids[i], match FindById(catalogue, ids[i]) case Some(c) => c.Descripcion case None => prefix + ShowInt(ids[i])))
  }

  /** `obtenerAplicaciones` / `obtenerModulos` on a stored string: blank gives nothing, else every readable id, named. */
  function NamedIds(s: Option<string>, catalogue: seq<ComboItem>, prefix: string): (r: seq<Named>)
    ensures s.None? || Trim(s.value) == "" ==> r == []
    ensures s.Some? && Trim(s.value) != "" ==> r == NamesOf(FormValues.IdsOf(s.value), catalogue, prefix)
  {
    if s.None? || s.value == "" || Trim(s.value) == "" then [] else NamesOf(FormValues.IdsOf(s.value), catalogue, prefix)
  }

  /** A list saved by `join(',')` is shown with the same ids, in the same order, duplicates kept. */
  lemma NamedIdsOfJoin(xs: seq<int>, catalogue: seq<ComboItem>, prefix: string)
    ensures var r := NamedIds(Some(Join(FormValues.ShowInts(xs))), catalogue, prefix);
      |r| == |xs| && forall i | 0 <= i < |xs| :: r[i].id == xs[i]
  {
    var s := Join(FormValues.ShowInts(xs));
    FormValues.IdsOfJoin(xs);
    if Trim(s) == "" {
      FormValues.IdsOfBlank(s);
    }
  }

  // ================================================================ saving

  /**
   * `sUsuario`/`sClave` sent on save: what was typed, or, when editing with the original
   * record loaded and nothing typed, the original value; else empty.
   */
  function CredentialFallback(typed: string, modoEdicion: bool, original: Option<string>): (r: string)
    ensures typed != "" ==> r == typed
    ensures typed == "" && modoEdicion && original.Some? ==> r == original.value
    ensures typed == "" && !(modoEdicion && original.Some?) ==> r == ""
  {
    if typed != "" then typed else if modoEdicion && original.Some? then original.value else ""
  }

  /** The audit user sent on save: the lower-cased name of the logged-in user, or `admin`. */
  function AuditUser(user: Option<Usuario>): (r: string)
    ensures r != ""
    ensures user.Some? && user.value.nombre != "" ==> r == Lower(user.value.nombre)
    ensures user.None? || user.value.nombre == "" ==> r == "admin"
  {
    if user.Some? && Lower(user.value.nombre) != "" then Lower(user.value.nombre) else "admin"
  }

  // ================================================================ the screen

  /** The stored credentials of the user loaded for editing. */
  datatype Credentials = Credentials(sUsuario: string, pass: string)

  /** The fields of the save request that this model follows. */
  datatype UsuarioData = UsuarioData(sUsuario: string, sClave: string, idAplicacion: string, idModulo: string, usuario: string)

  /** A save: an update of the user being edited, or a creation. */
  datatype SaveRequest = Create(data: UsuarioData) | Update(id: int, data: UsuarioData)

  /** A multiselect control's value as the untyped value the conversions receive. */
  function ControlValue(v: Option<seq<JsNum>>): (r: FormValues.Raw)
    ensures v.None? ==> r == FormValues.RNull
    ensures v.Some? ==> r == FormValues.RArray(v.value)
  {
    match v
    case None => FormValues.RNull
    case Some(xs) => FormValues.RArray(xs)
  }

  const RequiredMessage: string := "Por favor complete todos los campos requeridos"

  class UsuariosComponent {
    var aplicaciones: seq<ComboItem>
    var modulosCompletos: seq<ComboItem>
    var modulos: seq<ComboItem>
    var coloresAplicaciones: map<int, string>
    var coloresModulos: map<int, string>
    /** The `IdAplicacion` and `IdModulo` form controls (`None` is null). */
    var idAplicacion: Option<seq<JsNum>>
    var idModulo: Option<seq<JsNum>>
    /** The `sUsuario` and `sClave` form controls. */
    var sUsuario: string
    var sClave: string
    var modoEdicion: bool
    var usuarioIdEdicion: Option<int>
    var usuarioActual: Option<Credentials>
    var mostrarModal: bool
    var errorModal: string
    /** Every batch of per-application module requests issued, by application ids. */
    var requests: seq<seq<JsNum>>
    /** Every save request issued. */
    var saves: seq<SaveRequest>

    constructor ()
      ensures aplicaciones == [] && modulosCompletos == [] && modulos == []
      ensures coloresAplicaciones == map[] && coloresModulos == map[]
      ensures idAplicacion == Some([]) && idModulo == Some([]) && sUsuario == "" && sClave == ""
      ensures !modoEdicion && usuarioIdEdicion == None && usuarioActual == None
      ensures !mostrarModal && errorModal == "" && requests == [] && saves == []
    {
      aplicaciones := [];
      modulosCompletos := [];
      modulos := [];
      coloresAplicaciones := map[];
      coloresModulos := map[];
      idAplicacion := Some([]);
      idModulo := Some([]);
      sUsuario := "";
      sClave := "";
      modoEdicion := false;
      usuarioIdEdicion := None;
      usuarioActual := None;
      mostrarModal := false;
      errorModal := "";
      requests := [];
      saves := [];
    }

    /** The application catalogue arrived: keep it and colour it. */
    method OnAplicacionesLoaded(data: seq<ComboItem>)
      modifies this`aplicaciones, this`coloresAplicaciones
      ensures aplicaciones == data && coloresAplicaciones == Palette.IndexColors(data)
    {
      aplicaciones := data;
      AsignarColoresAplicaciones(data);
    }

    /** The full module catalogue arrived: keep it; nothing is offered until applications are chosen. */
    method OnModulosCompletosLoaded(data: seq<ComboItem>)
      modifies this`modulosCompletos, this`modulos
      ensures modulosCompletos == data && modulos == []
    {
      modulosCompletos := data;
      modulos := [];
    }

    method AsignarColoresAplicaciones(apps: seq<ComboItem>)
      modifies this`coloresAplicaciones
      ensures coloresAplicaciones == Palette.IndexColors(apps)
    {
      coloresAplicaciones := Palette.AssignIndexColors(apps);
    }

    /** The user changed the selected applications; the value change triggers the filtering. */
    method SetAplicaciones(v: Option<seq<JsNum>>)
      modifies this`idAplicacion, this`modulos, this`idModulo, this`requests
      ensures idAplicacion == v
      ensures v.None? || v.value == [] ==> modulos == [] && idModulo == Some([]) && requests == old(requests)
      ensures v.Some? && v.value != [] && modulosCompletos == [] ==>
        modulos == old(modulos) && idModulo == old(idModulo) && requests == old(requests)
      ensures v.Some? && v.value != [] && modulosCompletos != [] ==>
        modulos == old(modulos) && idModulo == old(idModulo) && requests == old(requests) + [v.value]
    {
      idAplicacion := v;
      FiltrarModulosPorAplicaciones(v);
    }

    /**
     * No application selected: nothing offered and no module selected. Full catalogue not
     * loaded yet: nothing happens. Otherwise one request per selected application is issued.
     */
    method FiltrarModulosPorAplicaciones(ids: Option<seq<JsNum>>)
      modifies this`modulos, this`idModulo, this`requests
      ensures ids.None? || ids.value == [] ==> modulos == [] && idModulo == Some([]) && requests == old(requests)
      ensures ids.Some? && ids.value != [] && modulosCompletos == [] ==>
        modulos == old(modulos) && idModulo == old(idModulo) && requests == old(requests)
      ensures ids.Some? && ids.value != [] && modulosCompletos != [] ==>
        modulos == old(modulos) && idModulo == old(idModulo) && requests == old(requests) + [ids.value]
    {
      if ids.None? || |ids.value| == 0 {
        modulos := [];
        idModulo := Some([]);
        return;
      }
      if |modulosCompletos| == 0 {
        return;
      }
      requests := requests + [ids.value];
    }

    /**
     * All per-application results arrived (in request order): the offered modules become
     * the merge of the results by `Id`, modules take their application's colour, and
     * selected modules no longer offered are dropped.
     */
    method OnModulosPorAplicacion(ids: seq<JsNum>, resultados: seq<seq<ComboItem>>)
      requires |resultados| == |ids|
      modifies this`modulos, this`coloresModulos, this`idModulo
      ensures modulos == Merged(Flatten(resultados))
      ensures coloresModulos == ModuleColors(coloresAplicaciones, ids, resultados)
      ensures old(idModulo).None? ==> idModulo == None
      ensures old(idModulo).Some? ==> idModulo == Some(Prune(old(idModulo).value, OfferedIds(modulos)))
    {
      modulos := MergeModules(resultados);
      AsignarColoresModulos(ids, resultados);
      var actuales := if idModulo.Some? then idModulo.value else [];
      var validos := FilterOffered(actuales, modulos);
      if |actuales| != |validos| {
        idModulo := Some(validos);
      } else if idModulo.Some? {
        PruneSameLength(actuales, OfferedIds(modulos));
      }
    }

    /** The module requests failed: nothing is offered; the selection stays as it is. */
    method OnModulosPorAplicacionError()
      modifies this`modulos
      ensures modulos == []
    {
      modulos := [];
    }

    /**
     * A new user: not editing, no edit id and no original record. Resetting the form
     * filters with a null and then an empty application list, which clears the offered
     * modules and the module selection; the credentials are blanked and the modal opens.
     */
    method AbrirModalNuevo()
      modifies this`modoEdicion, this`usuarioIdEdicion, this`usuarioActual, this`sUsuario, this`sClave
      modifies this`idAplicacion, this`idModulo, this`modulos, this`requests, this`mostrarModal, this`errorModal
      ensures !modoEdicion && usuarioIdEdicion == None && usuarioActual == None
      ensures sUsuario == "" && sClave == "" && idAplicacion == Some([]) && idModulo == Some([])
      ensures modulos == [] && mostrarModal && errorModal == "" && requests == old(requests)
    {
      modoEdicion, usuarioIdEdicion, usuarioActual := false, None, None;
      SetAplicaciones(None);
      sUsuario := "";
      sClave := "";
      SetAplicaciones(Some([]));
      idModulo := Some([]);
      modulos := [];
      mostrarModal := true;
      errorModal := "";
    }

    /**
     * The full record of user `id` arrived for editing. The stored id lists are split into
     * the multiselects (patching the applications filters once through the value change),
     * and a stored application list filters once more explicitly; the credentials are
     * left blank and the originals kept for the save.
     */
    method OnUsuarioCargado(id: int, original: Credentials, storedApps: FormValues.Raw, storedMods: FormValues.Raw)
      modifies this`modoEdicion, this`usuarioIdEdicion, this`usuarioActual, this`sUsuario, this`sClave
      modifies this`idAplicacion, this`idModulo, this`modulos, this`requests, this`mostrarModal, this`errorModal
      ensures modoEdicion && usuarioIdEdicion == Some(id) && usuarioActual == Some(original)
      ensures sUsuario == "" && sClave == ""
      ensures idAplicacion == Some(FormValues.SplitIds(storedApps)) && idModulo == Some(FormValues.SplitIds(storedMods))
      ensures !FormValues.Truthy(storedApps) ==> modulos == [] && requests == old(requests)
      ensures FormValues.Truthy(storedApps) && modulosCompletos == [] ==>
        modulos == old(modulos) && requests == old(requests)
      ensures FormValues.Truthy(storedApps) && modulosCompletos != [] ==>
        modulos == old(modulos) &&
        requests == old(requests) + [FormValues.SplitIds(storedApps), FormValues.SplitIds(storedApps)]
      ensures mostrarModal && errorModal == ""
    {
      EntrarEdicion(id, original);
      PatchSelecciones(storedApps, storedMods);
      mostrarModal, errorModal := true, "";
    }

    /** Edit mode for user `id`: its original record is kept and the credentials are blanked. */
    method EntrarEdicion(id: int, original: Credentials)
      modifies this`modoEdicion, this`usuarioIdEdicion, this`usuarioActual, this`sUsuario, this`sClave
      ensures modoEdicion && usuarioIdEdicion == Some(id) && usuarioActual == Some(original)
      ensures sUsuario == "" && sClave == ""
    {
      modoEdicion, usuarioIdEdicion, usuarioActual := true, Some(id), Some(original);
      sUsuario, sClave := "", "";
    }

    /** The multiselect part of loading a user for editing. */
    method PatchSelecciones(storedApps: FormValues.Raw, storedMods: FormValues.Raw)
      modifies this`idAplicacion, this`idModulo, this`modulos, this`requests
      ensures idAplicacion == Some(FormValues.SplitIds(storedApps)) && idModulo == Some(FormValues.SplitIds(storedMods))
      ensures !FormValues.Truthy(storedApps) ==> modulos == [] && requests == old(requests)
      ensures FormValues.Truthy(storedApps) && modulosCompletos == [] ==>
        modulos == old(modulos) && requests == old(requests)
      ensures FormValues.Truthy(storedApps) && modulosCompletos != [] ==>
        modulos == old(modulos) &&
        requests == old(requests) + [FormValues.SplitIds(storedApps), FormValues.SplitIds(storedApps)]
    {
      var apps := FormValues.SplitIds(storedApps);
      SetAplicaciones(Some(apps));
      idModulo := Some(FormValues.SplitIds(storedMods));
      if FormValues.Truthy(storedApps) {
        FiltrarModulosPorAplicaciones(Some(apps));
      }
    }

    /**
     * Closing resets the form with empty multiselects (the value change filters with an
     * empty list), clears the offered modules and the error, and forgets the edit id; the
     * edit mode and the original record stay. Text controls reset to empty.
     */
    method CerrarModal()
      modifies this`mostrarModal, this`sUsuario, this`sClave, this`idAplicacion, this`idModulo
      modifies this`modulos, this`requests, this`errorModal, this`usuarioIdEdicion
      ensures !mostrarModal && errorModal == "" && usuarioIdEdicion == None
      ensures idAplicacion == Some([]) && idModulo == Some([]) && modulos == []
      ensures sUsuario == "" && sClave == "" && requests == old(requests)
    {
      mostrarModal := false;
      sUsuario := "";
      sClave := "";
      SetAplicaciones(Some([]));
      idModulo := Some([]);
      modulos := [];
      errorModal := "";
      usuarioIdEdicion := None;
    }

    /**
     * Save. An invalid form only sets the required-fields message. Otherwise the request
     * carries the typed credentials or, when editing, the original ones; both id lists
     * joined with commas; and the audit user. It is an update when editing with an edit
     * id, else a creation.
     */
    method GuardarUsuario(valid: bool, user: Option<Usuario>)
      modifies this`errorModal, this`saves
      ensures !valid ==> errorModal == RequiredMessage && saves == old(saves)
      ensures valid ==>
        var data := UsuarioData(
          CredentialFallback(sUsuario, modoEdicion, if usuarioActual.Some? then Some(usuarioActual.value.sUsuario) else None),
          CredentialFallback(sClave, modoEdicion, if usuarioActual.Some? then Some(usuarioActual.value.pass) else None),
          FormValues.ConvertirArrayAString(ControlValue(idAplicacion)),
          FormValues.ConvertirArrayAString(ControlValue(idModulo)),
          AuditUser(user));
        errorModal == "" &&
        saves == old(saves) + [if modoEdicion && usuarioIdEdicion.Some? then Update(usuarioIdEdicion.value, data) else Create(data)]
    {
      if !valid {
        errorModal := RequiredMessage;
        return;
      }
      errorModal := "";
      var usuario := AuditUser(user);
      var originalUser := if modoEdicion && usuarioActual.Some? then Some(usuarioActual.value.sUsuario) else None;
      var originalPass := if modoEdicion && usuarioActual.Some? then Some(usuarioActual.value.pass) else None;
      var data := UsuarioData(
        if sUsuario != "" then sUsuario else if originalUser.Some? then originalUser.value else "",
        if sClave != "" then sClave else if originalPass.Some? then originalPass.value else "",
        FormValues.ConvertirArrayAString(ControlValue(idAplicacion)),
        FormValues.ConvertirArrayAString(ControlValue(idModulo)),
        usuario);
      if modoEdicion && usuarioIdEdicion.Some? {
        saves := saves + [Update(usuarioIdEdicion.value, data)];
      } else {
        saves := saves + [Create(data)];
      }
    }

    /** Clears the module colours, then paints each coloured application's modules. */
    method AsignarColoresModulos(ids: seq<JsNum>, resultados: seq<seq<ComboItem>>)
      requires |resultados| == |ids|
      modifies this`coloresModulos
      ensures coloresModulos == ModuleColors(coloresAplicaciones, ids, resultados)
    {
      coloresModulos := ColorModules(coloresAplicaciones, ids, resultados);
    }

    function ObtenerAplicaciones(idsString: Option<string>): (r: seq<Named>)
      reads this
      ensures r == NamedIds(idsString, aplicaciones, "App ")
    {
      NamedIds(idsString, aplicaciones, "App ")
    }

    function ObtenerModulos(idsString: Option<string>): (r: seq<Named>)
      reads this
      ensures r == NamedIds(idsString, modulosCompletos, "Mod ")
    {
      NamedIds(idsString, modulosCompletos, "Mod ")
    }

    /** The application's colour, grey when it has none. */
    function ObtenerColorAplicacion(id: int): (r: string)
      reads this
      ensures id in coloresAplicaciones && coloresAplicaciones[id] != "" ==> r == coloresAplicaciones[id]
      ensures !(id in coloresAplicaciones && coloresAplicaciones[id] != "") ==> r == Palette.Grey
    {
      if id in coloresAplicaciones && coloresAplicaciones[id] != "" then coloresAplicaciones[id] else Palette.Grey
    }

    /** A catalogued module's colour, grey when it has none or is not in the catalogue. */
    function ObtenerColorModulo(id: int): (r: string)
      reads this
      ensures FindById(modulosCompletos, id).Some? && id in coloresModulos && coloresModulos[id] != "" ==>
        r == coloresModulos[id]
      ensures FindById(modulosCompletos, id).None? || !(id in coloresModulos && coloresModulos[id] != "") ==>
        r == Palette.Grey
    {
      if FindById(modulosCompletos, id).Some? then
        (if id in coloresModulos && coloresModulos[id] != "" then coloresModulos[id] else Palette.Grey)
      else Palette.Grey
    }
  }

  /** `asignarColoresModulos`: clears the colour map, then paints each coloured application's modules in request order. */
  method ColorModules(appColors: map<int, string>, ids: seq<JsNum>, resultados: seq<seq<ComboItem>>)
    returns (colores: map<int, string>)
    requires |resultados| == |ids|
    ensures colores == ModuleColors(appColors, ids, resultados)
  {
    colores := map[];
    var a := 0;
    while a < |ids|
      invariant 0 <= a <= |ids|
      invariant colores == ModuleColors(appColors, ids[..a], resultados[..a])
    {
      ModuleColorsStep(appColors, ids, resultados, a);
      var color := AppColor(appColors, ids[a]);
      if color.Some? {
        var mods := resultados[a];
        var base := colores;
        PaintNone(base, color.value);
        var m := 0;
        while m < |mods|
          invariant 0 <= m <= |mods|
          invariant colores == PaintAll(base, mods[..m], color.value)
        {
          PaintSnoc(base, mods[..m], mods[m], color.value);
          assert mods[..m + 1] == mods[..m] + [mods[m]];
          colores := colores[mods[m].Id := color.value];
          m := m + 1;
        }
        assert mods[..m] == mods;
      }
      a := a + 1;
    }
    assert ids[..a] == ids && resultados[..a] == resultados;
  }

  /** The two `forEach` loops filling the `Map` by module `Id`, then `Array.from(map.values())`. */
  method MergeModules(resultados: seq<seq<ComboItem>>) returns (modulos: seq<ComboItem>)
    ensures modulos == Merged(Flatten(resultados))
  {
    var keys: seq<int> := [];
    var values: map<int, ComboItem> := map[];
    var r := 0;
    while r < |resultados|
      invariant 0 <= r <= |resultados|
      invariant keys == FirstIds(Flatten(resultados[..r]))
      invariant values == LastById(Flatten(resultados[..r]))
    {
      assert resultados[..r + 1][..r] == resultados[..r];
      keys, values := MergeInto(keys, values, Flatten(resultados[..r]), resultados[r]);
      r := r + 1;
    }
    assert resultados[..r] == resultados;
    var flat := Flatten(resultados);
    forall i | 0 <= i < |keys| ensures keys[i] in values {
      FirstIdsKeys(flat, keys[i]);
    }
    modulos := seq(|keys|, i requires 0 <= i < |keys| => values[keys[i]]);
  }

  /** Setting one more module: a new id is appended to the keys, and its value is replaced. */
  lemma MergeStep(seen: seq<ComboItem>, mods: seq<ComboItem>, m: int)
    requires 0 <= m < |mods|
    ensures FirstIds(seen + mods[..m + 1]) ==
      if mods[m].Id in FirstIds(seen + mods[..m]) then FirstIds(seen + mods[..m])
      else FirstIds(seen + mods[..m]) + [mods[m].Id]
    ensures LastById(seen + mods[..m + 1]) == LastById(seen + mods[..m])[mods[m].Id := mods[m]]
  {
    var prefix := seen + mods[..m];
    var next := seen + mods[..m + 1];
    assert next == prefix + [mods[m]];
    assert next[..|next| - 1] == prefix && next[|next| - 1] == mods[m];
  }

  /** One application's result `forEach`: `set(m.Id, m)` for every module in turn. */
  method MergeInto(keys0: seq<int>, values0: map<int, ComboItem>, ghost seen: seq<ComboItem>, mods: seq<ComboItem>)
    returns (keys: seq<int>, values: map<int, ComboItem>)
    requires keys0 == FirstIds(seen) && values0 == LastById(seen)
    ensures keys == FirstIds(seen + mods) && values == LastById(seen + mods)
  {
    keys, values := keys0, values0;
    var m := 0;
    assert seen + mods[..0] == seen;
    while m < |mods|
      invariant 0 <= m <= |mods|
      invariant keys == FirstIds(seen + mods[..m])
      invariant values == LastById(seen + mods[..m])
    {
      MergeStep(seen, mods, m);
      if mods[m].Id !in keys {
        keys := keys + [mods[m].Id];
      }
      values := values[mods[m].Id := mods[m]];
      m := m + 1;
    }
    assert mods[..m] == mods;
  }

  /** `actual.filter(id => offered.map(m => m.Id).includes(id))`, as a loop. */
  method FilterOffered(actual: seq<JsNum>, modulos: seq<ComboItem>) returns (validos: seq<JsNum>)
    ensures validos == Prune(actual, OfferedIds(modulos))
  {
    var offered := OfferedIds(modulos);
    validos := [];
    var i := 0;
    while i < |actual|
      invariant 0 <= i <= |actual|
      invariant validos == Prune(actual[..i], offered)
    {
      assert actual[..i + 1][..i] == actual[..i];
      if actual[i] in offered {
        validos := validos + [actual[i]];
      }
      i := i + 1;
    }
    assert actual[..i] == actual;
  }
}
