/**
 * The main layout: the side menu's fold state, the click decision on a menu entry
 * (container, header or leaf), the collapsed side bar, menu loading and logout.
 *
 * The layout's `menuItems` are modelled as its own copy of the service's menu (an arena of
 * nodes keyed by `IdMenu`); router calls, the menu request and the auth logout are recorded
 * in an effect log in the order they are issued.
 */
module MainLayout {
  import opened Wrappers
  import opened Models
  import MenuService

  type Nodes = map<int, MenuService.MenuNode>

  /** The outward calls the layout makes. */
  datatype Effect =
    | Navigate(route: string)      // router.navigate([route])
    | RequestMenu(nombre: string)  // the menu request subscribed to by loadMenu
    | MenuCleared                  // menuService.clearMenu()
    | AuthLogout                   // authService.logout()

  /** A node is a container when it has at least one child. */
  predicate IsContainer(n: MenuService.MenuNode) {
    |n.subItems| > 0
  }

  /** The arena after toggling node `k`: a container flips its `expanded` flag, anything else stays. */
  function Toggled(nodes: Nodes, k: int): (r: Nodes)
    requires k in nodes
    ensures r.Keys == nodes.Keys
    ensures r[k].item == nodes[k].item && r[k].subItems == nodes[k].subItems
    ensures r[k].expanded == (if IsContainer(nodes[k]) then !nodes[k].expanded else nodes[k].expanded)
    ensures forall j | j in nodes && j != k :: r[j] == nodes[j]
  {
    if IsContainer(nodes[k]) then nodes[k := nodes[k].(expanded := !nodes[k].expanded)] else nodes
  }

  /** Toggling the same entry twice gives back the original arena. */
  lemma ToggleTwice(nodes: Nodes, k: int)
    requires k in nodes
    ensures Toggled(Toggled(nodes, k), k) == nodes
  {
    var once := Toggled(nodes, k);
    var twice := Toggled(once, k);
    assert forall j | j in nodes :: twice[j] == nodes[j];
  }

  /** What a click on an entry does. */
  datatype ClickAction = ToggleEntry | Ignore | GoTo(route: string, menu: string)

  /** The click decision: containers toggle, headers do nothing, leaves go to their route when it is non-empty. */
  function Decide(n: MenuService.MenuNode): ClickAction {
    if IsContainer(n) then ToggleEntry
    else if MenuService.IsHeader(n.item) then Ignore
    else
      var route := MenuService.GetRoute(n.item);
      if route != "" then GoTo(route, n.item.Menu) else Ignore
  }

  /**
   * Every leaf that is not a header navigates, to a route starting with `/`; a childless
   * header is ignored; only containers toggle.
   */
  lemma DecideCases(n: MenuService.MenuNode)
    ensures Decide(n) == ToggleEntry <==> IsContainer(n)
    ensures Decide(n) == Ignore <==> !IsContainer(n) && MenuService.IsHeader(n.item)
    ensures Decide(n).GoTo? <==> !IsContainer(n) && !MenuService.IsHeader(n.item)
    ensures Decide(n).GoTo? ==>
      Decide(n).route == MenuService.GetRoute(n.item) && Decide(n).route[0] == '/' &&
      Decide(n).menu == n.item.Menu
  {
    MenuService.RouteEmptyIffHeader(n.item);
  }

  class Layout {
    const service: MenuService.MenuStore
    var currentUser: Option<Usuario>
    var menuItems: MenuService.Menu
    var selectedMenu: string
    var isLoadingMenu: bool
    var menuCollapsed: bool
    var effects: seq<Effect>

    constructor (service: MenuService.MenuStore)
      ensures this.service == service
      ensures currentUser == None && menuItems == MenuService.EmptyMenu && selectedMenu == ""
      ensures isLoadingMenu && !menuCollapsed && effects == []
    {
      this.service := service;
      currentUser := None;
      menuItems := MenuService.EmptyMenu;
      selectedMenu := "";
      isLoadingMenu := true;
      menuCollapsed := false;
      effects := [];
    }

    /** Start-up: read the current user (an input here), then load the menu. */
    method NgOnInit(user: Option<Usuario>)
      modifies this
      ensures currentUser == user && menuItems == old(menuItems) && selectedMenu == old(selectedMenu)
      ensures menuCollapsed == old(menuCollapsed)
      ensures user.None? || user.value.nombre == "" ==> !isLoadingMenu && effects == old(effects)
      ensures user.Some? && user.value.nombre != "" ==>
        isLoadingMenu == old(isLoadingMenu) && effects == old(effects) + [RequestMenu(user.value.nombre)]
    {
      currentUser := user;
      LoadMenu();
    }

    /** Without a user, or with an empty `nombre`, loading stops at once and nothing is requested. */
    method LoadMenu()
      modifies this
      ensures currentUser == old(currentUser) && menuItems == old(menuItems)
      ensures selectedMenu == old(selectedMenu) && menuCollapsed == old(menuCollapsed)
      ensures currentUser.None? || currentUser.value.nombre == "" ==>
        !isLoadingMenu && effects == old(effects)
      ensures currentUser.Some? && currentUser.value.nombre != "" ==>
        isLoadingMenu == old(isLoadingMenu) && effects == old(effects) + [RequestMenu(currentUser.value.nombre)]
    {
      if currentUser.None? || currentUser.value.nombre == "" {
        isLoadingMenu := false;
        return;
      }
      effects := effects + [RequestMenu(currentUser.value.nombre)];
    }

    /**
     * The menu response arrives: the service's `tap` runs first (publishing a built menu when
     * the response succeeded with data), then a successful response makes the layout take the
     * service's current menu. Loading ends either way.
     */
    method OnMenuResponse(response: MenuResponse, ghost rank: map<int, nat>, ghost height: nat)
      requires response.success && response.data.Some? ==> MenuService.HierarchyRanked(response.data.value, rank, height)
      modifies this, service
      ensures !isLoadingMenu
      ensures response.success ==> menuItems == service.current
      ensures !response.success ==> menuItems == old(menuItems) && service.current == old(service.current)
      ensures response.success && response.data.None? ==> service.current == old(service.current)
      ensures response.success && response.data.Some? ==>
        var items := response.data.value;
        MenuService.Keyed(MenuService.ChildKeys(items, None), MenuService.OrdenOf(items)) &&
        menuItems.roots == MenuService.SortByOrden(MenuService.ChildKeys(items, None), MenuService.OrdenOf(items)) &&
        MenuService.OrdenTable(MenuService.Assembled(items), MenuService.OrdenOf(items)) &&
        MenuService.SortStep(MenuService.Assembled(items), menuItems.nodes, MenuService.OrdenOf(items)) &&
        MenuService.AllSorted(menuItems.roots, menuItems.nodes, rank, MenuService.OrdenOf(items), height)
      ensures currentUser == old(currentUser) && selectedMenu == old(selectedMenu)
      ensures menuCollapsed == old(menuCollapsed) && effects == old(effects)
    {
      var passed := service.GetMenuPorUsuario(response, rank, height);
      if passed.success {
        menuItems := service.GetCurrentMenu();
      }
      isLoadingMenu := false;
    }

    /** The menu request failed: loading ends and nothing else changes. */
    method OnMenuError()
      modifies this
      ensures !isLoadingMenu
      ensures currentUser == old(currentUser) && menuItems == old(menuItems)
      ensures selectedMenu == old(selectedMenu) && menuCollapsed == old(menuCollapsed)
      ensures effects == old(effects)
    {
      isLoadingMenu := false;
    }

    /** Flips the fold state of entry `k` when it has children; otherwise nothing changes. */
    method ToggleMenuItem(k: int)
      requires k in menuItems.nodes
      modifies this
      ensures menuItems == old(menuItems).(nodes := Toggled(old(menuItems.nodes), k))
      ensures currentUser == old(currentUser) && selectedMenu == old(selectedMenu)
      ensures isLoadingMenu == old(isLoadingMenu) && menuCollapsed == old(menuCollapsed)
      ensures effects == old(effects)
    {
      var n := menuItems.nodes[k];
      if |n.subItems| > 0 {
        menuItems := menuItems.(nodes := menuItems.nodes[k := n.(expanded := !n.expanded)]);
      }
    }

    /**
     * A click on entry `k`: a container is toggled and nothing else happens; a childless
     * header changes nothing; a leaf with a non-empty route becomes the selected menu and
     * the router is sent to its route.
     */
    method NavigateToMenuItem(k: int)
      requires k in menuItems.nodes
      modifies this
      ensures var action := Decide(old(menuItems.nodes[k]));
        match action
        case ToggleEntry =>
          menuItems == old(menuItems).(nodes := Toggled(old(menuItems.nodes), k)) &&
          selectedMenu == old(selectedMenu) && effects == old(effects)
        case Ignore =>
          menuItems == old(menuItems) && selectedMenu == old(selectedMenu) && effects == old(effects)
        case GoTo(route, menu) =>
          menuItems == old(menuItems) && selectedMenu == menu && effects == old(effects) + [Navigate(route)]
      ensures currentUser == old(currentUser) && isLoadingMenu == old(isLoadingMenu)
      ensures menuCollapsed == old(menuCollapsed)
    {
      var n := menuItems.nodes[k];
      if |n.subItems| > 0 {
        ToggleMenuItem(k);
        return;
      }
      if MenuService.IsHeader(n.item) {
        return;
      }
      var route := MenuService.GetRoute(n.item);
      if route != "" {
        selectedMenu := n.item.Menu;
        effects := effects + [Navigate(route)];
      }
    }

    /** Sends the router to `route`. */
    method NavigateTo(route: string)
      modifies this
      ensures effects == old(effects) + [Navigate(route)]
      ensures currentUser == old(currentUser) && menuItems == old(menuItems)
      ensures selectedMenu == old(selectedMenu) && isLoadingMenu == old(isLoadingMenu)
      ensures menuCollapsed == old(menuCollapsed)
    {
      effects := effects + [Navigate(route)];
    }

    /** The logo click: to the dashboard. */
    method NavigateToDashboard()
      modifies this
      ensures effects == old(effects) + [Navigate("/dashboard")]
      ensures currentUser == old(currentUser) && menuItems == old(menuItems)
      ensures selectedMenu == old(selectedMenu) && isLoadingMenu == old(isLoadingMenu)
      ensures menuCollapsed == old(menuCollapsed)
    {
      NavigateTo("/dashboard");
    }

    /** Collapses or expands the side bar, and nothing else. */
    method ToggleMenu()
      modifies this
      ensures menuCollapsed == !old(menuCollapsed)
      ensures currentUser == old(currentUser) && menuItems == old(menuItems)
      ensures selectedMenu == old(selectedMenu) && isLoadingMenu == old(isLoadingMenu)
      ensures effects == old(effects)
    {
      menuCollapsed := !menuCollapsed;
    }

    /** Logout clears the service's menu first, then hands over to the auth logout. */
    method Logout()
      modifies this, service
      ensures service.current == MenuService.EmptyMenu
      ensures effects == old(effects) + [MenuCleared, AuthLogout]
      ensures currentUser == old(currentUser) && menuItems == old(menuItems)
      ensures selectedMenu == old(selectedMenu) && isLoadingMenu == old(isLoadingMenu)
      ensures menuCollapsed == old(menuCollapsed)
    {
      service.ClearMenu();
      effects := effects + [MenuCleared];
      effects := effects + [AuthLogout];
    }
  }
}
