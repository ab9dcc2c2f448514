/**
 * The menu service: it turns the flat menu records into a forest, sorts every
 * sibling list by `Orden`, classifies header entries, derives routes and holds the
 * published menu.
 *
 * The service builds node objects and pushes references to them into the root list
 * and into the `subItems` of other nodes. Every reference it pushes is the node it
 * stored in its id-to-node map under some `IdMenu`, so the model keeps the nodes in
 * an arena `map<int, MenuNode>` keyed by `IdMenu` and the lists hold keys: a node
 * pushed into two lists is one key in two lists.
 */
module MenuService {
  import opened Wrappers
  import opened Models
  import Text

  /** A node of the built menu: the record's fields, its children (as keys) and its fold state. */
  datatype MenuNode = MenuNode(item: MenuItem, subItems: seq<int>, expanded: bool)

  /** A built menu: the root list and the nodes it refers to. */
  datatype Menu = Menu(roots: seq<int>, nodes: map<int, MenuNode>)

  const EmptyMenu: Menu := Menu([], map[])

  // ================================================================ headers and routes

  /** An entry is a header (no navigation of its own) when its view or its controller is `##`. */
  predicate IsHeader(item: MenuItem) {
    item.Vista == "##" || item.Controlador == "##"
  }

  /** The route of an entry: empty for headers, else `/` + lower-cased controller + `/` + view. */
  function GetRoute(item: MenuItem): (r: string)
    ensures IsHeader(item) ==> r == ""
    ensures !IsHeader(item) ==>
      |r| == |item.Controlador| + |item.Vista| + 2 && r[0] == '/' &&
      r[1..|item.Controlador| + 1] == Text.Lower(item.Controlador) &&
      r[|item.Controlador| + 1] == '/' &&
      r[|item.Controlador| + 2..] == item.Vista
  {
    if IsHeader(item) then "" else "/" + Text.Lower(item.Controlador) + "/" + item.Vista
  }

  /** A route is empty exactly for headers, and a non-empty route carries no upper-case controller letter. */
  lemma RouteEmptyIffHeader(item: MenuItem)
    ensures GetRoute(item) == "" <==> IsHeader(item)
    ensures !IsHeader(item) ==>
      forall i | 1 <= i <= |item.Controlador| :: !('A' <= GetRoute(item)[i] <= 'Z')
  {
    Text.LowerHasNoUpper(item.Controlador);
  }

  /** The entry `Controlador = Gestion`, `Vista = Tickets` is routed to `/gestion/Tickets`. */
  lemma RouteOfTickets(item: MenuItem)
    requires item.Controlador == "Gestion" && item.Vista == "Tickets"
    ensures GetRoute(item) == "/gestion/Tickets"
  {
  }

  // ================================================================ specification of the build

  function Last(items: seq<MenuItem>): MenuItem
    requires items != []
  {
    items[|items| - 1]
  }

  /** The id-to-record table after storing every record in order: the last record of an id wins. */
  function RecordTable(items: seq<MenuItem>): map<int, MenuItem> {
    if items == [] then map[]
    else RecordTable(items[..|items| - 1])[Last(items).IdMenu := Last(items)]
  }

  /**
   * The ids pushed, in order, into the list of `parent` (the root list when `parent` is
   * `None`): one entry per record whose `IdPadre` is `parent`.
   */
  function ChildKeys(items: seq<MenuItem>, parent: Option<int>): seq<int> {
    if items == [] then []
    else
      var own := if Last(items).IdPadre == parent then [Last(items).IdMenu] else [];
      ChildKeys(items[..|items| - 1], parent) + own
  }

  lemma RecordTableSnoc(items: seq<MenuItem>, i: int)
    requires 0 <= i < |items|
    ensures RecordTable(items[..i + 1]) == RecordTable(items[..i])[items[i].IdMenu := items[i]]
  {
    assert items[..i + 1][..i] == items[..i];
  }

  lemma ChildKeysSnoc(items: seq<MenuItem>, i: int, parent: Option<int>)
    requires 0 <= i < |items|
    ensures ChildKeys(items[..i + 1], parent) ==
            ChildKeys(items[..i], parent) + (if items[i].IdPadre == parent then [items[i].IdMenu] else [])
  {
    assert items[..i + 1][..i] == items[..i];
  }

  predicate UniqueIds(items: seq<MenuItem>) {
    forall i, j | 0 <= i < j < |items| :: items[i].IdMenu != items[j].IdMenu
  }

  /** Every record's id gets a slot in the table, and only those. */
  lemma {:induction false} RecordTableKeys(items: seq<MenuItem>, id: int)
    ensures id in RecordTable(items) <==> exists j | 0 <= j < |items| :: items[j].IdMenu == id
  {
    if items != [] {
      var init := items[..|items| - 1];
      RecordTableKeys(init, id);
      if exists j | 0 <= j < |items| :: items[j].IdMenu == id {
        var j :| 0 <= j < |items| && items[j].IdMenu == id;
        if j < |init| { assert init[j].IdMenu == id; }
      }
      if exists j | 0 <= j < |init| :: init[j].IdMenu == id {
        var j :| 0 <= j < |init| && init[j].IdMenu == id;
        assert items[j].IdMenu == id;
      }
    }
  }

  /** With duplicate ids, the last record holding an id is the one stored. */
  lemma {:induction false} RecordTableLastWins(items: seq<MenuItem>, j: int)
    requires 0 <= j < |items|
    requires forall l | j < l < |items| :: items[l].IdMenu != items[j].IdMenu
    ensures items[j].IdMenu in RecordTable(items) && RecordTable(items)[items[j].IdMenu] == items[j]
  {
    if j < |items| - 1 {
      RecordTableLastWins(items[..|items| - 1], j);
    }
  }

  /** An id lands in the list of `parent` exactly when some record with that id names `parent`. */
  lemma {:induction false} ChildKeysMembers(items: seq<MenuItem>, parent: Option<int>, id: int)
    ensures id in ChildKeys(items, parent) <==>
      exists j | 0 <= j < |items| :: items[j].IdMenu == id && items[j].IdPadre == parent
  {
    if items != [] {
      var init := items[..|items| - 1];
      ChildKeysMembers(init, parent, id);
      if exists j | 0 <= j < |items| :: items[j].IdMenu == id && items[j].IdPadre == parent {
        var j :| 0 <= j < |items| && items[j].IdMenu == id && items[j].IdPadre == parent;
        if j < |init| { assert init[j].IdMenu == id && init[j].IdPadre == parent; }
      }
      if exists j | 0 <= j < |init| :: init[j].IdMenu == id && init[j].IdPadre == parent {
        var j :| 0 <= j < |init| && init[j].IdMenu == id && init[j].IdPadre == parent;
        assert items[j].IdMenu == id && items[j].IdPadre == parent;
      }
    }
  }

  /**
   * With unique ids every record is placed once: its id occurs exactly once in the list
   * named by its `IdPadre` and in no other list.
   */
  lemma {:induction false} PlacedOnce(items: seq<MenuItem>, j: int)
    requires UniqueIds(items) && 0 <= j < |items|
    ensures multiset(ChildKeys(items, items[j].IdPadre))[items[j].IdMenu] == 1
    ensures forall q: Option<int> | q != items[j].IdPadre :: items[j].IdMenu !in ChildKeys(items, q)
  {
    var init := items[..|items| - 1];
    assert UniqueIds(init);
    if j == |items| - 1 {
      PlacedLast(items);
    } else {
      PlacedOnce(init, j);
      assert init[j] == items[j];
      assert Last(items).IdMenu != items[j].IdMenu;
    }
  }

  lemma PlacedLast(items: seq<MenuItem>)
    requires UniqueIds(items) && items != []
    ensures multiset(ChildKeys(items, Last(items).IdPadre))[Last(items).IdMenu] == 1
    ensures forall q: Option<int> | q != Last(items).IdPadre :: Last(items).IdMenu !in ChildKeys(items, q)
  {
    var init := items[..|items| - 1];
    var x := Last(items).IdMenu;
    forall q: Option<int> ensures x !in ChildKeys(init, q) {
      ChildKeysMembers(init, q, x);
    }
    assert multiset(ChildKeys(init, Last(items).IdPadre))[x] == 0;
  }

  /**
   * A record whose `IdPadre` names no record (an orphan) is dropped: with unique ids its
   * id is neither a root nor a child of any node.
   */
  lemma OrphanDropped(items: seq<MenuItem>, j: int)
    requires UniqueIds(items) && 0 <= j < |items|
    requires items[j].IdPadre.Some? && items[j].IdPadre.value !in RecordTable(items)
    ensures items[j].IdMenu !in ChildKeys(items, None)
    ensures forall k | k in RecordTable(items) :: items[j].IdMenu !in ChildKeys(items, Some(k))
  {
    PlacedOnce(items, j);
  }

  // ================================================================ stable sort by Orden

  /** The sort key of every listed id is known. */
  predicate Keyed(s: seq<int>, ord: map<int, int>) {
    forall i | 0 <= i < |s| :: s[i] in ord
  }

  predicate SortedBy(s: seq<int>, ord: map<int, int>)
    requires Keyed(s, ord)
  {
    forall i, j | 0 <= i < j < |s| :: ord[s[i]] <= ord[s[j]]
  }

  /** The ids of `s` whose key is `v`, in their order in `s`. */
  function WithKey(s: seq<int>, ord: map<int, int>, v: int): seq<int>
    requires Keyed(s, ord)
  {
    if s == [] then [] else (if ord[s[0]] == v then [s[0]] else []) + WithKey(s[1..], ord, v)
  }

  /** Places `x` before the first element whose key is not smaller than its own. */
  function Insert(x: int, s: seq<int>, ord: map<int, int>): (r: seq<int>)
    requires x in ord && Keyed(s, ord)
    ensures multiset(r) == multiset(s) + multiset{x}
    ensures Keyed(r, ord)
  {
    if s == [] || ord[x] <= ord[s[0]] then [x] + s
    else
      assert s == [s[0]] + s[1..];
      [s[0]] + Insert(x, s[1..], ord)
  }

  /**
   * `Array.prototype.sort` with the comparator `a.Orden - b.Orden`: a stable sort by key
   * (insertion of each element in front of its equal-keyed successors).
   */
  function SortByOrden(s: seq<int>, ord: map<int, int>): (r: seq<int>)
    requires Keyed(s, ord)
    ensures multiset(r) == multiset(s)
    ensures Keyed(r, ord)
  {
    if s == [] then []
    else
      assert s == [s[0]] + s[1..];
      Insert(s[0], SortByOrden(s[1..], ord), ord)
  }

  lemma KeyedOfPermutation(s: seq<int>, t: seq<int>, ord: map<int, int>)
    requires Keyed(s, ord) && multiset(t) == multiset(s)
    ensures Keyed(t, ord)
  {
    forall i | 0 <= i < |t| ensures t[i] in ord {
      assert t[i] in multiset(t);
      var j :| 0 <= j < |s| && s[j] == t[i];
    }
  }

  lemma SortedCons(y: int, t: seq<int>, ord: map<int, int>)
    requires y in ord && Keyed(t, ord) && SortedBy(t, ord)
    requires forall i | 0 <= i < |t| :: ord[y] <= ord[t[i]]
    ensures Keyed([y] + t, ord) && SortedBy([y] + t, ord)
  {
    var r := [y] + t;
    assert forall i | 1 <= i < |r| :: r[i] == t[i - 1];
  }

  lemma WithKeyCons(y: int, t: seq<int>, ord: map<int, int>, v: int)
    requires y in ord && Keyed(t, ord)
    ensures Keyed([y] + t, ord)
    ensures WithKey([y] + t, ord, v) == (if ord[y] == v then [y] else []) + WithKey(t, ord, v)
  {
    assert ([y] + t)[1..] == t;
  }

  lemma {:induction false} InsertSorted(x: int, s: seq<int>, ord: map<int, int>)
    requires x in ord && Keyed(s, ord) && SortedBy(s, ord)
    ensures Keyed(Insert(x, s, ord), ord) && SortedBy(Insert(x, s, ord), ord)
  {
    if s == [] || ord[x] <= ord[s[0]] {
      SortedCons(x, s, ord);
    } else {
      var t := Insert(x, s[1..], ord);
      InsertSorted(x, s[1..], ord);
      forall i | 0 <= i < |t| ensures ord[s[0]] <= ord[t[i]] {
        assert t[i] in multiset(t);
        assert t[i] == x || t[i] in multiset(s[1..]);
      }
      SortedCons(s[0], t, ord);
    }
  }

  /** The sort orders by key ... */
  lemma {:induction false} SortByOrdenSorted(s: seq<int>, ord: map<int, int>)
    requires Keyed(s, ord)
    ensures Keyed(SortByOrden(s, ord), ord) && SortedBy(SortByOrden(s, ord), ord)
  {
    if s != [] {
      SortByOrdenSorted(s[1..], ord);
      InsertSorted(s[0], SortByOrden(s[1..], ord), ord);
    }
  }

  lemma {:induction false} WithKeyInsert(x: int, s: seq<int>, ord: map<int, int>, v: int)
    requires x in ord && Keyed(s, ord) && SortedBy(s, ord)
    ensures Keyed(Insert(x, s, ord), ord)
    ensures WithKey(Insert(x, s, ord), ord, v) == (if ord[x] == v then [x] else []) + WithKey(s, ord, v)
  {
    if s == [] || ord[x] <= ord[s[0]] {
      WithKeyCons(x, s, ord, v);
    } else {
      var rest := s[1..];
      assert Keyed(rest, ord) && SortedBy(rest, ord) by {
        assert forall i | 0 <= i < |rest| :: rest[i] == s[i + 1];
      }
      WithKeyInsert(x, rest, ord, v);
      InsertPast(x, s, ord);
      WithKeyFront(s[0], Insert(x, rest, ord), rest, if ord[x] == v then [x] else [], ord, v);
      assert [s[0]] + rest == s;
    }
  }

  lemma InsertPast(x: int, s: seq<int>, ord: map<int, int>)
    requires x in ord && Keyed(s, ord) && s != [] && ord[s[0]] < ord[x]
    ensures Keyed(s[1..], ord) && Insert(x, s, ord) == [s[0]] + Insert(x, s[1..], ord)
  {
  }

  /**
   * Putting `y` in front of two lists whose `v`-keyed parts differ by a prefix `hx`: when
   * `y` itself has key `v`, `hx` is empty, so the difference stays `hx`.
   */
  lemma WithKeyFront(y: int, t: seq<int>, rest: seq<int>, hx: seq<int>, ord: map<int, int>, v: int)
    requires y in ord && Keyed(t, ord) && Keyed(rest, ord)
    requires hx == [] || ord[y] != v
    requires WithKey(t, ord, v) == hx + WithKey(rest, ord, v)
    ensures Keyed([y] + t, ord) && Keyed([y] + rest, ord)
    ensures WithKey([y] + t, ord, v) == hx + WithKey([y] + rest, ord, v)
  {
    WithKeyCons(y, t, ord, v);
    WithKeyCons(y, rest, ord, v);
    var wt, wr := WithKey(t, ord, v), WithKey(rest, ord, v);
    if ord[y] == v {
      assert hx == [];
      assert hx + WithKey([y] + rest, ord, v) == WithKey([y] + rest, ord, v);
    } else {
      assert WithKey([y] + t, ord, v) == wt;
      assert WithKey([y] + rest, ord, v) == wr;
    }
  }

  /** ... keeps entries of equal key in their original order (stability) ... */
  lemma {:induction false} SortByOrdenStable(s: seq<int>, ord: map<int, int>, v: int)
    requires Keyed(s, ord)
    ensures Keyed(SortByOrden(s, ord), ord)
    ensures WithKey(SortByOrden(s, ord), ord, v) == WithKey(s, ord, v)
  {
    KeyedOfPermutation(s, SortByOrden(s, ord), ord);
    if s != [] {
      SortByOrdenStable(s[1..], ord, v);
      SortByOrdenSorted(s[1..], ord);
      WithKeyInsert(s[0], SortByOrden(s[1..], ord), ord, v);
    }
  }

  /** ... and leaves an already sorted list as it is, so sorting twice is sorting once. */
  lemma {:induction false} SortByOrdenOfSorted(s: seq<int>, ord: map<int, int>)
    requires Keyed(s, ord) && SortedBy(s, ord)
    ensures SortByOrden(s, ord) == s
  {
    if s != [] {
      SortByOrdenOfSorted(s[1..], ord);
      assert s == [s[0]] + s[1..];
    }
  }

  lemma SortByOrdenIdempotent(s: seq<int>, ord: map<int, int>)
    requires Keyed(s, ord)
    ensures Keyed(SortByOrden(s, ord), ord)
    ensures SortByOrden(SortByOrden(s, ord), ord) == SortByOrden(s, ord)
  {
    SortByOrdenSorted(s, ord);
    SortByOrdenOfSorted(SortByOrden(s, ord), ord);
  }

  // ================================================================ the arena during sorting

  /** `ord` holds the `Orden` of every node, and every child id names a node. */
  ghost predicate OrdenTable(nodes: map<int, MenuNode>, ord: map<int, int>) {
    forall k | k in nodes ::
      k in ord && ord[k] == nodes[k].item.Orden && Keyed(nodes[k].subItems, ord)
  }

  /**
   * A ghost witness that the lists reachable from the ids in `rank` hold no cycle: every
   * child of a ranked node is ranked lower.
   */
  ghost predicate Ranked(nodes: map<int, MenuNode>, rank: map<int, nat>) {
    forall k | k in rank ::
      k in nodes && forall c | c in nodes[k].subItems :: c in rank && rank[c] < rank[k]
  }

  /** `after` differs from `before` at most by having sorted some child lists. */
  ghost predicate SortStep(before: map<int, MenuNode>, after: map<int, MenuNode>, ord: map<int, int>)
    requires OrdenTable(before, ord)
  {
    after.Keys == before.Keys &&
    forall k | k in before ::
      after[k].item == before[k].item && after[k].expanded == before[k].expanded &&
      (after[k].subItems == before[k].subItems ||
       after[k].subItems == SortByOrden(before[k].subItems, ord))
  }

  /** `list` is sorted by `Orden`, and so is every list reachable from it. */
  ghost predicate AllSorted(list: seq<int>, nodes: map<int, MenuNode>, rank: map<int, nat>, ord: map<int, int>, bound: nat)
    decreases bound
  {
    Keyed(list, ord) && SortedBy(list, ord) &&
    forall c | c in list ::
      c in rank && rank[c] < bound && c in nodes &&
      AllSorted(nodes[c].subItems, nodes, rank, ord, rank[c])
  }

  lemma SortStepKeepsTable(before: map<int, MenuNode>, after: map<int, MenuNode>, ord: map<int, int>)
    requires OrdenTable(before, ord) && SortStep(before, after, ord)
    ensures OrdenTable(after, ord)
  {
    forall k | k in after ensures Keyed(after[k].subItems, ord) {
      KeyedOfPermutation(before[k].subItems, SortByOrden(before[k].subItems, ord), ord);
    }
  }

  lemma SortByOrdenMembers(s: seq<int>, ord: map<int, int>, c: int)
    requires Keyed(s, ord)
    ensures c in SortByOrden(s, ord) <==> c in s
  {
    assert c in SortByOrden(s, ord) <==> c in multiset(SortByOrden(s, ord));
    assert c in s <==> c in multiset(s);
  }

  lemma SortStepKeepsRank(before: map<int, MenuNode>, after: map<int, MenuNode>, ord: map<int, int>, rank: map<int, nat>)
    requires OrdenTable(before, ord) && SortStep(before, after, ord) && Ranked(before, rank)
    ensures Ranked(after, rank)
  {
    forall k | k in rank ensures k in after && forall c | c in after[k].subItems :: c in rank && rank[c] < rank[k] {
      SortStepKeepsRankAt(before, after, ord, rank, k);
    }
  }

  lemma SortStepKeepsRankAt(before: map<int, MenuNode>, after: map<int, MenuNode>, ord: map<int, int>,
                            rank: map<int, nat>, k: int)
    requires OrdenTable(before, ord) && SortStep(before, after, ord) && Ranked(before, rank) && k in rank
    ensures k in after && forall c | c in after[k].subItems :: c in rank && rank[c] < rank[k]
  {
    var s := before[k].subItems;
    assert k in before && Keyed(s, ord);
    if after[k].subItems != s {
      forall c | c in after[k].subItems ensures c in s {
        SortByOrdenMembers(s, ord, c);
      }
    }
  }

  lemma SortStepTransitive(n0: map<int, MenuNode>, n1: map<int, MenuNode>, n2: map<int, MenuNode>, ord: map<int, int>)
    requires OrdenTable(n0, ord) && SortStep(n0, n1, ord)
    requires OrdenTable(n1, ord) && SortStep(n1, n2, ord)
    ensures SortStep(n0, n2, ord)
  {
    forall k | k in n0
      ensures n2[k].subItems == n0[k].subItems || n2[k].subItems == SortByOrden(n0[k].subItems, ord)
    {
      SortStepTransitiveAt(n0, n1, n2, ord, k);
    }
  }

  lemma SortStepTransitiveAt(n0: map<int, MenuNode>, n1: map<int, MenuNode>, n2: map<int, MenuNode>, ord: map<int, int>,
                             k: int)
    requires OrdenTable(n0, ord) && SortStep(n0, n1, ord)
    requires OrdenTable(n1, ord) && SortStep(n1, n2, ord)
    requires k in n0
    ensures n2[k].subItems == n0[k].subItems || n2[k].subItems == SortByOrden(n0[k].subItems, ord)
  {
    var s0 := n0[k].subItems;
    assert Keyed(s0, ord);
    if n1[k].subItems != s0 {
      SortByOrdenIdempotent(s0, ord);
    }
  }

  /** A sorted list is never touched again by a sort step. */
  lemma SortStepKeepsSorted(before: map<int, MenuNode>, after: map<int, MenuNode>, ord: map<int, int>, k: int)
    requires OrdenTable(before, ord) && SortStep(before, after, ord) && k in before
    requires SortedBy(before[k].subItems, ord)
    ensures after[k].subItems == before[k].subItems
  {
    SortByOrdenOfSorted(before[k].subItems, ord);
  }

  /** Lists sorted all the way down stay so across a sort step. */
  lemma {:induction false} AllSortedFrame(list: seq<int>, before: map<int, MenuNode>, after: map<int, MenuNode>,
                                          rank: map<int, nat>, ord: map<int, int>, bound: nat)
    requires OrdenTable(before, ord) && SortStep(before, after, ord)
    requires AllSorted(list, before, rank, ord, bound)
    ensures AllSorted(list, after, rank, ord, bound)
    decreases bound
  {
    forall c | c in list ensures c in after && AllSorted(after[c].subItems, after, rank, ord, rank[c]) {
      SortStepKeepsSorted(before, after, ord, c);
      AllSortedFrame(before[c].subItems, before, after, rank, ord, rank[c]);
    }
  }

  /** The node `k` and everything below it is sorted. */
  ghost predicate Done(k: int, nodes: map<int, MenuNode>, rank: map<int, nat>, ord: map<int, int>) {
    k in rank && k in nodes && AllSorted(nodes[k].subItems, nodes, rank, ord, rank[k])
  }

  lemma AllSortedOfDone(list: seq<int>, nodes: map<int, MenuNode>, rank: map<int, nat>, ord: map<int, int>, bound: nat)
    requires Keyed(list, ord) && SortedBy(list, ord)
    requires forall c | c in list :: c in rank && rank[c] < bound
    requires forall j | 0 <= j < |list| :: Done(list[j], nodes, rank, ord)
    ensures AllSorted(list, nodes, rank, ord, bound)
  {
  }

  lemma DoneLeaf(k: int, nodes: map<int, MenuNode>, rank: map<int, nat>, ord: map<int, int>)
    requires k in rank && k in nodes && nodes[k].subItems == []
    ensures Done(k, nodes, rank, ord)
  {
  }

  lemma DoneFrame(k: int, before: map<int, MenuNode>, after: map<int, MenuNode>, rank: map<int, nat>, ord: map<int, int>)
    requires OrdenTable(before, ord) && SortStep(before, after, ord)
    requires Done(k, before, rank, ord)
    ensures Done(k, after, rank, ord)
  {
    SortStepKeepsSorted(before, after, ord, k);
    AllSortedFrame(before[k].subItems, before, after, rank, ord, rank[k]);
  }

  /**
   * Writing the sorted list `s` of node `k` back into the arena `n2` left by the recursive
   * call is one more sort step, and leaves `k` done.
   */
  lemma WriteBackSorted(n1: map<int, MenuNode>, n2: map<int, MenuNode>, n3: map<int, MenuNode>,
                        k: int, s: seq<int>, rank: map<int, nat>, ord: map<int, int>)
    requires OrdenTable(n1, ord) && Ranked(n1, rank) && k in rank
    requires Keyed(n1[k].subItems, ord) && s == SortByOrden(n1[k].subItems, ord)
    requires SortStep(n1, n2, ord) && AllSorted(s, n2, rank, ord, rank[k])
    requires n3 == n2[k := n2[k].(subItems := s)]
    ensures SortStep(n1, n3, ord) && OrdenTable(n3, ord) && Ranked(n3, rank)
    ensures Done(k, n3, rank, ord)
  {
    SortStepKeepsTable(n1, n2, ord);
    SortStepKeepsRank(n1, n2, ord, rank);
    SortByOrdenIdempotent(n1[k].subItems, ord);
    assert SortStep(n2, n3, ord);
    SortStepKeepsTable(n2, n3, ord);
    SortStepKeepsRank(n2, n3, ord, rank);
    AllSortedFrame(s, n2, n3, rank, ord, rank[k]);
    SortStepTransitive(n1, n2, n3, ord);
  }

  // ================================================================ the build, as the service runs it

  /**
   * First pass of the tree build: a fresh, collapsed, childless node per record; a later
   * record of an id replaces the node stored for an earlier one.
   */
  method IndexRecords(items: seq<MenuItem>) returns (nodes: map<int, MenuNode>)
    ensures nodes.Keys == RecordTable(items).Keys
    ensures forall k | k in nodes :: nodes[k] == MenuNode(RecordTable(items)[k], [], false)
  {
    nodes := map[];
    var i := 0;
    while i < |items|
      invariant 0 <= i <= |items|
      invariant nodes.Keys == RecordTable(items[..i]).Keys
      invariant forall k | k in nodes :: nodes[k] == MenuNode(RecordTable(items[..i])[k], [], false)
    {
      RecordTableSnoc(items, i);
      nodes := nodes[items[i].IdMenu := MenuNode(items[i], [], false)];
      i := i + 1;
    }
    assert items[..|items|] == items;
  }

  /** `nodes` and `roots` after the second pass has handled the first `n` records. */
  ghost predicate LinkedUpTo(items: seq<MenuItem>, n: int, nodes0: map<int, MenuNode>,
                             nodes: map<int, MenuNode>, roots: seq<int>)
    requires 0 <= n <= |items|
  {
    nodes.Keys == nodes0.Keys &&
    (forall k | k in nodes :: nodes[k] == nodes0[k].(subItems := ChildKeys(items[..n], Some(k)))) &&
    roots == ChildKeys(items[..n], None)
  }

  lemma LinkRoot(items: seq<MenuItem>, i: int, nodes0: map<int, MenuNode>,
                 nodes: map<int, MenuNode>, roots: seq<int>)
    requires 0 <= i < |items| && items[i].IdPadre.None?
    requires LinkedUpTo(items, i, nodes0, nodes, roots)
    ensures LinkedUpTo(items, i + 1, nodes0, nodes, roots + [items[i].IdMenu])
  {
    ChildKeysSnoc(items, i, None);
    forall k | k in nodes ensures ChildKeys(items[..i + 1], Some(k)) == ChildKeys(items[..i], Some(k)) {
      ChildKeysSnoc(items, i, Some(k));
    }
  }

  lemma LinkChild(items: seq<MenuItem>, i: int, nodes0: map<int, MenuNode>,
                  nodes: map<int, MenuNode>, roots: seq<int>, parent: int)
    requires 0 <= i < |items| && items[i].IdPadre == Some(parent) && parent in nodes
    requires LinkedUpTo(items, i, nodes0, nodes, roots)
    ensures LinkedUpTo(items, i + 1, nodes0,
                       nodes[parent := nodes[parent].(subItems := nodes[parent].subItems + [items[i].IdMenu])], roots)
  {
    ChildKeysSnoc(items, i, None);
    forall k | k in nodes ensures ChildKeys(items[..i + 1], Some(k)) ==
      ChildKeys(items[..i], Some(k)) + (if k == parent then [items[i].IdMenu] else [])
    {
      ChildKeysSnoc(items, i, Some(k));
    }
  }

  lemma LinkDropped(items: seq<MenuItem>, i: int, nodes0: map<int, MenuNode>,
                    nodes: map<int, MenuNode>, roots: seq<int>)
    requires 0 <= i < |items| && items[i].IdPadre.Some? && items[i].IdPadre.value !in nodes
    requires LinkedUpTo(items, i, nodes0, nodes, roots)
    ensures LinkedUpTo(items, i + 1, nodes0, nodes, roots)
  {
    ChildKeysSnoc(items, i, None);
    forall k | k in nodes ensures ChildKeys(items[..i + 1], Some(k)) == ChildKeys(items[..i], Some(k)) {
      ChildKeysSnoc(items, i, Some(k));
    }
  }

  /**
   * Second pass: each record's node goes onto the root list when it has no `IdPadre`, onto
   * its parent's `subItems` when the parent id has a node, and nowhere otherwise.
   */
  method LinkRecords(items: seq<MenuItem>, nodes0: map<int, MenuNode>)
    returns (roots: seq<int>, nodes: map<int, MenuNode>)
    requires nodes0.Keys == RecordTable(items).Keys
    requires forall k | k in nodes0 :: nodes0[k].subItems == []
    ensures nodes.Keys == nodes0.Keys
    ensures forall k | k in nodes ::
      nodes[k] == nodes0[k].(subItems := ChildKeys(items, Some(k)))
    ensures roots == ChildKeys(items, None)
  {
    nodes := nodes0;
    roots := [];
    var i := 0;
    while i < |items|
      invariant 0 <= i <= |items|
      invariant LinkedUpTo(items, i, nodes0, nodes, roots)
    {
      var item := items[i];
      RecordTableKeys(items, item.IdMenu);
      if item.IdMenu in nodes {
        if item.IdPadre.None? {
          LinkRoot(items, i, nodes0, nodes, roots);
          roots := roots + [item.IdMenu];
        } else if item.IdPadre.value in nodes {
          var parent := item.IdPadre.value;
          LinkChild(items, i, nodes0, nodes, roots, parent);
          nodes := nodes[parent := nodes[parent].(subItems := nodes[parent].subItems + [item.IdMenu])];
        } else {
          LinkDropped(items, i, nodes0, nodes, roots);
        }
      }
      i := i + 1;
    }
    assert items[..|items|] == items;
  }

  /** Both passes: the arena and root list before any sorting. */
  method AssembleHierarchy(items: seq<MenuItem>) returns (roots: seq<int>, nodes: map<int, MenuNode>)
    ensures nodes.Keys == RecordTable(items).Keys
    ensures forall k | k in nodes ::
      nodes[k].item == RecordTable(items)[k] && !nodes[k].expanded &&
      nodes[k].subItems == ChildKeys(items, Some(k))
    ensures roots == ChildKeys(items, None)
  {
    var n0 := IndexRecords(items);
    roots, nodes := LinkRecords(items, n0);
  }

  /**
   * Sorts `items` by `Orden` and then, for every entry with children, its `subItems`,
   * recursively. Returns the sorted list and the arena with the reachable lists sorted.
   * `rank` and `bound` are the ghost witness that the recursion ends.
   */
  method SortMenuItems(items: seq<int>, nodes: map<int, MenuNode>, ord: map<int, int>,
                       ghost rank: map<int, nat>, ghost bound: nat)
    returns (sorted: seq<int>, nodes': map<int, MenuNode>)
    requires OrdenTable(nodes, ord) && Ranked(nodes, rank)
    requires forall c | c in items :: c in rank && rank[c] < bound
    ensures Keyed(items, ord) && sorted == SortByOrden(items, ord)
    ensures SortStep(nodes, nodes', ord)
    ensures AllSorted(sorted, nodes', rank, ord, bound)
    decreases bound, 2
  {
    forall i | 0 <= i < |items| ensures items[i] in ord {
      var c := items[i];
      assert c in items;
      assert c in rank;
    }
    sorted := SortByOrden(items, ord);
    SortByOrdenSorted(items, ord);
    forall c | c in sorted ensures c in rank && rank[c] < bound {
      assert c in multiset(sorted);
    }
    nodes' := SortEachSubList(sorted, nodes, ord, rank, bound);
    AllSortedOfDone(sorted, nodes', rank, ord, bound);
  }

  /** The `forEach` pass over a sorted list: every entry ends up sorted all the way down. */
  method SortEachSubList(list: seq<int>, nodes: map<int, MenuNode>, ord: map<int, int>,
                         ghost rank: map<int, nat>, ghost bound: nat)
    returns (nodes': map<int, MenuNode>)
    requires OrdenTable(nodes, ord) && Ranked(nodes, rank)
    requires forall c | c in list :: c in rank && rank[c] < bound
    ensures SortStep(nodes, nodes', ord)
    ensures forall j | 0 <= j < |list| :: Done(list[j], nodes', rank, ord)
    decreases bound, 1
  {
    nodes' := nodes;
    var i := 0;
    while i < |list|
      invariant 0 <= i <= |list|
      invariant SortStep(nodes, nodes', ord) && OrdenTable(nodes', ord) && Ranked(nodes', rank)
      invariant forall j | 0 <= j < i :: Done(list[j], nodes', rank, ord)
    {
      assert list[i] in list;
      var n2 := SortSubItems(list[i], nodes', ord, rank);
      forall j | 0 <= j < i ensures Done(list[j], n2, rank, ord) {
        DoneFrame(list[j], nodes', n2, rank, ord);
      }
      SortStepTransitive(nodes, nodes', n2, ord);
      nodes' := n2;
      i := i + 1;
    }
  }

  /** The step run for each entry of a sorted list: an entry with children has its `subItems` sorted. */
  method SortSubItems(k: int, nodes: map<int, MenuNode>, ord: map<int, int>, ghost rank: map<int, nat>)
    returns (nodes': map<int, MenuNode>)
    requires OrdenTable(nodes, ord) && Ranked(nodes, rank) && k in rank
    ensures SortStep(nodes, nodes', ord) && OrdenTable(nodes', ord) && Ranked(nodes', rank)
    ensures Done(k, nodes', rank, ord)
    decreases rank[k] + 1, 0
  {
    if |nodes[k].subItems| > 0 {
      var s, n2 := SortMenuItems(nodes[k].subItems, nodes, ord, rank, rank[k]);
      nodes' := n2[k := n2[k].(subItems := s)];
      WriteBackSorted(nodes, n2, nodes', k, s, rank, ord);
    } else {
      nodes' := nodes;
      DoneLeaf(k, nodes', rank, ord);
    }
  }

  // ================================================================ the whole build

  /** The arena the two passes produce, before sorting. */
  function Assembled(items: seq<MenuItem>): map<int, MenuNode> {
    map k | k in RecordTable(items) :: MenuNode(RecordTable(items)[k], ChildKeys(items, Some(k)), false)
  }

  /** The `Orden` of every stored record, the key the sort compares. */
  function OrdenOf(items: seq<MenuItem>): map<int, int> {
    map k | k in RecordTable(items) :: RecordTable(items)[k].Orden
  }

  /**
   * `rank` is a witness that the recursive sort ends: the roots are ranked, every ranked id
   * has a node, and every child of a ranked node is ranked lower; every rank is below `height`.
   */
  ghost predicate HierarchyRanked(items: seq<MenuItem>, rank: map<int, nat>, height: nat) {
    (forall c | c in ChildKeys(items, None) :: c in rank) &&
    forall k | k in rank ::
      k in RecordTable(items) && rank[k] < height &&
      forall c | c in ChildKeys(items, Some(k)) :: c in rank && rank[c] < rank[k]
  }

  /** Every listed id, in any list, names a stored record. */
  lemma ChildKeysStored(items: seq<MenuItem>, parent: Option<int>)
    ensures Keyed(ChildKeys(items, parent), OrdenOf(items))
  {
    var s := ChildKeys(items, parent);
    forall i | 0 <= i < |s| ensures s[i] in RecordTable(items) {
      ChildKeysMembers(items, parent, s[i]);
      RecordTableKeys(items, s[i]);
    }
  }

  lemma AssembledTable(items: seq<MenuItem>)
    ensures OrdenTable(Assembled(items), OrdenOf(items))
  {
    forall k | k in Assembled(items) ensures Keyed(ChildKeys(items, Some(k)), OrdenOf(items)) {
      ChildKeysStored(items, Some(k));
    }
  }

  /** A sort step only reorders lists: every node keeps its record, its fold state and its children. */
  lemma SortStepPermutes(before: map<int, MenuNode>, after: map<int, MenuNode>, ord: map<int, int>, k: int)
    requires OrdenTable(before, ord) && SortStep(before, after, ord) && k in before
    ensures k in after && after[k].item == before[k].item && after[k].expanded == before[k].expanded
    ensures multiset(after[k].subItems) == multiset(before[k].subItems)
  {
  }

  /**
   * Builds the menu from the flat records: assembles the forest, then sorts the root list
   * and every list below it by `Orden`. The result holds a node per stored record, collapsed,
   * whose children are the records naming it as parent; the roots are the records with no
   * parent, stably sorted; every list reachable from the roots is sorted.
   */
  method BuildMenuHierarchy(items: seq<MenuItem>, ghost rank: map<int, nat>, ghost height: nat)
    returns (menu: Menu)
    requires HierarchyRanked(items, rank, height)
    ensures OrdenTable(Assembled(items), OrdenOf(items))
    ensures SortStep(Assembled(items), menu.nodes, OrdenOf(items))
    ensures Keyed(ChildKeys(items, None), OrdenOf(items))
    ensures menu.roots == SortByOrden(ChildKeys(items, None), OrdenOf(items))
    ensures AllSorted(menu.roots, menu.nodes, rank, OrdenOf(items), height)
  {
    var roots, nodes := AssembleHierarchy(items);
    assert forall k | k in nodes :: nodes[k] == Assembled(items)[k];
    assert nodes == Assembled(items);
    var ord := map k | k in nodes :: nodes[k].item.Orden;
    assert ord == OrdenOf(items);
    AssembledTable(items);
    forall c | c in roots ensures c in rank && rank[c] < height {
      assert c in rank;
    }
    var sorted, sortedNodes := SortMenuItems(roots, nodes, ord, rank, height);
    menu := Menu(sorted, sortedNodes);
  }

  /** With no parent anywhere the menu is flat, and every rank can be zero. */
  lemma FlatMenuRanked(items: seq<MenuItem>)
    requires forall j | 0 <= j < |items| :: items[j].IdPadre.None?
    ensures HierarchyRanked(items, map k | k in RecordTable(items) :: 0, 1)
  {
    var rank: map<int, nat> := map k | k in RecordTable(items) :: 0;
    forall c | c in ChildKeys(items, None) ensures c in rank {
      ChildKeysStored(items, None);
      var i :| 0 <= i < |ChildKeys(items, None)| && ChildKeys(items, None)[i] == c;
    }
    forall k, c | k in rank && c in ChildKeys(items, Some(k)) ensures false {
      ChildKeysMembers(items, Some(k), c);
    }
  }

  /** Some record names `k` as its parent. */
  ghost predicate IsParent(items: seq<MenuItem>, k: int) {
    exists j | 0 <= j < |items| :: items[j].IdPadre == Some(k)
  }

  /** Rank 1 for every stored id some record names as parent, 0 for the rest. */
  ghost function TwoLevelRank(items: seq<MenuItem>): map<int, nat> {
    map k | k in RecordTable(items) :: if IsParent(items, k) then 1 else 0
  }

  /**
   * A two-level menu (every record that some record names as parent is itself a root) is
   * ranked whatever the order of the records and whether or not ids repeat.
   */
  lemma TwoLevelMenuRanked(items: seq<MenuItem>)
    requires forall i, j | 0 <= i < |items| && 0 <= j < |items| && items[j].IdPadre == Some(items[i].IdMenu) ::
      items[i].IdPadre.None?
    ensures HierarchyRanked(items, TwoLevelRank(items), 2)
  {
    var rank := TwoLevelRank(items);
    forall c | c in ChildKeys(items, None) ensures c in rank {
      ChildKeysMembers(items, None, c);
      RecordTableKeys(items, c);
    }
    forall k, c | k in rank && c in ChildKeys(items, Some(k)) ensures c in rank && rank[c] < rank[k] {
      ChildKeysMembers(items, Some(k), c);
      var j :| 0 <= j < |items| && items[j].IdMenu == c && items[j].IdPadre == Some(k);
      RecordTableKeys(items, c);
      assert IsParent(items, k);
    }
  }

  /** The ranks read off one level per record (record `i` at `level[i]`), once ids are unique. */
  ghost function LevelRank(items: seq<MenuItem>, level: seq<nat>): map<int, nat>
    requires UniqueIds(items) && |level| == |items|
  {
    map i | 0 <= i < |items| :: items[i].IdMenu := level[i]
  }

  /**
   * A menu of unique ids is ranked as soon as each record can be given a level below
   * `height` that is smaller than the level of every record it names as parent: whatever
   * the depth of the menu, a parent chain that never comes back to an id is enough.
   */
  lemma LevelsRanked(items: seq<MenuItem>, level: seq<nat>, height: nat)
    requires UniqueIds(items) && |level| == |items|
    requires forall i | 0 <= i < |level| :: level[i] < height
    requires forall i, j | 0 <= i < |items| && 0 <= j < |items| && items[j].IdPadre == Some(items[i].IdMenu) ::
      level[j] < level[i]
    ensures HierarchyRanked(items, LevelRank(items, level), height)
  {
    var rank := LevelRank(items, level);
    forall i | 0 <= i < |items| ensures items[i].IdMenu in rank && rank[items[i].IdMenu] == level[i] {
    }
    forall c | c in ChildKeys(items, None) ensures c in rank {
      ChildKeysMembers(items, None, c);
    }
    forall k | k in rank
      ensures k in RecordTable(items) && rank[k] < height
      ensures forall c | c in ChildKeys(items, Some(k)) :: c in rank && rank[c] < rank[k]
    {
      var i :| 0 <= i < |items| && items[i].IdMenu == k;
      RecordTableKeys(items, k);
      forall c | c in ChildKeys(items, Some(k)) ensures c in rank && rank[c] < rank[k] {
        ChildKeysMembers(items, Some(k), c);
        var j :| 0 <= j < |items| && items[j].IdMenu == c && items[j].IdPadre == Some(k);
      }
    }
  }

  /**
   * Duplicate ids can close a cycle: a root record with id 1 followed by a record with id 1
   * whose parent is 1 leaves node 1 in its own `subItems`, so no rank exists. On such data the
   * recursive sort exhausts the call stack and fails instead of publishing a menu.
   */
  lemma SelfParentUnranked(a: MenuItem, b: MenuItem)
    requires a.IdMenu == 1 && a.IdPadre == None && b.IdMenu == 1 && b.IdPadre == Some(1)
    ensures forall rank: map<int, nat>, height: nat :: !HierarchyRanked([a, b], rank, height)
  {
    var items := [a, b];
    assert items[..1] == [a];
    assert [a][..0] == [];
    assert ChildKeys([a], None) == [1];
    assert ChildKeys(items, None) == [1];
    assert ChildKeys([a], Some(1)) == [];
    assert ChildKeys(items, Some(1)) == [1];
  }

  // ================================================================ the service

  /** The service's published menu (the value of its subject). */
  class MenuStore {
    var current: Menu

    constructor ()
      ensures current == EmptyMenu
    {
      current := EmptyMenu;
    }

    /**
     * The `tap` on the menu response: a successful response that carries data is built
     * and published; any other response leaves the published menu as it was.
     */
    method GetMenuPorUsuario(response: MenuResponse, ghost rank: map<int, nat>, ghost height: nat)
      returns (passed: MenuResponse)
      requires response.success && response.data.Some? ==> HierarchyRanked(response.data.value, rank, height)
      modifies this
      ensures passed == response
      ensures !(response.success && response.data.Some?) ==> current == old(current)
      ensures response.success && response.data.Some? ==>
        var items := response.data.value;
        Keyed(ChildKeys(items, None), OrdenOf(items)) &&
        current.roots == SortByOrden(ChildKeys(items, None), OrdenOf(items)) &&
        OrdenTable(Assembled(items), OrdenOf(items)) &&
        SortStep(Assembled(items), current.nodes, OrdenOf(items)) &&
        AllSorted(current.roots, current.nodes, rank, OrdenOf(items), height)
    {
      passed := response;
      if response.success && response.data.Some? {
        current := BuildMenuHierarchy(response.data.value, rank, height);
      }
    }

    /** Publishes the empty menu (at logout). */
    method ClearMenu()
      modifies this
      ensures current == EmptyMenu
    {
      current := EmptyMenu;
    }

    /** The menu last published. */
    function GetCurrentMenu(): (m: Menu)
      reads this
      ensures m == current
    {
      current
    }
  }
}
