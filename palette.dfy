/** The ten-colour palette shared by the tag selector and the maintenance screens. */
module Palette {
  import opened Models

  const Colors: seq<string> := [
    "#3b82f6", "#10b981", "#f59e0b", "#ef4444", "#8b5cf6",
    "#ec4899", "#14b8a6", "#f97316", "#6366f1", "#84cc16"]

  /** The colour the getters fall back to. */
  const Grey: string := "#6b7280"

  /**
   * The colour map left by assigning `Colors[index % 10]` to the application at each
   * index of `apps`, after clearing: a later application with the same Id overwrites.
   */
  function IndexColors(apps: seq<ComboItem>): map<int, string> {
    if apps == [] then map[]
    else IndexColors(apps[..|apps| - 1])[apps[|apps| - 1].Id := Colors[(|apps| - 1) % 10]]
  }

  /** An Id gets a colour exactly when some application carries it ... */
  lemma {:induction false} IndexColorsKeys(apps: seq<ComboItem>, id: int)
    ensures id in IndexColors(apps) <==> exists j | 0 <= j < |apps| :: apps[j].Id == id
  {
    if apps != [] {
      var init := apps[..|apps| - 1];
      IndexColorsKeys(init, id);
      if exists j | 0 <= j < |init| :: init[j].Id == id {
        var j :| 0 <= j < |init| && init[j].Id == id;
        assert apps[j].Id == id;
      }
      if exists j | 0 <= j < |apps| :: apps[j].Id == id {
        var j :| 0 <= j < |apps| && apps[j].Id == id;
        if j < |init| {
          assert init[j].Id == id;
        }
      }
    }
  }

  /** ... and it is the palette entry of the last index that carries it. */
  lemma {:induction false} IndexColorsLast(apps: seq<ComboItem>, j: int)
    requires 0 <= j < |apps|
    requires forall l | j < l < |apps| :: apps[l].Id != apps[j].Id
    ensures apps[j].Id in IndexColors(apps)
    ensures IndexColors(apps)[apps[j].Id] == Colors[j % 10]
  {
    if j < |apps| - 1 {
      var init := apps[..|apps| - 1];
      IndexColorsLast(init, j);
    }
  }

  /** Every colour handed out is a palette entry, so it is never empty. */
  lemma {:induction false} IndexColorsFromPalette(apps: seq<ComboItem>, id: int)
    requires id in IndexColors(apps)
    ensures IndexColors(apps)[id] in Colors && IndexColors(apps)[id] != ""
  {
    if apps[|apps| - 1].Id != id {
      IndexColorsFromPalette(apps[..|apps| - 1], id);
    }
  }

  /**
   * `asignarColoresAplicaciones`: clears the colour map, then gives the application at
   * each index the palette entry at that index modulo 10.
   */
  method AssignIndexColors(apps: seq<ComboItem>) returns (colores: map<int, string>)
    ensures colores == IndexColors(apps)
  {
    colores := map[];
    var index := 0;
    while index < |apps|
      invariant 0 <= index <= |apps|
      invariant colores == IndexColors(apps[..index])
    {
      assert apps[..index + 1][..index] == apps[..index];
      colores := colores[apps[index].Id := Colors[index % |Colors|]];
      index := index + 1;
    }
    assert apps[..index] == apps;
  }
}
