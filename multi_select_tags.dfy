/**
 * The multi-select tag control: a list of selected ids edited by toggling and removing
 * tags, filled by its form control from an array or a comma-separated string, and a
 * colour per tag taken from a custom map or from the ten-colour palette.
 */
module MultiSelectTags {
  import opened Wrappers
  import opened Text
  import opened Models
  import FormValues
  import Palette

  // ---------------------------------------------------------------- the selection as a value

  /** `s.filter(itemId => itemId !== id)`: every occurrence of `id` removed, the rest in order. */
  function Without(s: seq<JsNum>, id: int): (r: seq<JsNum>)
    ensures |r| <= |s|
    ensures forall x :: x in r <==> x in s && x != Num(id)
  {
    if s == [] then []
    else (if s[0] == Num(id) then [] else [s[0]]) + Without(s[1..], id)
  }

  /** Removing distributes over concatenation, so the kept ids stay in their order. */
  lemma {:induction false} WithoutConcat(a: seq<JsNum>, b: seq<JsNum>, id: int)
    ensures Without(a + b, id) == Without(a, id) + Without(b, id)
  {
    if a == [] {
      assert a + b == b;
    } else {
      var t := a[1..] + b;
      assert (a + b)[0] == a[0] && (a + b)[1..] == t;
      WithoutConcat(a[1..], b, id);
      var h := if a[0] == Num(id) then [] else [a[0]];
      calc {
        Without(a + b, id);
        h + Without(t, id);
        h + (Without(a[1..], id) + Without(b, id));
        (h + Without(a[1..], id)) + Without(b, id);
      }
    }
  }

  /** Removing an absent id changes nothing. */
  lemma {:induction false} WithoutAbsent(s: seq<JsNum>, id: int)
    requires Num(id) !in s
    ensures Without(s, id) == s
  {
    if s != [] {
      WithoutAbsent(s[1..], id);
      assert [s[0]] + s[1..] == s;
    }
  }

  /** Every other id keeps its number of occurrences. */
  lemma {:induction false} WithoutCounts(s: seq<JsNum>, id: int, x: JsNum)
    ensures multiset(Without(s, id))[x] == if x == Num(id) then 0 else multiset(s)[x]
  {
    if s != [] {
      WithoutCounts(s[1..], id, x);
      assert s == [s[0]] + s[1..];
      assert multiset(s) == multiset{s[0]} + multiset(s[1..]);
      var h := if s[0] == Num(id) then [] else [s[0]];
      assert multiset(Without(s, id)) == multiset(h) + multiset(Without(s[1..], id));
    }
  }

  /** The selection after clicking `id`: a selected id is removed everywhere, any other is appended. */
  function Toggle(s: seq<JsNum>, id: int): (r: seq<JsNum>)
    ensures Num(id) in s ==> Num(id) !in r && forall x | x != Num(id) :: x in r <==> x in s
    ensures Num(id) !in s ==> r == s + [Num(id)]
  {
    if Num(id) in s then Without(s, id) else s + [Num(id)]
  }

  /** Clicking an unselected tag twice gives back the original selection. */
  lemma ToggleTwiceAbsent(s: seq<JsNum>, id: int)
    requires Num(id) !in s
    ensures Toggle(Toggle(s, id), id) == s
  {
    WithoutConcat(s, [Num(id)], id);
    WithoutAbsent(s, id);
    assert Without([Num(id)], id) == [];
  }

  /** Clicking a selected tag twice leaves it once, at the end. */
  lemma ToggleTwicePresent(s: seq<JsNum>, id: int)
    requires Num(id) in s
    ensures Toggle(Toggle(s, id), id) == Without(s, id) + [Num(id)]
  {
  }

  /** `items.filter(item => selectedIds.includes(item.Id))`. */
  function SelectedItems(items: seq<ComboItem>, sel: seq<JsNum>): (r: seq<ComboItem>)
    ensures |r| <= |items|
  {
    if items == [] then []
    else (if Num(items[0].Id) in sel then [items[0]] else []) + SelectedItems(items[1..], sel)
  }

  /** An item is returned iff it is one of `items` and its id is selected. */
  lemma {:induction false} SelectedItemsMembers(items: seq<ComboItem>, sel: seq<JsNum>)
    ensures forall it :: it in SelectedItems(items, sel) <==> it in items && Num(it.Id) in sel
  {
    if items != [] {
      SelectedItemsMembers(items[1..], sel);
      assert items == [items[0]] + items[1..];
    }
  }

  /** The selected items appear in the order of `items`, not in the order they were selected. */
  lemma {:induction false} SelectedItemsConcat(a: seq<ComboItem>, b: seq<ComboItem>, sel: seq<JsNum>)
    ensures SelectedItems(a + b, sel) == SelectedItems(a, sel) + SelectedItems(b, sel)
  {
    if a == [] {
      assert a + b == b;
    } else {
      var t := a[1..] + b;
      assert (a + b)[0] == a[0] && (a + b)[1..] == t;
      SelectedItemsConcat(a[1..], b, sel);
      var h := if Num(a[0].Id) in sel then [a[0]] else [];
      calc {
        SelectedItems(a + b, sel);
        h + SelectedItems(t, sel);
        h + (SelectedItems(a[1..], sel) + SelectedItems(b, sel));
        (h + SelectedItems(a[1..], sel)) + SelectedItems(b, sel);
      }
    }
  }

  /** The order of the selection does not matter, only which ids it holds. */
  lemma {:induction false} SelectedItemsBySet(items: seq<ComboItem>, s: seq<JsNum>, t: seq<JsNum>)
    requires forall x :: x in s <==> x in t
    ensures SelectedItems(items, s) == SelectedItems(items, t)
  {
    if items != [] {
      SelectedItemsBySet(items[1..], s, t);
    }
  }

  /**
   * `writeValue`: a non-empty string is read as comma-separated ids (each piece trimmed,
   * read by `parseInt`, unreadable pieces dropped), `""` is the empty selection, an array
   * is taken as it is, and any other value is the empty selection.
   */
  function ParseValue(v: FormValues.Raw): (r: seq<JsNum>)
    ensures v.RStr? && v.s != "" ==>
      |r| == |FormValues.IdsOf(v.s)| && forall i | 0 <= i < |r| :: r[i] == Num(FormValues.IdsOf(v.s)[i])
    ensures v.RStr? && v.s == "" ==> r == []
    ensures v.RArray? ==> r == v.xs
    ensures v.RNull? || v.RNum? ==> r == []
  {
    match v
    case RStr(s) =>
      if s != "" then
        var ids := FormValues.IdsOf(s);
        seq(|ids|, i requires 0 <= i < |ids| => Num(ids[i]))
      else []
    case RArray(xs) => xs
    case _ => []
  }

  /** A selection written as `1,2,3` by `join(',')` is read back unchanged. */
  lemma ParseValueJoin(xs: seq<int>)
    ensures ParseValue(FormValues.RStr(Join(FormValues.ShowInts(xs)))) ==
            seq(|xs|, i requires 0 <= i < |xs| => Num(xs[i]))
  {
    var parts := FormValues.ShowInts(xs);
    var s := Join(parts);
    if xs == [] {
      assert parts == [];
    } else {
      JoinNonEmpty(parts);
      FormValues.IdsOfJoin(xs);
      var r := ParseValue(FormValues.RStr(s));
      assert FormValues.IdsOf(s) == xs;
      assert |r| == |xs| && forall i | 0 <= i < |r| :: r[i] == Num(xs[i]);
    }
  }

  lemma JoinNonEmpty(parts: seq<string>)
    requires |parts| >= 1 && parts[0] != ""
    ensures Join(parts) != ""
  {
    if |parts| > 1 {
      assert Join(parts) == parts[0] + "," + Join(parts[1..]);
    }
  }

  /** `a % b` on numbers, which truncates toward zero: the remainder takes the sign of `a`. */
  function JsRem(a: int, b: int): (r: int)
    requires b > 0
    ensures a >= 0 ==> 0 <= r < b
    ensures a < 0 ==> -b < r <= 0
  {
    if a >= 0 then a % b else -((-a) % b)
  }

  /**
   * `getColor(id)`: the custom colour when the map has one, else the palette entry at
   * `id % 10`; a negative id whose remainder is not zero indexes the palette out of range
   * and yields `undefined` (`None`).
   */
  function GetColor(colorMap: map<int, string>, id: int): (r: Option<string>)
    ensures id in colorMap ==> r == Some(colorMap[id])
    ensures id !in colorMap && id >= 0 ==> r == Some(Palette.Colors[id % 10])
    ensures id !in colorMap && id < 0 ==> (r.Some? <==> id % 10 == 0)
    ensures id !in colorMap && id < 0 && id % 10 == 0 ==> r == Some(Palette.Colors[0])
  {
    if id in colorMap then Some(colorMap[id])
    else
      var k := JsRem(id, |Palette.Colors|);
      if 0 <= k then Some(Palette.Colors[k]) else None
  }

  /** Ids ten apart share a palette colour. */
  lemma GetColorPeriodic(colorMap: map<int, string>, id: int)
    requires id >= 0 && id !in colorMap && id + 10 !in colorMap
    ensures GetColor(colorMap, id + 10) == GetColor(colorMap, id)
  {
  }

  // ---------------------------------------------------------------- the control

  class TagSelector {
    var items: seq<ComboItem>
    var colorMap: map<int, string>
    var selectedIds: seq<JsNum>
    var mostrarDropdown: bool
    var disabled: bool
    /** Every selection handed to the form control, in order. */
    var changes: seq<seq<JsNum>>
    /** How many times the control reported itself touched. */
    var touched: nat

    constructor (items: seq<ComboItem>, colorMap: map<int, string>)
      ensures this.items == items && this.colorMap == colorMap
      ensures selectedIds == [] && !mostrarDropdown && !disabled && changes == [] && touched == 0
    {
      this.items := items;
      this.colorMap := colorMap;
      selectedIds := [];
      mostrarDropdown := false;
      disabled := false;
      changes := [];
      touched := 0;
    }

    function IsSelected(id: int): (b: bool)
      reads this
      ensures b <==> Num(id) in selectedIds
    {
      Num(id) in selectedIds
    }

    function GetSelectedItems(): (r: seq<ComboItem>)
      reads this
      ensures forall it :: it in r <==> it in items && Num(it.Id) in selectedIds
    {
      SelectedItemsMembers(items, selectedIds);
      SelectedItems(items, selectedIds)
    }

    function ColorOf(id: int): (r: Option<string>)
      reads this
      ensures id in colorMap ==> r == Some(colorMap[id])
      ensures r == GetColor(colorMap, id)
    {
      GetColor(colorMap, id)
    }

    /** A click on a tag of the drop-down: ignored when disabled, else the selection is toggled and reported. */
    method ToggleItem(id: int)
      modifies this
      ensures disabled ==> selectedIds == old(selectedIds) && changes == old(changes)
      ensures !disabled ==>
        selectedIds == Toggle(old(selectedIds), id) && changes == old(changes) + [selectedIds]
      ensures items == old(items) && colorMap == old(colorMap) && disabled == old(disabled)
      ensures mostrarDropdown == old(mostrarDropdown) && touched == old(touched)
    {
      if disabled {
        return;
      }
      var index := IndexOf(selectedIds, Num(id));
      if index > -1 {
        selectedIds := Without(selectedIds, id);
      } else {
        selectedIds := selectedIds + [Num(id)];
      }
      changes := changes + [selectedIds];
    }

    /** The cross on a tag: ignored when disabled, else every occurrence of `id` is removed and reported. */
    method RemoveItem(id: int)
      modifies this
      ensures disabled ==> selectedIds == old(selectedIds) && changes == old(changes)
      ensures !disabled ==>
        selectedIds == Without(old(selectedIds), id) && changes == old(changes) + [selectedIds]
      ensures items == old(items) && colorMap == old(colorMap) && disabled == old(disabled)
      ensures mostrarDropdown == old(mostrarDropdown) && touched == old(touched)
    {
      if disabled {
        return;
      }
      selectedIds := Without(selectedIds, id);
      changes := changes + [selectedIds];
    }

    /** The form control writes a value in; nothing is reported back. */
    method WriteValue(v: FormValues.Raw)
      modifies this
      ensures selectedIds == ParseValue(v)
      ensures items == old(items) && colorMap == old(colorMap) && disabled == old(disabled)
      ensures mostrarDropdown == old(mostrarDropdown) && changes == old(changes) && touched == old(touched)
    {
      selectedIds := ParseValue(v);
    }

    method ToggleDropdown()
      modifies this
      ensures mostrarDropdown == (if old(disabled) then old(mostrarDropdown) else !old(mostrarDropdown))
      ensures items == old(items) && colorMap == old(colorMap) && disabled == old(disabled)
      ensures selectedIds == old(selectedIds) && changes == old(changes) && touched == old(touched)
    {
      if !disabled {
        mostrarDropdown := !mostrarDropdown;
      }
    }

    method CerrarDropdown()
      modifies this
      ensures !mostrarDropdown && touched == old(touched) + 1
      ensures items == old(items) && colorMap == old(colorMap) && disabled == old(disabled)
      ensures selectedIds == old(selectedIds) && changes == old(changes)
    {
      mostrarDropdown := false;
      touched := touched + 1;
    }

    method SetDisabledState(isDisabled: bool)
      modifies this
      ensures disabled == isDisabled
      ensures items == old(items) && colorMap == old(colorMap) && mostrarDropdown == old(mostrarDropdown)
      ensures selectedIds == old(selectedIds) && changes == old(changes) && touched == old(touched)
    {
      disabled := isDisabled;
    }
  }

  /** `s.indexOf(x)`: the first position holding `x`, or -1. */
  method IndexOf(s: seq<JsNum>, x: JsNum) returns (index: int)
    ensures -1 <= index < |s|
    ensures index == -1 <==> x !in s
    ensures 0 <= index ==> s[index] == x && x !in s[..index]
  {
    index := 0;
    while index < |s|
      invariant 0 <= index <= |s|
      invariant x !in s[..index]
    {
      if s[index] == x {
        return;
      }
      assert s[..index + 1] == s[..index] + [s[index]];
      index := index + 1;
    }
    assert s[..index] == s;
    index := -1;
  }
}
