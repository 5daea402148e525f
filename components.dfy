/**
 * `components.py`: the `Sidebar` with its navigation buttons and theme
 * switch. A button is modelled by its label, grid row, the page its command
 * shows and its style; the rest of the widget tree is left out.
 */
module Components {
  import opened PyText

  /** One entry of the navigation table: label, page name, grid row. */
  datatype NavItem = NavItem(text: string, page: string, row: nat)

  /** The navigation table of `_create_nav_buttons`. */
  const NavItems := [
    NavItem("主页", "home", 2),
    NavItem("嵌入水印", "embed", 3),
    NavItem("提取水印", "extract", 4)
  ]

  /** The page names of the navigation table. */
  function NavPages(): (r: set<string>)
    ensures forall i :: 0 <= i < |NavItems| ==> NavItems[i].page in r
    ensures forall p :: p in r ==> exists i :: 0 <= i < |NavItems| && NavItems[i].page == p
  {
    set i | 0 <= i < |NavItems| :: NavItems[i].page
  }

  /** No page name appears twice in the navigation table. */
  lemma NavPagesDistinct()
    ensures forall i, j :: 0 <= i < j < |NavItems| ==> NavItems[i].page != NavItems[j].page
  {
    assert |NavItems[0].page| == 4 && |NavItems[1].page| == 5 && |NavItems[2].page| == 7;
  }

  /** A button's look: the accent fill with white text for the current page,
      a transparent fill with light grey text otherwise (the creation style). */
  datatype Style = Active | Inactive

  /** The switch value `get_theme` reports when there is no switch. */
  const DefaultTheme := "dark"

  /** One value per name: `on` for `active`, `off` for every other name.
      Both the page visibility of `show_page` and the button styles of
      `update_nav_buttons` have this shape. */
  function SelectOnly<T(==)>(names: set<string>, active: string, on: T, off: T): (m: map<string, T>)
    requires on != off
    ensures m.Keys == names
    ensures forall q :: q in names ==> (m[q] == on <==> q == active)
    ensures forall q :: q in names ==> m[q] in {on, off}
  {
    map q | q in names :: if q == active then on else off
  }

  /** When the active name is one of the names, exactly it is selected. */
  lemma ExactlyOneSelected<T>(names: set<string>, active: string, on: T, off: T)
    requires on != off && active in names
    ensures (set q | q in names && SelectOnly(names, active, on, off)[q] == on) == {active}
  {
    var m := SelectOnly(names, active, on, off);
    var chosen := set q | q in names && m[q] == on;
    assert active in chosen;
    forall q | q in chosen
      ensures q == active
    {
    }
  }

  /** When the active name is not one of the names, nothing is selected. */
  lemma NoneSelected<T>(names: set<string>, active: string, on: T, off: T)
    requires on != off && active !in names
    ensures (set q | q in names && SelectOnly(names, active, on, off)[q] == on) == {}
  {
    var m := SelectOnly(names, active, on, off);
    assert forall q :: q in names ==> m[q] != on;
  }

  /** A navigation button: its label, grid row, the page its command shows,
      and its current style. */
  datatype NavButton = NavButton(text: string, row: nat, command: string, style: Style)

  /** The button `_create_nav_button` makes for a table entry: its command
      shows the entry's own page, and it starts in the inactive style. */
  function ButtonFor(item: NavItem): (b: NavButton)
    ensures b.command == item.page && b.style == Inactive
    ensures b.text == item.text && b.row == item.row
  {
    NavButton(item.text, item.row, item.page, Inactive)
  }

  class Sidebar {
    /** `nav_buttons`: the page names in insertion order, and the button of
        each. */
    var navOrder: seq<string>
    var navButtons: map<string, NavButton>
    /** The theme switch's current value, once the switch exists. */
    var themeSwitch: Option<string>

    /** The names in `navOrder` are exactly the keys of `navButtons`. */
    ghost predicate ButtonsOk()
      reads this
    {
      forall p :: p in navButtons <==> p in navOrder
    }

    /** The style of every button. */
    function Styles(): (m: map<string, Style>)
      reads this
      ensures m.Keys == navButtons.Keys
    {
      map p | p in navButtons :: navButtons[p].style
    }

    /** The buttons are exactly those of the navigation table, each showing
        its own page. */
    ghost predicate NavTableBuilt()
      reads this
    {
      && ButtonsOk()
      && navButtons.Keys == NavPages()
      && (forall i :: 0 <= i < |NavItems| ==>
            var item := NavItems[i];
            && navButtons[item.page].text == item.text && navButtons[item.page].row == item.row
            && navButtons[item.page].command == item.page)
    }

    /** `__init__` and `_create`: the navigation buttons, then the switch,
        selected, so it reads `"dark"`. */
    constructor ()
      ensures NavTableBuilt()
      ensures forall p :: p in navButtons ==> navButtons[p].style == Inactive
      ensures GetTheme() == DefaultTheme
    {
      navOrder := [];
      navButtons := map[];
      themeSwitch := None;
      new;
      CreateNavButtons();
      themeSwitch := Some("dark");
    }

    /** `_create_nav_buttons`, run once on the empty `nav_buttons`: one
        button per table entry, keyed by its page name, in table order. */
    method CreateNavButtons()
      requires navOrder == [] && navButtons == map[]
      modifies this`navOrder, this`navButtons
      ensures ButtonsOk()
      ensures |navOrder| == |NavItems| && forall i :: 0 <= i < |NavItems| ==> navOrder[i] == NavItems[i].page
      ensures navButtons.Keys == NavPages()
      ensures forall i :: 0 <= i < |NavItems| ==>
        navButtons[NavItems[i].page] == ButtonFor(NavItems[i])
    {
      NavPagesDistinct();
      AddNavButtons(NavItems);
    }

    /** The loop of `_create_nav_buttons` over a table whose page names are
        distinct. */
    method AddNavButtons(items: seq<NavItem>)
      requires navOrder == [] && navButtons == map[]
      requires forall i, j :: 0 <= i < j < |items| ==> items[i].page != items[j].page
      modifies this`navOrder, this`navButtons
      ensures ButtonsOk()
      ensures |navOrder| == |items| && forall i :: 0 <= i < |items| ==> navOrder[i] == items[i].page
      ensures navButtons.Keys == (set i | 0 <= i < |items| :: items[i].page)
      ensures forall i :: 0 <= i < |items| ==> navButtons[items[i].page] == ButtonFor(items[i])
    {
      for k := 0 to |items|
        invariant |navOrder| == k && forall i :: 0 <= i < k ==> navOrder[i] == items[i].page
        invariant ButtonsOk()
        invariant forall i :: 0 <= i < k ==> navButtons[items[i].page] == ButtonFor(items[i])
      {
        var item := items[k];
        navOrder := navOrder + [item.page];
        navButtons := navButtons[item.page := ButtonFor(item)];
      }
      forall p | p in navButtons
        ensures p in (set i | 0 <= i < |items| :: items[i].page)
      {
        var i :| 0 <= i < |navOrder| && navOrder[i] == p;
      }
    }

    /** `update_nav_buttons(active)`: every button is restyled, the one named
        `active` as active and all others as inactive; nothing else about a
        button changes. */
    method UpdateNavButtons(active: string)
      requires ButtonsOk()
      modifies this`navButtons
      ensures ButtonsOk()
      ensures Styles() == SelectOnly(old(navButtons.Keys), active, Active, Inactive)
      ensures forall p :: p in navButtons ==>
        var b := old(navButtons[p]);
        && navButtons[p].text == b.text && navButtons[p].row == b.row && navButtons[p].command == b.command
    {
      ghost var before := navButtons;
      for i := 0 to |navOrder|
        invariant navButtons.Keys == before.Keys
        invariant forall p :: p in before ==>
          navButtons[p] == if p in navOrder[..i] then before[p].(style := if p == active then Active else Inactive) else before[p]
      {
        var page := navOrder[i];
        assert navOrder[..i + 1] == navOrder[..i] + [page];
        if page == active {
          navButtons := navButtons[page := navButtons[page].(style := Active)];
        } else {
          navButtons := navButtons[page := navButtons[page].(style := Inactive)];
        }
      }
      assert navOrder[..|navOrder|] == navOrder;
      var target := SelectOnly(before.Keys, active, Active, Inactive);
      assert forall p :: p in target ==> Styles()[p] == target[p];
    }

    /** `get_theme`: the switch's value, `"dark"` while there is no switch. */
    function GetTheme(): (theme: string)
      reads this
      ensures themeSwitch.None? ==> theme == DefaultTheme
      ensures themeSwitch.Some? ==> theme == themeSwitch.value
    {
      if themeSwitch.Some? then themeSwitch.value else DefaultTheme
    }
  }

  /** After `update_nav_buttons(active)` with `active` in the table exactly
      that button is active; with any other name no button is. */
  lemma HighlightIsExclusive(names: set<string>, active: string)
    ensures active in names ==>
      (set q | q in names && SelectOnly(names, active, Active, Inactive)[q] == Active) == {active}
    ensures active !in names ==>
      (set q | q in names && SelectOnly(names, active, Active, Inactive)[q] == Active) == {}
  {
    if active in names {
      ExactlyOneSelected(names, active, Active, Inactive);
    } else {
      NoneSelected(names, active, Active, Inactive);
    }
  }
}
