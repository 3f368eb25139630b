/**
 * The site header: two drop-down menus (areas and categories) of which at
 * most one is open, and the links that close it.
 */
module HeaderMenu {
  import opened Wrappers

  datatype DropdownItem = DropdownItem(name: string, href: string)

  /** The area menu: display names (Suwa, Okaya, Chino) and their pages. */
  const AreaItems: seq<DropdownItem> := [
    DropdownItem("諏訪", "/area/Suwa"),
    DropdownItem("岡谷", "/area/Okaya"),
    DropdownItem("茅野", "/area/Chino")
  ]

  const CategoryItems: seq<DropdownItem> := [
    DropdownItem("Worker", "/category/Worker"),
    DropdownItem("Event", "/category/Event"),
    DropdownItem("Spot", "/category/Spot"),
    DropdownItem("Company", "/category/Company")
  ]

  /** Three area entries, each linking below /area/; four category entries,
      each linking to /category/ followed by its own name. */
  lemma MenuTables()
    ensures |AreaItems| == 3 && |CategoryItems| == 4
    ensures forall item :: item in AreaItems ==> |item.href| > 6 && item.href[..6] == "/area/"
    ensures forall item :: item in CategoryItems ==> item.href == "/category/" + item.name
  {
  }

  /** `toggleDropdown(name)`: close the menu if it is the open one, else open it. */
  function Toggle(openDropdown: Option<string>, dropdownName: string): Option<string>
  {
    if openDropdown == Some(dropdownName) then None else Some(dropdownName)
  }

  /** A menu is shown (and its button expanded) when it is the open one. */
  predicate IsMenuVisible(openDropdown: Option<string>, dropdownName: string)
  {
    openDropdown == Some(dropdownName)
  }

  /** After a toggle of `n`, menu `m` is shown exactly when `m` is `n` and
      `n` was not shown before: toggling the open menu closes it, anything
      else opens exactly the toggled one. */
  lemma ToggleVisibility(openDropdown: Option<string>, n: string, m: string)
    ensures IsMenuVisible(Toggle(openDropdown, n), m) <==> m == n && !IsMenuVisible(openDropdown, n)
  {
  }

  /** Toggling one menu twice from the closed state closes it again. */
  lemma ToggleTwiceFromClosed(n: string)
    ensures Toggle(Toggle(None, n), n) == None
  {
  }

  /** Two menus are never shown at once. */
  lemma AtMostOneVisible(openDropdown: Option<string>, a: string, b: string)
    ensures IsMenuVisible(openDropdown, a) && IsMenuVisible(openDropdown, b) ==> a == b
  {
  }

  /** The header's state: the name of the open menu, if any. */
  class Header {
    var openDropdown: Option<string>

    constructor ()
      ensures openDropdown == None
    {
      openDropdown := None;
    }

    method ToggleDropdown(dropdownName: string)
      modifies this
      ensures openDropdown == Toggle(old(openDropdown), dropdownName)
      ensures old(openDropdown) == Some(dropdownName) ==> openDropdown == None
      ensures old(openDropdown) != Some(dropdownName) ==> openDropdown == Some(dropdownName)
      ensures forall m :: IsOpen(m) <==> m == dropdownName && old(openDropdown) != Some(dropdownName)
    {
      openDropdown := Toggle(openDropdown, dropdownName);
    }

    /** A click on a menu entry, on Home or on the About link. */
    method CloseDropdown()
      modifies this
      ensures openDropdown == None
    {
      openDropdown := None;
    }

    /** A mouse press anywhere on the document. The listener is only
        registered while a menu is open, and it closes the menu when the
        press lands outside the navigation items. */
    method MouseDown(insideNavItems: bool)
      modifies this
      ensures !insideNavItems ==> openDropdown == None
      ensures insideNavItems ==> openDropdown == old(openDropdown)
    {
      if openDropdown.Some? && !insideNavItems {
        openDropdown := None;
      }
    }

    predicate IsOpen(dropdownName: string)
      reads this
    {
      IsMenuVisible(openDropdown, dropdownName)
    }
  }
}
