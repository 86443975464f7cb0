/**
 * The mobile sidebar: the same tables and highlighting as the desktop sidebar,
 * drawn only while open, with every control closing it.
 */
module MobileSidebar {
  import opened Base
  import opened Sidebar

  /** The controls the open sidebar draws, in order. */
  datatype Control =
    | Backdrop                          // the overlay behind the panel
    | LogoLink                          // "iShort", to "/"
    | CloseButton
    | NavLink(item: NavItem, active: bool)
    | BackHome                          // "Back to Home", to "/"
    | SignOut

  /** What a click on a control does: whether it calls `onClose`, where it navigates, and
      what it logs. */
  datatype Effect = Effect(closes: bool, navigatesTo: Option<string>, logs: seq<string>)

  /** The controls for one table. */
  function NavLinks(items: seq<NavItem>, pathname: Option<string>): (cs: seq<Control>)
    ensures |cs| == |items|
    ensures forall i :: 0 <= i < |items| ==> cs[i] == NavLink(items[i], IsActive(pathname, items[i].href))
  {
    seq(|items|, i requires 0 <= i < |items| => NavLink(items[i], IsActive(pathname, items[i].href)))
  }

  /** The rendering: nothing while closed (`if (!isOpen) return null`). */
  function Render(isOpen: bool, pathname: Option<string>): (cs: seq<Control>)
    ensures !isOpen <==> cs == []
    ensures isOpen ==> |cs| == 5 + |SidebarItems| + |BottomItems|
  {
    if !isOpen then []
    else [Backdrop, LogoLink, CloseButton] + NavLinks(SidebarItems, pathname) + NavLinks(BottomItems, pathname)
         + [BackHome, SignOut]
  }

  /** A click on a control. */
  function Click(c: Control): (e: Effect)
    ensures e.closes
    ensures c.SignOut? ==> e.navigatesTo.None? && e.logs == ["Logout clicked"]
    ensures c.NavLink? ==> e.navigatesTo == Some(c.item.href)
  {
    match c
    case Backdrop => Effect(true, None, [])
    case CloseButton => Effect(true, None, [])
    case LogoLink => Effect(true, Some("/"), [])
    case BackHome => Effect(true, Some("/"), [])
    case NavLink(item, _) => Effect(true, Some(item.href), [])
    case SignOut => Effect(true, None, ["Logout clicked"])
  }

  /** Every control the open sidebar draws closes it; only the links navigate, and
      "Sign Out" neither navigates nor signs out, it only closes and logs. */
  lemma EveryControlCloses(pathname: Option<string>, i: int)
    requires 0 <= i < |Render(true, pathname)|
    ensures Click(Render(true, pathname)[i]).closes
    ensures Render(true, pathname)[i].SignOut? ==>
              Click(Render(true, pathname)[i]) == Effect(true, None, ["Logout clicked"])
  {
  }

  /** The mobile highlighting agrees with the desktop one, table entry by table entry. */
  lemma SameHighlighting(pathname: Option<string>, i: int, j: int)
    requires 0 <= i < |SidebarItems| && 0 <= j < |BottomItems|
    ensures Render(true, pathname)[3 + i] == NavLink(SidebarItems[i], IsActive(pathname, SidebarItems[i].href))
    ensures Render(true, pathname)[3 + |SidebarItems| + j] == NavLink(BottomItems[j], IsActive(pathname, BottomItems[j].href))
  {
  }
}
