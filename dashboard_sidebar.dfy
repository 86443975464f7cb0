/**
 * The dashboard sidebar's two navigation tables and the rule that highlights
 * the entry of the current route.
 */
module Sidebar {
  import opened Base
  import opened Text

  /** A navigation entry; `badge` is "" when the entry has none. */
  datatype NavItem = NavItem(title: string, href: string, description: string, badge: string, highlight: bool)

  const Overview := "/dashboard"

  const SidebarItems: seq<NavItem> := [
    NavItem("Overview", "/dashboard", "Dashboard overview", "", false),
    NavItem("URLs", "/dashboard/urls", "Manage your links", "3", false),
    NavItem("Analytics", "/dashboard/analytics", "View statistics", "", false),
    NavItem("Create URL", "/dashboard/create", "Shorten new URL", "", true),
    NavItem("History", "/dashboard/history", "Click history", "", false),
    NavItem("Security", "/dashboard/security", "Security settings", "", false)
  ]

  const BottomItems: seq<NavItem> := [
    NavItem("Settings", "/dashboard/settings", "Account settings", "", false),
    NavItem("Profile", "/dashboard/profile", "Your profile", "", false),
    NavItem("Help", "/dashboard/help", "Get help", "", false)
  ]

  /** `isActive(href)`: the overview only on its own route, any other entry on every
      route that begins with its href. `None` is a pathname that is not yet known. */
  function IsActive(pathname: Option<string>, href: string): (r: bool)
    ensures href == Overview ==> (r <==> pathname == Some(Overview))
    ensures href != Overview ==> (r <==> pathname.Some? && StartsWith(pathname.value, href))
  {
    if href == Overview then pathname == Some(Overview)
    else pathname.Some? && StartsWith(pathname.value, href)
  }

  /** The hrefs of a table, which the lists use as keys. */
  function Hrefs(items: seq<NavItem>): (hs: seq<string>)
    ensures |hs| == |items| && forall i :: 0 <= i < |items| ==> hs[i] == items[i].href
  {
    seq(|items|, i requires 0 <= i < |items| => items[i].href)
  }

  predicate Distinct(hs: seq<string>) {
    forall i, j :: 0 <= i < j < |hs| ==> hs[i] != hs[j]
  }

  /** Each table's keys are distinct, and so are those of both tables together. */
  lemma KeysDistinct()
    ensures Distinct(Hrefs(SidebarItems)) && Distinct(Hrefs(BottomItems))
    ensures Distinct(Hrefs(SidebarItems + BottomItems))
  {
    var hs := Hrefs(SidebarItems + BottomItems);
    assert hs == ["/dashboard", "/dashboard/urls", "/dashboard/analytics", "/dashboard/create",
                  "/dashboard/history", "/dashboard/security", "/dashboard/settings", "/dashboard/profile",
                  "/dashboard/help"];
    forall i, j | 0 <= i < j < |hs| ensures hs[i] != hs[j] {
      assert hs[i][..|hs[i]|] == hs[i];
      if |hs[i]| == |hs[j]| {
        assert hs[i][11] != hs[j][11] || hs[i][13] != hs[j][13];
      }
    }
  }

  /** On "/dashboard/settings" the overview is not highlighted but Settings is. */
  lemma SettingsExample()
    ensures !IsActive(Some("/dashboard/settings"), SidebarItems[0].href)
    ensures IsActive(Some("/dashboard/settings"), BottomItems[0].href)
  {
    assert StartsWith("/dashboard/settings", "/dashboard/settings");
  }

  /** Before the pathname is known, only the overview's rule can hold, and it does not. */
  lemma UnknownPathname(href: string)
    ensures !IsActive(None, href)
  {
  }

  /** The match is a plain prefix, not a path segment: "/dashboard/urlsx" highlights URLs. */
  lemma NotSegmentAware()
    ensures IsActive(Some("/dashboard/urlsx"), SidebarItems[1].href)
  {
    assert "/dashboard/urlsx"[..|"/dashboard/urls"|] == "/dashboard/urls";
  }

  /** A route below an entry's href highlights that entry. */
  lemma SubrouteActive(href: string, rest: string)
    requires href != Overview
    ensures IsActive(Some(href + rest), href)
  {
    assert (href + rest)[..|href|] == href;
  }

  /** On the overview route, nothing but the overview is highlighted. */
  lemma OverviewAlone(items: seq<NavItem>, i: int)
    requires items == SidebarItems || items == BottomItems
    requires 0 <= i < |items| && items[i].href != Overview
    ensures !IsActive(Some(Overview), items[i].href)
  {
    assert |items[i].href| > |Overview|;
  }
}
