/** The bottom tab bar shown on narrow screens. */
module Navigation {
  import Header

  datatype NavItem = NavItem(path: string, labelText: string, icon: string, activeIcon: string)

  /** `navItems`. */
  const NavItems: seq<NavItem> := [
    NavItem("/search", "Search", "🔍", "🔍"),
    NavItem("/my-list", "My List", "📋", "📋"),
    NavItem("/stats", "Stats", "📊", "📊")
  ]

  /** `isActive`: the search tab also stands for `/`; the others match their path exactly. */
  predicate IsActive(path: string, pathname: string) {
    if path == "/search" then pathname == "/" || pathname == "/search" else pathname == path
  }

  /** Exactly three tabs, for search, the list and the stats, in that order. */
  lemma NavItemsInOrder()
    ensures |NavItems| == 3
    ensures NavItems[0].path == "/search" && NavItems[1].path == "/my-list" && NavItems[2].path == "/stats"
  {
  }

  /** For any path at most one tab is active, and one is exactly on the four known routes. */
  lemma AtMostOneActive(pathname: string)
    ensures forall i, j :: 0 <= i < j < |NavItems| ==> !(IsActive(NavItems[i].path, pathname) && IsActive(NavItems[j].path, pathname))
    ensures (exists i :: 0 <= i < |NavItems| && IsActive(NavItems[i].path, pathname)) <==>
      pathname == "/" || pathname == "/search" || pathname == "/my-list" || pathname == "/stats"
  {
    if pathname == "/" || pathname == "/search" {
      assert IsActive(NavItems[0].path, pathname);
    } else if pathname == "/my-list" {
      assert IsActive(NavItems[1].path, pathname);
    } else if pathname == "/stats" {
      assert IsActive(NavItems[2].path, pathname);
    }
  }

  /** The tab bar and the top bar's links agree on what is active. */
  lemma AgreesWithHeader(pathname: string)
    ensures IsActive(NavItems[0].path, pathname) == Header.SearchLinkActive(pathname)
    ensures IsActive(NavItems[1].path, pathname) == Header.MyListLinkActive(pathname)
    ensures IsActive(NavItems[2].path, pathname) == Header.StatsLinkActive(pathname)
  {
  }
}
