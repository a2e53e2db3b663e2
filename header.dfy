/** The fixed top bar: a page title for narrow screens and three links for wide ones. */
module Header {

  /** `getPageTitle`, a switch on the path with a prefix test as its default. */
  function PageTitle(pathname: string): string {
    if pathname == "/" || pathname == "/search" then "Search Anime"
    else if pathname == "/my-list" then "My List"
    else if pathname == "/stats" then "Stats"
    else if "/anime/" <= pathname then "Anime Details"
    else "Tsugi"
  }

  predicate SearchLinkActive(pathname: string) {
    pathname == "/" || pathname == "/search"
  }

  predicate MyListLinkActive(pathname: string) {
    pathname == "/my-list"
  }

  predicate StatsLinkActive(pathname: string) {
    pathname == "/stats"
  }

  /** No path lights up two links. */
  lemma AtMostOneLinkActive(pathname: string)
    ensures !(SearchLinkActive(pathname) && MyListLinkActive(pathname))
    ensures !(SearchLinkActive(pathname) && StatsLinkActive(pathname))
    ensures !(MyListLinkActive(pathname) && StatsLinkActive(pathname))
  {
  }

  /**
    The title names the active link: each of the three link titles is shown
    exactly when its link is active; a path under `/anime/` reads "Anime
    Details"; anything else, `/anime` without the slash included, reads "Tsugi".
  */
  lemma TitleMatchesActiveLink(pathname: string)
    ensures PageTitle(pathname) == "Search Anime" <==> SearchLinkActive(pathname)
    ensures PageTitle(pathname) == "My List" <==> MyListLinkActive(pathname)
    ensures PageTitle(pathname) == "Stats" <==> StatsLinkActive(pathname)
    ensures PageTitle(pathname) == "Anime Details" <==> "/anime/" <= pathname
    ensures PageTitle(pathname) == "Tsugi" <==>
      !SearchLinkActive(pathname) && !MyListLinkActive(pathname) && !StatsLinkActive(pathname) && !("/anime/" <= pathname)
  {
    if "/anime/" <= pathname {
      assert pathname[..7] == "/anime/";
      assert |pathname| >= 7 && pathname[1] == 'a';
      assert "/search"[1] == 's' && "/my-list"[1] == 'm' && "/stats"[1] == 's';
    }
  }

  /** The path `/anime` itself is not a detail page. */
  lemma BareAnimePathIsDefault()
    ensures PageTitle("/anime") == "Tsugi"
  {
    assert !("/anime/" <= "/anime");
  }
}
