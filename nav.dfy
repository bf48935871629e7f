/**
 * The active-link rule of src/components/Nav.tsx: the About link is active anywhere under
 * '/about', every other link only on its exact path.
 */
module Nav {
  import opened Js

  datatype NavLink = NavLink(href: string, title: string)

  const NavLinks := [
    NavLink("/", "Home"),
    NavLink("/topics", "Topics"),
    NavLink("/articles", "Insights"),
    NavLink("/about", "About")
  ]

  /** `isLinkActive(link)` for the current `pathname`. */
  predicate IsLinkActive(pathname: string, link: NavLink) {
    if link.href == "/about" then StartsWith(pathname, "/about") else pathname == link.href
  }

  /**
   * About is active exactly under '/about', Home exactly on '/', Topics and Insights exactly on
   * their own paths.
   */
  lemma {:induction false} ActiveLinks(pathname: string)
    ensures IsLinkActive(pathname, NavLinks[3]) <==> StartsWith(pathname, "/about")
    ensures IsLinkActive(pathname, NavLinks[0]) <==> pathname == "/"
    ensures IsLinkActive(pathname, NavLinks[1]) <==> pathname == "/topics"
    ensures IsLinkActive(pathname, NavLinks[2]) <==> pathname == "/articles"
  {
  }

  /** Whatever the path, at most one of the four links is active. */
  lemma {:induction false} AtMostOneActive(pathname: string)
    ensures forall i, j :: 0 <= i < j < |NavLinks| && IsLinkActive(pathname, NavLinks[i]) ==>
      !IsLinkActive(pathname, NavLinks[j])
  {
    ActiveLinks(pathname);
    if StartsWith(pathname, "/about") {
      assert pathname[..6] == "/about";
      assert |pathname| >= 6 && pathname[1] == 'a' && pathname[2] == 'b';
      assert "/topics"[1] == 't' && "/articles"[2] == 'r' && |"/"| == 1;
    }
  }

  /** Pages below '/articles' or '/topics' leave every link inactive. */
  lemma {:induction false} NestedPagesInactive(section: string, rest: string)
    requires section == "/articles" || section == "/topics"
    requires rest != []
    ensures forall i :: 0 <= i < |NavLinks| ==> !IsLinkActive(section + rest, NavLinks[i])
  {
    var p := section + rest;
    ActiveLinks(p);
    assert |p| > |section| && p[1] == section[1];
    assert "/articles"[1] == 'a' && "/topics"[1] == 't';
    assert p[..6] == section[..6];
    assert "/about"[1] == 'a' && "/about"[2] == 'b' && "/articles"[2] == 'r';
  }
}
