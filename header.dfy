/** The site header (components/site/header.tsx): which navigation link
    is highlighted for the current path, and the mobile menu that opens and
    closes. */
module Header {
  import opened Common

  /** `isActive` of a `NavLink`: the home link only on "/" itself, any other
      link on its own path and on the paths below it. */
  predicate IsActive(href: string, pathname: string)
  {
    if href == "/" then pathname == "/"
    else pathname == href || StartsWith(pathname, href + "/")
  }

  /** The three navigation links. */
  const NavHrefs: seq<string> := ["/", "/intro", "/quiz"]

  /** A link is active on its own path; a path that merely shares the
      link's text as a prefix, such as "/quizzes" for "/quiz", does not
      activate it, and "/" activates only the home link. */
  lemma ActiveRule(href: string, pathname: string)
    requires href != "/" && StartsWith(pathname, href) && |pathname| > |href|
    ensures IsActive(href, pathname) <==> pathname[|href|] == '/'
  {
    if IsActive(href, pathname) {
      assert (href + "/")[|href|] == '/';
      assert pathname[..|href| + 1][|href|] == pathname[|href|];
    }
    if pathname[|href|] == '/' {
      assert pathname[..|href| + 1] == pathname[..|href|] + [pathname[|href|]];
    }
  }

  lemma QuizzesIsNotQuiz()
    ensures !IsActive("/quiz", "/quizzes")
    ensures IsActive("/quiz", "/quiz/1")
    ensures IsActive("/", "/") && !IsActive("/", "/intro")
  {
    assert ("/quiz" + "/")[5] == '/';
    assert "/quizzes"[5] == 'z';
    assert "/quiz/1"[..6] == "/quiz" + "/";
  }

  /** An active link other than "/" fixes the path's second character. */
  lemma SecondCharacter(href: string, pathname: string)
    requires |href| >= 2
    ensures IsActive(href, pathname) ==> |pathname| >= 2 && pathname[1] == href[1]
  {
    if IsActive(href, pathname) && pathname != href {
      assert pathname[..|href| + 1][1] == (href + "/")[1];
    }
  }

  /** At most one of the header's links is highlighted at a time. */
  lemma AtMostOneActive(pathname: string)
    ensures forall i, j :: 0 <= i < j < |NavHrefs| && IsActive(NavHrefs[i], pathname) ==>
      !IsActive(NavHrefs[j], pathname)
  {
    SecondCharacter("/intro", pathname);
    SecondCharacter("/quiz", pathname);
  }

  /** The header's mobile menu state. */
  class Menu {
    var open: bool
    var pathname: string

    constructor (pathname: string)
      ensures !open && this.pathname == pathname
    {
      open := false;
      this.pathname := pathname;
    }

    /** The mobile toggler flips the menu. */
    method Toggle()
      modifies this
      ensures open == !old(open) && pathname == old(pathname)
    {
      open := !open;
    }

    /** A navigation to `next`: the effect keyed on the path closes the menu
        when the path changes. */
    method Navigate(next: string)
      modifies this
      ensures pathname == next
      ensures open == (old(open) && next == old(pathname))
    {
      if next != pathname {
        open := false;
      }
      pathname := next;
    }

    /** A click on a mobile link (shown only while the menu is open) closes
        the menu, then navigates to the link. */
    method ClickMobileLink(href: string)
      requires open
      modifies this
      ensures !open && pathname == href
    {
      open := false;
      Navigate(href);
    }
  }
}
