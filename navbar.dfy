/** The navigation bar: the six section links, scroll-spy selection of the
    active section, highlighting of the active link, and the mobile menu.
    The page is given as the positions of the elements it holds. */
module Navbar {
  import opened Js

  datatype NavLink = NavLink(name: string, href: string)

  const NavLinks := [
    NavLink("Bio", "#bio"),
    NavLink("Skills", "#skills"),
    NavLink("Portfolio", "#portfolio"),
    NavLink("Testimonials", "#testimonials"),
    NavLink("Resume", "#resume"),
    NavLink("Contact", "#contact")
  ]

  /** A section counts as reached once its top is at most this many pixels
      below the top of the viewport. */
  const ScrollOffset := 100

  /** The page: `document.getElementById(id).getBoundingClientRect().top` for
      every id that has an element; an id missing from the map has none. */
  type Page = map<string, int>

  /** `r` is `s` with the character at `k` removed, and that is the first `c` in `s`. */
  predicate RemovedFirstAt(s: string, c: char, r: string, k: int) {
    0 <= k < |s| && s[k] == c && c !in s[..k] && r == s[..k] + s[k + 1..]
  }

  /** `s.replace('#', '')`: a string pattern replaces only its first occurrence. */
  function RemoveFirst(s: string, c: char): (r: string)
    ensures c !in s ==> r == s
    ensures c in s ==> |r| == |s| - 1 && exists k :: RemovedFirstAt(s, c, r, k)
  {
    if s == [] then []
    else if s[0] == c then
      assert RemovedFirstAt(s, c, s[1..], 0);
      s[1..]
    else
      var rest := RemoveFirst(s[1..], c);
      InTail(s, c);
      if c in s[1..] then
        var k :| RemovedFirstAt(s[1..], c, rest, k);
        RemoveFirstShift(s, c, rest, k);
        [s[0]] + rest
      else
        [s[0]] + rest
  }

  /** A character other than the head occurs in a string exactly when it occurs
      in the tail. */
  lemma InTail(s: string, c: char)
    requires s != [] && s[0] != c
    ensures c in s <==> c in s[1..]
  {
    if c in s {
      var i :| 0 <= i < |s| && s[i] == c;
      assert s[1..][i - 1] == c;
    }
  }

  /** The step case of `RemoveFirst`: the first `c` of `s[1..]` is the first of `s`
      when `s` does not start with `c`. */
  lemma RemoveFirstShift(s: string, c: char, rest: string, k: int)
    requires s != [] && s[0] != c && RemovedFirstAt(s[1..], c, rest, k)
    ensures RemovedFirstAt(s, c, [s[0]] + rest, k + 1)
    ensures |[s[0]] + rest| == |s| - 1
  {
    assert s[..k + 1] == [s[0]] + s[1..][..k];
    assert s[k + 2..] == s[1..][k + 1..];
  }

  /** The section id a link points to. */
  function SectionOf(href: string): (id: string)
    ensures href != [] && href[0] == '#' ==> id == href[1..]
  {
    RemoveFirst(href, '#')
  }

  lemma SectionOfAnchor(id: string)
    ensures SectionOf("#" + id) == id
  {
    assert ("#" + id)[1..] == id;
  }

  /** `navLinks.map(link => link.href.replace('#', ''))`. */
  function SectionIds(links: seq<NavLink>): (ids: seq<string>)
    ensures |ids| == |links|
    ensures forall i :: 0 <= i < |links| ==> ids[i] == SectionOf(links[i].href)
  {
    if links == [] then [] else [SectionOf(links[0].href)] + SectionIds(links[1..])
  }

  /** Links whose hrefs are `#` followed by the ids point to those ids. */
  lemma SectionIdsOfAnchors(links: seq<NavLink>, ids: seq<string>)
    requires |links| == |ids|
    requires forall i :: 0 <= i < |links| ==> links[i].href == "#" + ids[i]
    ensures SectionIds(links) == ids
  {
    forall i | 0 <= i < |ids|
      ensures SectionIds(links)[i] == ids[i]
    {
      SectionOfAnchor(ids[i]);
    }
  }

  /** The section ids in link order. */
  lemma SectionIdsOfNavLinks()
    ensures SectionIds(NavLinks) == ["bio", "skills", "portfolio", "testimonials", "resume", "contact"]
  {
    var ids := ["bio", "skills", "portfolio", "testimonials", "resume", "contact"];
    forall i | 0 <= i < |NavLinks|
      ensures NavLinks[i].href == "#" + ids[i]
    {
    }
    SectionIdsOfAnchors(NavLinks, ids);
  }

  /** The section has an element and it has been scrolled to. */
  predicate Reached(page: Page, id: string) {
    id in page && page[id] <= ScrollOffset
  }

  /** The last section, in link order, that has been reached, if any. */
  function LastReached(ids: seq<string>, page: Page): (r: Option<string>)
    ensures r.Some? ==> r.value in ids && Reached(page, r.value)
  {
    if ids == [] then None
    else if Reached(page, ids[|ids| - 1]) then Some(ids[|ids| - 1])
    else LastReached(ids[..|ids| - 1], page)
  }

  /** `LastReached` finds a reached section with no reached section after it, and
      finds nothing exactly when no section has been reached. */
  lemma {:induction false} LastReachedSpec(ids: seq<string>, page: Page)
    ensures LastReached(ids, page) == None <==> forall i :: 0 <= i < |ids| ==> !Reached(page, ids[i])
    ensures LastReached(ids, page).Some? ==>
      exists i :: 0 <= i < |ids| && ids[i] == LastReached(ids, page).value &&
        Reached(page, ids[i]) && forall j :: i < j < |ids| ==> !Reached(page, ids[j])
  {
    if ids != [] {
      var n := |ids| - 1;
      if !Reached(page, ids[n]) {
        LastReachedSpec(ids[..n], page);
        assert forall i :: 0 <= i < n ==> ids[..n][i] == ids[i];
        if LastReached(ids, page).Some? {
          var i :| 0 <= i < n && ids[..n][i] == LastReached(ids, page).value &&
            Reached(page, ids[..n][i]) && forall j :: i < j < n ==> !Reached(page, ids[..n][j]);
          assert forall j :: i < j < |ids| ==> !Reached(page, ids[j]);
        }
      }
    }
  }

  /** The highlighted state of a link: its href without '#' is the active section. */
  predicate IsHighlighted(link: NavLink, activeSection: string) {
    activeSection == SectionOf(link.href)
  }

  /** The links point to distinct sections, so at most one is highlighted, and
      none while no section is active. */
  lemma HighlightUnique(activeSection: string, i: nat, j: nat)
    requires i < |NavLinks| && j < |NavLinks|
    ensures IsHighlighted(NavLinks[i], activeSection) && IsHighlighted(NavLinks[j], activeSection) ==> i == j
    ensures !IsHighlighted(NavLinks[i], "")
  {
    SectionIdsOfNavLinks();
    var ids := SectionIds(NavLinks);
    assert SectionOf(NavLinks[i].href) == ids[i];
    assert SectionOf(NavLinks[j].href) == ids[j];
    SectionIdsDistinct(i, j);
  }

  /** The six section ids begin with six different letters. */
  lemma SectionIdsDistinct(i: nat, j: nat)
    requires i < 6 && j < 6
    ensures var ids := ["bio", "skills", "portfolio", "testimonials", "resume", "contact"];
      ids[i] != "" && (ids[i] == ids[j] ==> i == j)
  {
    var ids := ["bio", "skills", "portfolio", "testimonials", "resume", "contact"];
    if i != j {
      assert ids[i][0] != ids[j][0];
    }
  }

  /** The navigation bar's state. */
  class Navbar {
    var activeSection: string
    var mobileMenuOpen: bool

    /** `useState('')` and `useState(false)`. */
    constructor ()
      ensures activeSection == "" && !mobileMenuOpen
    {
      activeSection := "";
      mobileMenuOpen := false;
    }

    /** `handleScroll`: the active section becomes the last section, in link
        order, that has been reached; when none is reached it stays as it was. */
    method HandleScroll(page: Page)
      modifies this
      ensures mobileMenuOpen == old(mobileMenuOpen)
      ensures activeSection == match LastReached(SectionIds(NavLinks), page)
        case Some(id) => id
        case None => old(activeSection)
    {
      ActivateLastReached(SectionIds(NavLinks), page);
    }

    /** The loop of `handleScroll` over the section ids: walk them from the last
        to the first (the reversed copy) and activate the first one reached. */
    method ActivateLastReached(sections: seq<string>, page: Page)
      modifies this
      ensures mobileMenuOpen == old(mobileMenuOpen)
      ensures activeSection == match LastReached(sections, page)
        case Some(id) => id
        case None => old(activeSection)
    {
      var i := |sections|;
      assert sections[..i] == sections;
      while i > 0
        invariant 0 <= i <= |sections|
        invariant LastReached(sections[..i], page) == LastReached(sections, page)
        invariant activeSection == old(activeSection) && mobileMenuOpen == old(mobileMenuOpen)
      {
        assert sections[..i][..i - 1] == sections[..i - 1];
        var section := sections[i - 1];
        if section in page {
          var top := page[section];
          if top <= ScrollOffset {
            activeSection := section;
            break;
          }
        }
        i := i - 1;
      }
    }

    /** `handleNavClick`: any link, including the logo, closes the mobile menu;
        the smooth scroll is left out. */
    method HandleNavClick(href: string)
      modifies this
      ensures !mobileMenuOpen && activeSection == old(activeSection)
    {
      mobileMenuOpen := false;
    }

    /** The menu button. */
    method ToggleMenu()
      modifies this
      ensures mobileMenuOpen == !old(mobileMenuOpen) && activeSection == old(activeSection)
    {
      mobileMenuOpen := !mobileMenuOpen;
    }
  }
}
