/**
 * The top navigation bar of components/Navbar.tsx: the throttled scroll
 * handler (scrolled flag and active-section scan), link highlighting and
 * the mobile menu. Element lookups are given as a map from section id to
 * the element's bounding box; an id absent from the map has no element.
 */
module Navbar {
  import opened Wrappers

  /** The sections the scan visits, in priority order. */
  const SectionIds: seq<string> := ["home", "about", "skills", "contact"]

  /** The horizontal line, in pixels from the viewport top, that the active
      section must straddle. */
  const ActiveLine := 150

  /** The scroll offset beyond which the bar counts as scrolled. */
  const ScrolledThreshold := 50

  /** The vertical extent of an element's bounding box. */
  datatype Rect = Rect(top: int, bottom: int)

  /** Whether `id` names an element whose box straddles the active line. */
  predicate Straddles(id: string, rects: map<string, Rect>) {
    id in rects && rects[id].top <= ActiveLine && rects[id].bottom >= ActiveLine
  }

  /** The index of the first id in `ids` that straddles the line, or `|ids|`
      when none does. */
  function FirstStraddling(ids: seq<string>, rects: map<string, Rect>): (k: nat)
    ensures k <= |ids|
    ensures forall j | 0 <= j < k :: !Straddles(ids[j], rects)
    ensures k < |ids| ==> Straddles(ids[k], rects)
  {
    if ids == [] then 0
    else if Straddles(ids[0], rects) then 0
    else 1 + FirstStraddling(ids[1..], rects)
  }

  /** What the scan sets the active section to, if anything. */
  function ScanResult(rects: map<string, Rect>): Option<string> {
    var k := FirstStraddling(SectionIds, rects);
    if k < |SectionIds| then Some(SectionIds[k]) else None
  }

  /** The `for ... of` loop with `break`: the first id, in priority order,
      whose element exists and straddles the line. */
  method ScanSections(rects: map<string, Rect>) returns (found: Option<string>)
    ensures found == ScanResult(rects)
    ensures found.Some? ==> found.value in SectionIds && Straddles(found.value, rects)
    ensures found.None? ==> forall id | id in SectionIds :: !Straddles(id, rects)
  {
    found := None;
    for i := 0 to |SectionIds|
      invariant forall j | 0 <= j < i :: !Straddles(SectionIds[j], rects)
    {
      var section := SectionIds[i];
      if section in rects {
        var rect := rects[section];
        if rect.top <= ActiveLine && rect.bottom >= ActiveLine {
          found := Some(section);
          break;
        }
      }
    }
  }

  /** The links of the bar; "home" has none. */
  const NavLinks: seq<string> := ["#about", "#skills", "#contact"]

  /** `s.slice(1)` */
  function DropFirst(s: string): string {
    if |s| == 0 then s else s[1..]
  }

  /** A link is highlighted when its target id is the active section. */
  predicate LinkIsActive(href: string, activeSection: string) {
    DropFirst(href) == activeSection
  }

  /** Each link is highlighted exactly for its own section, so at most one
      link is highlighted at a time and "home" or "" highlights none. */
  lemma LinkHighlighting(activeSection: string)
    ensures forall k | 0 <= k < |NavLinks| ::
      LinkIsActive(NavLinks[k], activeSection) <==> activeSection == SectionIds[k + 1]
    ensures forall k, l | 0 <= k < l < |NavLinks| ::
      !(LinkIsActive(NavLinks[k], activeSection) && LinkIsActive(NavLinks[l], activeSection))
    ensures activeSection in {"", "home"} ==>
      forall k | 0 <= k < |NavLinks| :: !LinkIsActive(NavLinks[k], activeSection)
  {
  }

  /** The state of the `Navbar` component together with the closure flag
      `ticking` and the scroll value captured by the pending frame. */
  class Navbar {
    var isScrolled: bool
    var isMobileMenuOpen: bool
    var activeSection: string
    var ticking: bool
    var pendingFrame: Option<int>

    /** A frame is pending exactly while `ticking` is set, and the active
        section is "" or one of the scanned ids. */
    ghost predicate Valid()
      reads this
    {
      (ticking <==> pendingFrame.Some?)
      && (activeSection == "" || activeSection in SectionIds)
    }

    constructor ()
      ensures Valid()
      ensures !isScrolled && !isMobileMenuOpen && activeSection == "" && !ticking
    {
      isScrolled := false;
      isMobileMenuOpen := false;
      activeSection := "";
      ticking := false;
      pendingFrame := None;
    }

    /** `handleScroll(latest)`: requests one animation frame that will use
        `latest`; while a frame is pending further events are dropped. */
    method HandleScroll(latest: int)
      requires Valid()
      modifies this
      ensures Valid()
      ensures old(ticking) ==> pendingFrame == old(pendingFrame)
      ensures !old(ticking) ==> pendingFrame == Some(latest)
      ensures ticking
      ensures isScrolled == old(isScrolled) && activeSection == old(activeSection)
      ensures isMobileMenuOpen == old(isMobileMenuOpen)
    {
      if !ticking {
        pendingFrame := Some(latest);
        ticking := true;
      }
    }

    /** The animation-frame callback: sets the scrolled flag from the
        captured offset, moves the active section to the scan's result (or
        leaves it when no section straddles the line) and clears `ticking`. */
    method RunFrame(rects: map<string, Rect>)
      requires Valid() && ticking
      modifies this
      ensures Valid() && !ticking
      ensures isScrolled == (old(pendingFrame).value > ScrolledThreshold)
      ensures activeSection == match ScanResult(rects)
                               case Some(id) => id
                               case None => old(activeSection)
      ensures isMobileMenuOpen == old(isMobileMenuOpen)
    {
      var latest := pendingFrame.value;
      isScrolled := latest > ScrolledThreshold;
      var found := ScanSections(rects);
      if found.Some? {
        activeSection := found.value;
      }
      ticking := false;
      pendingFrame := None;
    }

    /** `scrollToSection`: the smooth scroll is left to the browser; the
        mobile menu always closes. */
    method ScrollToSection(href: string)
      modifies this
      ensures !isMobileMenuOpen
      ensures isScrolled == old(isScrolled) && activeSection == old(activeSection)
      ensures ticking == old(ticking) && pendingFrame == old(pendingFrame)
    {
      isMobileMenuOpen := false;
    }

    /** `toggleMobileMenu` */
    method ToggleMobileMenu()
      modifies this
      ensures isMobileMenuOpen == !old(isMobileMenuOpen)
      ensures isScrolled == old(isScrolled) && activeSection == old(activeSection)
      ensures ticking == old(ticking) && pendingFrame == old(pendingFrame)
    {
      isMobileMenuOpen := !isMobileMenuOpen;
    }
  }
}
