/** The site header shared by every page: a bar that turns opaque once the
    page is scrolled, a mobile menu overlay, a "Programs" drop-down, and a
    navigation list whose link for the current page is highlighted.
    `HeaderState` is the header's state as a value and `Step` what each event
    does to it; the class `Header` holds the same state in fields and is
    proved against `Step`. */
module SiteHeader {

  /** The bar turns opaque strictly beyond this many pixels of scroll. */
  const ScrollThreshold: real := 40.0

  datatype Option<T> = None | Some(value: T)

  datatype NavChild = NavChild(name: string, href: string)

  /** A top-level entry of the navigation. An entry whose `children` field is
      present is drawn as a drop-down button rather than as a link, even when
      the list it holds is empty: the page tests the field, not its length. */
  datatype NavLink = NavLink(name: string, href: string, children: Option<seq<NavChild>>)

  const NavLinks: seq<NavLink> := [
    NavLink("Concerts", "/concerts", None),
    NavLink("Music Production", "/music-production", None),
    NavLink("Programs", "/programs", Some([
      NavChild("Artist Residency", "/programs/residency"),
      NavChild("Workshops", "/programs/workshops"),
      NavChild("Private Lessons", "/programs/lessons")
    ])),
    NavLink("About", "/about", None),
    NavLink("Shop", "/shop", None),
    NavLink("Contact", "/contact", None)
  ]

  /** A plain link is drawn highlighted when the current path is exactly its
      target. Only an exact match counts, so a sub-page does not highlight its
      parent, and a drop-down entry is never highlighted. */
  function Highlighted(pathname: string, link: NavLink): (b: bool)
    ensures b ==> pathname == link.href
    ensures link.children.Some? ==> !b
  {
    link.children.None? && pathname == link.href
  }

  /** Positions of the highlighted entries of `links`. */
  function HighlightedIn(links: seq<NavLink>, pathname: string): set<int> {
    set i | 0 <= i < |links| && Highlighted(pathname, links[i])
  }

  predicate DistinctHrefs(links: seq<NavLink>) {
    forall i, j :: 0 <= i < j < |links| ==> links[i].href != links[j].href
  }

  /** When no two entries share a target, at most one entry is highlighted,
      and a plain link is highlighted exactly when the path is its target. */
  lemma AtMostOneHighlighted(links: seq<NavLink>, pathname: string)
    requires DistinctHrefs(links)
    ensures forall i, j :: i in HighlightedIn(links, pathname) && j in HighlightedIn(links, pathname) ==> i == j
    ensures forall i :: 0 <= i < |links| && links[i].children.None? ==>
              (i in HighlightedIn(links, pathname) <==> pathname == links[i].href)
  {
  }

  /** The site's navigation entries all have different targets. */
  lemma NavLinksDistinct()
    ensures DistinctHrefs(NavLinks)
  {
  }

  /** On the About page only the About link is highlighted; on the Programs
      page and its sub-pages no entry is. */
  lemma SiteHighlighting()
    ensures HighlightedIn(NavLinks, "/about") == {3}
    ensures HighlightedIn(NavLinks, "/programs") == {}
    ensures HighlightedIn(NavLinks, "/programs/workshops") == {}
  {
  }

  /** The header's state: the three React state variables and the current
      route. */
  datatype HeaderState = HeaderState(scrolled: bool, mobileOpen: bool, programsOpen: bool, pathname: string)

  datatype HeaderEvent =
    | WindowScrolled(scrollY: real)
    | MenuPressed
    | ProgramsPressed
    | Navigated(path: string)

  /** On first render the bar is transparent and both menus are closed. */
  function Initial(pathname: string): HeaderState {
    HeaderState(false, false, false, pathname)
  }

  /** The mobile overlay is drawn exactly while the mobile menu is open. */
  predicate OverlayShown(s: HeaderState) {
    s.mobileOpen
  }

  /** What one event does to the header. Only a scroll changes the bar's
      look, only navigation changes the path, and each menu is opened only by
      its own button; a move to another page closes both. */
  function Step(s: HeaderState, e: HeaderEvent): (r: HeaderState)
    ensures !e.WindowScrolled? ==> r.scrolled == s.scrolled
    ensures r.pathname == if e.Navigated? then e.path else s.pathname
    ensures r.mobileOpen ==> s.mobileOpen || e == MenuPressed
    ensures r.programsOpen ==> s.programsOpen || e == ProgramsPressed
    ensures e.Navigated? && e.path != s.pathname ==> !r.mobileOpen && !r.programsOpen
  {
    match e
    case WindowScrolled(y) => s.(scrolled := y > ScrollThreshold)
    case MenuPressed => s.(mobileOpen := !s.mobileOpen)
    case ProgramsPressed => s.(programsOpen := !s.programsOpen)
    case Navigated(p) =>
      // the effect that closes the menus depends on the path, so it runs
      // only when the path actually changes
      if p != s.pathname then s.(pathname := p, mobileOpen := false, programsOpen := false) else s
  }

  function Run(s: HeaderState, evs: seq<HeaderEvent>): HeaderState
    decreases |evs|
  {
    if evs == [] then s else Run(Step(s, evs[0]), evs[1..])
  }

  /** The bar is opaque exactly when the page is scrolled strictly past 40
      pixels, so at exactly 40 it is still transparent; nothing else changes. */
  lemma ScrollThresholdStrict(s: HeaderState, y: real)
    ensures Step(s, WindowScrolled(y)).scrolled <==> y > 40.0
    ensures !Step(s, WindowScrolled(40.0)).scrolled
    ensures Step(s, WindowScrolled(y)).(scrolled := s.scrolled) == s
  {
  }

  /** The menu button flips the overlay and pressing it twice restores it;
      the Programs button flips only the drop-down. */
  lemma TogglesInvolutive(s: HeaderState)
    ensures OverlayShown(Step(s, MenuPressed)) != OverlayShown(s)
    ensures Step(Step(s, MenuPressed), MenuPressed) == s
    ensures Step(s, ProgramsPressed).programsOpen != s.programsOpen
    ensures Step(s, ProgramsPressed).mobileOpen == s.mobileOpen
    ensures Step(Step(s, ProgramsPressed), ProgramsPressed) == s
  {
  }

  /** Moving to another page closes both menus whatever they were, and
      leaves the bar's scrolled look alone. */
  lemma NavigationClosesMenus(s: HeaderState, p: string)
    requires p != s.pathname
    ensures !Step(s, Navigated(p)).mobileOpen && !Step(s, Navigated(p)).programsOpen
    ensures Step(s, Navigated(p)).scrolled == s.scrolled
    ensures Step(s, Navigated(p)).pathname == p
  {
  }

  /** Number of menu-button presses in a run of events. */
  function MenuPresses(evs: seq<HeaderEvent>): nat
    decreases |evs|
  {
    if evs == [] then 0 else (if evs[0] == MenuPressed then 1 else 0) + MenuPresses(evs[1..])
  }

  /** Without navigation, the overlay is open after a run exactly when it was
      open before and the menu button was pressed an even number of times, or
      it was closed and the button was pressed an odd number of times. */
  lemma {:induction false} OverlayParity(s: HeaderState, evs: seq<HeaderEvent>)
    requires forall j :: 0 <= j < |evs| ==> !evs[j].Navigated?
    ensures OverlayShown(Run(s, evs)) == (OverlayShown(s) != (MenuPresses(evs) % 2 == 1))
    decreases |evs|
  {
    if evs != [] {
      assert !evs[0].Navigated?;
      OverlayParity(Step(s, evs[0]), evs[1..]);
    }
  }

  /** After a move to a new page, the overlay stays closed until the menu
      button is pressed again. */
  lemma {:induction false} ClosedUntilPressed(s: HeaderState, p: string, evs: seq<HeaderEvent>)
    requires p != s.pathname
    requires forall j :: 0 <= j < |evs| ==> evs[j] != MenuPressed
    ensures !OverlayShown(Run(s, [Navigated(p)] + evs))
  {
    assert ([Navigated(p)] + evs)[1..] == evs;
    StaysClosed(Step(s, Navigated(p)), evs);
  }

  lemma {:induction false} StaysClosed(s: HeaderState, evs: seq<HeaderEvent>)
    requires !s.mobileOpen
    requires forall j :: 0 <= j < |evs| ==> evs[j] != MenuPressed
    ensures !OverlayShown(Run(s, evs))
    decreases |evs|
  {
    if evs != [] {
      assert evs[0] != MenuPressed;
      StaysClosed(Step(s, evs[0]), evs[1..]);
    }
  }

  /** The header component: its state variables as fields. */
  class Header {
    var scrolled: bool
    var mobileOpen: bool
    var programsOpen: bool
    var pathname: string

    function Snapshot(): HeaderState
      reads this
    {
      HeaderState(scrolled, mobileOpen, programsOpen, pathname)
    }

    constructor (pathname: string)
      ensures Snapshot() == Initial(pathname)
    {
      scrolled := false;
      mobileOpen := false;
      programsOpen := false;
      this.pathname := pathname;
    }

    /** The window's scroll listener. */
    method OnScroll(scrollY: real)
      modifies this
      ensures Snapshot() == Step(old(Snapshot()), WindowScrolled(scrollY))
      ensures scrolled <==> scrollY > ScrollThreshold
    {
      scrolled := scrollY > ScrollThreshold;
    }

    /** The mobile menu button. */
    method ToggleMobile()
      modifies this
      ensures Snapshot() == Step(old(Snapshot()), MenuPressed)
      ensures mobileOpen == !old(mobileOpen)
    {
      mobileOpen := !mobileOpen;
    }

    /** The "Programs" drop-down button. */
    method TogglePrograms()
      modifies this
      ensures Snapshot() == Step(old(Snapshot()), ProgramsPressed)
      ensures programsOpen == !old(programsOpen) && mobileOpen == old(mobileOpen)
    {
      programsOpen := !programsOpen;
    }

    /** The router reports the current path; when it differs from the last
        one, the route-change effect closes both menus. */
    method RouteChanged(path: string)
      modifies this
      ensures Snapshot() == Step(old(Snapshot()), Navigated(path))
      ensures path != old(pathname) ==> !mobileOpen && !programsOpen
      ensures scrolled == old(scrolled) && pathname == path
    {
      if path != pathname {
        pathname := path;
        mobileOpen := false;
        programsOpen := false;
      }
    }
  }
}
