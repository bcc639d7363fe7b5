/**
 * The site-wide navigation header (components/Header.tsx): a route table,
 * three pieces of UI state updated by resize, scroll, route and click
 * events, and the styling decisions derived from them on every render.
 */
module Header {
  import opened Wrappers

  /** A menu entry; `caption` is the source's `label`, a reserved word in Dafny. */
  datatype NavItem = NavItem(href: string, caption: string)

  /** The menu, in display order. */
  const NavItems: seq<NavItem> := [
    NavItem("/", "Home"),
    NavItem("/about", "About Us"),
    NavItem("/services", "Services"),
    NavItem("/insights", "Insights and News"),
    NavItem("/contact", "Contact")
  ]

  const HomePath: string := "/"

  /** Widest viewport, in CSS pixels, that counts as mobile: the media query
      is `(max-width: 767px)`. */
  const MobileMaxWidth: int := 767

  /** The hrefs of the menu, in order. */
  function ValidPaths(): (paths: seq<string>)
    ensures |paths| == |NavItems|
    ensures forall i :: 0 <= i < |paths| ==> paths[i] == NavItems[i].href
  {
    seq(|NavItems|, i requires 0 <= i < |NavItems| => NavItems[i].href)
  }

  lemma ValidPathsAreTheFiveRoutes()
    ensures ValidPaths() == ["/", "/about", "/services", "/insights", "/contact"]
    ensures forall i, j :: 0 <= i < j < |ValidPaths()| ==> ValidPaths()[i] != ValidPaths()[j]
  {
    assert ValidPaths()[0] == "/";
    assert ValidPaths()[1] == "/about";
    assert ValidPaths()[2] == "/services";
    assert ValidPaths()[3] == "/insights";
    assert ValidPaths()[4] == "/contact";
  }

  predicate IsHome(pathname: string)
  {
    pathname == HomePath
  }

  /** The header renders nothing on a path outside the menu. */
  predicate IsNotFound(pathname: string)
    ensures IsNotFound(pathname) <==> forall i :: 0 <= i < |NavItems| ==> NavItems[i].href != pathname
  {
    pathname !in ValidPaths()
  }

  /** See-through header with light foreground: on home, before the anchor
      has scrolled past. */
  predicate IsTransparent(pathname: string, scrolledPastButton: bool)
  {
    IsHome(pathname) && !scrolledPastButton
  }

  /** The test the mobile branches use for a white bar: `scrolledPastButton || !isHome`. */
  predicate MobileSolid(pathname: string, scrolledPastButton: bool)
  {
    scrolledPastButton || !IsHome(pathname)
  }

  /** Background and foreground of the bar: white with dark text and a
      shadow, or see-through with white text. */
  datatype Tone = Solid | SeeThrough

  datatype Colour = White | Charcoal | Sky

  datatype Icon = MenuIcon | CloseIcon

  /** The conditional classes of one render, as values. */
  datatype HeaderView = HeaderView(
    mobileBar: Option<Tone>,     // the mobile classes, present only when isMobile
    desktopBar: Option<Tone>,    // the `md:` classes, present only when !isMobile
    backdropBlur: bool,          // `backdrop-blur-md` on the bar
    logoInverted: bool,          // `brightness-0 invert` on the logo
    desktopNavText: Colour,      // text colour of the desktop links
    underline: Colour,           // hover underline of the desktop links
    hamburger: Colour,           // colour of the hamburger button
    hamburgerIcon: Icon,         // X when open, bars when closed
    ariaExpanded: bool,
    panelExpanded: bool,         // `max-h-96 opacity-100 ...` versus `max-h-0 opacity-0`
    panelWhite: bool,            // inline white background on the mobile panel
    panelText: Colour            // text colour of the mobile panel links
  )

  /** The tone in force, whichever viewport branch supplied it. */
  function ActiveTone(v: HeaderView): Tone
  {
    match v.mobileBar
    case Some(t) => t
    case None => if v.desktopBar.Some? then v.desktopBar.value else Solid
  }

  /** One render of the header from the current path and the three state fields. */
  function Render(pathname: string, mobileOpen: bool, isMobile: bool, scrolledPastButton: bool)
    : (r: Option<HeaderView>)
    // nothing at all off the menu
    ensures r.None? <==> IsNotFound(pathname)
    // exactly one of the two bar branches is styled
    ensures r.Some? ==> (r.value.mobileBar.Some? <==> isMobile) && (r.value.desktopBar.Some? <==> !isMobile)
    // both branches agree on see-through, and it is the transparency decision
    ensures r.Some? ==> (ActiveTone(r.value) == SeeThrough <==> IsTransparent(pathname, scrolledPastButton))
    // the logo is inverted exactly when the header is transparent, in either branch
    ensures r.Some? ==> r.value.logoInverted == IsTransparent(pathname, scrolledPastButton)
    // the hamburger is white exactly when the header is transparent, except on
    // the non-mobile branch on home after scrolling, where it stays white
    ensures r.Some? ==>
      ((r.value.hamburger == White) == IsTransparent(pathname, scrolledPastButton)
       <==> !(!isMobile && IsHome(pathname) && scrolledPastButton))
    // in full: charcoal on the mobile branch when solid, and on the desktop branch off home
    ensures r.Some? ==>
      r.value.hamburger ==
        if isMobile then (if IsTransparent(pathname, scrolledPastButton) then White else Charcoal)
        else (if IsHome(pathname) then White else Charcoal)
    // desktop link text is white or charcoal, the underline white or sky, by transparency
    ensures r.Some? ==> r.value.desktopNavText == if IsTransparent(pathname, scrolledPastButton) then White else Charcoal
    ensures r.Some? ==> r.value.underline == if IsTransparent(pathname, scrolledPastButton) then White else Sky
    // the bar blurs only on mobile, when the menu is open or off home
    ensures r.Some? ==> r.value.backdropBlur == (isMobile && (mobileOpen || !IsHome(pathname)))
    // the panel opens and closes on mobileOpen alone
    ensures r.Some? ==> r.value.panelExpanded == mobileOpen && r.value.ariaExpanded == mobileOpen
    ensures r.Some? ==> (r.value.hamburgerIcon == CloseIcon <==> mobileOpen)
    // white panel and charcoal panel text need both isMobile and the solid test
    ensures r.Some? ==> r.value.panelWhite == (isMobile && !IsTransparent(pathname, scrolledPastButton))
    ensures r.Some? ==> r.value.panelText == if r.value.panelWhite then Charcoal else White
  {
    if IsNotFound(pathname) then None
    else
      var isHome := IsHome(pathname);
      var isTransparent := IsTransparent(pathname, scrolledPastButton);
      var solid := scrolledPastButton || !isHome;
      Some(HeaderView(
        mobileBar := if isMobile then Some(if solid then Solid else SeeThrough) else None,
        desktopBar := if !isMobile then Some(if isTransparent then SeeThrough else Solid) else None,
        backdropBlur := isMobile && (mobileOpen || !isHome),
        logoInverted := if isMobile then !solid else isTransparent,
        desktopNavText := if isTransparent then White else Charcoal,
        underline := if isTransparent then White else Sky,
        hamburger := if isMobile then (if solid then Charcoal else White)
                     else (if isHome then White else Charcoal),
        hamburgerIcon := if mobileOpen then CloseIcon else MenuIcon,
        ariaExpanded := mobileOpen,
        panelExpanded := mobileOpen,
        panelWhite := isMobile && solid,
        panelText := if isMobile && solid then Charcoal else White
      ))
  }

  /** The mobile solid test is the negation of the transparency test. */
  lemma MobileSolidIsOpaque(pathname: string, scrolledPastButton: bool)
    ensures MobileSolid(pathname, scrolledPastButton) == !IsTransparent(pathname, scrolledPastButton)
  {
  }

  /** For a fixed path and scroll state, the see-through decision and the logo
      do not depend on the viewport branch. */
  lemma ViewportDoesNotChangeTheme(pathname: string, mobileOpen: bool, scrolledPastButton: bool)
    requires !IsNotFound(pathname)
    ensures var m := Render(pathname, mobileOpen, true, scrolledPastButton);
            var d := Render(pathname, mobileOpen, false, scrolledPastButton);
            ActiveTone(m.value) == ActiveTone(d.value) && m.value.logoInverted == d.value.logoInverted
  {
  }

  /** Off home the header is solid, whatever the scroll state. */
  lemma OffHomeIsSolid(pathname: string, mobileOpen: bool, isMobile: bool, scrolledPastButton: bool)
    requires !IsNotFound(pathname) && !IsHome(pathname)
    ensures ActiveTone(Render(pathname, mobileOpen, isMobile, scrolledPastButton).value) == Solid
  {
  }

  /** The header's own state. `pathname` is read from the router on every
      render; the other three fields are `useState` values. */
  class HeaderState {
    var pathname: string
    var mobileOpen: bool
    var isMobile: bool
    var scrolledPastButton: bool
    /** Both effects have run once. */
    ghost var mounted: bool

    /** Once mounted, a non-home path always has the solid state. */
    ghost predicate Valid()
      reads this
    {
      mounted ==> (!IsHome(pathname) ==> scrolledPastButton)
    }

    /** The first render, before any effect: every field false. */
    constructor (path: string)
      ensures Valid() && !mounted
      ensures pathname == path && !mobileOpen && !isMobile && !scrolledPastButton
    {
      pathname := path;
      mobileOpen := false;
      isMobile := false;
      scrolledPastButton := false;
      mounted := false;
    }

    /** What the header draws now. */
    function View(): (r: Option<HeaderView>)
      reads this
      ensures r == Render(pathname, mobileOpen, isMobile, scrolledPastButton)
      ensures Valid() && mounted && r.Some? && !IsHome(pathname) ==> ActiveTone(r.value) == Solid
    {
      Render(pathname, mobileOpen, isMobile, scrolledPastButton)
    }

    /** `checkMobile`: the media query `(max-width: 767px)` against the viewport width. */
    method CheckMobile(width: int)
      modifies this
      ensures isMobile == (width <= MobileMaxWidth)
      ensures pathname == old(pathname) && mobileOpen == old(mobileOpen)
      ensures scrolledPastButton == old(scrolledPastButton) && mounted == old(mounted)
    {
      isMobile := width <= MobileMaxWidth;
    }

    /** `onScroll`: with the anchor at `anchorTop` (None when the page has no
        `headerEnd` element) the state becomes `anchorTop <= 0`; without the
        anchor nothing changes. */
    method OnScroll(anchorTop: Option<real>)
      modifies this
      ensures scrolledPastButton == (if anchorTop.Some? then anchorTop.value <= 0.0 else old(scrolledPastButton))
      ensures pathname == old(pathname) && mobileOpen == old(mobileOpen)
      ensures isMobile == old(isMobile) && mounted == old(mounted)
    {
      if anchorTop.None? {
        return;
      }
      scrolledPastButton := anchorTop.value <= 0.0;
    }

    /** The scroll effect: off home it forces the solid state; on home it runs
        the initial `onScroll` check. */
    method RouteEffect(anchorTop: Option<real>)
      modifies this
      ensures !IsHome(pathname) ==> scrolledPastButton
      ensures IsHome(pathname) ==>
        scrolledPastButton == (if anchorTop.Some? then anchorTop.value <= 0.0 else old(scrolledPastButton))
      ensures pathname == old(pathname) && mobileOpen == old(mobileOpen)
      ensures isMobile == old(isMobile) && mounted == old(mounted)
    {
      if !IsHome(pathname) {
        scrolledPastButton := true;
        return;
      }
      OnScroll(anchorTop);
    }

    /** Mount: both effects run once, with the viewport width and the anchor
        position of the page as it is then. */
    method Mount(width: int, anchorTop: Option<real>)
      modifies this
      ensures Valid() && mounted
      ensures isMobile == (width <= MobileMaxWidth)
      ensures !IsHome(pathname) ==> scrolledPastButton
      ensures IsHome(pathname) ==>
        scrolledPastButton == (if anchorTop.Some? then anchorTop.value <= 0.0 else old(scrolledPastButton))
      ensures pathname == old(pathname) && mobileOpen == old(mobileOpen)
    {
      CheckMobile(width);
      RouteEffect(anchorTop);
      mounted := true;
    }

    /** A `resize` event. */
    method Resize(width: int)
      requires Valid() && mounted
      modifies this
      ensures Valid() && mounted
      ensures isMobile == (width <= MobileMaxWidth)
      ensures pathname == old(pathname) && mobileOpen == old(mobileOpen)
      ensures scrolledPastButton == old(scrolledPastButton)
    {
      CheckMobile(width);
    }

    /** A `scroll` event: the listener exists only while on home. */
    method Scroll(anchorTop: Option<real>)
      requires Valid() && mounted
      modifies this
      ensures Valid() && mounted
      ensures scrolledPastButton ==
        (if IsHome(pathname) && anchorTop.Some? then anchorTop.value <= 0.0 else old(scrolledPastButton))
      ensures pathname == old(pathname) && mobileOpen == old(mobileOpen) && isMobile == old(isMobile)
    {
      if IsHome(pathname) {
        OnScroll(anchorTop);
      }
    }

    /** A route change to `newPath`, whose page has its anchor at `anchorTop`.
        The scroll effect depends on `isHome` only, so it re-runs only when
        the change enters or leaves home. The menu is left as it was. */
    method Navigate(newPath: string, anchorTop: Option<real>)
      requires Valid() && mounted
      modifies this
      ensures Valid() && mounted
      ensures pathname == newPath
      ensures mobileOpen == old(mobileOpen) && isMobile == old(isMobile)
      ensures !IsHome(newPath) ==> scrolledPastButton
      ensures IsHome(newPath) && !IsHome(old(pathname)) ==>
        scrolledPastButton == (if anchorTop.Some? then anchorTop.value <= 0.0 else old(scrolledPastButton))
      ensures IsHome(newPath) && IsHome(old(pathname)) ==> scrolledPastButton == old(scrolledPastButton)
    {
      var wasHome := IsHome(pathname);
      pathname := newPath;
      if wasHome != IsHome(newPath) {
        RouteEffect(anchorTop);
      }
    }

    /** The hamburger button's `onClick`. */
    method ToggleMenu()
      requires Valid() && mounted
      modifies this
      ensures Valid() && mounted
      ensures mobileOpen == !old(mobileOpen)
      ensures pathname == old(pathname) && isMobile == old(isMobile)
      ensures scrolledPastButton == old(scrolledPastButton)
    {
      mobileOpen := !mobileOpen;
    }

    /** A link of the mobile panel: its `onClick` closes the menu, then the
        link navigates. */
    method MobileLinkClick(href: string, anchorTop: Option<real>)
      requires Valid() && mounted
      modifies this
      ensures Valid() && mounted
      ensures !mobileOpen && pathname == href && isMobile == old(isMobile)
      ensures !IsHome(href) ==> scrolledPastButton
      ensures IsHome(href) && !IsHome(old(pathname)) ==>
        scrolledPastButton == (if anchorTop.Some? then anchorTop.value <= 0.0 else old(scrolledPastButton))
      ensures IsHome(href) && IsHome(old(pathname)) ==> scrolledPastButton == old(scrolledPastButton)
    {
      mobileOpen := false;
      Navigate(href, anchorTop);
    }
  }

  /** A phone-sized visit: the home page over the hero, the menu opened,
      a scroll past the anchor, then a route change. */
  method ScrollAndNavigateOnMobile()
  {
    ValidPathsAreTheFiveRoutes();
    var h := new HeaderState("/");
    h.Mount(375, Some(640.0));
    var v := h.View();
    assert v.Some? && v.value.logoInverted && ActiveTone(v.value) == SeeThrough;
    assert !h.mobileOpen && v.value.hamburgerIcon == MenuIcon;

    h.ToggleMenu();
    h.Scroll(Some(-12.5));
    v := h.View();
    assert ActiveTone(v.value) == Solid && !v.value.logoInverted && h.mobileOpen;

    h.Scroll(None);
    assert h.scrolledPastButton;

    h.Navigate("/about", None);
    v := h.View();
    assert ActiveTone(v.value) == Solid && h.mobileOpen && v.value.panelExpanded;

    h.Resize(1280);
    v := h.View();
    assert v.value.desktopBar == Some(Solid) && v.value.mobileBar.None?;

    h.MobileLinkClick("/", Some(300.0));
    v := h.View();
    assert !h.mobileOpen && ActiveTone(v.value) == SeeThrough;

    h.Navigate("/nonexistent", None);
    assert h.View().None?;
  }
}
