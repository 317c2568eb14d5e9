/** The site navigation bar (src/app/Components/Navbar.tsx): the rule that
    highlights the link of the current page, the dropdown entries built from
    the colleges, exams and countries lists, the truncated submenus, and the
    hover, expand and open state the event handlers keep. */
module Navbar {
  import opened Common

  datatype NavItem = NavItem(name: string, href: string, hasDropdown: bool)

  const HomeHref: string := "/"
  const CountriesMenu: string := "Countries"

  /** The seven menu items, "Home" first; only "Colleges" and "Exams" have a
      dropdown (an item written without the flag has none). */
  function NavItems(): (items: seq<NavItem>)
    ensures |items| == 7 && items[0].href == HomeHref
    ensures forall i :: 0 <= i < |items| ==>
      (items[i].hasDropdown <==> items[i].name == "Colleges" || items[i].name == "Exams")
  {
    [ NavItem("Home", HomeHref, false),
      NavItem("Colleges", "/colleges", true),
      NavItem("Exams", "/exams", true),
      NavItem("Blog", "/blogs", false),
      NavItem("Services", "/service", false),
      NavItem("About", "/about", false),
      NavItem("Contact us", "/contact", false) ]
  }

  /** `s` begins with `prefix`. */
  predicate StartsWith(s: string, prefix: string)
  {
    |prefix| <= |s| && s[..|prefix|] == prefix
  }

  /** The home link is active only on the root page; any other link is active
      on every path that begins with its href. The pathname may be absent,
      and then no link is active. */
  predicate IsActive(pathname: Option<string>, href: string)
    ensures IsActive(pathname, href) ==> pathname.Some? && StartsWith(pathname.value, href)
  {
    if href == HomeHref then pathname == Some(HomeHref)
    else pathname.Some? && StartsWith(pathname.value, href)
  }

  /** The home link is active on the root page and nowhere else; any other
      link is active exactly on the pages whose path begins with its href. */
  lemma IsActiveSpec(pathname: Option<string>, href: string)
    ensures href == HomeHref ==> (IsActive(pathname, href) <==> pathname == Some(HomeHref))
    ensures href != HomeHref ==>
      (IsActive(pathname, href) <==>
        (pathname.Some? && |href| <= |pathname.value| &&
         forall i :: 0 <= i < |href| ==> pathname.value[i] == href[i]))
  {
  }

  /** The prefix test has no path-segment boundary: "/colleges" is active on
      "/collegesX" as well as on "/colleges/iit-delhi". */
  lemma PrefixTestIgnoresSegments()
    ensures IsActive(Some("/collegesX"), "/colleges")
    ensures IsActive(Some("/colleges/iit-delhi"), "/colleges")
    ensures !IsActive(Some("/colleges"), HomeHref)
  {
    assert "/collegesX"[..|"/colleges"|] == "/colleges";
    assert "/colleges/iit-delhi"[..|"/colleges"|] == "/colleges";
  }

  lemma StartsWithBoth(s: string, a: string, b: string)
    requires StartsWith(s, a) && StartsWith(s, b) && |a| <= |b|
    ensures StartsWith(b, a)
  {
    assert b[..|a|] == s[..|b|][..|a|];
  }

  /** Two strings that differ at a position both have are not prefixes of each other. */
  lemma DifferAt(a: string, b: string, k: nat)
    requires k < |a| && k < |b| && a[k] != b[k]
    ensures !StartsWith(b, a)
  {
    if |a| <= |b| {
      assert b[..|a|][k] != a[k];
    }
  }

  /** No href of the menu other than the home link's is a prefix of another:
      they differ at their second character, or else at their fourth. */
  lemma NavHrefsArePrefixFree(i: nat, j: nat)
    requires i < |NavItems()| && j < |NavItems()| && i != j
    requires NavItems()[i].href != HomeHref && NavItems()[j].href != HomeHref
    ensures !StartsWith(NavItems()[j].href, NavItems()[i].href)
  {
    var a, b := NavItems()[i].href, NavItems()[j].href;
    DifferAt(a, b, if a[1] != b[1] then 1 else 3);
  }

  /** On any page at most one item of the menu is highlighted. */
  lemma AtMostOneActiveItem(pathname: Option<string>, i: nat, j: nat)
    requires i < |NavItems()| && j < |NavItems()|
    requires IsActive(pathname, NavItems()[i].href) && IsActive(pathname, NavItems()[j].href)
    ensures i == j
  {
    var a, b := NavItems()[i].href, NavItems()[j].href;
    if i != j && a != HomeHref && b != HomeHref {
      if |a| <= |b| {
        StartsWithBoth(pathname.value, a, b);
        NavHrefsArePrefixFree(i, j);
      } else {
        StartsWithBoth(pathname.value, b, a);
        NavHrefsArePrefixFree(j, i);
      }
    }
  }

  /** The menu has no "Countries" item. */
  lemma NoCountriesItem()
    ensures forall i :: 0 <= i < |NavItems()| ==> NavItems()[i].name != CountriesMenu
  {
  }

  // ---------------------------------------------------------------------------
  // The dropdown entries of each menu item
  // ---------------------------------------------------------------------------

  datatype CollegeOption = CollegeOption(name: string, slug: string)
  datatype ExamOption = ExamOption(shortName: string, slug: string)
  datatype CountryOption = CountryOption(name: string, slug: string, flag: string)

  datatype DropdownData = DropdownData(
    colleges: seq<CollegeOption>,
    exams: seq<ExamOption>,
    countries: seq<CountryOption>)

  datatype SubLink = SubLink(title: string, href: string, flag: Option<string>, slug: Option<string>)

  const CountryTitlePrefix: string := "Study in "

  function CollegeLink(c: CollegeOption): SubLink
  {
    SubLink(c.name, "/colleges/" + c.slug, None, None)
  }

  function ExamLink(e: ExamOption): SubLink
  {
    SubLink(e.shortName, "/exams/" + e.slug, None, None)
  }

  function CountryLink(c: CountryOption): SubLink
  {
    SubLink(CountryTitlePrefix + c.name, "/countries/" + c.slug, Some(c.flag), Some(c.slug))
  }

  /** One entry per college, in the same order. */
  function CollegeLinks(cs: seq<CollegeOption>): (r: seq<SubLink>)
    ensures |r| == |cs|
    ensures forall i :: 0 <= i < |r| ==> r[i] == CollegeLink(cs[i])
  {
    seq(|cs|, i requires 0 <= i < |cs| => CollegeLink(cs[i]))
  }

  /** One entry per exam, in the same order. */
  function ExamLinks(es: seq<ExamOption>): (r: seq<SubLink>)
    ensures |r| == |es|
    ensures forall i :: 0 <= i < |r| ==> r[i] == ExamLink(es[i])
  {
    seq(|es|, i requires 0 <= i < |es| => ExamLink(es[i]))
  }

  /** One entry per country, in the same order. */
  function CountryLinks(cs: seq<CountryOption>): (r: seq<SubLink>)
    ensures |r| == |cs|
    ensures forall i :: 0 <= i < |r| ==> r[i] == CountryLink(cs[i])
  {
    seq(|cs|, i requires 0 <= i < |cs| => CountryLink(cs[i]))
  }

  /** Every country entry is titled "Study in " followed by the country's
      name, so the name can be read back from the title, and it carries the
      country's slug for the university preview. */
  lemma CountryLinksSpec(cs: seq<CountryOption>, i: nat)
    requires i < |cs|
    ensures var l := CountryLinks(cs)[i];
      && StartsWith(l.title, CountryTitlePrefix)
      && l.title[|CountryTitlePrefix|..] == cs[i].name
      && l.slug == Some(cs[i].slug)
  {
    var l := CountryLinks(cs)[i];
    assert l.title[..|CountryTitlePrefix|] == CountryTitlePrefix;
  }

  /** Following a college entry lands on a page where the "Colleges" menu
      item is highlighted, and likewise for exams. */
  lemma DropdownLinksHighlightTheirItem(d: DropdownData)
    ensures forall l :: l in CollegeLinks(d.colleges) ==> IsActive(Some(l.href), "/colleges")
    ensures forall l :: l in ExamLinks(d.exams) ==> IsActive(Some(l.href), "/exams")
  {
    forall l | l in CollegeLinks(d.colleges)
      ensures IsActive(Some(l.href), "/colleges")
    {
      assert l.href[..|"/colleges"|] == "/colleges";
    }
    forall l | l in ExamLinks(d.exams)
      ensures IsActive(Some(l.href), "/exams")
    {
      assert l.href[..|"/exams"|] == "/exams";
    }
  }

  /** The dropdown entries looked up by a menu item's name, if it has any. */
  function DropdownFor(name: string, d: DropdownData): (r: Option<seq<SubLink>>)
    ensures name == "Colleges" ==> r == Some(CollegeLinks(d.colleges))
    ensures name == "Exams" ==> r == Some(ExamLinks(d.exams))
    ensures name == CountriesMenu ==> r == Some(CountryLinks(d.countries))
    ensures r.None? <==> name != "Colleges" && name != "Exams" && name != CountriesMenu
  {
    if name == "Colleges" then Some(CollegeLinks(d.colleges))
    else if name == "Exams" then Some(ExamLinks(d.exams))
    else if name == CountriesMenu then Some(CountryLinks(d.countries))
    else None
  }

  const MobileSubmenuLimit: nat := 8
  const CountryPreviewLimit: nat := 6

  /** The mobile submenu: the first eight entries of the
      item's dropdown, in order, or nothing for an item without one. */
  function MobileSubmenu(name: string, d: DropdownData): (r: seq<SubLink>)
    ensures |r| <= MobileSubmenuLimit
    ensures DropdownFor(name, d).None? ==> r == []
    ensures DropdownFor(name, d).Some? ==>
      var all := DropdownFor(name, d).value;
      |r| == Min(MobileSubmenuLimit, |all|) && r == all[..|r|]
  {
    match DropdownFor(name, d)
    case None => []
    case Some(links) => Take(links, MobileSubmenuLimit)
  }

  /** The preview beside the country list: the first six colleges of the hovered country. */
  function CountryPreview<T>(countryColleges: seq<T>): (r: seq<T>)
    ensures |r| == Min(CountryPreviewLimit, |countryColleges|)
    ensures r == countryColleges[..|r|]
  {
    Take(countryColleges, CountryPreviewLimit)
  }

  /** The desktop dropdown of an item is open while the pointer is over it. */
  predicate DesktopDropdownOpen(item: NavItem, hoveredItem: Option<string>)
    ensures DesktopDropdownOpen(item, hoveredItem) ==> item.hasDropdown && hoveredItem.Some?
    ensures !item.hasDropdown ==> !DesktopDropdownOpen(item, hoveredItem)
  {
    item.hasDropdown && hoveredItem == Some(item.name)
  }

  /** The mobile submenu of an item is open while the item is expanded. */
  predicate MobileSubmenuOpen(item: NavItem, expanded: Option<string>)
    ensures MobileSubmenuOpen(item, expanded) ==> item.hasDropdown && expanded.Some?
    ensures !item.hasDropdown ==> !MobileSubmenuOpen(item, expanded)
  {
    item.hasDropdown && expanded == Some(item.name)
  }

  /** The names of the menu items are distinct. */
  lemma NavItemNamesDistinct(i: nat, j: nat)
    requires i < |NavItems()| && j < |NavItems()| && NavItems()[i].name == NavItems()[j].name
    ensures i == j
  {
  }

  /** Whatever is hovered, at most one item of the menu shows its desktop dropdown. */
  lemma AtMostOneDesktopDropdown(hoveredItem: Option<string>, i: nat, j: nat)
    requires i < |NavItems()| && j < |NavItems()|
    requires DesktopDropdownOpen(NavItems()[i], hoveredItem) && DesktopDropdownOpen(NavItems()[j], hoveredItem)
    ensures i == j
  {
    NavItemNamesDistinct(i, j);
  }

  /** Whatever is expanded, at most one item of the menu shows its mobile submenu. */
  lemma AtMostOneMobileSubmenu(expanded: Option<string>, i: nat, j: nat)
    requires i < |NavItems()| && j < |NavItems()|
    requires MobileSubmenuOpen(NavItems()[i], expanded) && MobileSubmenuOpen(NavItems()[j], expanded)
    ensures i == j
  {
    NavItemNamesDistinct(i, j);
  }

  // ---------------------------------------------------------------------------
  // The state the event handlers keep
  // ---------------------------------------------------------------------------

  class NavbarState {
    var isOpen: bool
    var isScrolled: bool
    var hoveredItem: Option<string>
    var hoveredCountry: Option<string>
    var expandedMobileItem: Option<string>

    constructor ()
      ensures !isOpen && !isScrolled
      ensures hoveredItem == None && hoveredCountry == None && expandedMobileItem == None
    {
      isOpen := false;
      isScrolled := false;
      hoveredItem := None;
      hoveredCountry := None;
      expandedMobileItem := None;
    }

    /** The scroll listener: the bar is compact once the page has scrolled
        more than 10 pixels. */
    method Scroll(scrollY: real)
      modifies this
      ensures isScrolled == (scrollY > 10.0)
      ensures isOpen == old(isOpen) && hoveredItem == old(hoveredItem)
      ensures hoveredCountry == old(hoveredCountry) && expandedMobileItem == old(expandedMobileItem)
    {
      isScrolled := scrollY > 10.0;
    }

    /** The pointer enters a top-level item: its dropdown opens, any other closes. */
    method MouseEnter(item: NavItem)
      modifies this
      ensures hoveredItem == Some(item.name)
      ensures forall other :: DesktopDropdownOpen(other, hoveredItem) ==> other.name == item.name
      ensures isOpen == old(isOpen) && isScrolled == old(isScrolled)
      ensures hoveredCountry == old(hoveredCountry) && expandedMobileItem == old(expandedMobileItem)
    {
      hoveredItem := Some(item.name);
    }

    /** The pointer leaves a top-level item: no item and no country is hovered. */
    method MouseLeave()
      modifies this
      ensures hoveredItem == None && hoveredCountry == None
      ensures forall item :: !DesktopDropdownOpen(item, hoveredItem)
      ensures isOpen == old(isOpen) && isScrolled == old(isScrolled)
      ensures expandedMobileItem == old(expandedMobileItem)
    {
      hoveredItem := None;
      hoveredCountry := None;
    }

    /** The pointer enters a dropdown entry: only an entry of the "Countries"
        item records the hovered country. Since the menu has no such item, a
        menu entry never changes the hovered country. */
    method SubItemEnter(item: NavItem, sub: SubLink)
      modifies this
      ensures hoveredCountry == if item.name == CountriesMenu then sub.slug else old(hoveredCountry)
      ensures item in NavItems() ==> hoveredCountry == old(hoveredCountry)
      ensures isOpen == old(isOpen) && isScrolled == old(isScrolled)
      ensures hoveredItem == old(hoveredItem) && expandedMobileItem == old(expandedMobileItem)
    {
      if item.name == CountriesMenu {
        hoveredCountry := sub.slug;
      }
      NoCountriesItem();
    }

    /** A tap on a mobile item: an item with a dropdown collapses if it was
        expanded and otherwise becomes the one expanded item; an item without
        a dropdown changes nothing. */
    method ToggleMobileItem(item: NavItem)
      modifies this
      ensures !item.hasDropdown ==> expandedMobileItem == old(expandedMobileItem)
      ensures item.hasDropdown && old(expandedMobileItem) == Some(item.name) ==> expandedMobileItem == None
      ensures item.hasDropdown && old(expandedMobileItem) != Some(item.name) ==> expandedMobileItem == Some(item.name)
      ensures item.hasDropdown ==> (MobileSubmenuOpen(item, expandedMobileItem) <==> !MobileSubmenuOpen(item, old(expandedMobileItem)))
      ensures isOpen == old(isOpen) && isScrolled == old(isScrolled)
      ensures hoveredItem == old(hoveredItem) && hoveredCountry == old(hoveredCountry)
    {
      if item.hasDropdown {
        expandedMobileItem := if expandedMobileItem == Some(item.name) then None else Some(item.name);
      }
    }

    /** The menu button toggles the mobile menu. */
    method ToggleMenu()
      modifies this
      ensures isOpen == !old(isOpen)
      ensures isScrolled == old(isScrolled) && hoveredItem == old(hoveredItem)
      ensures hoveredCountry == old(hoveredCountry) && expandedMobileItem == old(expandedMobileItem)
    {
      isOpen := !isOpen;
    }

    /** A mobile submenu link or the "Get Admission Help" button closes the mobile menu. */
    method CloseMenu()
      modifies this
      ensures !isOpen
      ensures isScrolled == old(isScrolled) && hoveredItem == old(hoveredItem)
      ensures hoveredCountry == old(hoveredCountry) && expandedMobileItem == old(expandedMobileItem)
    {
      isOpen := false;
    }
  }
}
