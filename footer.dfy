/**
 * The site footer (components/Footer.tsx): stateless, chosen from the
 * current path alone.
 */
module Footer {
  import opened Wrappers
  import Header

  /** The footer's own list of paths on which it is shown. */
  const FooterPaths: seq<string> := ["/", "/about", "/services", "/insights", "/contact"]

  const ContactPath: string := "/contact"

  datatype FooterView =
    | CopyrightOnly                        // the slim footer of the contact page
    | Full(contactButtonTarget: string)    // heading, text, "Contact Us" button, copyright bar

  function FooterFor(pathname: string): (r: Option<FooterView>)
    ensures r.None? <==> pathname !in FooterPaths
    ensures r == Some(CopyrightOnly) <==> pathname == ContactPath
    ensures r.Some? && r.value.Full? ==> pathname != ContactPath && r.value.contactButtonTarget == ContactPath
  {
    if pathname !in FooterPaths then None
    else if pathname == ContactPath then Some(CopyrightOnly)
    else Some(Full(ContactPath))
  }

  /** The footer's list and the header's menu hold the same paths. */
  lemma SamePathsAsHeader()
    ensures forall p :: p in FooterPaths <==> p in Header.ValidPaths()
    ensures |FooterPaths| == |Header.ValidPaths()|
  {
    Header.ValidPathsAreTheFiveRoutes();
  }

  /** So header and footer are hidden on exactly the same paths. */
  lemma HiddenWithHeader(pathname: string, mobileOpen: bool, isMobile: bool, scrolledPastButton: bool)
    ensures FooterFor(pathname).None? <==> Header.Render(pathname, mobileOpen, isMobile, scrolledPastButton).None?
  {
    SamePathsAsHeader();
  }

  /** Every path of the menu except the contact page gets the full footer. */
  lemma FullFooterOnMenuPages(pathname: string)
    requires pathname in Header.ValidPaths() && pathname != ContactPath
    ensures FooterFor(pathname) == Some(Full(ContactPath))
  {
    SamePathsAsHeader();
  }
}
