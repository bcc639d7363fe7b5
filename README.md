# A verified model of the site's header, footer, heading and services page

This project models the client-side logic of a small transport-advisory
marketing site, built with Next.js and React, and proves properties of it
in Dafny. It covers four components.

- **Header** (`components/Header.tsx`). The route table of five menu
  entries. Three pieces of UI state: `mobileOpen`, `isMobile` and
  `scrolledPastButton`. The events that update them: resize, scroll, route
  change, the hamburger click and a mobile-menu link click. The rendering
  decisions derived from the path and that state: render or not,
  `isTransparent`, the mobile and desktop bar styles, logo inversion, link
  and underline colours, the hamburger colour and icon, and the mobile
  panel. The state is the class `Header.HeaderState`, and each event is one
  of its methods. Rendering is the pure function `Header.Render`, from which
  class names are reduced to booleans and enumerations.
- **Services page** (`app/services/page.tsx`). `formatContent` splits an
  accordion item's text into lines and classifies each one as a nested
  `-` item, a bold `• Title: body` item or a plain bullet. The regular
  expression `/^•\s*(.+?):\s*(.*)$/` is matched by hand, with JavaScript's
  backtracking order. There is also the per-section `openItems` map: its
  initial value, built by a loop, and `toggleItem`.
- **Footer** (`components/Footer.tsx`). A stateless choice from the path:
  no footer, the copyright-only footer on `/contact`, or the full footer
  whose button leads to `/contact`.
- **Heading** (`components/Heading.tsx`). The text is split into words at
  each space and each word into characters. A running counter gives every
  character a global index, and each character gets the React key
  `wordIndex-globalCharIndex`.

The JavaScript string operations these need are modelled in `JsString`:

- `split` with a one-character separator;
- `trim`;
- the removal of a leading whitespace run, as the `\s*` of `replace(/^•\s*/, "")` does (`TrimStart`);
- the regex classes `\s` and `.`;
- `IndexOf`, the first position of a character, which the site does not call. It states the first-colon property of the direct reading of a bold line.

Files:

- `wrappers.dfy`: `Option`.
- `js_string.dfy`: the string operations.
- `header.dfy`, `services_page.dfy`, `footer.dfy`, `heading.dfy`: one file
  per component.

Inputs from the browser become parameters:

- the viewport width, in place of `matchMedia("(max-width: 767px)")`;
- the top of the `headerEnd` anchor, as `Option<real>`. `None` stands for
  a page without the element. It replaces `getBoundingClientRect().top`.

## Model

| member | source | states |
|---|---|---|
| Header.ValidPaths | components/Header.tsx:10-23 | the valid paths are the menu's hrefs, one per entry, in menu order |
| Header.ValidPathsAreTheFiveRoutes | components/Header.tsx:10-16 | the valid paths are exactly "/", "/about", "/services", "/insights", "/contact", with no duplicates |
| Header.IsHome | components/Header.tsx:20 | the path is home exactly when it is "/" |
| Header.IsNotFound | components/Header.tsx:23-25 | a path is not found exactly when no menu entry has it as its href |
| Header.IsTransparent | components/Header.tsx:70 | the header is transparent exactly on home before the anchor has scrolled past |
| Header.MobileSolid | components/Header.tsx:80 | the mobile branches use a solid bar after scrolling past the anchor or off home; `MobileSolidIsOpaque` proves it is the negation of `isTransparent` |
| Header.Render | components/Header.tsx:20-181 | nothing is rendered exactly when the path is not a menu href; exactly one of the mobile and desktop bar branches is styled, and it is see-through exactly when `isTransparent` holds (on "/" before the anchor is passed); `backdrop-blur-md` is set only on mobile, when the menu is open or off home; the logo is inverted exactly when `isTransparent` holds; the desktop link text is white when `isTransparent` holds and charcoal otherwise, and the underline white or sky; the hamburger is, on mobile, white when `isTransparent` holds and charcoal otherwise, and on the other branch white on home and charcoal elsewhere, so it differs from `isTransparent` only on home after scrolling; `aria-expanded`, the close icon and the panel's expanded classes follow `mobileOpen` alone; the panel's white background needs both `isMobile` and the solid test, and its text is charcoal on the white background and white otherwise |
| Header.MobileSolidIsOpaque | components/Header.tsx:70-81 | the mobile solid test `scrolledPastButton \|\| !isHome` is the negation of `isTransparent` |
| Header.ViewportDoesNotChangeTheme | components/Header.tsx:79-116 | with path and scroll state fixed, the mobile and desktop renders agree on the see-through tone and on logo inversion |
| Header.OffHomeIsSolid | components/Header.tsx:47-49 | off home, a rendered header is solid |
| Header.HeaderState.constructor | components/Header.tsx:28-32 | the first render has all three state fields false |
| Header.HeaderState.View | components/Header.tsx:66-70 | the current view is the render of the current fields; once mounted, it is solid off home |
| Header.HeaderState.CheckMobile | components/Header.tsx:36-37 | `isMobile` becomes `width <= 767`; nothing else changes |
| Header.HeaderState.OnScroll | components/Header.tsx:53-59 | with the anchor present, `scrolledPastButton` becomes `anchorTop <= 0`; without it, nothing changes |
| Header.HeaderState.RouteEffect | components/Header.tsx:45-62 | off home, `scrolledPastButton` becomes true; on home, the initial `onScroll` check runs |
| Header.HeaderState.Mount | components/Header.tsx:35-64 | both effects run once: `isMobile` is set from the width and the scroll state from the route; the invariant "off home implies solid" is established |
| Header.HeaderState.Resize | components/Header.tsx:40 | a resize sets `isMobile` from the new width and keeps the invariant and the other fields |
| Header.HeaderState.Scroll | components/Header.tsx:47-61 | a scroll updates `scrolledPastButton` only on home, and leaves the menu and viewport alone |
| Header.HeaderState.Navigate | components/Header.tsx:45-64 | a route change keeps `mobileOpen` and `isMobile`; off home it makes the header solid; the scroll effect re-runs only when the change enters or leaves home |
| Header.HeaderState.ToggleMenu | components/Header.tsx:151 | the hamburger click negates `mobileOpen` and changes nothing else |
| Header.HeaderState.MobileLinkClick | components/Header.tsx:183-187 | a mobile-menu link closes the menu, then navigates as a route change does |
| Footer.FooterFor | components/Footer.tsx:12-75 | no footer exactly when the path is not among the five footer paths; the copyright-only footer exactly on "/contact"; every other footer path gets the full footer, whose button targets "/contact" |
| Footer.SamePathsAsHeader | components/Footer.tsx:12 | the footer's path list holds the same paths as the header's menu hrefs, equally many |
| Footer.HiddenWithHeader | components/Footer.tsx:14-17 | the footer is absent exactly when the header is absent, for every path and header state |
| Footer.FullFooterOnMenuPages | components/Footer.tsx:30-31 | every menu path except "/contact" gets the full footer leading to "/contact" |
| JsString.Trim | app/services/page.tsx:80 | `trim` removes the longest whitespace prefix and suffix and keeps the middle; the result has no whitespace at either end |
| JsString.TrimIdempotent | app/services/page.tsx:80 | trimming a trimmed line changes nothing |
| JsString.TrimStart | app/services/page.tsx:99 | the removal of a leading `\s*` run, as `replace(/^•\s*/, "")` does after the bullet: the input is a whitespace prefix followed by the result, which does not start with whitespace |
| JsString.IndexOf | app/services/page.tsx:90 | a helper for the first-colon property of the lazy group: the first occurrence of the character at or after the start position, or none when there is none |
| JsString.Split | app/services/page.tsx:76 | splitting gives at least one part, and no part contains the separator |
| JsString.JoinSplit | app/services/page.tsx:76 | joining the parts of a split with its separator gives back the input |
| JsString.SplitJoin | app/services/page.tsx:76 | splitting a join of separator-free parts gives back the parts |
| JsString.SplitLength | app/services/page.tsx:76 | a split has one part more than the input has separators |
| JsString.ConcatSplit | components/Heading.tsx:50-54 | the concatenated parts of a split are the input with the separators removed |
| JsString.Remove | components/Heading.tsx:50-54 | removing a character shortens the input by its count and leaves no occurrence |
| ServicesPage.MatchRestAtRunEnd | app/services/page.tsx:90 | for `\s*(.*)$`, backing off the greedy `\s*` never helps: group 2 starts at the end of the whitespace run, and the match succeeds exactly when no line terminator follows |
| ServicesPage.TitleEnd | app/services/page.tsx:90 | the lazy `(.+?):` stops only at a colon after at least one title character, with no line terminator in the title and a rest that matches |
| ServicesPage.TitleEndIsFirstColon | app/services/page.tsx:90 | the lazy group stops at the first admissible colon |
| ServicesPage.TitleEndFailsOnlyWithoutColon | app/services/page.tsx:90 | the lazy group fails only when no admissible colon exists |
| ServicesPage.TitleEndFindsColon | app/services/page.tsx:90 | whenever an admissible colon exists, the lazy group succeeds and stops no later than it |
| ServicesPage.BoldSplitFrom | app/services/page.tsx:90 | a split found by backtracking over `^•\s*` is a whitespace run followed by an admissible title and colon |
| ServicesPage.BoldSplitIsFirst | app/services/page.tsx:90 | the split taken is the first in backtracking order: the longest whitespace run that admits a title, then the shortest title |
| ServicesPage.BoldSplitFailsOnlyWithoutColon | app/services/page.tsx:90 | backtracking fails only when no whitespace run admits a title |
| ServicesPage.MatchBold | app/services/page.tsx:90 | `trimmed.match(...)` with groups 1 and 2: a match needs a leading bullet; the lemmas below give its language, its backtracking order and the shape of its groups |
| ServicesPage.MatchBoldIffRegex | app/services/page.tsx:90-91 | the regex matches exactly when the line starts with a bullet and some whitespace run after it is followed by an admissible title, colon and rest |
| ServicesPage.MatchBoldShape | app/services/page.tsx:90-94 | on a match, the line is bullet, whitespace, title, colon, whitespace, body; the title is non-empty, neither group has a line terminator, and the body does not start with whitespace |
| ServicesPage.MatchBoldOnSingleLine | app/services/page.tsx:90-94 | on a line without line terminators, the hand-written matcher agrees with a direct reading: the title from the end of the bullet's whitespace to the first colon after the title's first character, the body from the end of the whitespace after that colon |
| ServicesPage.ReadBodyIsTrimStart | app/services/page.tsx:90-94 | in that direct reading, the body is the text after the colon less its leading whitespace run (`TrimStart`) |
| ServicesPage.ReadTitleIsTrimStart | app/services/page.tsx:90-94 | in that direct reading, a title that starts after the bullet's whitespace starts where `TrimStart` of the text after the bullet does |
| ServicesPage.StripBullet | app/services/page.tsx:99 | a leading bullet and the whitespace after it are removed, and a line without a bullet is left unchanged |
| ServicesPage.Classify | app/services/page.tsx:80-99 | a trimmed line starting with "-" is nested, with the rest trimmed as its text, and is never bold; otherwise a regex match is bold with groups 1 and 2; any other line is plain, with its bullet stripped |
| ServicesPage.BoldItemShape | app/services/page.tsx:90-96 | a bold item comes from a bullet line of the pattern's shape, with a non-empty title |
| ServicesPage.FormatContent | app/services/page.tsx:76-79 | one item per newline-separated line, in input order, each one the classification of its line |
| ServicesPage.InitialOpenItems | app/services/page.tsx:151-158 | the initial map has exactly the section indices as keys, each mapped to item 0, so exactly the first item of every section is open |
| ServicesPage.IsOpen | app/services/page.tsx:234 | an item is open exactly when its section has an entry and that entry is the item index; a missing entry or `null` is closed |
| ServicesPage.ToggleItem | app/services/page.tsx:161-166 | afterwards the clicked item is open exactly when it was not open before; other sections keep their entries |
| ServicesPage.AtMostOneOpen | app/services/page.tsx:149-150 | at most one item of a section is open, since `isOpen` compares against one stored index |
| ServicesPage.ToggleTwice | app/services/page.tsx:164 | toggling the same item twice restores the map when the item was open, and otherwise leaves the section null |
| Heading.Decimal | components/Heading.tsx:61 | the numeral is non-empty, made of digits, and one digit long exactly below ten |
| Heading.DecimalInjective | components/Heading.tsx:61 | different numbers have different numerals |
| Heading.Key | components/Heading.tsx:61 | the key is the word index, a dash and the global character index, in decimal; `KeyInjective` proves it determines both indices |
| Heading.KeyInjective | components/Heading.tsx:61 | the key determines both the word index and the global index |
| Heading.NumberCharacters | components/Heading.tsx:38-74 | the counter ends at the text length minus the number of spaces; character k gets index k, which is the counter before its increment, is the k-th non-space character, and belongs to the word whose offset range holds k; keys are pairwise distinct |
| Heading.WordCount | components/Heading.tsx:50 | the text splits into one word more than it has spaces |

## Left out

- Animation is not modelled: framer-motion variants, durations, offsets, the per-character delay `globalCharIndex * 0.06`, and `useInView`. These are floating-point library parameters that decide nothing in the logic.
- Listener registration and cleanup are not modelled: `addEventListener` and `removeEventListener` for resize and scroll, and effect cleanup on unmount. An event reaches the model only as a method call. The scroll listener's lifetime is modelled by `Scroll` acting only on home.
- `matchMedia` is replaced by an integer viewport width compared with 767. The anchor's `getBoundingClientRect().top` is replaced by an `Option<real>` parameter.
- The router is not modelled. `pathname` is a field that `Navigate` sets. React's batching of state updates into renders is not modelled: each method leaves the state after its updates.
- The accordion's `maxHeight` from `scrollHeight`, its plus and minus icon and its animation are not modelled. Only open or closed goes through `IsOpen`.
- The page text constants of the services page (the `sections` array) are not modelled. Any sections and any content are allowed.
- The contact form is not modelled, since it is network I/O. Neither are the static pages (`app/about`, `app/insights`, `app/not-found.tsx`, `app/page.tsx`, `app/layout.tsx`), the footer's copyright year (a clock) or its router call (only its target path is kept).
- Strings are sequences of Unicode code points. JavaScript strings are UTF-16 code units, so characters outside the Basic Multilingual Plane count once here but twice in `split("")`, and the two differ on such characters.
- The mobile menu's `md:hidden` CSS breakpoint is not modelled. The panel's expanded classes are modelled as a boolean whatever the viewport.
- A route change does not close the mobile menu in this model, because the component never closes it there. Only the hamburger and a mobile-menu link change `mobileOpen`.
- When the `headerEnd` anchor is missing, the scroll state stays as it was. The component returns early in that case; it does not force the solid theme.
