# Education-consultancy site: the logic inside five interactive components

This project models, in Dafny, the behaviour of five client components of the
Alpha World Education marketing site. Each component is a React function
component. Its state is a handful of `useState` cells, and its event handlers
replace those cells.

- **Latest blogs** (`LatestBlogs.tsx`). Three text helpers and the rule the blog query applies to an HTTP response:
  - the two-letter initials shown when a post has no image;
  - the plain-text description, with tags stripped and cut at 120 characters;
  - the "N min read" label, at 200 words per minute.
  - The query rule: a non-OK status is an error; otherwise the first three posts are kept.
- **Student testimonials** (`StudentTestimonials.tsx`). A carousel showing three cards per slide. A slide counter wraps around at both ends. It moves with the next button, the previous button and a five-second timer.
- **FAQ** (`FAQ.tsx`). Category buttons filter a constant question list. An accordion keeps at most one answer open.
- **Navbar** (`Navbar.tsx`). It covers:
  - the rule that highlights the link of the current page;
  - the dropdown entries built from the college, exam and country lists, and the truncated mobile submenus;
  - the hover, expand, scroll and open state that the handlers keep.
- **Hero search** (`Hero.tsx`). Typing opens a result dropdown once the query has two characters. The college and exam searches are enabled only from that length. The dropdown lists at most five of each, then either a "no results" note or a "view all" button. A result click resets the box. Submitting searches only for a non-blank query.

The modelling follows the source's own form:
- Pure helpers are Dafny functions. The helpers that model a source operation state their result in their own `ensures`. Small definitions are used through the contracts of the members that call them, for example the link builders, `StartsWith`, `JoinWithSpace` and `DecimalValue`. The harder helpers are also related by lemmas to an independent reference definition, for example:
  - a word-start scan for the initials;
  - a white-space-run count for the word count;
  - `IsSubsequence` and multiset counts for the filters;
  - for tag stripping, lemmas saying that text outside tags is kept and each complete tag is removed whole.
- Each stateful component is a `class`. Its fields are the component's state cells, and each handler is a `method` that `modifies this`. A `Valid()` invariant is kept where the component has one.

JavaScript semantics are written out where they matter:
- `split(" ")` keeps empty pieces.
- `n[0]` of an empty word is `undefined`, which `join` drops.
- `split(/\s+/)` yields one more piece than there are white-space runs.
- `/<[^>]*>/g` is a left-to-right scan.
- `slice` clamps its bounds.
- `response.ok` is a status from 200 to 299.
- `trim` and `\s` use the ECMAScript white-space and line-terminator set.

Strings are `seq<char>`. A Dafny `char` is a Unicode scalar value, so the model measures text in code points, while JavaScript's `length`, indexing and `substring` count UTF-16 code units. The two agree on text inside the Basic Multilingual Plane. A character outside it, such as an emoji, counts once in the model and twice in JavaScript; "## Left out" names the rules this affects.

## Model

| member | source | states |
|---|---|---|
| Common.Slice | src/app/Components/StudentTestimonials.tsx:109-112 | `slice` with clamped bounds: the result has as many elements as lie between the bounds inside the sequence, and each is the element at its offset from the start bound |
| Common.Take | src/app/Components/LatestBlogs.tsx:43 | `slice(0, n)`: the first `min(n, length)` elements, in order |
| Common.IsWhitespace | src/app/Components/LatestBlogs.tsx:26 | the space, tab, line feed and carriage return are white space; ASCII letters and digits are not; no character past U+FEFF is |
| Common.Decimal | src/app/Components/LatestBlogs.tsx:27 | the numeral a template literal gives a count: non-empty, all decimal digits, and without a leading zero unless the count is 0 |
| Common.DecimalRoundTrip | src/app/Components/LatestBlogs.tsx:27 | reading the numeral back gives the count |
| LatestBlogs.SplitOnSpace | src/app/Components/LatestBlogs.tsx:17-18 | `split(" ")` yields at least one piece, and no piece contains a space |
| LatestBlogs.JoinSplitOnSpace | src/app/Components/LatestBlogs.tsx:17-18 | joining the split pieces with single spaces gives back the name: the split loses nothing |
| LatestBlogs.FirstChars | src/app/Components/LatestBlogs.tsx:18 | taking the first character of each word and concatenating yields at most one character per word |
| LatestBlogs.ToUpper | src/app/Components/LatestBlogs.tsx:18 | `toUpperCase` maps a lower-case ASCII letter to its capital, leaves every other character alone, and never yields an ASCII lower-case letter |
| LatestBlogs.UpperCase | src/app/Components/LatestBlogs.tsx:18 | upper-casing maps each character on its own with ToUpper and keeps the length |
| LatestBlogs.FirstCharsAreWordStarts | src/app/Components/LatestBlogs.tsx:17-18 | the first characters of the split words are exactly the characters that begin a word: non-space, at the start or after a space |
| LatestBlogs.InitialsSpec | src/app/Components/LatestBlogs.tsx:17-18 | the initials are the upper-cased first characters of the first two words, in order: `min(2, number of words)` characters, no ASCII lower-case letter among them |
| LatestBlogs.Initials | src/app/Components/LatestBlogs.tsx:17-18 | the initials have at most two characters, and none is an ASCII lower-case letter |
| LatestBlogs.BlankNameHasNoInitials | src/app/Components/LatestBlogs.tsx:17-18 | an empty or all-space name gives empty initials |
| LatestBlogs.FindClose | src/app/Components/LatestBlogs.tsx:21 | `[^>]*>` matches up to the first `>`: the position found holds `>` and no earlier one does, or there is none |
| LatestBlogs.StripTags | src/app/Components/LatestBlogs.tsx:21 | `replace(/<[^>]*>/g, "")` never lengthens the text, keeps only characters of the content, and leaves no complete `<...>` span |
| LatestBlogs.StripTagsIsSubsequence | src/app/Components/LatestBlogs.tsx:21 | the text left after stripping keeps its order: it is a subsequence of the content |
| LatestBlogs.NoTagTail | src/app/Components/LatestBlogs.tsx:21 | a text without a complete tag still has none after its first character is dropped |
| LatestBlogs.StripTagsKeepsPlainText | src/app/Components/LatestBlogs.tsx:21 | content without a complete tag is left unchanged |
| LatestBlogs.FindCloseAfterTagBody | src/app/Components/LatestBlogs.tsx:21 | in a tag body without `>` followed by `>`, the first `>` is the one that closes the body |
| LatestBlogs.StripTagsKeepsTextOutsideTags | src/app/Components/LatestBlogs.tsx:21 | text without a `<` is kept as it stands, and stripping continues after it |
| LatestBlogs.StripTagsDropsTag | src/app/Components/LatestBlogs.tsx:21 | a complete tag `<...>` whose body holds no `>` is removed whole, and stripping continues after it: so "a<b>c" strips to "ac" |
| LatestBlogs.StripTagsIdempotent | src/app/Components/LatestBlogs.tsx:21 | stripping twice is stripping once |
| LatestBlogs.Truncate | src/app/Components/LatestBlogs.tsx:22 | text of up to 120 characters is kept whole; longer text becomes its first 120 characters followed by "..." |
| LatestBlogs.ExtractDescription | src/app/Components/LatestBlogs.tsx:20-23 | the description has at most 123 characters and no complete tag. It is the stripped text when that fits in 120 characters, and otherwise the stripped text's first 120 characters followed by "..." |
| LatestBlogs.SplitOnWhitespace | src/app/Components/LatestBlogs.tsx:26 | `split(/\s+/)` yields at least one piece, and no piece contains white space |
| LatestBlogs.WordCountIsRunsPlusOne | src/app/Components/LatestBlogs.tsx:26 | the word count is one more than the number of maximal white-space runs |
| LatestBlogs.ReadMinutes | src/app/Components/LatestBlogs.tsx:25-28 | the word count divided by 200 and rounded up: the least number of minutes covering the words at 200 per minute, and at least 1 |
| LatestBlogs.ReadTimeLabel | src/app/Components/LatestBlogs.tsx:27 | the label ends in " min read" after at least one character |
| LatestBlogs.ReadTimeLabelSpec | src/app/Components/LatestBlogs.tsx:27 | the label is the decimal numeral of the minutes followed by " min read", and the numeral reads back as the minutes. The minutes are at least 1 and satisfy `(m-1)*200 <= runs < m*200` |
| LatestBlogs.IsOk | src/app/Components/LatestBlogs.tsx:41 | a response is OK exactly when its status is in the 2xx class |
| LatestBlogs.LatestBlogsQuery | src/app/Components/LatestBlogs.tsx:36-47 | the query fails exactly on a non-OK status or a body without `data`. A non-OK status fails with that status. On success the result is the first `min(3, n)` posts, in order |
| Testimonials.StudentTestimonials | src/app/Components/StudentTestimonials.tsx:17-90 | the section's constant list: six testimonials, each rated five stars |
| Testimonials.TotalSlides | src/app/Components/StudentTestimonials.tsx:94-96 | `n / 3` rounded up: the fewest slides of three that hold `n` cards. It is zero exactly for no cards |
| Testimonials.ConstantListHasTwoSlides | src/app/Components/StudentTestimonials.tsx:17-96 | the six constant testimonials make two slides |
| Testimonials.NextSlide | src/app/Components/StudentTestimonials.tsx:145 | next stays in range: it wraps to 0 from the last slide and otherwise moves on by one |
| Testimonials.PrevSlide | src/app/Components/StudentTestimonials.tsx:138 | previous stays in range: it wraps to the last slide from 0 and otherwise moves back by one |
| Testimonials.PrevNextInverse | src/app/Components/StudentTestimonials.tsx:138-145 | previous undoes next, and next undoes previous |
| Testimonials.AdvanceBy | src/app/Components/StudentTestimonials.tsx:102-104 | any number of timer ticks keeps the slide in range |
| Testimonials.AdvanceWithoutWrap | src/app/Components/StudentTestimonials.tsx:103 | before the wrap, `k` ticks move `k` slides on |
| Testimonials.AdvanceCompose | src/app/Components/StudentTestimonials.tsx:103 | `a + b` ticks are `a` ticks followed by `b` ticks |
| Testimonials.FullCycleReturns | src/app/Components/StudentTestimonials.tsx:102-104 | one tick per slide comes back to the starting slide |
| Testimonials.Visible | src/app/Components/StudentTestimonials.tsx:109-112 | slide `s` shows at most three cards. They are cards `3s`, `3s+1`, ... of the list, as many as remain, and none past the end |
| Testimonials.SlideInRangeIsNonEmpty | src/app/Components/StudentTestimonials.tsx:96-112 | every slide below the slide count shows one to three cards |
| Testimonials.SlidesFromIsSuffix | src/app/Components/StudentTestimonials.tsx:109-112 | the slides from `k` on, laid end to end, are the list from card `3k` on |
| Testimonials.SlidesPartitionList | src/app/Components/StudentTestimonials.tsx:96-112 | all slides laid end to end are the whole list, in order and without repetition |
| Testimonials.ItemOnExactlyOneSlide | src/app/Components/StudentTestimonials.tsx:96-112 | card `i` is on slide `i / 3` at position `i % 3`, and that slide is in range |
| Testimonials.SlideOfItemIsUnique | src/app/Components/StudentTestimonials.tsx:109-112 | a slide position holding card `i` is slide `i / 3`, position `i % 3`: no other slide shows it |
| Testimonials.Carousel.constructor | src/app/Components/StudentTestimonials.tsx:94-98 | the carousel starts on slide 0 over the given testimonials, with its slide count |
| Testimonials.Carousel.Shown | src/app/Components/StudentTestimonials.tsx:109-112 | the cards of the current slide: one to three of them |
| Testimonials.Carousel.Next | src/app/Components/StudentTestimonials.tsx:145 | the next button sets the slide to its successor and keeps the slide in range |
| Testimonials.Carousel.Prev | src/app/Components/StudentTestimonials.tsx:138 | the previous button sets the slide to its predecessor and keeps the slide in range |
| Testimonials.Carousel.AutoAdvance | src/app/Components/StudentTestimonials.tsx:101-107 | the five-second timer performs the same update as next |
| Faq.Categories | src/app/Components/FAQ.tsx:21-27 | the five category buttons: "all" first, and no id used twice |
| Faq.Faqs | src/app/Components/FAQ.tsx:29-72 | the seven constant questions, no question twice |
| Faq.FilterByCategory | src/app/Components/FAQ.tsx:77 | the filter never grows the list, and every kept question has the category |
| Faq.FilterIsExact | src/app/Components/FAQ.tsx:77 | the filter keeps every question of the category, as often as it occurs and in list order, and nothing else |
| Faq.FilteredFaqs | src/app/Components/FAQ.tsx:74-77 | "all" shows the whole list; any other category shows the filtered list |
| Faq.UnusedCategoryIsEmpty | src/app/Components/FAQ.tsx:74-77 | a category that no question carries filters to nothing, and (unless it is "all") shows nothing |
| Faq.CategoryIds | src/app/Components/FAQ.tsx:21-27 | the button ids, one per category, in order |
| Faq.FilterSizesSum | src/app/Components/FAQ.tsx:77 | when every question's category is one of a list of distinct ids, the filtered lists for those ids have sizes adding up to the number of questions: together they hold each question exactly once |
| Faq.ConstantQuestionsAreCategorised | src/app/Components/FAQ.tsx:21-72 | each of the seven constant questions carries one of the four category ids after "all" |
| Faq.ConstantCategoriesPartition | src/app/Components/FAQ.tsx:21-77 | the four category buttons after "all" list seven questions in all: each constant question under exactly one button |
| Faq.ConstantAllNeedsSpecialCase | src/app/Components/FAQ.tsx:74-77 | no constant question is labelled "all", so filtering by "all" would list nothing; the special case lists the whole list |
| Faq.Accordion.Shown | src/app/Components/FAQ.tsx:74-77 | the listed questions: the whole list under "all", otherwise only questions of the selected category, never more than the list |
| Faq.Accordion.IsOpen | src/app/Components/FAQ.tsx:143 | an answer is shown only while some question is open, and under the invariant that question is one of those listed |
| Faq.Accordion.constructor | src/app/Components/FAQ.tsx:17-18 | nothing is open and "all" is selected, so the whole list is shown |
| Faq.Accordion.SelectCategory | src/app/Components/FAQ.tsx:102-105 | a category button selects the category and closes every answer |
| Faq.Accordion.Toggle | src/app/Components/FAQ.tsx:125-127 | a question button closes its answer if it was open, and otherwise opens it as the only open answer. The category is unchanged |
| Faq.Accordion.AtMostOneOpen | src/app/Components/FAQ.tsx:143 | at most one answer is shown at a time |
| Navbar.NavItems | src/app/Components/Navbar.tsx:33-41 | the seven menu items, "Home" at "/" first; exactly "Colleges" and "Exams" have a dropdown, an item written without the flag having none |
| Navbar.IsActive | src/app/Components/Navbar.tsx:54 | a link is active only on a known path that begins with its href |
| Navbar.IsActiveSpec | src/app/Components/Navbar.tsx:54 | the home link is active on the root page only. Any other link is active exactly on paths that begin with its href. With no pathname, nothing is active |
| Navbar.PrefixTestIgnoresSegments | src/app/Components/Navbar.tsx:54 | the prefix test has no segment boundary: "/colleges" is active on "/collegesX" |
| Navbar.StartsWithBoth | src/app/Components/Navbar.tsx:54 | when a path begins with two hrefs, the shorter is a prefix of the longer |
| Navbar.DifferAt | src/app/Components/Navbar.tsx:54 | two strings that differ at a shared position are not prefixes of each other |
| Navbar.NavHrefsArePrefixFree | src/app/Components/Navbar.tsx:33-41 | no href of the menu other than "/" is a prefix of another |
| Navbar.AtMostOneActiveItem | src/app/Components/Navbar.tsx:33-54 | on any page at most one menu item is highlighted |
| Navbar.NoCountriesItem | src/app/Components/Navbar.tsx:33-41 | the menu has no "Countries" item |
| Navbar.CollegeLinks | src/app/Components/Navbar.tsx:44 | one dropdown entry per college, in order, linking to `/colleges/<slug>` |
| Navbar.ExamLinks | src/app/Components/Navbar.tsx:45 | one dropdown entry per exam, in order, titled by its short name and linking to `/exams/<slug>` |
| Navbar.CountryLinks | src/app/Components/Navbar.tsx:46-51 | one entry per country, in order, with title, link, flag and slug |
| Navbar.CountryLinksSpec | src/app/Components/Navbar.tsx:46-51 | a country entry's title is "Study in " followed by the name, so the name can be read back from the title. The entry carries the country's slug |
| Navbar.DropdownLinksHighlightTheirItem | src/app/Components/Navbar.tsx:44-54 | following a college entry lands on a page where "Colleges" is highlighted; likewise for exams |
| Navbar.DropdownFor | src/app/Components/Navbar.tsx:43-52 | looking up a menu item's entries by name: the entry list for "Colleges", "Exams" and "Countries", and nothing for any other name |
| Navbar.MobileSubmenu | src/app/Components/Navbar.tsx:220 | the mobile submenu is the first `min(8, n)` entries of the item's dropdown, in order, or nothing |
| Navbar.CountryPreview | src/app/Components/Navbar.tsx:147 | the preview is the first `min(6, n)` colleges of the hovered country, in order |
| Navbar.DesktopDropdownOpen | src/app/Components/Navbar.tsx:109 | a desktop dropdown is open only for an item that has one, and only while some item is hovered |
| Navbar.MobileSubmenuOpen | src/app/Components/Navbar.tsx:214 | a mobile submenu is open only for an item that has one, and only while some item is expanded |
| Navbar.NavItemNamesDistinct | src/app/Components/Navbar.tsx:33-41 | no two menu items share a name |
| Navbar.AtMostOneDesktopDropdown | src/app/Components/Navbar.tsx:92-109 | whatever is hovered, at most one menu item shows its desktop dropdown |
| Navbar.AtMostOneMobileSubmenu | src/app/Components/Navbar.tsx:200-214 | whatever is expanded, at most one menu item shows its mobile submenu |
| Navbar.NavbarState.constructor | src/app/Components/Navbar.tsx:15-19 | the menu is closed and not scrolled, and nothing is hovered or expanded |
| Navbar.NavbarState.Scroll | src/app/Components/Navbar.tsx:27-31 | the bar is marked scrolled exactly when the page is more than 10 pixels down; nothing else changes |
| Navbar.NavbarState.MouseEnter | src/app/Components/Navbar.tsx:92 | the entered item is hovered, and no other item's dropdown is open; nothing else changes |
| Navbar.NavbarState.MouseLeave | src/app/Components/Navbar.tsx:93 | no item and no country is hovered, and no dropdown is open; nothing else changes |
| Navbar.NavbarState.SubItemEnter | src/app/Components/Navbar.tsx:125 | only an entry under "Countries" records the hovered country, so no entry of the actual menu changes it; nothing else changes |
| Navbar.NavbarState.ToggleMobileItem | src/app/Components/Navbar.tsx:200 | an item with a dropdown flips between expanded and collapsed, and becomes the only expanded item when opened. An item without a dropdown changes nothing |
| Navbar.NavbarState.ToggleMenu | src/app/Components/Navbar.tsx:176 | the menu button flips the mobile menu; nothing else changes |
| Navbar.NavbarState.CloseMenu | src/app/Components/Navbar.tsx:224-234 | a submenu link or the admission button closes the mobile menu; nothing else changes |
| Hero.SearchEnabled | src/app/Components/Hero.tsx:20 | a search is enabled exactly when the query has a first and a second character |
| Hero.QueryFn | src/app/Components/Hero.tsx:15-29 | below two characters the query function yields an empty list; otherwise it yields what the endpoint returned |
| Hero.QueryData | src/app/Components/Hero.tsx:13-32 | a query below two characters is disabled and holds no data; otherwise it holds the endpoint's result |
| Hero.Listed | src/app/Components/Hero.tsx:34-35 | missing data lists nothing; present data lists itself |
| Hero.ShortQueryListsNothing | src/app/Components/Hero.tsx:13-35 | a query below two characters lists no college and no exam; otherwise what the endpoint returned is listed |
| Hero.IsLoading | src/app/Components/Hero.tsx:36 | the box is not searching exactly when neither search is loading |
| Hero.RenderDropdown | src/app/Components/Hero.tsx:225-298 | the dropdown shows only when results are to be shown and the query has two or more characters. It shows a spinner while either search loads. Otherwise it lists the first `min(5, n)` colleges and exams, in order, plus exactly one of "no results" (both lists empty) and "view all" |
| Hero.TrimStart | src/app/Components/Hero.tsx:41 | drops exactly the leading white space: the result is a suffix that does not start with white space |
| Hero.TrimEnd | src/app/Components/Hero.tsx:41 | drops exactly the trailing white space: the result is a prefix that does not end with white space |
| Hero.Trim | src/app/Components/Hero.tsx:41 | the trimmed query is empty exactly when every character is white space |
| Hero.SearchBox.constructor | src/app/Components/Hero.tsx:9-10 | the query is empty, no results are shown, and the invariant holds |
| Hero.SearchBox.InputChange | src/app/Components/Hero.tsx:46-50 | the query becomes the typed value, and results are shown exactly when it has two or more characters |
| Hero.SearchBox.ResultClick | src/app/Components/Hero.tsx:52-55 | a result click empties the query and hides the results |
| Hero.SearchBox.ClickOutside | src/app/Components/Hero.tsx:57-64 | a click outside hides the results and keeps the query |
| Hero.SearchBox.Submit | src/app/Components/Hero.tsx:38-44 | submitting searches for the query exactly when it has a character that is not white space, and searches for the query unchanged |
| Hero.SearchBox.Dropdown | src/app/Components/Hero.tsx:225-311 | the dropdown for the box's state: under the invariant it is hidden exactly when results are not to be shown, and it lists at most five colleges and five exams |
| Hero.SearchBox.DropdownFollowsShowResults | src/app/Components/Hero.tsx:225 | while the invariant holds, the dropdown is hidden exactly when results are not to be shown: the length guard in the markup is then implied |

## Left out

- HTTP, JSON decoding and the query library's caching, `staleTime`, retries and loading flags are not modelled. A fetch is a parameter: a status and the decoded `data` field for the blogs, and an optional list for the Hero searches. Loading flags are boolean inputs.
- `formatDate` (LatestBlogs.tsx:30-34) is left out because it depends on the host's locale and date library.
- The `setInterval` and `addEventListener` plumbing is left out: registering, clearing and cleaning up. Only the state update each callback performs is modelled. The click-outside listener is registered only while results are shown; the model lets the update run in any state, where it has the same effect.
- `window.location.href` and `encodeURIComponent` in the Hero submit handler are left out. `Hero.SearchBox.Submit` returns the query that would be searched for instead of navigating.
- `openModal` of the form-modal context (FAQ and Navbar) is left out. It belongs to a context provider outside these components. `CloseMenu` models only the closing of the menu that the admission button also performs.
- Markup, styling, animation and icons are left out, and so are the static components.
- `FeaturedExams.tsx` is not part of this model.
- The contact-information and dropdown-data hooks are not part of this model. Their lists are inputs.
- The display fallbacks inside result rows are not modelled: `short_name || name`, `country_ref?.name || 'India'`.
- Testimonials.Testimonial: the location, photo, quote and achievement of each student are not carried. Only the name, university, country, course and rating are, because the carousel's slide logic depends on none of them.
- Faq.FaqEntry: the answer text of each question is not carried. Only the question and its category are, because the answers play no part in filtering or opening.
- LatestBlogs.ToUpper: only ASCII letters are upper-cased. JavaScript's full Unicode case mapping is not modelled, including mappings that lengthen the string, such as "ß" to "SS".
- LatestBlogs.Initials: the first character of a word and the cut to two count code points, while JavaScript counts UTF-16 code units. A word starting outside the Basic Multilingual Plane contributes half a surrogate pair in JavaScript and a whole character in the model. The bound of two and the absence of lower-case letters hold only under the ASCII upper-casing of `LatestBlogs.ToUpper`. With JavaScript's full Unicode case mapping the initials can be longer: "ß ß" gives "SSSS". They can also differ outside ASCII: "émile zola" gives "ÉZ" in JavaScript and "éZ" in the model.
- LatestBlogs.UpperCase: it upper-cases one character at a time and keeps the length. JavaScript's `toUpperCase` can lengthen text, as in "ß" to "SS", and maps letters outside ASCII, which this model leaves alone.
- LatestBlogs.Truncate: the limit of 120 is counted in code points, while JavaScript counts UTF-16 code units. For example, 61 emoji are 122 units, so JavaScript cuts them but the model keeps them whole. The two agree on text inside the Basic Multilingual Plane.
- LatestBlogs.ExtractDescription: it inherits the code-point counting of `LatestBlogs.Truncate`.
- Hero.SearchBox.InputChange: the two-character threshold is counted in code points, while JavaScript counts UTF-16 code units. A single emoji turns the search on in JavaScript but not in the model.
- Hero.SearchEnabled: the two-character gate is counted in code points, not UTF-16 code units, so a single emoji enables the searches in JavaScript but not in the model.
- Hero.QueryFn: it is gated by the same code-point count as `Hero.SearchEnabled`.
- Hero.QueryData: it is gated by the same code-point count as `Hero.SearchEnabled`.
- Hero.RenderDropdown: its length guard is counted in code points, not UTF-16 code units, so a single emoji shows the dropdown in JavaScript but not in the model.
- Testimonials.Carousel.constructor: it requires at least one testimonial. With an empty list JavaScript computes a slide count of 0, and `% 0` would make the slide `NaN`. The list the component renders has six entries.
- Navbar.NavbarState.SubItemEnter: the "Countries" branch and the country preview cannot be reached from the menu as written, because no item is named "Countries". They are modelled as written, and `Navbar.NoCountriesItem` proves that they cannot be reached.
- Navbar.NavbarState.Scroll: `window.scrollY` is taken as a real-number parameter.
