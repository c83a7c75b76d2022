# Portfolio site: decision logic in Dafny

This project models the few pieces of real decision logic inside the
portfolio site's React components, with browser inputs (window width,
bounding boxes, observer entries, stored strings, the outcome of the form
request) passed in as parameters. React `setState` is modelled as direct
assignment to a field of a class that stands for the component's state.

- `Contact` (components/Contact.tsx): the contact form's validator
  (`validateForm`): trimming, the e-mail pattern `^[^\s@]+@[^\s@]+\.[^\s@]+$`,
  the ten-character minimum. Also the `idle | loading | success | error`
  state machine driven by `handleSubmit` and `handleChange`.
- `Skills` (components/Skills.tsx): the width classifier of `handleResize`,
  the choice of one of the three layouts, the grouping of the skill list into
  five categories in a fixed order, and the ring radii of the desktop layout.
- `Navbar` (components/Navbar.tsx): the throttled scroll handler (`ticking`),
  the first-match scan for the section straddling the 150px line, link
  highlighting and the mobile menu.
- `DotNavigation` (components/DotNavigation.tsx): the observer callback
  (the last intersecting entry wins), the observed sections, the label
  lookup with fallback, and the hover state.
- `ScrollDotNavigation` (src/components/DotNavigation.tsx): the scroll rule
  that picks the last section whose top is at or above mid-viewport.
- `ThemeContext` (src/context/ThemeContext.tsx): the `dark` flag, loading it
  from storage, `toggle`, and persisting it to storage and the document class.
- `Wrappers`: the `Option` type used for `undefined`/`null` values.

Every scan loop in the source (the `for … of` with `break` and the three
`forEach` loops) is a method proved against a recursive specification function.
Lemmas about those functions state what the source promises. Examples: the
first match wins, or the last match wins, or the value is unchanged when
nothing matches.

Three points about the code that the model keeps as written:
- The navbar's active section starts as "" and not as the first section.
- The observer band is whatever the browser reports as `isIntersecting`.
- The desktop layout has no explicit guard for an empty category. An empty
  category never divides, because its skills are never mapped.

## Model

| member | source | states |
|---|---|---|
| `Contact.LeadingBlanks` | components/Contact.tsx:38 | the count of leading characters removed by `trim`: all whitespace, followed by a non-whitespace character or the end |
| `Contact.TrailingBlanks` | components/Contact.tsx:38 | the count of trailing characters removed by `trim`: all whitespace, preceded by a non-whitespace character or the start |
| `Contact.Trim` | components/Contact.tsx:38-50 | `trim()` gives "" exactly when the string is all whitespace; otherwise it is the contiguous part of the string between its leading and trailing whitespace runs, and starts and ends with non-whitespace |
| `Contact.TrimIdempotent` | components/Contact.tsx:50 | trimming a trimmed string changes nothing |
| `Contact.ShapedEmailMatches` | components/Contact.tsx:44 | every address the executable test accepts is `local@d1.d2`, with three non-empty parts free of whitespace and '@' |
| `Contact.MatchingEmailIsShaped` | components/Contact.tsx:44 | every match of the regular expression is accepted by the executable test |
| `Contact.EmailShapeMatchesPattern` | components/Contact.tsx:44 | the executable test accepts exactly the language of `^[^\s@]+@[^\s@]+\.[^\s@]+$` |
| `Contact.PatternExcludesWhitespace` | components/Contact.tsx:44 | a matching address has at least 5 characters and no whitespace anywhere |
| `Contact.PatternIsNotBlank` | components/Contact.tsx:42-44 | a matching address is never blank, so "required" and pattern acceptance never overlap |
| `Contact.ValidateName` | components/Contact.tsx:38-40 | the name gets an error (the `nameError` text) exactly when it is all whitespace |
| `Contact.ValidateEmail` | components/Contact.tsx:42-46 | blank gives `emailError`; non-blank but not matching the untrimmed pattern gives `emailInvalid`; no error exactly when the pattern matches |
| `Contact.ValidateMessage` | components/Contact.tsx:48-52 | blank gives `messageError`; non-blank with trimmed length below 10 gives `messageMinLength`; no error exactly when the trimmed length is at least 10 |
| `Contact.ValidateAcceptsIff` | components/Contact.tsx:35-55 | `validateForm` accepts iff the name is not blank, the e-mail matches and the trimmed message has at least 10 characters |
| `Contact.PaddedEmailIsInvalid` | components/Contact.tsx:42-46 | a non-blank e-mail with whitespace at either end gets `emailInvalid` |
| `Contact.FormData.With` | components/Contact.tsx:101 | the spread update sets the named field and keeps the other two |
| `Contact.FormErrors.Cleared` | components/Contact.tsx:104 | the spread update unsets the named field's error and keeps the other two |
| `Contact.SettledStatus` | components/Contact.tsx:82-94 | the final status is `error` exactly for a response without `ok`; it is `success` otherwise, including when the request threw |
| `Contact.ClearsFormIffSuccess` | components/Contact.tsx:82-94 | the fields are reset to "" exactly when the form settles in `success` |
| `Contact.ContactForm.constructor` | components/Contact.tsx:25-31 | the form starts with three empty fields, no errors and status `idle` |
| `Contact.ContactForm.ValidateForm` | components/Contact.tsx:35-56 | the errors become those of the current data; the result is true iff there are none; data and status are unchanged |
| `Contact.ContactForm.Submit` | components/Contact.tsx:58-80 | invalid data sends nothing and leaves the status; valid data sets `loading`, which disables the inputs and the button (lines 154, 184, 213), and sends the current fields |
| `Contact.ContactForm.Settle` | components/Contact.tsx:82-94 | the status becomes the settled status; the fields are cleared on success and kept on error |
| `Contact.ContactForm.HandleSubmit` | components/Contact.tsx:58-95 | the whole submission: validation errors recorded; nothing changes on invalid data; otherwise the settled status and fields |
| `Contact.ContactForm.HandleChange` | components/Contact.tsx:97-106 | only the named field changes, only its error is cleared, and the status is unchanged |
| `Skills.ClassifyBands` | components/Skills.tsx:336-343 | width < 768 is mobile, 768 ≤ width < 1280 is tablet, width ≥ 1280 is desktop |
| `Skills.ClassifyMonotone` | components/Skills.tsx:337-343 | a larger width never yields a smaller mode (mobile < tablet < desktop) |
| `Skills.RenderedLayouts` | components/Skills.tsx:418-420 | exactly one layout is rendered: the one matching the viewport |
| `Skills.SkillsSection.constructor` | components/Skills.tsx:329 | the viewport starts as desktop |
| `Skills.SkillsSection.HandleResize` | components/Skills.tsx:335-346 | the viewport becomes the classification of the current width |
| `Skills.OfCategory` | components/Skills.tsx:161 | the filter keeps only skills of the category, and no more than the list holds |
| `Skills.OfCategoryAppend` | components/Skills.tsx:161 | filtering distributes over concatenation, so each group keeps the list's relative order |
| `Skills.Grouped` | components/Skills.tsx:158-164 | there are five groups, in the order frontend, backend, devops, tools, ai, and group i holds only skills of category i; with `FlattenGrouped` and `OfCategoryAppend` this makes group i the filter of the list by category i, in list order |
| `Skills.FlattenGrouped` | components/Skills.tsx:158-164 | the groups, concatenated, are the five category filters one after another |
| `Skills.ByCategoryPermutes` | components/Skills.tsx:11-44 | the five category filters together hold every skill exactly as often as the list does |
| `Skills.GroupsPermuteSkills` | components/Skills.tsx:158-186 | the concatenated groups are a permutation of the skill list, with total size `skills.length` |
| `Skills.AllSkillsGrouped` | components/Skills.tsx:15-44 | the section's own 23 skills are shown once each across the five groups |
| `Skills.RingsNest` | components/Skills.tsx:166-193 | the innermost ring has radius 160; radii grow strictly, by 55 per category index |
| `Navbar.FirstStraddling` | components/Navbar.tsx:73-81 | the index of the first id whose element exists and whose box has top ≤ 150 ≤ bottom; ids before it are missing or miss the line |
| `Navbar.ScanSections` | components/Navbar.tsx:73-83 | the loop with `break` finds the first straddling section in priority order, or none, and then no id straddles |
| `Navbar.LinkHighlighting` | components/Navbar.tsx:121-127 | a link is active iff its href without "#" is the active section; at most one is, and "home" or "" highlights none |
| `Navbar.Navbar.constructor` | components/Navbar.tsx:55-57 | not scrolled, menu closed, active section "", no frame pending |
| `Navbar.Navbar.HandleScroll` | components/Navbar.tsx:65-88 | when no frame is pending, one is requested with the scroll offset; otherwise the event is dropped; nothing else changes |
| `Navbar.Navbar.RunFrame` | components/Navbar.tsx:69-85 | scrolled iff offset > 50; active section is the scan's result or the previous value; `ticking` reset; active section stays "" or a section id |
| `Navbar.Navbar.ScrollToSection` | components/Navbar.tsx:94-100 | the mobile menu closes; nothing else changes |
| `Navbar.Navbar.ToggleMobileMenu` | components/Navbar.tsx:102-104 | the mobile menu flag is negated; nothing else changes |
| `DotNavigation.SectionIdsDistinct` | components/DotNavigation.tsx:8-14 | the five configured ids are distinct |
| `DotNavigation.AfterEntriesLastWins` | components/DotNavigation.tsx:77-83 | after a batch, the active id is that of the last intersecting entry; unchanged when no entry intersects |
| `DotNavigation.AfterEntriesStaysInSections` | components/DotNavigation.tsx:77-92 | if the active id and all reported targets are configured ids, the active id stays a configured id |
| `DotNavigation.ObservedIds` | components/DotNavigation.tsx:87-92 | the observed ids are exactly the configured ids whose element exists |
| `DotNavigation.Find` | components/DotNavigation.tsx:105 | `find` returns the first section with the id, or nothing when no section has it |
| `DotNavigation.SectionLabel` | components/DotNavigation.tsx:104-109 | a known id with a string translation shows that translation; an unknown id, or one whose translation is not a string, shows the id |
| `DotNavigation.DotNavigation.constructor` | components/DotNavigation.tsx:63-64 | the active section starts as "home"; nothing is hovered |
| `DotNavigation.ObserveEach` | components/DotNavigation.tsx:87-92 | the `forEach` loop hands the observer exactly the sequence `ObservedIds` describes |
| `DotNavigation.DotNavigation.Observe` | components/DotNavigation.tsx:85-92 | the observer watches the configured sections whose element exists |
| `DotNavigation.DotNavigation.Disconnect` | components/DotNavigation.tsx:94 | the cleanup stops all observation |
| `DotNavigation.DotNavigation.ObserverCallback` | components/DotNavigation.tsx:77-83 | the `forEach` leaves the last-intersecting-entry result, and the active id stays a configured id |
| `DotNavigation.DotNavigation.MouseEnter` | components/DotNavigation.tsx:125 | the hovered section becomes the row's id |
| `DotNavigation.DotNavigation.MouseLeave` | components/DotNavigation.tsx:126 | the hovered section becomes null |
| `DotNavigation.DotNavigation.OneActiveDot` | components/DotNavigation.tsx:117-129 | exactly one dot is active, and at most one tooltip shows |
| `ScrollDotNavigation.First` | src/components/DotNavigation.tsx:8 | `sections[0]`, undefined exactly for an empty list |
| `ScrollDotNavigation.SelectSection` | src/components/DotNavigation.tsx:11-22 | the loop computes the specified selection from `sections[0]` |
| `ScrollDotNavigation.CurrentIsLastQualifying` | src/components/DotNavigation.tsx:12-21 | the selection is the last section whose element exists with top ≤ innerHeight/2, and none after it qualifies; with none qualifying it is the start value |
| `ScrollDotNavigation.SelectedIsMember` | src/components/DotNavigation.tsx:8-19 | for a non-empty list the selection is one of its sections |
| `ScrollDotNavigation.ScrollDotNavigation.constructor` | src/components/DotNavigation.tsx:8 | the active section starts as `sections[0]` |
| `ScrollDotNavigation.ScrollDotNavigation.HandleScroll` | src/components/DotNavigation.tsx:11-26 | the active section becomes the selection (also run once at mount), and for a non-empty list one of the dots is highlighted |
| `ThemeContext.LoadedDark` | src/context/ThemeContext.tsx:16-19 | only a stored "light" switches to light; an absent or any other value keeps dark |
| `ThemeContext.StoredTheme` | src/context/ThemeContext.tsx:21-29 | the stored value is "dark" iff dark, "light" iff not |
| `ThemeContext.PersistLoadRoundTrip` | src/context/ThemeContext.tsx:17-28 | persisting a flag and loading it on the next start reproduces the flag |
| `ThemeContext.ContextToggles` | src/context/ThemeContext.tsx:8-32 | the default context is dark and its toggle does nothing; a provider's toggle flips its current flag |
| `ThemeContext.ThemeProvider.constructor` | src/context/ThemeContext.tsx:14 | the provider starts dark |
| `ThemeContext.ThemeProvider.PersistEffect` | src/context/ThemeContext.tsx:21-29 | storage holds "dark"/"light" for the flag, and the document has the "dark" class iff dark |
| `ThemeContext.ThemeProvider.Mount` | src/context/ThemeContext.tsx:16-29 | after mounting, the flag is what the stored value loads to; only the "theme" key and the "dark" class change, and they agree with the flag |
| `ThemeContext.ThemeProvider.Toggle` | src/context/ThemeContext.tsx:32 | the flag is negated; only the "theme" key and the "dark" class change, and they agree with the new flag |

## Left out

- Orbit trigonometry (`calculateOrbitPosition` and the per-ring start angles): floating-point `cos`/`sin`.
- The form-relay `fetch` and the 1.5-second `setTimeout`: network I/O and timing. Their outcome (`ok`, not `ok`, threw) is a parameter.
- Browser primitives: `IntersectionObserver` geometry (its `rootMargin`), `getBoundingClientRect`, `requestAnimationFrame` scheduling, `scrollIntoView`, adding and removing listeners, framer-motion hooks, `localStorage` and `classList`. They are a map of boxes, a sequence of entries, a string map and a set.
- Pixel quantities (scroll offset, box edges, `innerHeight`) are integers; fractional pixels are not modelled. `top <= innerHeight / 2` is stated exactly as `2 * top <= innerHeight`.
- Contact.ValidateMessage: counts characters as Unicode scalar values, whereas JavaScript's `length` counts UTF-16 code units, so a message with characters outside the Basic Multilingual Plane can be judged shorter here.
- Contact.ContactForm.HandleSubmit: assumes no edit happens while the request is out, which the disabled inputs ensure; `Submit` and `Settle` model the two halves around the `await` separately.
- Contact.ContactForm.HandleChange: the field is one of the three inputs; an input `name` outside them is not modelled.
- Error messages are the translation keys (`nameError`, `emailInvalid`, …), not the translated text; their non-emptiness is assumed.
- DotNavigation.DotNavigation.ObserverCallback: requires that every entry's target is observed, which the browser guarantees.
- React's batching of state updates and the re-run of the scroll effect when the `sections` prop changes.
- Presentational components, static content tables, build configuration, and the `lib/LanguageContext` and `lib/ThemeContext` modules, which are not part of this model.
