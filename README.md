# Emersion Music site: the stateful widgets

The Emersion Music website is a set of content pages. A few small widgets on
those pages carry state, and this project models those widgets and proves
what they promise:

- **Stats counter** on the home page (`counter.dfy`, module `Counters`). Each
  counter waits until its element is half visible. It then counts from 0 to
  its target in 40 ticks and stops on exactly the target. The class
  `Counter` holds the one-shot `started` latch, the `real` accumulator
  `current`, the rendered `count` and the timer flag `running`. It is proved
  against `ShownAt(target, k)`, the number shown after `k` ticks with exact
  arithmetic.
- **Testimonial carousel and newsletter form** on the home page (`home.dfy`,
  module `Home`). The arrows move the index with JavaScript's truncating `%`
  (`JsRem`, `Next`, `Prev`). The dots jump to an index. A send records the
  subscription only when the email field is non-empty. `Step`/`Run` give the
  page's state after each event. The class `HomePage` holds the same state in
  fields and is proved against `Step`.
- **Workshop filter** (`workshops.dfy`, module `Workshops`). The six-entry
  catalogue with each entry's format list, the three-valued `Format`, the
  `Filtered` list and which filter button is active.
- **Site header** (`header.dfy`, module `SiteHeader`). It has the scroll
  threshold, the mobile-menu and Programs toggles, and the reset when the
  route changes. It also highlights the navigation link for the current
  path. `Step`/`Run` give the header's state after each event. The class
  `Header` is proved against `Step`.

Browser callbacks become method calls or events:

- the visibility observer's report becomes `Observe(isIntersecting)`;
- each interval callback becomes `Tick()`;
- the window scroll handler becomes `OnScroll(scrollY)`;
- a route change becomes `RouteChanged(path)`.

## Model

| member | source | states |
|---|---|---|
| `Counters.FloorOfFortieth` | src/pages/Index.tsx:139 | flooring the real accumulator k·target/40 gives the integer quotient (k·target) div 40 |
| `Counters.Reached` | src/pages/Index.tsx:129-135 | the stop test `current >= target` after k ticks, in exact arithmetic: for a positive target it holds exactly from tick 40 on, for a zero target always, and for a negative target exactly up to tick 40 |
| `Counters.ShownAt` | src/pages/Index.tsx:133-140 | the number on screen after tick k, in exact arithmetic: for a target ≥ 0 it lies in [0, target], and the tick that stops the timer shows the target itself |
| `Counters.StopsAtStopTick` | src/pages/Index.tsx:129-137 | the accumulator reaches the target at tick 40 for a positive target and at tick 1 otherwise. No earlier tick reaches it |
| `Counters.ShownMonotone` | src/pages/Index.tsx:133-140 | for a target ≥ 0 the number shown never decreases from one tick to a later one |
| `Counters.ShownBeforeEnd` | src/pages/Index.tsx:129-141 | for a target ≥ 0, tick k < 40 shows floor(k·target/40). Tick 40 shows exactly the target and stops the timer |
| `Counters.TwoHundredSequence` | src/pages/Index.tsx:129-141 | the target-200 counter shows 5·k at tick k. That gives 5, 10, …, 195 and then 200 at tick 40 |
| `Counters.EightSequence` | src/pages/Index.tsx:129-141 | the target-8 counter shows 0 for ticks 1-4, 1 at tick 5 and 8 at tick 40 |
| `Counters.ShownRun` | src/pages/Index.tsx:127-141 | the numbers shown by ticks 1 to k: one entry per tick, entry i being what tick i + 1 shows |
| `Counters.ShownRunSorted` | src/pages/Index.tsx:133-140 | for a target ≥ 0 the numbers shown by ticks 1 to k form a sorted run, each at most the target |
| `Counters.TwoHundredRun` | src/pages/Index.tsx:129-141 | the whole run of the target-200 counter is exactly 5, 10, …, 195, 200 |
| `Counters.Counter.constructor` | src/pages/Index.tsx:111-114 | a new counter shows 0 with the latch open and no timer |
| `Counters.Counter.Observe` | src/pages/Index.tsx:116-125 | `started` becomes true only on an intersecting report to a mounted counter and never reverts. The first such report starts the timer. The count is untouched |
| `Counters.Counter.Tick` | src/pages/Index.tsx:127-141 | with no live timer, a tick changes nothing. Otherwise, after the k-th tick the count is `ShownAt(target, k)`, and it is appended to the history of shown numbers, which stays `ShownRun(target, k)`. The timer stays live exactly while the target is not reached. For a target ≥ 0 the count never decreases and never exceeds the target. The tick that clears the timer leaves exactly the target on screen |
| `Counters.Counter.Unmount` | src/pages/Index.tsx:142 | teardown clears the timer and disconnects the observer, so later ticks and reports change nothing |
| `Home.JsRem` | src/pages/Index.tsx:160-163 | the remainder truncated toward zero, as JavaScript's `%`: it differs from the dividend by a multiple of n, lies in [0, n) for a non-negative dividend and in (−n, 0] for a negative one |
| `Home.Next` | src/pages/Index.tsx:159-160 | for an index in [0, n), "next" moves to the following index and wraps from n−1 to 0 |
| `Home.Prev` | src/pages/Index.tsx:161-164 | for an index in [0, n), "previous" moves to the preceding index and wraps from 0 to n−1 |
| `Home.PrevUndoesNext` | src/pages/Index.tsx:159-164 | both arrows keep the index in [0, n). Each undoes the other |
| `Home.NextTimesRotates` | src/pages/Index.tsx:159-160 | k presses of "next" from index c give (c + k) mod n |
| `Home.NextFullCycle` | src/pages/Index.tsx:159-160 | n presses of "next" return to the starting index |
| `Home.OneActiveDot` | src/pages/Index.tsx:379-387 | exactly one dot is highlighted, the one of the testimonial shown |
| `Home.Step` | src/pages/Index.tsx:155-169 | one event on the page (arrow, dot, typing at line 584, send): a drawn event keeps the index valid, a recorded subscription is never withdrawn, it is recorded only by a send with a non-empty email, and only typing changes the email |
| `Home.RunKeepsIndexInRange` | src/pages/Index.tsx:155-164 | after any sequence of arrow and dot clicks, the carousel index stays in [0, 4) |
| `Home.SendGuard` | src/pages/Index.tsx:166-169 | a send records the subscription iff it was already recorded or the email is non-empty. It leaves the carousel and the email field alone |
| `Home.SubmittedNeverResets` | src/pages/Index.tsx:156-169 | once the subscription is recorded, no sequence of events clears it |
| `Home.NoEmailNoSubscription` | src/pages/Index.tsx:166-169 | while the email field stays empty, no number of sends records a subscription |
| `Home.HomePage.constructor` | src/pages/Index.tsx:155-157 | the page starts on testimonial 0, not subscribed, with an empty email field |
| `Home.HomePage.NextTestimonial` | src/pages/Index.tsx:159-160 | the index advances by one and wraps from 3 to 0. This is `Step` on a "next" click |
| `Home.HomePage.PrevTestimonial` | src/pages/Index.tsx:161-164 | the index goes back by one and wraps from 0 to 3. This is `Step` on a "previous" click |
| `Home.HomePage.GoToTestimonial` | src/pages/Index.tsx:382 | clicking dot i shows exactly testimonial i |
| `Home.HomePage.SetEmail` | src/pages/Index.tsx:584 | typing replaces the email field and nothing else |
| `Home.HomePage.HandleNewsletter` | src/pages/Index.tsx:166-169 | `submitted` becomes true iff it was true or the email is non-empty. It never becomes false |
| `Workshops.Keeps` | src/pages/Workshops.tsx:178-182 | the filter's test of one entry: "all" keeps every entry, an entry offered both ways passes every filter, and an entry with no format passes only "all" |
| `Workshops.Filtered` | src/pages/Workshops.tsx:178-182 | the listed workshops are never more than the catalogue |
| `Workshops.FilteredMembers` | src/pages/Workshops.tsx:178-182 | a workshop is listed iff it is in the catalogue and the filter keeps it. "in-person" keeps entries whose format includes "In-Person", "virtual" keeps entries whose format includes "Virtual", and "all" keeps every entry |
| `Workshops.FilteredIsSubsequence` | src/pages/Workshops.tsx:178 | the listed workshops are the catalogue with entries dropped, in catalogue order |
| `Workshops.FilteredAppend` | src/pages/Workshops.tsx:178 | filtering a concatenation gives the concatenation of the filtered parts |
| `Workshops.FilteredAll` | src/pages/Workshops.tsx:179 | the "all" filter lists the whole catalogue in its own order |
| `Workshops.FilteredIdempotent` | src/pages/Workshops.tsx:178-182 | filtering the listed workshops again with the same filter changes nothing |
| `Workshops.CatalogFormats` | src/pages/Workshops.tsx:29-150 | which of the six entries are held in person and which virtually |
| `Workshops.CatalogInPerson` | src/pages/Workshops.tsx:178-180 | the "in-person" filter lists four workshops: film scoring, songwriting, performance and recording |
| `Workshops.CatalogVirtual` | src/pages/Workshops.tsx:178-181 | the "virtual" filter lists four workshops: film scoring, string arranging, music business and recording |
| `Workshops.CatalogCovered` | src/pages/Workshops.tsx:29-150 | every catalogue entry is listed by "in-person" or by "virtual" |
| `Workshops.OneActiveButton` | src/pages/Workshops.tsx:251-265 | exactly one filter button is drawn active, the one whose value equals the current filter |
| `SiteHeader.Highlighted` | src/components/Header.tsx:57-89 | a link is highlighted only when the path equals its target exactly, and an entry with a `children` field is drawn as a drop-down and never highlighted |
| `SiteHeader.AtMostOneHighlighted` | src/components/Header.tsx:84-89 | when targets are distinct, at most one entry is highlighted. A plain link is highlighted iff the path equals its target exactly |
| `SiteHeader.NavLinksDistinct` | src/components/Header.tsx:7-22 | the six navigation entries have pairwise different targets |
| `SiteHeader.SiteHighlighting` | src/components/Header.tsx:56-95 | on "/about" only the About link is highlighted. On "/programs" and "/programs/workshops" no entry is |
| `SiteHeader.Step` | src/components/Header.tsx:30-39 | one event on the header: only a scroll changes `scrolled`, only navigation changes the path, each menu is opened only by its own button (lines 61 and 100), and a move to another path closes both |
| `SiteHeader.ScrollThresholdStrict` | src/components/Header.tsx:31 | the bar counts as scrolled iff `scrollY > 40`, so exactly 40 is not scrolled. Nothing else changes |
| `SiteHeader.TogglesInvolutive` | src/components/Header.tsx:59-103 | the menu button flips the overlay and two presses restore the state. The Programs button flips only `programsOpen` and leaves `mobileOpen` alone |
| `SiteHeader.NavigationClosesMenus` | src/components/Header.tsx:36-39 | moving to a different path closes both menus, whatever they were. It keeps `scrolled` |
| `SiteHeader.OverlayParity` | src/components/Header.tsx:98-108 | without navigation, the overlay is shown after a run iff it was shown before XOR the menu button was pressed an odd number of times |
| `SiteHeader.ClosedUntilPressed` | src/components/Header.tsx:36-39 | after a move to a new page, the overlay stays closed until the menu button is pressed again |
| `SiteHeader.StaysClosed` | src/components/Header.tsx:100-108 | a closed overlay stays closed through any events other than a menu-button press |
| `SiteHeader.Header.constructor` | src/components/Header.tsx:25-27 | the header starts transparent with both menus closed |
| `SiteHeader.Header.OnScroll` | src/components/Header.tsx:30-31 | `scrolled` becomes `scrollY > 40` and nothing else changes |
| `SiteHeader.Header.ToggleMobile` | src/components/Header.tsx:100 | `mobileOpen` flips and nothing else changes |
| `SiteHeader.Header.TogglePrograms` | src/components/Header.tsx:61 | `programsOpen` flips, `mobileOpen` is unchanged |
| `SiteHeader.Header.RouteChanged` | src/components/Header.tsx:36-39 | a new path closes both menus and keeps `scrolled`. Repeating the current path changes nothing |

Notes on behaviour the model follows from the code:

- A zero target still starts the interval timer. Its first tick shows 0 and
  clears the timer (src/pages/Index.tsx:133-137). A negative target also stops
  on its first tick and shows the target.
- The route-change effect depends on the path (src/components/Header.tsx:36-39).
  It runs only when the path actually changes, so navigating to the current
  page leaves an open menu open.
- `programsOpen` is toggled, but nothing in the header reads it. The desktop
  drop-down opens on hover, through CSS.

## Left out

- Floating point: the counter's accumulator is an exact `real`. IEEE rounding
  and the extra 41st tick it could cause are not modelled, so `ShownAt`,
  `ShownBeforeEnd` and `EightSequence` hold in exact arithmetic only. With
  doubles the shipped target-8 counter differs: 0.2 added ten times is
  1.9999999999999998, so tick 10 shows 1 where `ShownAt(8, 10)` is 2. The
  other shipped targets (15, 50, 200) have increments that are exact in
  binary and are not affected.
- Timing: the 1500 ms duration, the 37.5 ms interval and the order of
  callbacks in the event loop are not modelled. Each callback is one method
  call.
- Visibility: the 50% visibility threshold belongs to the browser's
  observer. `Observe` takes its verdict as a boolean.
- Counter effect re-runs: the animation effect also re-runs when `target`
  changes. Every counter on the site gets a constant from the stats table, so
  `target` is a constant of each `Counter`. The effect's run after the latch
  is set is folded into the `Observe` call that sets it.
- Rendered text: the counter's text is not modelled. Its `toLocaleString()`
  grouping depends on the locale, and the suffix is appended verbatim after
  it.
- Browser form checks: the newsletter field is `type="email"` and
  `required`, so the browser validates it before submit. That check is not
  modelled; only the handler's own non-empty guard is.
- Hidden form: once subscribed, the form is no longer rendered, so later
  typing or sending cannot happen. The model allows those events, and they
  leave the flag true.
- Animation and routing: framer-motion variants and timings, the routing
  table and the static content pages are presentation only.
- Workshop filter clicks: a click on a filter button replaces the filter
  value (src/pages/Workshops.tsx:260). Each `Format` value stands for that
  state, so the replacement has no member of its own.
- Workshop data: only each entry's id, title and format list are kept. The
  other fields are only displayed.
- Header sub-links: the links under Programs only navigate, and they are
  never highlighted. They appear in the data, and their navigation is
  `RouteChanged`.
- `Workshops.Filtered`: its own contract bounds only the length. What it
  lists is stated by `FilteredMembers`, `FilteredIsSubsequence` and
  `FilteredAppend`.
