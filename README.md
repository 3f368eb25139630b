# Tunaginoba content catalog — a Dafny model

Tunaginoba is a small regional website that lists content items
(businesses, events, people) by area and category. Its only logic is a
selection layer repeated across several pages and components:

- the Fisher–Yates `shuffleArray`, copied into the landing page and the category carousel;
- the category carousel's related-items pipeline: keep the items of the current category
  (compared after `toLowerCase`), drop the current item by slug, shuffle;
- the carousel's slide index with wrap-around arrows and a reset when the selection changes;
- the content pages `AItiikimiraijyuku` and `Tunagite`: load the catalog or fall back to `[]`,
  take the first record with the page's slug, render an error view when there is none;
- the header's drop-down menus: one open menu at most, toggled by its button, closed by links
  and by clicks outside.

Modules, one per source file or shared concept:

| file | module | models |
|---|---|---|
| `wrappers.dfy` | `Wrappers` | `Option`, for `T \| null` / `undefined` |
| `content_store.dfy` | `ContentStore` | the record `ContentInfo` and `getData` |
| `shuffle.dfy` | `Shuffle` | `shuffleArray`; the spec function `FisherYates` on sequences |
| `text.dfy` | `Text` | ASCII `toLowerCase` and case-insensitive comparison |
| `category_carousel.dfy` | `CategoryCarousel` | selection pipeline, index functions, `Render`, class `Carousel` |
| `landing_page.dfy` | `LandingPage` | shuffle the whole catalog and lay sections out alternately |
| `slug_page.dfy` | `SlugPage` | `find` by slug, fallback view, props of both carousels |
| `aitiikimiraijyuku_page.dfy`, `tunagite_page.dfy` | `AItiikimiraijyukuPage`, `TunagitePage` | the two pages with their slug constants |
| `header.dfy` | `HeaderMenu` | menu tables, toggle/visibility, class `Header` |

How the environment is abstracted:

- `Math.random()` is an oracle. It is a sequence `draws` of reals in `[0, 1)`, one per loop
  iteration. Iteration `i` of an `n`-element shuffle uses `draws[n-1-i]`. Its swap partner is
  `Floor(draw * (i+1))`, and `SwapIndex` proves it lies in `[0, i]`.
- The file read and the JSON parse in `getData` are one input, `LoadResult`. It is either the
  parsed records, a failed read, or text that is not valid JSON.
- The landing page calls its records' fields `location`/`category`; the other pages call them
  `Area`/`Category`. The model has one record, `ContentInfo`, with fields `area` and `category`.
- A "missing" category (a falsy `currentContentCategory`) is the empty string. A missing item
  list is `None`.

Shuffling is imperative. `Shuffle.ShuffleCopy` copies into a fresh `array` and swaps in a
`while` loop. The loop invariant ties the array to `FisherYatesFrom`, and the method's result
equals `FisherYates` of the input. The permutation property is proved once, about
`FisherYates`. The selection pipeline and the pages are functions. The carousel and the header
are classes whose methods follow the source's state updates.

## Model

| member | source | states |
|---|---|---|
| `Shuffle.SwapIndex` | src/app/page.tsx:40 | for every draw in [0, 1), `Math.floor(draw * (i + 1))` lies in [0, i], so no swap is out of bounds |
| `Shuffle.SwapPermutes` | src/app/page.tsx:41 | one destructuring swap keeps the multiset of elements |
| `Shuffle.FisherYatesFromPermutes` | src/app/page.tsx:39-42 | running the remaining iterations from any `i` keeps the length and the multiset |
| `Shuffle.FisherYatesPermutes` | src/app/page.tsx:36-44 | the shuffle returns a permutation of its input: same length, same multiset |
| `Shuffle.FisherYatesShort` | src/app/page.tsx:39 | an input of length 0 or 1 comes back unchanged, because the loop body never runs |
| `Shuffle.FisherYatesSameElements` | src/app/page.tsx:36-44 | an element is in the result exactly when it is in the input |
| `Shuffle.ShuffleCopy` | src/app/page.tsx:36-44 | returns a fresh array equal to `FisherYates` of the input; it is a permutation of the input; the caller's array is unchanged |
| `ContentStore.GetData` | src/app/page.tsx:18-33 | the parsed records on success, `[]` on a read or parse failure; it never fails (same code at src/app/AItiikimiraijyuku/page.tsx:18-28 and src/app/Tunagite/page.tsx:10-20) |
| `Text.ToLower` | src/app/components/categorycarousel.tsx:47 | keeps the length; the result has no upper-case ASCII letter; each upper-case letter becomes its lower-case letter and every other character is kept |
| `Text.ToLowerIdempotent` | src/app/components/categorycarousel.tsx:47 | lower-casing twice equals lower-casing once |
| `Text.SameIgnoringCaseProperties` | src/app/components/categorycarousel.tsx:47 | case-insensitive equality is reflexive, symmetric and transitive, keeps lengths, and equates a string with its lower-cased form |
| `CategoryCarousel.FilterByCategory` | src/app/components/categorycarousel.tsx:46-48 | keeps every item whose category equals the given one after lower-casing, with its multiplicity, and no other item |
| `CategoryCarousel.ExcludeSlug` | src/app/components/categorycarousel.tsx:50-52 | drops every item with the given slug and keeps every other item with its multiplicity |
| `CategoryCarousel.ShuffleArray` | src/app/components/categorycarousel.tsx:19-27 | a missing array gives a new empty array; otherwise a fresh array equal to `FisherYates` of the input, with the input unchanged |
| `CategoryCarousel.CarouselDisplayItems` | src/app/components/categorycarousel.tsx:41-55 | empty when the items or the category are missing; otherwise each item occurs as often as in the catalog if it has the category (up to case) and another slug, and not at all otherwise |
| `CategoryCarousel.SelectDisplayItems` | src/app/components/categorycarousel.tsx:41-55 | running the two filters and the array shuffle computes exactly `CarouselDisplayItems` |
| `CategoryCarousel.DisplayItemsMembership` | src/app/components/categorycarousel.tsx:46-54 | an item is shown if and only if it is in the catalog, has the current category up to case, and has another slug |
| `CategoryCarousel.DisplayItemsExcludeCurrent` | src/app/components/categorycarousel.tsx:50-54 | no shown item has the current slug, and every shown item has the current category up to case |
| `CategoryCarousel.ExcludeAbsentSlug` | src/app/components/categorycarousel.tsx:50-52 | when no item has the slug, the exclusion returns its input unchanged |
| `CategoryCarousel.FilterByCategoryIgnoresCase` | src/app/components/categorycarousel.tsx:46-48 | two categories that agree after lower-casing select the same items in the same order |
| `CategoryCarousel.FilterByCategoryIdempotent` | src/app/components/categorycarousel.tsx:46-48 | filtering the filtered list by the same category changes nothing |
| `CategoryCarousel.DisplayItemsIgnoreCase` | src/app/components/categorycarousel.tsx:42-54 | the whole selection is the same for "Event" and "event" (any two categories equal after lower-casing) |
| `CategoryCarousel.NextIndex` | src/app/components/categorycarousel.tsx:81-85 | the next index stays in [0, total) and is `(index + 1) mod total`, so the last slide wraps to 0 |
| `CategoryCarousel.PreviousIndex` | src/app/components/categorycarousel.tsx:75-79 | the previous index stays in [0, total) and is `(index - 1) mod total`, so slide 0 wraps to the last |
| `CategoryCarousel.NextPreviousInverse` | src/app/components/categorycarousel.tsx:75-85 | the two arrows undo each other in either order |
| `CategoryCarousel.NextTimes` | src/app/components/categorycarousel.tsx:81-85 | any number of right-arrow presses keeps the index in range |
| `CategoryCarousel.NextTimesRotates` | src/app/components/categorycarousel.tsx:81-85 | up to a full round, `k` presses advance by `k` and wrap once; `total` presses return to the start |
| `CategoryCarousel.Render` | src/app/components/categorycarousel.tsx:64-97 | the "no other content" view exactly when there are no items; the "loading" view exactly when the index is past the end, both naming the current category; otherwise all items with the slide at the index, arrows exactly when there is more than one item |
| `CategoryCarousel.Carousel.constructor` | src/app/components/categorycarousel.tsx:41-57 | the display items are `CarouselDisplayItems` of the props and the index starts at 0 |
| `CategoryCarousel.Carousel.UpdateProps` | src/app/components/categorycarousel.tsx:59-62 | new props recompute the display items and reset the index to 0 |
| `CategoryCarousel.Carousel.GoToNext` | src/app/components/categorycarousel.tsx:81-85 | the index becomes `NextIndex` of the old one and stays valid |
| `CategoryCarousel.Carousel.GoToPrevious` | src/app/components/categorycarousel.tsx:75-79 | the index becomes `PreviousIndex` of the old one and stays valid |
| `CategoryCarousel.Carousel.View` | src/app/components/categorycarousel.tsx:87-97 | in a valid state the loading view never appears, and with items the slide shown is the one at the current index |
| `LandingPage.Layout` | src/app/page.tsx:55-67 | one section per post, in order; section `k` holds post `k`, is reversed exactly when `k % 2 == 1` and has priority exactly when `k < 2` |
| `LandingPage.LayoutAlternates` | src/app/page.tsx:57-82 | the first section is not reversed, neighbours differ in direction, and only the first two images have priority |
| `LandingPage.LandingPage` | src/app/page.tsx:47-55 | the shown posts are the shuffle of the loaded data: a permutation with nothing added or dropped; a failed load shows no section |
| `SlugPage.FindIndex` | src/app/AItiikimiraijyuku/page.tsx:48 | no index exactly when no record has the slug; otherwise the index of a record with the slug, and no earlier record has it |
| `SlugPage.Find` | src/app/AItiikimiraijyuku/page.tsx:48 | "not found" exactly when no record has the slug; otherwise a record of the data with that slug |
| `SlugPage.FindIsFirst` | src/app/AItiikimiraijyuku/page.tsx:48 | the record found is the first one with the slug |
| `SlugPage.RenderPage` | src/app/AItiikimiraijyuku/page.tsx:45-62 | the fallback view exactly when no loaded record has the page's slug, also after a failed load; otherwise the first match, with the whole catalog and its slug passed to both carousels, its category to one and its area to the other (lines 180-192) |
| `SlugPage.CategoryCarouselOmitsPage` | src/app/AItiikimiraijyuku/page.tsx:180-184 | the category carousel of a content page never shows a record with the page's own slug |
| `AItiikimiraijyukuPage.Page` | src/app/AItiikimiraijyuku/page.tsx:43-62 | with slug "AItiikimiraijyuku": the fallback exactly when no record has it (always after a failed load); otherwise the first loaded record with that slug |
| `TunagitePage.Page` | src/app/Tunagite/page.tsx:31-49 | with slug "Tunagite": the fallback exactly when no record has it (always after a failed load); otherwise the first loaded record with that slug |
| `HeaderMenu.MenuTables` | src/app/components/header.tsx:14-26 | three area entries linking under `/area/`, four category entries each linking to `/category/` plus its name |
| `HeaderMenu.ToggleVisibility` | src/app/components/header.tsx:48-59 | after toggling `n`, menu `m` is visible exactly when `m` is `n` and `n` was not visible before |
| `HeaderMenu.ToggleTwiceFromClosed` | src/app/components/header.tsx:48-50 | toggling the same menu twice from the closed state closes it again |
| `HeaderMenu.AtMostOneVisible` | src/app/components/header.tsx:29 | two different menus are never visible at once |
| `HeaderMenu.Header.constructor` | src/app/components/header.tsx:29 | no menu is open at first |
| `HeaderMenu.Header.ToggleDropdown` | src/app/components/header.tsx:48-50 | closes the menu if it was the open one, otherwise opens exactly that menu; afterwards menu `m` is open exactly when `m` is the toggled one and it was not open before |
| `HeaderMenu.Header.CloseDropdown` | src/app/components/header.tsx:75 | a click on a menu entry closes every menu (the Home and About links, lines 107 and 148, do the same) |
| `HeaderMenu.Header.MouseDown` | src/app/components/header.tsx:32-46 | a press outside the navigation items closes every menu; a press inside leaves the state alone |

## Left out

- File reading, JSON parsing, `process.cwd` and the error log in `getData` are left out. What they produce is the input `LoadResult`.
- `Math.random` and the uniform distribution of the shuffle are left out. The model proves the permutation and bounds properties for every sequence of draws. Draws are reals, not IEEE doubles.
- `toLowerCase` is modelled on ASCII letters only. Unicode case mapping is outside the model.
- React and Next.js plumbing is left out: `useMemo`/`useEffect` scheduling, listener registration and clean-up, JSX, `Image`, `Link` and CSS classes. On the landing page this includes the text alignment, which never changes the section's direction.
- CategoryCarousel.Carousel.UpdateProps resets the index in the same step that recomputes the items. React renders once in between, before the reset effect runs, and the "loading" case of `Render` stands for that render.
- HeaderMenu.Header.MouseDown assumes the navigation element is mounted. Before mounting, the source's check on `navItemsRef.current` ignores the press.
- `AreaCarousel` is not part of this model, because its source is not available. Only the props the pages pass to it are modelled.
- The area page (src/app/area/[Area]/page.tsx), the about page with its contact-form stub, the layouts and `next.config.ts` are not part of this model.
- ContentStore.GetData assumes a well-formed document is an array of complete records; any other JSON value (`null`, `{}`) is returned unchanged by the source, because the `as ContentInfo[]` cast checks nothing, and makes the pages throw instead of taking the fallback.
- A record whose `Category` is missing would make `toLowerCase` throw. The model's records always have every field.
