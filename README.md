# Portfolio site interaction logic, in Dafny

A model of the three pieces of discrete state in a single-page portfolio site written in React.

- **Typewriter title cycler** (`src/components/Hero.tsx`), module `Hero`. Three state cells, `loopIndex`, `displayText` and `isDeleting`, cycle through a list of titles. Each run of the effect picks one of three branches and schedules one timer:
  - pause at the full title, then start deleting;
  - pause at the empty text, then move to the next title, wrapping;
  - type or delete one character with `fullText.slice(0, length ± 1)`.

  The cleanup clears the timer. The titles are a parameter, any non-empty list. The pure part is `Schedule` (the branch and the timer it sets up), `Apply` (what the callback does) and `Step` (the two combined). The class `TitleCycler` holds the three cells and the single pending-timer handle.
- **Reveal-on-scroll wrapper** (`src/components/Reveal.tsx`), module `Reveal`. A one-shot `isVisible` flag is set by the first intersecting entry an IntersectionObserver delivers, and the observer is disconnected at that moment. The observer is an input stream of `isIntersecting` values plus a `connected` flag. The class list and the `transitionDelay` style are pure functions of the flag and the props. Module `Decimal` models how `${delay}` writes a whole number of magnitude below 10^21 (larger ones are written in exponent form and are not modelled), and gives the parser that reads it back.
- **Report overlay** (`src/components/CoopReports.tsx`, lines 56-103 and 138-156), module `CoopReports`.
  - Opening a report saves `window.scrollY` and scrolls to the top.
  - Closing it scrolls back to the saved offset.
  - An effect keyed on the open report stashes the inline `overflow` of `body` and `html` in two refs and hides both while a report is open. It restores both from the refs otherwise, and in its cleanup.

  The browser is the record `Page` (`scrollY`, `bodyOverflow`, `htmlOverflow`). The pure functions `AfterOpen` and `AfterClose` give the state after each handler. The class `ReportsSection` makes the same updates in place.

React's order of events is modelled explicitly. A handler sets state and scrolls at once. The re-render that follows runs the previous effect's cleanup and then the effect again, but only when a dependency changed. A timer firing is the event `TitleCycler.Fire(handle)`, and an observer delivery is `RevealWrapper.Intersect(isIntersecting)`.

Two consequences of that order are proved rather than assumed:

- Every tick of the typewriter changes one of the effect's dependencies (`Hero.Step` ensures `r != c`). The effect therefore always re-runs, and the cycler never stalls.
- In the report section, the cleanup writes the refs back into the page just before the next effect run stashes the page's values. So from mount on, the refs only ever hold `""`. The mount-time effect also clears any inline overflow the page had before mount (`CoopReports.Mount`, `CoopReports.OverflowAfterMount`). The comment at `src/components/CoopReports.tsx:62` says the refs remember that overflow; the code does not, and the model follows the code.

## Model

| member | source | states |
|---|---|---|
| `Hero.Slice` | src/components/Hero.tsx:28-29 | `s.slice(0, end)` is always a prefix of `s`; it has exactly `end` characters when `end` is between 0 and the length of `s`, and is the whole of `s` when `end` is at least that length |
| `Hero.Initial` | src/components/Hero.tsx:6-8 | the cycler mounts at index 0 with the empty text, typing |
| `Hero.Schedule` | src/components/Hero.tsx:11-31 | each effect run picks exactly one of three branches: start deleting (after 1200 ms) exactly when typing and the full title is shown; next title (after 250 ms) exactly when deleting and the text is empty; otherwise set the text, after 70 ms when deleting and 110 ms when typing, to a prefix of the current title |
| `Hero.Apply` | src/components/Hero.tsx:19-29 | a timer callback keeps the index in range; the start-deleting callback only sets `isDeleting`; the next-title callback advances the index modulo the number of titles and resumes typing, keeping the text; the set-text callback only replaces the text |
| `Hero.Step` | src/components/Hero.tsx:10-34 | one tick keeps the index in `[0, n)` and the text a prefix of the current title, and always changes the state, so the effect runs again |
| `Hero.Rendered` | src/components/Hero.tsx:45 | the title line is never empty: it shows the text, or a no-break space when the text is empty |
| `Hero.TypingTick` | src/components/Hero.tsx:10-30 | a typing tick (not deleting, text not the full title) comes after 110 ms and lengthens the text by exactly one character, staying a prefix of the title; index and direction unchanged |
| `Hero.DeletingTick` | src/components/Hero.tsx:10-30 | a deleting tick (deleting, text not empty) comes after 70 ms and shortens the text by exactly one character, so the new length is never negative; index and direction unchanged |
| `Hero.FullPause` | src/components/Hero.tsx:13-19 | with the full title shown while typing, the only change is `isDeleting := true`, after 1200 ms |
| `Hero.EmptyPause` | src/components/Hero.tsx:20-25 | with the empty text while deleting, the index advances modulo the number of titles and typing resumes, after 250 ms; the text stays empty |
| `Hero.IndexMovesOnlyWhenEmpty` | src/components/Hero.tsx:20-29 | the index changes only on the step from the empty text while deleting, and the text is empty on both sides of that step |
| `Hero.Run` | src/components/Hero.tsx:10-34 | any number of ticks keeps the index in range and the text a prefix of the current title |
| `Hero.AlwaysInvariant` | src/components/Hero.tsx:6-34 | every state reachable from mount (`0`, `""`, typing) satisfies the invariant |
| `Hero.TypingPhase` | src/components/Hero.tsx:17-30 | typing from a prefix of length `j` reaches the full title in (length of the title − `j`) ticks, taking 110 ms each |
| `Hero.DeletingPhase` | src/components/Hero.tsx:20-30 | deleting from a prefix of length `j` reaches the empty text in `j` ticks, taking 70 ms each |
| `Hero.FullCycle` | src/components/Hero.tsx:17-31 | from `("", typing, i)`, 2·L + 2 ticks, where L is the title's length, lead to `("", typing, (i + 1) mod n)`; they take 180·L + 1450 ms in total |
| `Hero.TitleCycler.constructor` | src/components/Hero.tsx:5-15 | mounting starts at index 0 with the empty text while typing, and schedules exactly one timer for that state |
| `Hero.TitleCycler.RunEffect` | src/components/Hero.tsx:10-31 | an effect run schedules exactly one timer, with a fresh handle and the delay and callback of the branch for the current state |
| `Hero.TitleCycler.Fire` | src/components/Hero.tsx:15-34 | only the pending timer acts, and it moves the state by exactly one `Step`; a cleared, stale handle changes nothing; afterwards exactly one new timer is pending |
| `Hero.TitleCycler.Unmount` | src/components/Hero.tsx:33 | the cleanup clears the pending timer, so no callback fires after unmount |
| `Reveal.Mount` | src/components/Reveal.tsx:15-19 | after the mount effect the block is hidden, and an observer is connected exactly when the element exists |
| `Reveal.OnEntry` | src/components/Reveal.tsx:21-27 | an intersecting entry reveals the block and disconnects the observer; a non-intersecting entry, or any entry after disconnect, changes nothing; a revealed block stays revealed |
| `Reveal.OnEntriesExactly` | src/components/Reveal.tsx:15-36 | after any entries, the block is revealed exactly when it already was, or the observer was connected and some entry intersected; the observer is connected exactly when it was and none did |
| `Reveal.StaysVisible` | src/components/Reveal.tsx:15-36 | once revealed, no later entries hide the block again |
| `Reveal.NoElementNeverReveals` | src/components/Reveal.tsx:17-19 | with a null ref no observer is created, and the block is never revealed |
| `Reveal.ConnectedUntilRevealed` | src/components/Reveal.tsx:17-36 | with an element, the observer is connected exactly while the block is still hidden |
| `Reveal.ClassList` | src/components/Reveal.tsx:41 | the class list starts with `"reveal "`, ends with the caller's classes, and has `reveal-visible` right after that prefix exactly when the block is revealed |
| `Reveal.VisibleClassExactly` | src/components/Reveal.tsx:41 | when the caller's classes do not contain it, `reveal-visible` occurs anywhere in the class list exactly when the block is revealed |
| `Reveal.TransitionDelay` | src/components/Reveal.tsx:42 | the style ends in `ms`; it is `"0ms"` while hidden, and once revealed its number is the shortest decimal text of the caller's delay and reads back as that delay |
| `Reveal.RevealWrapper.constructor` | src/components/Reveal.tsx:9-36 | `className` defaults to `""` and `delay` to 0; the block starts hidden; the observer is connected only if the element exists |
| `Reveal.RevealWrapper.Intersect` | src/components/Reveal.tsx:21-27 | an observer delivery updates the state as `OnEntry`, keeping "connected implies hidden" |
| `Reveal.RevealWrapper.Unmount` | src/components/Reveal.tsx:35 | the cleanup disconnects the observer and keeps the flag |
| `Decimal.ShowNat` | src/components/Reveal.tsx:42 | a whole number is written as a non-empty run of digits with no leading zero |
| `Decimal.Show` | src/components/Reveal.tsx:42 | `${i}` begins with a minus sign exactly when `i` is negative |
| `Decimal.ParseShowNat` | src/components/Reveal.tsx:42 | reading back the digits of `n` gives `n` |
| `Decimal.ParseShow` | src/components/Reveal.tsx:42 | reading back `${i}` gives `i`, for every integer |
| `CoopReports.Key` | src/components/CoopReports.tsx:6 | each id of the union type is one of its five string literals, all non-empty, so `if (!id)` at line 67 rejects only null |
| `CoopReports.IdOfKey` | src/components/CoopReports.tsx:6 | describes the union type's five literals: a string is one of them only when it is the key of the id it denotes |
| `CoopReports.KeyRoundTrip` | src/components/CoopReports.tsx:6 | the five literals of the union type and the five ids correspond one to one |
| `CoopReports.BodyOf` | src/components/CoopReports.tsx:151-155 | each body is selected exactly when the open id's key equals the literal its conditional compares against |
| `CoopReports.Overlay` | src/components/CoopReports.tsx:138-156 | no report body renders without an open report; with one open, exactly its own body renders |
| `CoopReports.BodyOfInjective` | src/components/CoopReports.tsx:151-155 | different ids select different bodies |
| `CoopReports.OrEmpty` | src/components/CoopReports.tsx:94-101 | the fallback to `""` after a stashed ref gives the stashed string itself, since `""` is the only falsy string |
| `CoopReports.AfterRender` | src/components/CoopReports.tsx:84-103 | the effect keyed on `[activeReport]`: nothing happens when the open report is unchanged; when it changed, the previous cleanup then the effect run, which establishes the scroll lock, keeps the refs and leaves state and scroll offset alone |
| `CoopReports.LockEffect` | src/components/CoopReports.tsx:84-97 | with a report open, both overflows are stashed and set to `hidden`; with none, both are set to the stashed values; scroll and state untouched |
| `CoopReports.LockCleanup` | src/components/CoopReports.tsx:99-102 | the cleanup sets both overflows to the stashed values and changes nothing else |
| `CoopReports.Mount` | src/components/CoopReports.tsx:59-96 | on mount no report is open, the refs are empty, and both overflows become `""`, so any inline overflow present before is cleared |
| `CoopReports.AfterOpen` | src/components/CoopReports.tsx:66-75 | `openReport(null)` changes nothing; `openReport(id)` saves the current scroll offset, opens `id` and scrolls to 0 |
| `CoopReports.AfterClose` | src/components/CoopReports.tsx:77-81 | `closeReport` leaves no report open and scrolls to the saved offset |
| `CoopReports.AfterUnmount` | src/components/CoopReports.tsx:98-102 | unmounting sets both overflows to the stashed values |
| `CoopReports.MountLocked` | src/components/CoopReports.tsx:84-96 | the scroll lock holds after mount |
| `CoopReports.OpenKeepsLock` | src/components/CoopReports.tsx:66-103 | opening keeps the scroll lock (both `hidden` while open, the stashed values while closed) and never changes the refs |
| `CoopReports.CloseKeepsLock` | src/components/CoopReports.tsx:77-103 | closing keeps the scroll lock and never changes the refs |
| `CoopReports.OpenCloseRestoresPage` | src/components/CoopReports.tsx:66-103 | opening from the closed state and then closing restores the page exactly: the scroll offset and both overflows as they were at open time |
| `CoopReports.UnmountWhileOpenRestoresOverflow` | src/components/CoopReports.tsx:87-102 | unmounting with a report open restores both overflows to their values at open time |
| `CoopReports.EventsKeepLock` | src/components/CoopReports.tsx:66-103 | any sequence of opens and closes keeps the scroll lock and the refs |
| `CoopReports.OverflowAfterMount` | src/components/CoopReports.tsx:62-103 | after mount and any events, the refs hold `""`; both overflows are `""` with no report open and `hidden` with one open |
| `CoopReports.ReportsSection.constructor` | src/components/CoopReports.tsx:58-96 | mounting gives the state `Mount` describes |
| `CoopReports.ReportsSection.RunLockEffect` | src/components/CoopReports.tsx:84-97 | the effect updates refs and page in place as `LockEffect` |
| `CoopReports.ReportsSection.RunLockCleanup` | src/components/CoopReports.tsx:99-102 | the cleanup updates the page in place as `LockCleanup` |
| `CoopReports.ReportsSection.Rerender` | src/components/CoopReports.tsx:84-103 | the effect's cleanup and body run again only when the open report changed |
| `CoopReports.ReportsSection.OpenReport` | src/components/CoopReports.tsx:66-75 | `openReport` updates the section in place as `AfterOpen` |
| `CoopReports.ReportsSection.CloseReport` | src/components/CoopReports.tsx:77-81 | `closeReport` updates the section in place as `AfterClose` |
| `CoopReports.ReportsSection.Unmount` | src/components/CoopReports.tsx:98-102 | unmounting restores both overflows from the refs, as `AfterUnmount` |

## Left out

- Real time: a timer's delay is recorded with the timer, but the model has no clock. The browser may fire a timer at any later moment; only the order of firings matters here.
- React's render and reconciliation machinery, batching, and the double effect runs of development mode. The model uses only the order described above.
- Strings are sequences of `char`. JavaScript strings are UTF-16, so a title outside the Basic Multilingual Plane would be typed half a character at a time by the source; the model does not capture this.
- `Reveal.TransitionDelay`: `delay` is modelled as an integer. Fractional, `NaN` or infinite numbers, and their decimal text, are not modelled. Integers of magnitude 10^21 or more, which JavaScript writes in exponent form (`"1e+21"`), and integers above 2^53, which a JavaScript number does not hold exactly, are not modelled either.
- IntersectionObserver geometry (the 0.15 threshold) is not modelled. Each callback is reduced to the `isIntersecting` of the first entry of its batch, the only entry the source reads.
- `Reveal.VisibleClassExactly` requires that the caller's own classes do not contain `reveal-visible`. If they do, the class list contains it even while hidden.
- `window.scrollTo` is modelled as setting `scrollY` exactly. Clamping to the scrollable range, and fractional offsets, are not modelled. `Page` has no horizontal offset, so the reset of `scrollX` to 0 by `window.scrollTo(0, y)` at `src/components/CoopReports.tsx:74` and `:80` is not modelled.
- Other writers of the page's scroll offset and overflow styles (the user scrolling, other scripts) are not modelled between events.
- `createPortal`, the markup, the report card data and the report prose (`src/components/CoopReports.tsx:13-54`, `105-135`, `164-1403`) are not modelled. Report ids are a datatype, and report bodies are tags.
- The cursor glow, the scroll-driven orbits, the navigation bar and the static sections (about, experience, projects, contact, footer, the app shell) are not part of this model. They are floating-point animation, browser plumbing or static content.
