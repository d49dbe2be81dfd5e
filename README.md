# Wedding invitation: view state and audio gate

A model of the event-driven state under the single-page wedding invitation.
Two modules follow the two source files:

- `Page` (`page.dfy`, for `app/page.tsx`): the `Home` component as a class
  whose fields are its React state — the details, gallery and map overlay
  flags, the gallery cursor `currentPhotoIndex` into the five compiled-in
  photos, the list of click sparkles, and the last pointer position — plus
  the pending sparkle-removal timeouts. Each event handler is a method. The
  updaters the handlers pass to React (the index ternaries, `[...prev, s]`,
  `prev.filter(...)`) are pure functions with lemmas about them.
- `Music` (`music.dfy`, for `app/components/MusicPlayer.tsx`): the
  `MusicPlayer` component as a class holding `isPlaying`, `isLoaded`, whether
  the first-click listener is on the document (`registered`), whether an audio
  element exists (`hasAudio`), its volume, whether the first `play()` is still
  unsettled, and the list of calls made on the element.

Time, `Date.now()`, `setTimeout`, the audio element and promises are not
modelled as such. A click's timestamp is a parameter of `Click`. A fired
timeout is the event `Expire(id)`, allowed only for a timeout that was
scheduled. The settling of the first `play()` is the event
`PlayResolved(ok)`. Ids are not assumed unique: two clicks in the same
millisecond share an id, and one expiry then removes both sparkles.

Points where the code behaves differently from what a reader might expect, kept as written:

- Sparkle ids are click timestamps, not a counter, so they may collide.
- `togglePlay` flips `isPlaying` at once, even when the `play()` it issues
  later fails; it does not stay paused.
- The first-click listener removes itself. But its effect depends on
  `isLoaded`, so activation re-runs the effect and registers a fresh
  listener. That listener sees `isLoaded` true and removes itself on the
  next click without doing anything. In the model, after a document click
  `registered` is true exactly when that click activated the gate.
- The three overlay flags are independent: no handler clears or checks
  another overlay's flag.

## Model

| member | source | states |
|---|---|---|
| `Page.NextIndex` | app/page.tsx:122-127 | on a valid index the result is again a valid index and equals (i + 1) mod n: the last photo wraps to the first |
| `Page.PrevIndex` | app/page.tsx:129-134 | on a valid index the result is again a valid index and equals (i - 1 + n) mod n: the first photo wraps to the last |
| `Page.PrevNextInverse` | app/page.tsx:122-134 | previous after next, and next after previous, return the original index |
| `Page.NextStepsInRange` | app/page.tsx:122-127 | any number of "next" presses keeps the cursor in [0, n-1] |
| `Page.NextStepsFullCycle` | app/page.tsx:122-127 | n presses of "next" (n = 5 for the gallery) from any valid index return to it |
| `Page.AddSparkle` | app/page.tsx:112 | the new list is the old one with exactly one sparkle added at the end |
| `Page.RemoveById` | app/page.tsx:115-118 | a sparkle survives exactly when it was present and has another id; nothing is added; removing an absent id changes nothing |
| `Page.RemoveByIdAppend` | app/page.tsx:116-118 | removal distributes over concatenation, so survivors keep their order |
| `Page.RemoveByIdKeepsOthers` | app/page.tsx:116-118 | every sparkle with another id keeps its number of occurrences |
| `Page.RemoveByIdIdempotent` | app/page.tsx:115-118 | expiring an id a second time changes nothing |
| `Page.RemoveByIdCommutes` | app/page.tsx:115-118 | expiries of two ids give the same list in either order |
| `Page.ExpireUndoesClick` | app/page.tsx:106-119 | the timeout a click schedules removes that click's sparkle and leaves the earlier list as the filter leaves it |
| `Page.PendingWhileVisible` | app/page.tsx:106-119 | while any sparkle is on screen a removal timeout is still pending |
| `Page.Home.constructor` | app/page.tsx:87-94 | all overlays closed, cursor 0, no sparkles, pointer at (0, 0), no pending timeouts |
| `Page.Home.OpenInvitation` | app/page.tsx:321 | sets `isOpen` and changes no other field |
| `Page.Home.CloseInvitation` | app/page.tsx:469 | clears `isOpen` and changes no other field |
| `Page.Home.OpenGallery` | app/page.tsx:382 | sets `isGalleryOpen` and changes no other field |
| `Page.Home.CloseGallery` | app/page.tsx:491-508 | clears `isGalleryOpen` (backdrop or close icon) and changes no other field |
| `Page.Home.OpenMap` | app/page.tsx:452 | sets `isMapOpen` and changes no other field |
| `Page.Home.CloseMap` | app/page.tsx:598-615 | clears `isMapOpen` (backdrop, close icon, or the "Close" button at line 654) and changes no other field |
| `Page.Home.NextPhoto` | app/page.tsx:122-127 | the cursor becomes `NextIndex` of the old one; overlays and everything else unchanged |
| `Page.Home.PrevPhoto` | app/page.tsx:129-134 | the cursor becomes `PrevIndex` of the old one; overlays and everything else unchanged |
| `Page.Home.SelectPhoto` | app/page.tsx:558-571 | the cursor becomes exactly the thumbnail's index, which is in range, and the gallery then shows that thumbnail's photo; nothing else changes |
| `Page.Home.MouseMove` | app/page.tsx:96-103 | the pointer position becomes the event's coordinates; nothing else changes |
| `Page.Home.Click` | app/page.tsx:106-119 | one sparkle with the click's coordinates and id is appended and one removal timeout for that id is scheduled |
| `Page.Home.Expire` | app/page.tsx:115-118 | every sparkle with that id is removed, the rest kept in order, and that timeout is consumed |
| `Page.Home.PhotoCounter` | app/page.tsx:553 | the displayed counter is `currentPhotoIndex + 1`, in [1, 5], over the gallery size 5 |
| `Page.Home.CurrentPhoto` | app/page.tsx:521-523 | the shown photo is a gallery photo whose compiled-in id equals the counter's number `currentPhotoIndex + 1`; the ids are 1 to 5, so this names the photo at the cursor |
| `Page.OpenThenClose` | app/page.test.tsx:64-81 | Open Invitation then Close leaves the details closed and the other overlays as they were |
| `Page.GalleryInsideDetails` | app/page.tsx:382-508 | opening details, then the gallery, then closing the gallery leaves details open |
| `Page.FullGalleryTour` | app/page.tsx:546 | five clicks on the right arrow return to the starting photo |
| `Music.MusicSource` | app/components/MusicPlayer.tsx:16-17 | a non-empty `audioSrc` is used as given; an absent or empty one gives the default URL; the result is never empty |
| `Music.AriaLabel` | app/components/MusicPlayer.tsx:67-69 | "Mute background music" exactly when playing, "Play background music" exactly when not |
| `Music.MusicPlayer.constructor` | app/components/MusicPlayer.tsx:10-38 | not playing, not loaded, listener registered, default volume, no calls on the element |
| `Music.MusicPlayer.DocumentClick` | app/components/MusicPlayer.tsx:20-42 | activates exactly when the listener is on, the gate is closed and an element exists; activation sets `isLoaded`, volume 0.3 and issues one `play()`; `isLoaded` never goes back; the listener removes itself in every case and is on again only after an activation re-ran the effect |
| `Music.MusicPlayer.PlayResolved` | app/components/MusicPlayer.tsx:25-33 | success sets `isPlaying`, failure clears it and logs one error; the gate, listener and volume are unchanged |
| `Music.MusicPlayer.TogglePlay` | app/components/MusicPlayer.tsx:44-53 | without an element nothing changes; otherwise one `pause()` or `play()` is issued and `isPlaying` flips; the gate is unchanged |
| `Music.MusicPlayer.Unmount` | app/components/MusicPlayer.tsx:39-41 | the effect cleanup leaves no listener registered |
| `Music.ToggleTwice` | app/components/MusicPlayer.tsx:44-53 | toggling twice restores `isPlaying` |
| `Music.FirstClickOnly` | app/components/MusicPlayer.tsx:21-35 | from mount, two clicks give exactly one volume write and one first `play()`, then no listener |
| `Music.NoAudioNeverActivates` | app/components/MusicPlayer.tsx:21-35 | with no audio element the listener removes itself without activating, and later clicks do nothing |

## Left out

- Animation variants, springs, keyframes, `AnimatePresence` and all markup: presentation only.
- The random placement of hearts and glitter and the parallax division `mousePosition / 30`: random or floating point, and decorative.
- Event propagation (`stopPropagation`): each click is modelled as the one handler it reaches. In the page, a click on a control that does not stop propagation (Open Invitation at app/page.tsx:321, the gallery preview at 382, View on map at 452, Close at 469, the gallery backdrop at 491, the map backdrop at 598) also reaches `handleClick`; the caller composes `Click` with that control's method.
- Which controls are on screen: the source renders the gallery preview and "View on map" only while `isOpen` (app/page.tsx:331), the arrows, thumbnails and gallery closes only while `isGalleryOpen` (485), and the map closes only while `isMapOpen` (592). The model lets every handler run in any state, a superset of the reachable event sequences; every contract holds in each of them.
- `window.open`, the map iframe, `next/image` loading, the `Button` component: foreign UI calls.
- Pointer coordinates are integers; browsers may report fractional `clientX`/`clientY`.
- The real clock and timers: the 1000 ms delay is not modelled, only that each click schedules one removal and that it may fire later in any order.
- The settling of the `play()` issued by `togglePlay`: it only logs on failure (`catch(console.error)`) and changes no state, so it is not an event of the model.
- The audio element itself (loading, looping, actual output): only the calls made on it are recorded.
- Text, icon and CSS class checks in app/page.test.tsx: rendering checks with no state logic.
