# Horizontal gallery: layout and navigation model

This project models the core of a React horizontal carousel component
(`HorizontalGallery`). The component shows a window of fixed-width tiles. The
window is as wide as the container less two fade zones. Left and right arrows
move the window one tile at a time.

All of the component's state goes through one reducer, modelled as a pure function:

- `movePrev` moves the window back one tile, or calls `onReachStart` at the start.
- `moveNext` moves it on one tile, or calls `onReachEnd` at the end.
- `setGalleryWidth` stores a measured container width and recomputes:
  - how many whole tiles fit (`elementsShown`);
  - the space left over (`excessSpace`);
  - the width of the spacer placed between two tiles (`paddingComponentWidth`).

Around the reducer, the component computes:

- its prop defaults: `fadeDistance` 100 and `minPadding` 0;
- the translation of the tile track;
- the opacity of each arrow;
- the rendered sequence of tiles with a spacer before every tile but the first.

The project has two modules:

- `GalleryReducer` (`gallery_reducer.dfy`) holds the state record, the closed
  action type, the reducer as a total function, and lemmas about navigation
  and layout.
- `HorizontalGallery` (`horizontal_gallery.dfy`) holds the props, the actions
  the component dispatches, the derived values, the rendered track as a
  sequence of `Tile` and `Spacer` children, and the `Store` class that stands
  for the component's `useReducer` cell.

Widths are exact `real`s. The position and the tile count are `int`s.
`Math.floor` is `real.Floor`. A boundary callback is returned as a `Notice`
that carries the state it is called with. The caller, not the reducer,
performs the call.

The model follows the code as written, including four quirks:

- `setGalleryWidth` computes the useable width from the width stored by the
  previous dispatch. A new width therefore takes effect one dispatch late
  (`SetGalleryWidthUsesStoredWidth`, `FirstMeasurementIsStale`).
- `elementsShown` is never clamped at 0. A container narrower than the two
  fade zones gives a negative count. That loosens the `moveNext` guard, so the
  position can pass the last tile (`NegativeElementsShownPassesEnd`).
- A width change never re-clamps the position, so a valid window can become
  invalid after a resize (`ResizeDoesNotReclamp`).
- The spacers start 1000 wide. The first measurement still sees the stored
  width 0, so with a non-negative fade distance it gives a non-positive
  useable width and, for a positive pitch, narrows them to 0
  (`InitialTrackTranslation`, `FirstMeasurementIsStale`).

## Model

| member | source | states |
|---|---|---|
| GalleryReducer.ElementsShown | src/index.tsx:65 | the count is the floor of useable width over pitch `w + p`: for a positive pitch `n·(w+p) ≤ useableWidth < (n+1)·(w+p)`, negative exactly when the useable width is negative (no clamping); for a negative pitch the mirrored bracket `(n+1)·(w+p) < useableWidth ≤ n·(w+p)` |
| GalleryReducer.TotalComponentPadding | src/index.tsx:67 | spacer width is 0 with fewer than two tiles; otherwise the `n−1` spacers together take exactly the excess space |
| GalleryReducer.Reducer | src/index.tsx:47-79 | a callback is only ever notified with the unchanged state, which is returned; navigation changes only the position, by at most one; a width change never notifies, never moves the window and stores the payload width |
| GalleryReducer.MovePrevSpec | src/index.tsx:49-55 | above position 0, `movePrev` lowers the position by exactly one, changes nothing else and notifies no one; at 0 the state is returned unchanged and `onReachStart`, if supplied, is notified once with it |
| GalleryReducer.MoveNextSpec | src/index.tsx:56-62 | `moveNext` raises the position by exactly one iff `position < elementCount − elementsShown`, then with no notification; otherwise the state is returned unchanged and `onReachEnd`, if supplied, is notified once with it |
| GalleryReducer.NavigationStepInRange | src/index.tsx:49-62 | one arrow press keeps `0 ≤ position ≤ max(0, elementCount − elementsShown)` and leaves `elementsShown` unchanged |
| GalleryReducer.NavigationStaysInRange | src/index.tsx:49-62 | any sequence of `movePrev`/`moveNext` for a fixed tile count keeps the position in that range |
| GalleryReducer.NeverNegative | src/index.tsx:47-79 | from a state with a non-negative position, any sequence of `movePrev`, `moveNext` and `setGalleryWidth` keeps the position non-negative |
| GalleryReducer.InitialStateInRange | src/index.tsx:7-14 | the initial state (`InitialState`: position 0, all widths 0, spacers 1000) is in range for every tile count |
| GalleryReducer.SetGalleryWidthUsesStoredWidth | src/index.tsx:63-75 | `setGalleryWidth` stores the payload width, computes the useable width from the previously stored width, and leaves the position alone |
| GalleryReducer.SetGalleryWidthSettles | src/index.tsx:64-70 | after two identical width dispatches the useable width is `galleryWidth − 2·fadeDistance`, and a third dispatch returns the same state |
| GalleryReducer.SetGalleryWidthGeometry | src/index.tsx:63-75 | after a width change with a positive pitch, the stored count brackets the useable width, `excessSpace + w·elementsShown = useableWidth`, a negative useable width gives a negative count, and the spacers share the excess space |
| GalleryReducer.SetGalleryWidthFillsUseableWidth | src/index.tsx:65-67 | for any non-zero pitch, with two or more tiles shown, the tiles and the spacers between them fill the useable width exactly |
| GalleryReducer.SettledLayout | src/index.tsx:63-75 | after the same width is dispatched twice, the tiles and spacers fill `galleryWidth − 2·fadeDistance` exactly when two or more tiles are shown; a single tile fits when `minPadding ≥ 0` |
| GalleryReducer.PaddingAtLeastMinPadding | src/index.tsx:65-67 | with `minPadding ≥ 0`, whenever spacers are shown they are at least `minPadding` wide |
| GalleryReducer.FirstMeasurementIsStale | src/index.tsx:63-75 | a 1000-wide container (fade 100, tiles 200, padding 20) measured from the initial state first gives useable −200 and −1 tiles; only the second dispatch gives 800, 3 tiles and spacers of 100 |
| GalleryReducer.NegativeElementsShownPassesEnd | src/index.tsx:57-58 | after that first stale measurement, `moveNext` with no tiles still moves the position to 1 |
| GalleryReducer.ResizeDoesNotReclamp | src/index.tsx:68-75 | a window at the last valid position for 5 tiles is out of range once a wider container shows 5 tiles |
| HorizontalGallery.NextClick | src/index.tsx:171-175 | the right arrow dispatches `moveNext` with `elementCount` equal to the tile count and passes `onReachEnd` through |
| HorizontalGallery.DefaultProps | src/index.tsx:82-84 | without `fadeDistance` and `minPadding` props, a settled measurement gives useable width `g − 200` and `floor((g − 200) / elementWidth)` tiles, and the track at position 0 is translated by 100 |
| HorizontalGallery.LeftArrowMatchesGuard | src/index.tsx:152-153 | the left arrow is at full opacity iff its click moves the window, dimmed iff the click returns the state unchanged, and dimmed with a callback iff the click notifies `onReachStart` |
| HorizontalGallery.RightArrowMatchesGuard | src/index.tsx:170-175 | the right arrow is at full opacity iff its click moves the window, dimmed iff the click returns the state unchanged, and dimmed with a callback iff the click notifies `onReachEnd` |
| HorizontalGallery.ArrowShiftsTrackByOnePitch | src/index.tsx:117 | a successful arrow press moves the track's translation by exactly one tile width plus one spacer width, leftwards for next and rightwards for previous |
| HorizontalGallery.SettledWindowFillsViewport | src/index.tsx:115-119 | once a measurement has settled, the window's first tile starts right after the left fade zone; with two or more tiles shown, its last tile ends right at the right fade zone; with one tile and `minPadding ≥ 0` it ends no later |
| HorizontalGallery.InitialTrackTranslation | src/index.tsx:7-14 | before the first measurement the track is translated by the fade distance; with non-negative fade zones and a positive pitch, the first width dispatch from the initial state replaces the 1000-wide spacers by 0-wide ones |
| HorizontalGallery.FadeDistance | src/index.tsx:82 | the fade distance is the prop when given and 100 otherwise |
| HorizontalGallery.MinPadding | src/index.tsx:84 | the minimum padding is the prop when given and 0 otherwise |
| HorizontalGallery.UpdateSize | src/index.tsx:92-101 | a measurement dispatches `setGalleryWidth` with the measured width, the resolved fade distance and minimum padding, and the element width; the action is well formed exactly when the pitch is non-zero |
| HorizontalGallery.PrevClick | src/index.tsx:153 | the left arrow dispatches `movePrev` and passes `onReachStart` through |
| HorizontalGallery.ArrowClicksStayInRange | src/index.tsx:152-175 | from the initial state, any sequence of left and right arrow clicks keeps `0 ≤ position ≤ max(0, tiles.length − elementsShown)` |
| HorizontalGallery.TrackTranslation | src/index.tsx:117 | the tile `galleryPosition` pitches into the track lands exactly at the fade distance |
| HorizontalGallery.LeftArrowOpacity | src/index.tsx:152 | the opacity is 1 or 0.2, and it is 1 exactly when `movePrev` would change the state |
| HorizontalGallery.RightArrowOpacity | src/index.tsx:170 | the opacity is 1 or 0.2, and it is 1 exactly when the right arrow's `moveNext` would change the state |
| HorizontalGallery.TileLeftInTrack | src/index.tsx:117-135 | a tile's on-screen left edge is the track translation plus the width of all children rendered before it |
| HorizontalGallery.Fragments | src/index.tsx:130-135 | one fragment per tile, in order, each carrying its tile, with a spacer in every fragment but the first |
| HorizontalGallery.Children | src/index.tsx:130-135 | laying out fragments keeps exactly their tiles, in order; everything else is spacers |
| HorizontalGallery.Track | src/index.tsx:130-135 | reading the tiles back from the rendered track gives the original tiles in order |
| HorizontalGallery.TrackAlternates | src/index.tsx:130-135 | in the rendered track, tile `i` is at place `2i` and a spacer is at every odd place; the track has `2n − 1` children for `n > 0` tiles and none for no tiles |
| HorizontalGallery.SpacerCountOfTrack | src/index.tsx:132 | the track holds `tiles.length − 1` spacers, and none for no tiles |
| HorizontalGallery.TileOffsetInTrack | src/index.tsx:120-135 | tile `i` starts `i·(elementWidth + spacerWidth)` from the start of the track |
| HorizontalGallery.TrackWidth | src/index.tsx:120-135 | the whole track is `(n − 1)` tile-plus-spacer pitches plus one tile wide |
| HorizontalGallery.Store.constructor | src/index.tsx:88 | the component's state cell starts at the initial state |
| HorizontalGallery.Store.Dispatch | src/index.tsx:88 | a dispatch replaces the state with the reducer's next state and reports the callback notification the reducer returned |

## Left out

- The `default` branch that throws on an unknown action type: the action type is a closed datatype, so this branch cannot be reached.
- Missing payload fields: `moveNext` always carries `elementCount` and `setGalleryWidth` always carries all four widths, as every dispatch in the component does. With a missing field, JavaScript would compare or compute with `NaN`.
- IEEE-754 arithmetic: widths are exact reals. A zero pitch (`elementWidth + minPadding = 0`), for which JavaScript divides by zero, is excluded by `WellFormed`.
- Calling the boundary callbacks: the reducer returns a `Notice`, and the call itself is the caller's effect.
- JSX markup other than the tile/spacer sequence of the track, inline styles other than the fade-zone widths, gradients and the Material-UI arrow icons: these have no behaviour to state. The track lemmas (`ChildrenWidth` and the lemmas built on it) assume that every tile renders exactly `elementWidth` wide and that the flex layout never shrinks or grows a child.
- The `react-spring` animation: only its target values are modelled, the track translation and the spacer width. The interpolation over time is not.
- The `useLayoutEffect` lifecycle: the deferred first measurement with `setTimeout`, adding and removing the resize listener, and `getBoundingClientRect`. The measured width is a parameter of `UpdateSize`.
- Tile content: tiles have an opaque type parameter.
- SettledWindowFillsViewport: for a single shown tile it states a fit only when `minPadding ≥ 0`, because with a negative minimum padding one tile can be wider than the useable width.
