# vanilla-lightbox viewer, modelled in Dafny

This project models the core of `vanilla-lightbox` (`src/lightbox.js`): the `Lightbox`
viewer as a state machine over clicks, key presses and image-load completions, the
popup sizing rule of `Popup.setDimensions`, the `extend` object merge and the
`checkFeatures` capability check, and proves properties of them.

Layout of the project:

- `wrappers.dfy` — `Option`, `Outcome`, `Result`.
- `navigation.dfy` — the index arithmetic of `next`/`prev` (wraparound, inverses, cycle).
- `layout.dfy` — `SetDimensions`, the popup size after a load.
- `merge.dfy` — `Extend`, the `for ... in` / `hasOwnProperty` merge loop.
- `features.dfy` — `CheckFeatures` and the incompatible-client message.
- `viewer.dfy` — the viewer state (`items`, `index`, `isActive`, `isCaptureKeyboard`,
  plus the number of registered `keydown` listeners and of mounted glass/popup pairs,
  plus what the current popup shows), one function per handler, `Step` for one
  delivered event and `Run` for a sequence of them.
- `viewer_properties.dfy` — properties relating several handlers or events.
- `lightbox.dfy` — the constructor: capability check, settings merge, initial state.
- `scenarios.dfy` — two concrete runs over a three-item gallery.

The model follows the code as written:

- A completed load is applied whenever the viewer is active. The requested index is
  never compared with the current one. The caption comes from the current item and
  the picture source from the completed load, so a late load can show one item's
  image under another item's caption (`ViewerProperties.LateLoadMixesItems`).
- There is no centering, narrow-viewport mode or resize handling in the code, so none
  is modelled. `SetDimensions` computes width and height only.
- The key handler stops default action and propagation for every key while it is
  registered, not only for the arrows and escape.
- A link click while the viewer is open builds a second glass and popup. The next
  close removes only the newest pair, so one overlay stays in the page. Its controls
  still call `next`/`prev`, which then throw because the viewer holds no picture. So
  "an overlay is mounted iff the viewer is open" holds only as long as no link is
  clicked while it is open (`ViewerProperties.OneOverlayPerSession`,
  `ViewerProperties.ClickWhileOpenOrphansOverlay`).

## Model

| member | source | states |
|---|---|---|
| Features.CheckFeatures | src/lightbox.js:50-58 | construction may proceed exactly when every capability flag is true; otherwise it fails with the incompatible-client message |
| Merge.Extend | src/lightbox.js:75-83 | the merged object has the keys of both; every own key of the custom object takes the custom value; every other key keeps the base value; inherited keys of the custom object have no effect |
| Lightbox.NewLightbox | src/lightbox.js:114-156 | construction fails iff a capability is missing; settings are the caller's options over the default `rel` "lightbox"; the viewer starts closed over the links with that `rel` |
| Viewer.Init | src/lightbox.js:130-156 | a new viewer is closed, holds no key handler and has no overlay mounted, and satisfies the state invariant |
| Viewer.HandleClickLink | src/lightbox.js:191-235 | a click on link n opens the viewer on item n with a fresh popup and one more overlay; a key handler is added only when keyboard capture was not already on |
| Viewer.Disable | src/lightbox.js:248-270 | afterwards the viewer is closed and capture is released; the current overlay is removed only if the viewer was open; items and index are kept |
| Viewer.Next | src/lightbox.js:295-304 | only the index changes; it stays in range and is the old index plus one modulo the gallery size |
| Viewer.Prev | src/lightbox.js:285-294 | only the index changes; it stays in range and is the old index minus one modulo the gallery size |
| Viewer.Navigate | src/lightbox.js:285-304 | a move starts a load of the full-size image of the item it moved to |
| Viewer.KeyDownHandler | src/lightbox.js:157-178 | right arrow is next, left arrow is prev, escape is disable, other keys change nothing; every key is suppressed |
| Viewer.LoadImageHandler | src/lightbox.js:271-284 | on a closed viewer a completed load changes nothing; on an open one only the popup changes: caption of the current item, source of the completed load, size by the sizing rule |
| Viewer.Step | src/lightbox.js:179-246 | every delivered event keeps the state invariant (index in range, capture iff open, one key handler iff capture, an overlay while open); an event is suppressed iff it is a link click or a captured key; a handler throws iff next/prev is used on a closed viewer through a leftover overlay; every load started is for the item now shown; a link click on item n starts a load of its href, and a load starts exactly on a link click or on next/prev (control or arrow key) while open |
| Viewer.Run | src/lightbox.js:129-305 | any sequence of events from a valid state ends in a valid state over the same items |
| Navigation.NextIndex | src/lightbox.js:295-302 | the index after next is always in range and equals the old index plus one modulo the size |
| Navigation.PrevIndex | src/lightbox.js:285-292 | the index after prev is in range and equals the old index minus one modulo the size |
| Navigation.PrevAfterNext | src/lightbox.js:285-302 | prev undoes next for every in-range index |
| Navigation.NextAfterPrev | src/lightbox.js:285-302 | next undoes prev for every in-range index |
| Navigation.SingleItemIsFixed | src/lightbox.js:285-302 | with one item both moves keep the index |
| Navigation.NextIndexNAdvances | src/lightbox.js:295-302 | before the last item, k presses of next advance the index by exactly k |
| Navigation.NextIndexNCompose | src/lightbox.js:295-302 | a presses of next followed by b presses is a + b presses |
| Navigation.NextIndexCycle | src/lightbox.js:295-302 | pressing next once per item returns to the starting index |
| Layout.SetDimensions | src/lightbox.js:343-358 | width is the natural width when nonzero, else the previous style width or 0; height is natural height plus caption height when nonzero, else the previous style height or 0 |
| Layout.NaturalSizeIgnoresStyle | src/lightbox.js:352-353 | once the image has both natural dimensions the popup's previous size plays no part |
| Layout.LabelCountsOnlyWithImage | src/lightbox.js:353 | the caption height changes the popup size exactly when the image has a natural height |
| Layout.EmptyImageKeepsSize | src/lightbox.js:344-353 | a load without natural size leaves the popup at its current size |
| Layout.SetDimensionsStable | src/lightbox.js:343-358 | sizing a popup again for the same image and caption changes nothing |
| Layout.CaptionExample | src/lightbox.js:343-358 | a 400 x 300 image under a 20-pixel caption gives a 400 x 320 popup |
| ViewerProperties.ClickRegistersOneKeyHandler | src/lightbox.js:231-235 | after any link click exactly one key handler is registered |
| ViewerProperties.AtMostOneKeyHandler | src/lightbox.js:231-256 | from a new viewer, no sequence of events leaves two key handlers registered, and an open viewer has exactly one |
| ViewerProperties.DisableIdempotent | src/lightbox.js:248-270 | closing twice gives the same state as closing once |
| ViewerProperties.DisableWhenInactive | src/lightbox.js:253-258 | on a closed viewer disable only releases keyboard capture |
| ViewerProperties.CloseWhenClosedIsNoOp | src/lightbox.js:248-270 | in a reachable closed state a close changes nothing |
| ViewerProperties.EscapeIsClose | src/lightbox.js:170-177 | escape reaches the same state as the close controls, and only the key is suppressed |
| ViewerProperties.ArrowsAreNavigation | src/lightbox.js:160-168 | the arrow keys reach the same states as the next and previous controls |
| ViewerProperties.OtherKeysAreSwallowed | src/lightbox.js:157-178 | any other key changes nothing, starts no load, and is still suppressed |
| ViewerProperties.NavigationRoundTrip | src/lightbox.js:285-304 | on an open viewer prev after next and next after prev restore the state |
| ViewerProperties.RunNextClicks | src/lightbox.js:295-304 | k clicks on next move only the index, k steps forward |
| ViewerProperties.NextCycle | src/lightbox.js:295-304 | clicking next once per item returns an open viewer to the same state |
| ViewerProperties.LoadWhenClosedIsIgnored | src/lightbox.js:271-273 | a load completing on a closed viewer changes nothing |
| ViewerProperties.LoadAfterCloseIsIgnored | src/lightbox.js:248-273 | a load completing after a close leaves the closed state as it is |
| ViewerProperties.LateLoadMixesItems | src/lightbox.js:271-284 | a load for the previous item completing after next shows that item's image under the new item's caption |
| ViewerProperties.OneOverlayPerSession | src/lightbox.js:205-269 | each event other than a link click while open preserves the pairing of one mounted overlay with an open viewer and none with a closed one |
| ViewerProperties.ClickWhileOpenOrphansOverlay | src/lightbox.js:205-269 | a link click while open adds an overlay that the next close leaves in the page, and next on it throws |
| Scenarios.OpenNavigateClose | src/lightbox.js:157-270 | open item 1 of 3, right arrow, escape: index 1, then 2, then closed with no overlay and no key handler |
| Scenarios.LateLoadScenario | src/lightbox.js:191-304 | open item 0, next, then item 0's load completes: index 1, image a.jpg under caption B, size 400 x 320 |

## Left out

- DOM construction and removal (`Popup.build`/`remove`, `Button` and its previous, next and close variants, `Glass`, `Picture.build`/`update`/`on`): thin wrappers over browser APIs. The model keeps only the number of mounted overlays and what the current popup shows.
- Listener registration, `matchItems` and attribute reads: foreign calls. Items are a fixed sequence of (href, alt) pairs; the document query is the `query` parameter of `Lightbox.NewLightbox`.
- The asynchronous `Image` load in `Picture.loadImage`: a completion is the `ImageLoaded` event, which may arrive at any time. There is no failure path in the code, so none is modelled. The load listener also sets the issuing picture node's inline size; that node may already be detached, and it is not modelled.
- Load sources: `next`/`prev` pass the link element, which the browser turns into its resolved `href`. The click path reads the raw `href` attribute of the clicked image's parent link. Both are modelled as the item's `href`, and the click target is assumed to be the thumbnail inside link n.
- Items whose link holds no `img`: `_loadImageHandler` would throw on them. Every item is assumed to have a thumbnail with an `alt` text.
- The `instanceof Lightbox` guards in `enable` and `disable`: they fail only for a handler called on a foreign object, which the model cannot express.
- `index = null` before the first click is modelled as 0. Only `next`/`prev` could observe the difference, and no control exists before the first click.
- Window dimensions, caption measurement and the `parseInt` of inline styles: integer inputs. An unset or unparsable style is `None` and reads as 0.
- Viewer.Disable: in states the viewer cannot reach, the removal of a listener or overlay that is not registered is modelled as doing nothing. In reachable states this matches the code.
