# Text-behind segmentation client: a Dafny model

The page `app/page.jsx` lets a user click on a photo, asks a segmentation worker (SAM2 running
in a web worker) for an object mask, refines the mask with further clicks, and then places text
layers that are drawn behind the extracted object. This project models the logic of that page
that is not drawing:

- **Session** — the client state machine: `imageEncoded`, `loading`, `status`, the prompt list,
  the cached previous mask and the displayed mask. A click becomes a positive point prompt
  (Shift appends, a plain click starts a new list) and a `decodeMask` request that carries the
  cached mask with its shape `[1, 1, 256, 256]` only when one exists. Worker replies (`pong`,
  progress, `encodeImageDone`, `decodeMaskResult`, `stats`) drive the transitions; the best
  candidate is `indexOf(Math.max(...scores))` and its slice becomes the next prior mask. Two
  resets (mask reset, new image) and the auto-encode guard complete it. Messages to the worker
  are returned values, not effects.
- **MaskSelect** — `Math.max`, `indexOf` and their composition, with an independent linear scan
  proved to pick the same index (the first maximal score).
- **Geometry** — pointer-to-model-space conversion with its inverse.
- **MaskBounds** — the nested loop that finds the bounding box of the visible mask pixels.
- **TextLayers** — add, drag-translate, corner resize and delete of text layers by id.
- **HitTest** — which corner handle or layer a mouse press hits, and the resize cursor.

Scores and coordinates are `real`; pixel buffers are sequences of bytes. The image helpers of
`lib/imageutils` (`resizeCanvas`, `canvasToFloat32Array`, `sliceTensor`,
`float32ArrayToCanvas`) are not part of this model: the transitions that call them take them
as the fields of an `Imaging` record of arbitrary total functions, so every property holds
whatever they compute. The canvas text measurement is likewise a `measure` parameter.

As in the source, a resize measures the pointer's movement in client pixels (`event.clientX`
minus the recorded start), while a drag measures it in canvas pixels (after the coordinate
conversion); the model keeps that difference.

The page has no busy rejection and no correlation of replies with requests, and a few other
choices that are easy to misread; the model follows the page:

- A plain click replaces the prompt list; only a Shift-click appends to it.
- A click before the image is encoded is ignored silently rather than reported.
- Nothing rejects a request while another is in flight, and replies carry no request id: a
  click while decoding posts another decode, and each reply is applied when it arrives.
- `loading` is not part of the click guard. It gates auto-encoding and disables the encode,
  Upload Image and From URL buttons (app/page.jsx:940-975); the model's `Session.NewImage` does
  not carry that button guard (see "## Left out").
- The new-image reset does not clear the selected object or the `loading` flag.
- The best candidate is `indexOf(Math.max(...))` with no guard against NaN scores.

## Model

| member | source | states |
|---|---|---|
| Geometry.ConvertCoordinates | app/page.jsx:119-131 | the converted point is the client offset from the canvas rectangle scaled by target size over on-screen size, per axis |
| Geometry.ConversionIgnoresBufferSize | app/page.jsx:119-131 | the canvas drawing-buffer size cancels out: only the on-screen rectangle and the target size matter |
| Geometry.RoundTripFromClient | app/page.jsx:119-131 | client to model space and back recovers the pointer position |
| Geometry.RoundTripFromTarget | app/page.jsx:119-131 | model space to client and back recovers the point |
| Geometry.InsideRectLandsInTarget | app/page.jsx:119-131 | a pointer inside the canvas rectangle maps into `[0,w] x [0,h]` of the target |
| MaskSelect.MaxScore | app/page.jsx:197 | `Math.max` of a non-empty list is one of its scores and no score exceeds it |
| MaskSelect.IndexOf | app/page.jsx:197 | `indexOf` gives the first position of the value, or -1 exactly when the value is absent |
| MaskSelect.BestMaskIndex | app/page.jsx:197 | the chosen index is the first index whose score is at least every score; -1 only for an empty list |
| MaskSelect.ScanBest | app/page.jsx:197 | a left-to-right scan that moves only on a strictly greater score chooses the same index |
| MaskBounds.PixelInRange | app/page.jsx:662-665 | the alpha byte `(y*width+x)*4+3` of every pixel on the canvas lies inside the RGBA buffer |
| MaskBounds.ScanAllCorrect | app/page.jsx:656-673 | the row-major fold of the per-pixel min/max update over the whole canvas finds a visible pixel iff there is one, and then yields the tight bounding box; otherwise the initial bounds |
| MaskBounds.Scan | app/page.jsx:656-673 | `hasMask` holds iff some pixel has alpha > 0; then the bounds contain every such pixel and each bound is attained by one; otherwise the bounds keep their initial values |
| MaskBounds.MaskBorder | app/page.jsx:647-686 | a border is drawn iff borders are shown and some pixel is visible, and it is the tight bounding box |
| Session.Mount | app/page.jsx:281-291 | mounting pings the worker and starts loading, with no image, encoding, mask or prompts |
| Session.ClickPoint | app/page.jsx:150-156 | a click's prompt is the pointer converted to the 1024x1024 model space, with label 1 |
| Session.DecodeRequest | app/page.jsx:165-184 | the request carries the points, and the cached mask together with shape `[1,1,256,256]` exactly when a mask is cached |
| Session.ImageClick | app/page.jsx:145-189 | unless the image is encoded and no drag or click block is active nothing changes and nothing is sent; otherwise Shift appends the point and a plain click replaces the list, the updated list is sent, and only points, loading, status and selected object change |
| Session.EncodeImageClick | app/page.jsx:134-142 | the resized image is sent for encoding and the session becomes loading with status "Encoding" |
| Session.AutoEncode | app/page.jsx:409-413 | an encode is posted iff an image is present, not encoded and nothing is loading, and then it is exactly the encode button's step (the current image, loading, "Encoding", nothing else); otherwise the state is unchanged |
| Session.HandleDecodingResults | app/page.jsx:192-204 | the cached prior mask is the slice at the best index and the shown mask is that slice rendered and resized to the image size; nothing else changes |
| Session.OnWorkerMessage | app/page.jsx:207-235 | pong success stops loading and records the device, pong failure only sets the error status, progress starts loading, encode-done marks the image encoded and stops loading, a decode result is exactly `handleDecodingResults` (best slice cached and shown) followed by loading off and status "Ready. Click on image", stats touches only stats, other types change nothing |
| Session.RequestStatsClick | app/page.jsx:276-278 | asking for statistics posts a stats request and changes no state |
| Session.ResetMask | app/page.jsx:740-744 | mask, prior mask, selected object and points are cleared; image, encoding and loading stay |
| Session.ResetState | app/page.jsx:249-255 | points, image, mask and prior mask are cleared and the image is marked not encoded |
| Session.NewImage | app/page.jsx:258-274 | a new file or URL resets the image state, records the URL and asks for encoding |
| Session.ImageLoaded | app/page.jsx:299-327 | the loaded, padded canvas becomes the current image and nothing else changes |
| SessionProperties.DecodeCachesFirstMaxSlice | app/page.jsx:197-203 | after a decode reply the cached prior mask is the slice at the first maximal score and loading is false |
| SessionProperties.RepliesKeepPrompts | app/page.jsx:207-235 | no worker reply changes the prompts, the image or the selected object; only a decode result changes the masks |
| SessionProperties.SecondDecodeUsesFirstMask | app/page.jsx:159-184 | after a click and its decode reply, a Shift-click sends both points in order and the first reply's best mask as prior mask |
| SessionProperties.ResetMaskThenClick | app/page.jsx:740-744 | after a mask reset the next click is decoded without re-encoding, with one point and no prior mask |
| SessionProperties.NewImageBlocksClicks | app/page.jsx:258-274 | the click right after a new image is not decoded and changes nothing |
| SessionProperties.UnencodedStays | app/page.jsx:207-235 | while the image is not encoded, every event except an `encodeImageDone` reply keeps it unencoded and posts no decode |
| SessionProperties.NoDecodeUntilEncodeDone | app/page.jsx:145-189 | from an unencoded session, any run of events without an `encodeImageDone` reply posts no decode request and ends unencoded |
| SessionProperties.NewImageBlocksDecodes | app/page.jsx:249-255 | after a new image, no decode is posted until an `encodeImageDone` reply arrives, whatever events come first |
| SessionProperties.NewImageResetsMore | app/page.jsx:249-255 | the new-image reset clears what the mask reset clears for points and masks, and also the image and its encoding |
| SessionProperties.AutoEncodeOnce | app/page.jsx:409-413 | at the guard's next evaluation it does not fire again, after auto-encode fired or after an encode reply |
| SessionProperties.StaleReplyReEncodes | app/page.jsx:409-413 | with two decodes in flight, a new image loaded after the first reply is auto-encoded, and the stale second reply clears `loading`, re-arms the guard and caches the old image's mask |
| SessionProperties.OnWorkerMessageFor | app/page.jsx:207-235 | a reply tagged with the image it was requested for is applied as the page applies it, except that an encode or decode reply for another image changes nothing |
| SessionProperties.StaleReplyDropped | app/page.jsx:409-413 | in the same sequence with tagged replies, the stale reply is dropped, the session stays loading, no second encode is posted and the new image has no prior mask |
| SessionProperties.StartupToFirstDecode | app/page.jsx:207-235 | mount, pong, image load, auto-encode and encode-done post exactly one encode and then accept a click |
| SessionProperties.ClickWhileLoadingStillDecodes | app/page.jsx:145-189 | a click while a decode is in flight is not rejected: another decode request is posted |
| SessionProperties.NoEncodeWhileModelLoads | app/page.jsx:409-413 | an image loaded before the model is ready is not encoded |
| TextLayers.HandleSides | app/page.jsx:803-804 | `includes('l')` selects exactly the left corners and `includes('t')` exactly the top corners |
| TextLayers.AddText | app/page.jsx:385-406 | without a mask the list is unchanged; otherwise one "New Text" layer with the given id, size 24, centred on the canvas, is appended |
| TextLayers.AddThenDeleteRestores | app/page.jsx:385-406 | deleting a freshly added layer restores the list |
| TextLayers.Translate | app/page.jsx:493-503 | layers with the dragged id move by (dx, dy) and change in nothing else; other layers are unchanged |
| TextLayers.TranslateCompose | app/page.jsx:493-503 | two translations of a layer add up to one |
| TextLayers.TranslateUndo | app/page.jsx:493-503 | translating back by the opposite offset restores the list |
| TextLayers.DragMove | app/page.jsx:479-506 | without a drag nothing changes; with one the layer moves by the pointer's move and the pointer becomes the new start |
| TextLayers.DragTelescopes | app/page.jsx:488-505 | over successive drag events the layer moves by the total pointer displacement since the drag started |
| TextLayers.BeginResize | app/page.jsx:776-796 | the resize records the pointer, font size, measured width and position of the layer |
| TextLayers.ResizedFontSize | app/page.jsx:807-809 | the new font size is the larger of 1 and the start size scaled by the relative width change, the change being negated for left handles |
| TextLayers.Resized | app/page.jsx:801-820 | only size and position change; x moves by dx only for left handles and y by dy only for top handles, from the recorded start |
| TextLayers.ResizeMove | app/page.jsx:798-843 | only layers with the resizing id change, and the selected layer mirrors the change when it is the one resized |
| TextLayers.ResizedOverrides | app/page.jsx:801-820 | a second resize step of a layer replaces the first, since size and position are computed from the recorded start; the id is kept |
| TextLayers.ResizeMovesCompose | app/page.jsx:798-843 | two successive resize moves leave the layers and the selection as one move to the last pointer |
| TextLayers.ResizeKeepsOthers | app/page.jsx:822-833 | a resized layer keeps its text and id with font size at least 1; other layers are untouched |
| TextLayers.Delete | app/page.jsx:1232 | every remaining layer was in the list with another id, and every layer with another id remains |
| TextLayers.DeleteAppend | app/page.jsx:1232 | deleting distributes over concatenation, so the remaining layers keep their order |
| TextLayers.DeleteAbsent | app/page.jsx:1232 | deleting an id no layer has changes nothing |
| TextLayers.DeleteIdempotent | app/page.jsx:1232 | deleting twice is deleting once |
| HitTest.FirstGrabbed | app/page.jsx:437-440 | the result is the first corner the press grabs, or none when it grabs none |
| HitTest.HandleAt | app/page.jsx:430-440 | a grabbed corner is within 8 pixels per axis of its centre, and no corner is returned exactly when none is grabbed |
| HitTest.FindResizeTarget | app/page.jsx:420-447 | the first layer that is selected and whose corner the press grabs |
| HitTest.FindDragTarget | app/page.jsx:454-468 | the first layer whose enlarged text area (20 pixels padding) holds the press |
| HitTest.MouseDown | app/page.jsx:415-477 | a grabbed handle of the first selected layer found starts a resize; otherwise the first layer in list order under the press (the one drawn underneath when layers overlap) starts a drag, and only if no handle is grabbed; otherwise nothing |
| HitTest.ResizeCursor | app/page.jsx:852-864 | "nwse-resize" exactly for tl/br, "nesw-resize" exactly for tr/bl, "default" otherwise |
| HitTest.CursorPerCorner | app/page.jsx:852-864 | opposite corners share the diagonal cursor |

## Left out

- Canvas drawing and compositing (image, mask overlay, text layers, selection boxes), image
  loading and letterboxing onto the square canvas, file and URL input, crop and DataURL export:
  browser I/O. The image-load effect is reduced to `Session.ImageLoaded`.
- Worker creation, `postMessage` transport and the worker itself: requests are returned values.
- `lib/imageutils` (resizing, tensor conversion, slicing, mask rendering) is not part of this
  model; those helpers are the arbitrary functions of `Session.Imaging`.
- IEEE-754 details: scores and coordinates are reals, NaN and infinities are excluded, and so is
  rounding in the coordinate scaling. `indexOf(Math.max(...))` on a NaN score is not modelled.
- The 500 ms click block after a drag or resize and the 100 ms export delay are timers; the
  click block and the dragging flag are boolean inputs of `Session.ImageClick`. `handleMouseUp`
  (which ends the drag and raises the click block until its 500 ms timer clears it) and
  `handleResizeEnd` (which clears the resizing flag, handle and layer) are not modelled.
- The per-field style edits of the selected layer (text, size slider, stroke, opacity, shadow,
  colours, font) are the same by-id update as `TextLayers.Translate` and are not modelled
  separately; layer selection by clicking the list is not modelled.
- The selection and drag-start side effects of a press and of delete are not modelled: a press
  that starts a drag selects that layer and records the press point as the drag start
  (app/page.jsx:470-474), a press that starts a resize selects that layer (app/page.jsx:795),
  and deleting clears the selection (app/page.jsx:1233). `HitTest.MouseDown` only decides what
  the press starts, and `TextLayers.DragMove` takes the drag (layer id and start point) as an
  input.
- The border box of `MaskBounds.MaskBorder` is in mask pixels (the mask is resized to
  1024x1024), and the page strokes it without rescaling on the 768x768 display canvas; the
  stroking is drawing and is not modelled.
- Request correlation ids, rejection of a request while busy, and cancellation do not exist in
  the source; `Session` applies replies in whatever order they arrive. Only the tagged handler
  `SessionProperties.OnWorkerMessageFor` shows the intended dropping of stale replies.
- The event runs of `SessionProperties.Apply` accept the encode button while loading or once
  the image is encoded, and the mask reset button without a mask, although the page disables
  both then; every property of those runs therefore covers the page's runs too.
- Session.NewImage: not guarded by `loading`. The page disables Upload Image and From URL while
  loading (app/page.jsx:964-975); the model accepts a new image in any state, so its properties
  hold for more sequences than the page allows.
- The presentation components (toolbar, text editor panel, quick guide) hold no logic.
- Geometry.ConvertCoordinates: requires a canvas with positive buffer and on-screen sizes; for
  a zero size the source divides by zero and produces Infinity or NaN.
- Session.EncodeImageClick: requires an image; the encode button can be pressed while a new
  image is still loading, and what `resizeCanvas` does with `null` belongs to lib/imageutils.
- TextLayers.ResizedFontSize: requires a positive measured text width. For empty text the
  source computes `Math.max(1, fontSize * ((0 + widthChange) / 0))`, so for a positive font
  size the result depends on the move: Infinity for an outward move, NaN for no horizontal
  move, and 1 for an inward move.
- TextLayers.Resized: same positive-width requirement as `TextLayers.ResizedFontSize`.
- TextLayers.ResizeMove: same positive-width requirement as `TextLayers.ResizedFontSize`.
- MaskBounds.Scan: requires the buffer to hold four bytes per pixel, which `getImageData`
  always returns.

## Findings

| source | as written | input that shows it | evidently intended | confidence | as-written member | corrected member |
|---|---|---|---|---|---|---|
| app/page.jsx:226-230 | every `decodeMaskResult` reply clears `loading` and caches its mask, whichever image it was requested for | two clicks posted; the first reply re-enables Upload Image; a new image loads and auto-encodes; the second reply then clears `loading`, the guard posts a second encode, and the old image's mask becomes the prior mask of the new image | a reply for an image that is no longer current is dropped | medium, not executed | SessionProperties.StaleReplyReEncodes | SessionProperties.OnWorkerMessageFor |

`SessionProperties.StaleReplyDropped` proves the intended property of the corrected handler on
the same sequence. The tag is the image URL, which differs between object URLs of two
uploads; the rest of the model keeps the page's untagged handler, since that is what the page
does.
