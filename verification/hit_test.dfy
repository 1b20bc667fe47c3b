/** Pointer hit tests on text layers (`handleMouseDown` in app/page.jsx) and the cursor shown
    for a resize handle (`getResizeCursor`). Text widths come from the canvas's `measureText`,
    which is passed in as `measure`. */
module HitTest {
  import opened Base
  import opened TextLayers

  /** Distance of the selection box (and its handles) from the text. */
  const HandlePadding: real := 10.0
  /** How far from a handle's centre a press still grabs it, per axis. */
  const HandleGrab: real := 8.0
  /** The enlarged padding of a layer's drag hit area. */
  const TextPadding: real := 20.0

  /** The corners in the order the page tries them. */
  const HandleOrder: seq<Handle> := [TopLeft, TopRight, BottomLeft, BottomRight]

  function Abs(r: real): real { if r < 0.0 then -r else r }

  /** Centre of a corner handle of a layer whose text is `textWidth` wide; the text's box is
      `fontSize` tall above the baseline at `y`. */
  function HandleCenter(l: TextLayer, textWidth: real, h: Handle): Point {
    var left := l.x - HandlePadding;
    var right := l.x + textWidth + HandlePadding;
    var top := l.y - l.fontSize - HandlePadding;
    var bottom := l.y + HandlePadding;
    match h
    case TopLeft => Point(left, top)
    case TopRight => Point(right, top)
    case BottomLeft => Point(left, bottom)
    case BottomRight => Point(right, bottom)
  }

  /** The press at `p` grabs handle `h`. */
  predicate Grabs(l: TextLayer, textWidth: real, h: Handle, p: Point) {
    var c := HandleCenter(l, textWidth, h);
    Abs(p.x - c.x) <= HandleGrab && Abs(p.y - c.y) <= HandleGrab
  }

  /** `handles.find(...)` over a list of corners: the first one the press grabs. */
  function FirstGrabbed(l: TextLayer, textWidth: real, hs: seq<Handle>, p: Point): (r: Option<nat>)
    ensures r.Some? ==> r.value < |hs| && Grabs(l, textWidth, hs[r.value], p)
    ensures r.Some? ==> forall j :: 0 <= j < r.value ==> !Grabs(l, textWidth, hs[j], p)
    ensures r.None? ==> forall j :: 0 <= j < |hs| ==> !Grabs(l, textWidth, hs[j], p)
  {
    if |hs| == 0 then None
    else if Grabs(l, textWidth, hs[0], p) then Some(0)
    else
      match FirstGrabbed(l, textWidth, hs[1..], p)
      case None => None
      case Some(k) => Some(k + 1)
  }

  /** The corner handle of layer `l` the press grabs, trying top-left, top-right, bottom-left,
      bottom-right in turn. */
  function HandleAt(l: TextLayer, textWidth: real, p: Point): (r: Option<Handle>)
    ensures r.Some? ==> Grabs(l, textWidth, r.value, p)
    ensures r.None? <==> forall h :: !Grabs(l, textWidth, h, p)
  {
    match FirstGrabbed(l, textWidth, HandleOrder, p)
    case None =>
      assert forall j :: 0 <= j < 4 ==> !Grabs(l, textWidth, HandleOrder[j], p);
      assert !Grabs(l, textWidth, HandleOrder[0], p) && !Grabs(l, textWidth, HandleOrder[1], p);
      assert !Grabs(l, textWidth, HandleOrder[2], p) && !Grabs(l, textWidth, HandleOrder[3], p);
      None
    case Some(k) => Some(HandleOrder[k])
  }

  /** The press lands in the layer's enlarged drag area. */
  predicate InTextArea(l: TextLayer, textWidth: real, p: Point) {
    && l.x - TextPadding <= p.x <= l.x + textWidth + TextPadding
    && l.y - l.fontSize - TextPadding <= p.y <= l.y + TextPadding
  }

  /** What a mouse press on the canvas starts. */
  datatype PressAction =
    | StartResize(layer: TextLayer, handle: Handle)
    | StartDrag(layer: TextLayer)
    | NoAction

  /** The press grabs a handle of layer `l`, which must be the selected layer. */
  predicate GrabsSelected(l: TextLayer, selectedId: Option<int>, measure: TextLayer -> real, p: Point) {
    selectedId == Some(l.id) && HandleAt(l, measure(l), p).Some?
  }

  /** First layer whose handles the press grabs; only the selected layer shows handles. */
  function FindResizeTarget(layers: seq<TextLayer>, selectedId: Option<int>, measure: TextLayer -> real, p: Point): (r: Option<nat>)
    ensures r.Some? ==> r.value < |layers| && GrabsSelected(layers[r.value], selectedId, measure, p)
    ensures r.Some? ==> forall j :: 0 <= j < r.value ==> !GrabsSelected(layers[j], selectedId, measure, p)
    ensures r.None? ==> forall j :: 0 <= j < |layers| ==> !GrabsSelected(layers[j], selectedId, measure, p)
  {
    if |layers| == 0 then None
    else if GrabsSelected(layers[0], selectedId, measure, p) then Some(0)
    else
      match FindResizeTarget(layers[1..], selectedId, measure, p)
      case None => None
      case Some(k) => Some(k + 1)
  }

  /** First layer whose drag area holds the press. */
  function FindDragTarget(layers: seq<TextLayer>, measure: TextLayer -> real, p: Point): (r: Option<nat>)
    ensures r.Some? ==> r.value < |layers| && InTextArea(layers[r.value], measure(layers[r.value]), p)
    ensures r.Some? ==> forall j :: 0 <= j < r.value ==> !InTextArea(layers[j], measure(layers[j]), p)
    ensures r.None? ==> forall j :: 0 <= j < |layers| ==> !InTextArea(layers[j], measure(layers[j]), p)
  {
    if |layers| == 0 then None
    else if InTextArea(layers[0], measure(layers[0]), p) then Some(0)
    else
      match FindDragTarget(layers[1..], measure, p)
      case None => None
      case Some(k) => Some(k + 1)
  }

  /** `handleMouseDown`: a grabbed handle of the selected layer starts a resize; otherwise the
      first layer under the press in list order starts a drag (with overlapping layers that is
      the one drawn underneath, since later layers are drawn on top); otherwise nothing happens. */
  function MouseDown(layers: seq<TextLayer>, selectedId: Option<int>, measure: TextLayer -> real, p: Point): (r: PressAction)
    ensures r.StartResize? ==>
      (r.layer in layers && Some(r.layer.id) == selectedId && HandleAt(r.layer, measure(r.layer), p) == Some(r.handle))
    ensures r.StartDrag? ==>
      (r.layer in layers && InTextArea(r.layer, measure(r.layer), p)
       && forall l :: l in layers ==> !GrabsSelected(l, selectedId, measure, p))
    ensures r.NoAction? ==> forall l :: l in layers ==>
      !GrabsSelected(l, selectedId, measure, p) && !InTextArea(l, measure(l), p)
    ensures r.StartResize? ==>
      FindResizeTarget(layers, selectedId, measure, p).Some?
      && r.layer == layers[FindResizeTarget(layers, selectedId, measure, p).value]
    ensures r.StartDrag? ==>
      && FindResizeTarget(layers, selectedId, measure, p).None?
      && FindDragTarget(layers, measure, p).Some?
      && r.layer == layers[FindDragTarget(layers, measure, p).value]
  {
    match FindResizeTarget(layers, selectedId, measure, p)
    case Some(k) =>
      StartResize(layers[k], HandleAt(layers[k], measure(layers[k]), p).value)
    case None =>
      match FindDragTarget(layers, measure, p)
      case Some(k) => StartDrag(layers[k])
      case None => NoAction
  }

  /** `getResizeCursor`: the diagonal arrow matching a corner, "default" for no handle or any
      other value. */
  function ResizeCursor(handle: Option<string>): (c: string)
    ensures c == "nwse-resize" <==> handle == Some("tl") || handle == Some("br")
    ensures c == "nesw-resize" <==> handle == Some("tr") || handle == Some("bl")
    ensures c != "nwse-resize" && c != "nesw-resize" ==> c == "default"
  {
    match handle
    case None => "default"
    case Some(name) =>
      if name == "tl" || name == "br" then "nwse-resize"
      else if name == "tr" || name == "bl" then "nesw-resize"
      else "default"
  }

  /** Opposite corners share a cursor and adjacent corners do not. */
  lemma CursorPerCorner(h: Handle)
    ensures ResizeCursor(Some(HandleName(h))) == (if h == TopLeft || h == BottomRight then "nwse-resize" else "nesw-resize")
  {
  }
}
