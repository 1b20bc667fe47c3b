/** The text-layer list of app/page.jsx and its edits by layer id: add, drag-translate, corner
    resize and delete. Every edit leaves the layers with other ids as they were. */
module TextLayers {
  import opened Base

  /** One text layer as the page stores it; `id` is the creation time in milliseconds. */
  datatype TextLayer = TextLayer(
    id: int,
    text: string,
    x: real,
    y: real,
    depth: int,
    fontSize: real,
    fontFamily: string,
    strokeWidth: real,
    opacity: real,
    fillColor: string,
    strokeColor: string,
    shadowBlur: real,
    shadowColor: string)

  /** The four corner handles of a selected layer, written "tl", "tr", "bl", "br" in the page. */
  datatype Handle = TopLeft | TopRight | BottomLeft | BottomRight

  function HandleName(h: Handle): string {
    match h
    case TopLeft => "tl"
    case TopRight => "tr"
    case BottomLeft => "bl"
    case BottomRight => "br"
  }

  /** `resizeHandle.includes('l')`: the handle sits on the left edge. */
  predicate IsLeft(h: Handle) {
    'l' in HandleName(h)
  }

  /** `resizeHandle.includes('t')`: the handle sits on the top edge. */
  predicate IsTop(h: Handle) {
    't' in HandleName(h)
  }

  /** The substring tests pick exactly the left corners and exactly the top corners. */
  lemma HandleSides(h: Handle)
    ensures IsLeft(h) <==> h == TopLeft || h == BottomLeft
    ensures IsTop(h) <==> h == TopLeft || h == TopRight
  {
  }

  const DefaultFont: string := "'Forum', serif"

  /** The layer `handleAddText` creates: "New Text" centred on the canvas, 24px Forum, white
      fill with a black 4px stroke. */
  function NewTextLayer(id: int, canvasWidth: real, canvasHeight: real): TextLayer {
    TextLayer(id, "New Text", canvasWidth / 2.0, canvasHeight / 2.0, 50, 24.0, DefaultFont,
              4.0, 1.0, "#ffffff", "#000000", 2.0, "rgba(0,0,0,0.5)")
  }

  /** `handleAddText`: without a mask nothing happens; otherwise a new layer is appended. */
  function AddText(layers: seq<TextLayer>, hasMask: bool, now: int, canvasWidth: real, canvasHeight: real): (r: seq<TextLayer>)
    ensures !hasMask ==> r == layers
    ensures hasMask ==> |r| == |layers| + 1 && r[..|layers|] == layers
    ensures hasMask ==> r[|layers|].id == now && r[|layers|].text == "New Text" && r[|layers|].fontSize == 24.0
    ensures hasMask ==> r[|layers|].x * 2.0 == canvasWidth && r[|layers|].y * 2.0 == canvasHeight
  {
    if !hasMask then layers else layers + [NewTextLayer(now, canvasWidth, canvasHeight)]
  }

  /** The layer moved by (dx, dy); nothing else about it changes. */
  function Moved(l: TextLayer, dx: real, dy: real): TextLayer {
    l.(x := l.x + dx, y := l.y + dy)
  }

  /** The `layers.map` of a drag step: the layers with id `id` move by (dx, dy), the rest stay. */
  function Translate(layers: seq<TextLayer>, id: int, dx: real, dy: real): (r: seq<TextLayer>)
    ensures |r| == |layers|
    ensures forall i :: 0 <= i < |layers| && layers[i].id != id ==> r[i] == layers[i]
    ensures forall i :: 0 <= i < |layers| && layers[i].id == id ==>
      r[i] == layers[i].(x := r[i].x, y := r[i].y) && r[i].x - layers[i].x == dx && r[i].y - layers[i].y == dy
  {
    seq(|layers|, i requires 0 <= i < |layers| => if layers[i].id == id then Moved(layers[i], dx, dy) else layers[i])
  }

  /** Two translations of the same layer add up to one. */
  lemma TranslateCompose(layers: seq<TextLayer>, id: int, dx1: real, dy1: real, dx2: real, dy2: real)
    ensures Translate(Translate(layers, id, dx1, dy1), id, dx2, dy2) == Translate(layers, id, dx1 + dx2, dy1 + dy2)
  {
  }

  /** Translating back by (-dx, -dy) restores the list. */
  lemma TranslateUndo(layers: seq<TextLayer>, id: int, dx: real, dy: real)
    ensures Translate(Translate(layers, id, dx, dy), id, -dx, -dy) == layers
  {
  }

  /** An active drag: the dragged layer's id and the last pointer position in canvas pixels. */
  datatype Drag = Drag(id: int, start: Point)

  /** `handleMouseMove` while dragging: the dragged layer follows the pointer's move since the
      last event, and the pointer becomes the new drag start. Without a drag nothing changes. */
  function DragMove(layers: seq<TextLayer>, drag: Option<Drag>, pointer: Point): (r: (seq<TextLayer>, Option<Drag>))
    ensures drag.None? ==> r == (layers, drag)
    ensures drag.Some? ==>
      && r.0 == Translate(layers, drag.value.id, pointer.x - drag.value.start.x, pointer.y - drag.value.start.y)
      && r.1 == Some(Drag(drag.value.id, pointer))
  {
    match drag
    case None => (layers, drag)
    case Some(Drag(id, start)) =>
      (Translate(layers, id, pointer.x - start.x, pointer.y - start.y), Some(Drag(id, pointer)))
  }

  /** Successive drag events telescope: after moving through `p1` to `p2` the layer has moved by
      exactly the pointer's displacement from the drag start to `p2`. */
  lemma DragTelescopes(layers: seq<TextLayer>, d: Drag, p1: Point, p2: Point)
    ensures var (l1, d1) := DragMove(layers, Some(d), p1);
            DragMove(l1, d1, p2).0 == Translate(layers, d.id, p2.x - d.start.x, p2.y - d.start.y)
  {
  }

  /** What `handleResizeStart` records: the pointer in client pixels, the layer's font size,
      measured text width and position. */
  datatype ResizeStart = ResizeStart(clientX: real, clientY: real, fontSize: real, width: real, textX: real, textY: real)

  /** An active resize: the layer's id, the grabbed corner and the recorded start. */
  datatype Resize = Resize(id: int, handle: Handle, start: ResizeStart)

  /** `handleResizeStart`: records where the resize of `layer` began. */
  function BeginResize(layer: TextLayer, handle: Handle, textWidth: real, clientX: real, clientY: real): (r: Resize)
    ensures r.id == layer.id && r.handle == handle
    ensures r.start == ResizeStart(clientX, clientY, layer.fontSize, textWidth, layer.x, layer.y)
  {
    Resize(layer.id, handle, ResizeStart(clientX, clientY, layer.fontSize, textWidth, layer.x, layer.y))
  }

  /** The font size after the pointer moved `dx` client pixels: scaled by the relative width
      change (a left handle grows when moved left), never below 1. */
  function ResizedFontSize(rs: ResizeStart, h: Handle, dx: real): (size: real)
    requires rs.width > 0.0
    ensures size >= 1.0
    ensures size * rs.width >= rs.fontSize * (rs.width + (if IsLeft(h) then -dx else dx))
    ensures size == 1.0 || size * rs.width == rs.fontSize * (rs.width + (if IsLeft(h) then -dx else dx))
  {
    var widthChange := if IsLeft(h) then -dx else dx;
    var scale := (rs.width + widthChange) / rs.width;
    var scaled := rs.fontSize * scale;
    if scaled >= 1.0 then scaled else 1.0
  }

  /** The layer as the resize leaves it: new font size; x follows the pointer only for a left
      handle and y only for a top handle, both measured from the recorded start. */
  function Resized(l: TextLayer, r: Resize, clientX: real, clientY: real): (l': TextLayer)
    requires r.start.width > 0.0
    ensures l' == l.(fontSize := l'.fontSize, x := l'.x, y := l'.y)
    ensures l'.fontSize == ResizedFontSize(r.start, r.handle, clientX - r.start.clientX)
    ensures l'.x == if IsLeft(r.handle) then r.start.textX + (clientX - r.start.clientX) else r.start.textX
    ensures l'.y == if IsTop(r.handle) then r.start.textY + (clientY - r.start.clientY) else r.start.textY
  {
    var dx := clientX - r.start.clientX;
    var dy := clientY - r.start.clientY;
    var newX := if IsLeft(r.handle) then r.start.textX + dx else r.start.textX;
    var newY := if IsTop(r.handle) then r.start.textY + dy else r.start.textY;
    l.(fontSize := ResizedFontSize(r.start, r.handle, dx), x := newX, y := newY)
  }

  /** `handleResizeMove`: only the layers with the resizing id change, and the selected layer
      mirrors the change when it is the one being resized. Without a resize nothing changes. */
  function ResizeMove(layers: seq<TextLayer>, selected: Option<TextLayer>, resize: Option<Resize>,
                      clientX: real, clientY: real): (r: (seq<TextLayer>, Option<TextLayer>))
    requires resize.Some? ==> resize.value.start.width > 0.0
    ensures resize.None? ==> r == (layers, selected)
    ensures |r.0| == |layers|
    ensures resize.Some? ==> forall i :: 0 <= i < |layers| ==>
      r.0[i] == if layers[i].id == resize.value.id then Resized(layers[i], resize.value, clientX, clientY) else layers[i]
    ensures resize.Some? && selected.Some? && selected.value.id == resize.value.id ==>
      r.1 == Some(Resized(selected.value, resize.value, clientX, clientY))
    ensures resize.Some? && (selected.None? || selected.value.id != resize.value.id) ==> r.1 == selected
  {
    match resize
    case None => (layers, selected)
    case Some(rz) =>
      var layers' := seq(|layers|, i requires 0 <= i < |layers| =>
        if layers[i].id == rz.id then Resized(layers[i], rz, clientX, clientY) else layers[i]);
      var selected' := if selected.Some? && selected.value.id == rz.id
        then Some(Resized(selected.value, rz, clientX, clientY)) else selected;
      (layers', selected')
  }

  /** After a resize every layer has a font size of at least 1 where it changed, and the
      layers with other ids are exactly as before. */
  lemma ResizeKeepsOthers(layers: seq<TextLayer>, rz: Resize, clientX: real, clientY: real, i: int)
    requires rz.start.width > 0.0 && 0 <= i < |layers|
    ensures var l' := ResizeMove(layers, None, Some(rz), clientX, clientY).0[i];
      && (layers[i].id != rz.id ==> l' == layers[i])
      && (layers[i].id == rz.id ==> l'.fontSize >= 1.0 && l'.text == layers[i].text && l'.id == layers[i].id)
      && (!IsLeft(rz.handle) ==> l'.x == (if layers[i].id == rz.id then rz.start.textX else layers[i].x))
  {
  }

  /** Every move of a resize is measured from the recorded start, so two successive moves
      leave the layers and the selection as one move to the last pointer does. */
  lemma ResizeMovesCompose(layers: seq<TextLayer>, selected: Option<TextLayer>, rz: Resize,
                           x1: real, y1: real, x2: real, y2: real)
    requires rz.start.width > 0.0
    ensures var first := ResizeMove(layers, selected, Some(rz), x1, y1);
      ResizeMove(first.0, first.1, Some(rz), x2, y2) == ResizeMove(layers, selected, Some(rz), x2, y2)
  {
    var first := ResizeMove(layers, selected, Some(rz), x1, y1);
    var twice := ResizeMove(first.0, first.1, Some(rz), x2, y2);
    var once := ResizeMove(layers, selected, Some(rz), x2, y2);
    forall i | 0 <= i < |layers|
      ensures twice.0[i] == once.0[i]
    {
      if layers[i].id == rz.id {
        ResizedOverrides(layers[i], rz, x1, y1, x2, y2);
      }
    }
    assert twice.0 == once.0;
    if selected.Some? && selected.value.id == rz.id {
      ResizedOverrides(selected.value, rz, x1, y1, x2, y2);
    }
  }

  /** A second resize step replaces the first: size and position depend only on the start. */
  lemma ResizedOverrides(l: TextLayer, rz: Resize, x1: real, y1: real, x2: real, y2: real)
    requires rz.start.width > 0.0
    ensures Resized(l, rz, x1, y1).id == l.id
    ensures Resized(Resized(l, rz, x1, y1), rz, x2, y2) == Resized(l, rz, x2, y2)
  {
  }

  /** The layer delete button: `layers.filter(l => l.id !== id)`. */
  function Delete(layers: seq<TextLayer>, id: int): (r: seq<TextLayer>)
    ensures |r| <= |layers|
    ensures forall l :: l in r ==> l in layers && l.id != id
    ensures forall l :: l in layers && l.id != id ==> l in r
  {
    if |layers| == 0 then []
    else if layers[0].id == id then Delete(layers[1..], id)
    else [layers[0]] + Delete(layers[1..], id)
  }

  /** Deleting keeps the remaining layers in their order: it distributes over concatenation. */
  lemma {:induction false} DeleteAppend(a: seq<TextLayer>, b: seq<TextLayer>, id: int)
    ensures Delete(a + b, id) == Delete(a, id) + Delete(b, id)
  {
    if |a| == 0 {
      assert a + b == b;
    } else {
      assert (a + b)[1..] == a[1..] + b;
      DeleteAppend(a[1..], b, id);
    }
  }

  /** Deleting an id that no layer has changes nothing. */
  lemma {:induction false} DeleteAbsent(layers: seq<TextLayer>, id: int)
    requires forall i :: 0 <= i < |layers| ==> layers[i].id != id
    ensures Delete(layers, id) == layers
  {
    if |layers| > 0 {
      DeleteAbsent(layers[1..], id);
      assert layers == [layers[0]] + layers[1..];
    }
  }

  /** Deleting the layer just added (under a fresh id) gives back the list as it was. */
  lemma AddThenDeleteRestores(layers: seq<TextLayer>, now: int, canvasWidth: real, canvasHeight: real)
    requires forall i :: 0 <= i < |layers| ==> layers[i].id != now
    ensures Delete(AddText(layers, true, now, canvasWidth, canvasHeight), now) == layers
  {
    var n := NewTextLayer(now, canvasWidth, canvasHeight);
    DeleteAppend(layers, [n], now);
    assert Delete([n], now) == Delete([], now) == [];
    DeleteAbsent(layers, now);
  }

  /** Deleting twice is deleting once. */
  lemma DeleteIdempotent(layers: seq<TextLayer>, id: int)
    ensures Delete(Delete(layers, id), id) == Delete(layers, id)
  {
  }
}
