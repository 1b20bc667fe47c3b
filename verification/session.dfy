/** The segmentation-session client of app/page.jsx as pure transitions over an explicit state:
    clicks become point prompts and decode requests, worker replies drive `loading`,
    `imageEncoded` and the cached previous mask, and two resets clear parts of the state.
    Messages to the worker are returned values instead of `postMessage` effects. */
module Session {
  import opened Base
  import Geometry
  import MaskSelect

  /** Every image is resized and padded to this model input size. */
  const ImageSize: Dims := Dims(1024, 1024)
  /** The decoder's low-resolution mask size. */
  const MaskSize: Dims := Dims(256, 256)

  const StatusEncodeImage: string := "Encode image"
  const StatusEncoding: string := "Encoding"
  const StatusDecoding: string := "Decoding"
  const StatusReady: string := "Ready. Click on image"
  const StatusLoadingModel: string := "Loading model"
  const StatusError: string := "Error (check JS console)"

  /** A click prompt in model input space; label 1 marks a positive (foreground) point. */
  datatype PromptPoint = PromptPoint(x: real, y: real, promptLabel: int)

  /** The decoder's batched candidate masks, `dims = [batch, count, width, height]`, flat data. */
  datatype MaskTensor = MaskTensor(batch: nat, count: nat, width: nat, height: nat, data: seq<real>)

  /** The image helpers of lib/imageutils, whose definitions are not part of this model; every
      transition that needs one receives them as this record of total functions. */
  datatype Imaging = Imaging(
    resizeCanvas: (Canvas, Dims) -> Canvas,
    canvasToFloat32Array: Canvas -> seq<real>,
    sliceTensor: (MaskTensor, int) -> seq<real>,
    float32ArrayToCanvas: (seq<real>, nat, nat) -> Canvas)

  /** Messages the page posts to the worker. */
  datatype Request =
    | Ping
    | EncodeImage(data: seq<real>)
    | DecodeMask(points: seq<PromptPoint>, maskArray: Option<seq<real>>, maskShape: Option<seq<nat>>)
    | RequestStats

  /** Messages the worker posts back; `Other` is any type the page does not handle. */
  datatype WorkerMessage =
    | Pong(success: bool, device: string)
    | DownloadInProgress
    | LoadingInProgress
    | EncodeImageDone(durationMs: real)
    | DecodeMaskResult(masks: MaskTensor, iouPredictions: seq<real>)
    | Stats(data: string)
    | Other(kind: string)

  /** The page's session state. `image` and `mask` are canvases, `prevMaskArray` is the selected
      low-resolution mask fed back to the next decode, `points` is the prompt list. */
  datatype State = State(
    device: Option<string>,
    loading: bool,
    imageEncoded: bool,
    status: string,
    image: Option<Canvas>,
    mask: Option<Canvas>,
    prevMaskArray: Option<seq<real>>,
    imageUrl: string,
    points: seq<PromptPoint>,
    selectedObject: Option<PromptPoint>,
    stats: Option<string>)

  /** A transition's new state and the message it posts, if any. */
  datatype Step = Step(state: State, sent: Option<Request>)

  /** A click or context-menu event on the canvas. */
  datatype Click = Click(clientX: real, clientY: real, shiftKey: bool)

  /** The state when the page mounts, after the worker is created and pinged. */
  function Mount(imageUrl: string): (r: Step)
    ensures r.sent == Some(Ping) && r.state.loading
    ensures !r.state.imageEncoded && r.state.image.None? && r.state.mask.None? && r.state.prevMaskArray.None?
    ensures r.state.points == [] && r.state.selectedObject.None? && r.state.status == "" && r.state.imageUrl == imageUrl
  {
    Step(State(None, true, false, "", None, None, None, imageUrl, [], None, None), Some(Ping))
  }

  /** The page accepts a click as a prompt only once the image is encoded and no text drag or
      post-drag click block is active. */
  predicate AcceptsClick(s: State, isDragging: bool, blockMaskClick: bool) {
    s.imageEncoded && !isDragging && !blockMaskClick
  }

  /** The prompt a click creates: the pointer mapped into model input space, label 1. */
  function ClickPoint(e: Click, view: Geometry.View): (p: PromptPoint)
    requires Geometry.NonDegenerate(view)
    ensures p.promptLabel == 1
    ensures Point(p.x, p.y) == Geometry.ConvertCoordinates(e.clientX, e.clientY, view, ImageSize)
  {
    var q := Geometry.ConvertCoordinates(e.clientX, e.clientY, view, ImageSize);
    PromptPoint(q.x, q.y, 1)
  }

  /** The request shape for a decode: the cached mask and its shape `[1, 1, 256, 256]` travel
      together, or neither does. */
  function DecodeRequest(points: seq<PromptPoint>, prevMaskArray: Option<seq<real>>): (r: Request)
    ensures r.DecodeMask? && r.points == points && r.maskArray == prevMaskArray
    ensures r.maskShape.Some? <==> prevMaskArray.Some?
    ensures r.maskShape.Some? ==> r.maskShape.value == [1, 1, MaskSize.w, MaskSize.h]
  {
    if prevMaskArray.Some? then
      DecodeMask(points, prevMaskArray, Some([1, 1, MaskSize.w, MaskSize.h]))
    else
      DecodeMask(points, None, None)
  }

  /** `imageClick`: guarded by `AcceptsClick`; Shift appends the new point, a plain click starts
      a new list; the updated list and the cached mask are sent for decoding. */
  function ImageClick(s: State, e: Click, view: Geometry.View, isDragging: bool, blockMaskClick: bool): (r: Step)
    requires Geometry.NonDegenerate(view)
    ensures !AcceptsClick(s, isDragging, blockMaskClick) ==> r == Step(s, None)
    ensures AcceptsClick(s, isDragging, blockMaskClick) ==>
      var p := ClickPoint(e, view);
      && (e.shiftKey ==> r.state.points == s.points + [p])
      && (!e.shiftKey ==> r.state.points == [p])
      && r.sent == Some(DecodeRequest(r.state.points, s.prevMaskArray))
      && r.state == s.(points := r.state.points, loading := true, status := StatusDecoding, selectedObject := Some(p))
  {
    if !AcceptsClick(s, isDragging, blockMaskClick) then Step(s, None)
    else
      var point := ClickPoint(e, view);
      var points := if e.shiftKey then s.points + [point] else [point];
      var s' := s.(points := points, loading := true, status := StatusDecoding, selectedObject := Some(point));
      Step(s', Some(DecodeRequest(points, s.prevMaskArray)))
  }

  /** `encodeImageClick`: posts the resized image as a float array and marks the session busy. */
  function EncodeImageClick(s: State, im: Imaging): (r: Step)
    requires s.image.Some?
    ensures r.sent == Some(EncodeImage(im.canvasToFloat32Array(im.resizeCanvas(s.image.value, ImageSize))))
    ensures r.state == s.(loading := true, status := StatusEncoding)
  {
    var data := im.canvasToFloat32Array(im.resizeCanvas(s.image.value, ImageSize));
    Step(s.(loading := true, status := StatusEncoding), Some(EncodeImage(data)))
  }

  /** The auto-encode guard: an image is present, it is not yet encoded, and nothing is loading. */
  predicate ShouldAutoEncode(s: State) {
    s.image.Some? && !s.imageEncoded && !s.loading
  }

  /** The auto-encode effect: encodes exactly when `ShouldAutoEncode` holds, and otherwise does nothing. */
  function AutoEncode(s: State, im: Imaging): (r: Step)
    ensures r.sent.Some? <==> ShouldAutoEncode(s)
    ensures !ShouldAutoEncode(s) ==> r.state == s
    ensures ShouldAutoEncode(s) ==> r == EncodeImageClick(s, im)
  {
    if ShouldAutoEncode(s) then EncodeImageClick(s, im) else Step(s, None)
  }

  /** `handleDecodingResults`: keeps the candidate at the best score, caches its slice as the next
      prior mask and shows it, rendered at mask size and resized to the image size. */
  function HandleDecodingResults(s: State, masks: MaskTensor, scores: seq<real>, im: Imaging): (r: State)
    ensures r.prevMaskArray == Some(im.sliceTensor(masks, MaskSelect.BestMaskIndex(scores)))
    ensures r.mask == Some(im.resizeCanvas(im.float32ArrayToCanvas(r.prevMaskArray.value, masks.width, masks.height), ImageSize))
    ensures r == s.(mask := r.mask, prevMaskArray := r.prevMaskArray)
  {
    var best := MaskSelect.BestMaskIndex(scores);
    var bestMaskArray := im.sliceTensor(masks, best);
    var bestMaskCanvas := im.resizeCanvas(im.float32ArrayToCanvas(bestMaskArray, masks.width, masks.height), ImageSize);
    s.(mask := Some(bestMaskCanvas), prevMaskArray := Some(bestMaskArray))
  }

  /** `onWorkerMessage`: the state change each worker reply causes. */
  function OnWorkerMessage(s: State, m: WorkerMessage, im: Imaging): (r: State)
    ensures m.Pong? && m.success ==> r == s.(loading := false, device := Some(m.device), status := StatusEncodeImage)
    ensures m.Pong? && !m.success ==> r == s.(status := StatusError)
    ensures m.DownloadInProgress? || m.LoadingInProgress? ==> r == s.(loading := true, status := StatusLoadingModel)
    ensures m.EncodeImageDone? ==> r == s.(imageEncoded := true, loading := false, status := StatusReady)
    ensures m.DecodeMaskResult? ==>
      r == HandleDecodingResults(s, m.masks, m.iouPredictions, im).(loading := false, status := StatusReady)
    ensures m.Stats? ==> r == s.(stats := Some(m.data))
    ensures m.Other? ==> r == s
  {
    match m
    case Pong(success, device) =>
      if success then s.(loading := false, device := Some(device), status := StatusEncodeImage)
      else s.(status := StatusError)
    case DownloadInProgress => s.(loading := true, status := StatusLoadingModel)
    case LoadingInProgress => s.(loading := true, status := StatusLoadingModel)
    case EncodeImageDone(_) => s.(imageEncoded := true, loading := false, status := StatusReady)
    case DecodeMaskResult(masks, scores) =>
      HandleDecodingResults(s, masks, scores, im).(loading := false, status := StatusReady)
    case Stats(data) => s.(stats := Some(data))
    case Other(_) => s
  }

  /** `handleRequestStats`: asks the worker for its statistics; the state is untouched. */
  function RequestStatsClick(s: State): (r: Step)
    ensures r.state == s && r.sent == Some(RequestStats)
  {
    Step(s, Some(RequestStats))
  }

  /** `handleResetMask`: forgets the mask, the cached prior mask, the selected object and the
      prompts, and keeps the image and its encoding. */
  function ResetMask(s: State): (r: State)
    ensures r.mask.None? && r.prevMaskArray.None? && r.selectedObject.None? && r.points == []
    ensures r.image == s.image && r.imageEncoded == s.imageEncoded && r.loading == s.loading
    ensures r == s.(mask := None, prevMaskArray := None, selectedObject := None, points := [])
  {
    s.(mask := None, prevMaskArray := None, selectedObject := None, points := [])
  }

  /** `resetState`: clears everything tied to the current image, including its encoding. */
  function ResetState(s: State): (r: State)
    ensures r.points == [] && r.image.None? && r.mask.None? && r.prevMaskArray.None? && !r.imageEncoded
    ensures r == s.(points := [], image := None, mask := None, prevMaskArray := None, imageEncoded := false)
  {
    s.(points := [], image := None, mask := None, prevMaskArray := None, imageEncoded := false)
  }

  /** `handleFileUpload` / `handleUrl`: a new image source resets the image state and asks for encoding. */
  function NewImage(s: State, url: string): (r: State)
    ensures r == ResetState(s).(status := StatusEncodeImage, imageUrl := url)
  {
    ResetState(s).(status := StatusEncodeImage, imageUrl := url)
  }

  /** The image-load effect's outcome: the padded square canvas becomes the current image. */
  function ImageLoaded(s: State, c: Canvas): (r: State)
    ensures r == s.(image := Some(c))
  {
    s.(image := Some(c))
  }
}
