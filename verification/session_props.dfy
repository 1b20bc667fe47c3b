/** Properties of the session that relate several transitions: prompt accumulation, the
    previous-mask feedback loop across decodes, the two resets, and the encode-once guard. */
module SessionProperties {
  import opened Base
  import Geometry
  import MaskSelect
  import opened Session

  /** After a decode reply, the cached prior mask is the slice at THE first maximal score,
      whichever way that index is found, and the session is no longer loading. */
  lemma DecodeCachesFirstMaxSlice(s: State, masks: MaskTensor, scores: seq<real>, im: Imaging, k: int)
    requires MaskSelect.IsFirstMax(scores, k)
    ensures var r := OnWorkerMessage(s, DecodeMaskResult(masks, scores), im);
      r.prevMaskArray == Some(im.sliceTensor(masks, k)) && !r.loading
  {
  }

  /** Worker replies other than a decode result leave the prompts and both masks alone, and no
      reply touches the prompts or the image. */
  lemma RepliesKeepPrompts(s: State, m: WorkerMessage, im: Imaging)
    ensures var r := OnWorkerMessage(s, m, im);
      && r.points == s.points && r.image == s.image && r.selectedObject == s.selectedObject
      && (!m.DecodeMaskResult? ==> r.prevMaskArray == s.prevMaskArray && r.mask == s.mask)
  {
  }

  /** Click, decode reply, Shift-click: the second request carries both points in click order
      and, as its prior mask, the candidate the first reply selected, with shape [1, 1, 256, 256]. */
  lemma SecondDecodeUsesFirstMask(s: State, e1: Click, e2: Click, view: Geometry.View,
                                  masks: MaskTensor, scores: seq<real>, im: Imaging)
    requires Geometry.NonDegenerate(view)
    requires s.imageEncoded && e2.shiftKey
    ensures
      var s1 := ImageClick(s, e1, view, false, false).state;
      var s2 := OnWorkerMessage(s1, DecodeMaskResult(masks, scores), im);
      var r := ImageClick(s2, e2, view, false, false);
      var best := im.sliceTensor(masks, MaskSelect.BestMaskIndex(scores));
      && r.sent == Some(DecodeMask(s1.points + [ClickPoint(e2, view)], Some(best), Some([1, 1, 256, 256])))
      && (!e1.shiftKey ==> r.state.points == [ClickPoint(e1, view), ClickPoint(e2, view)])
  {
  }

  /** After a mask reset the image stays encoded: the next click is decoded at once, with a
      single point (Shift or not, since the list is empty) and no prior mask. */
  lemma ResetMaskThenClick(s: State, e: Click, view: Geometry.View)
    requires Geometry.NonDegenerate(view) && s.imageEncoded
    ensures ImageClick(ResetMask(s), e, view, false, false).sent == Some(DecodeMask([ClickPoint(e, view)], None, None))
  {
    assert [] + [ClickPoint(e, view)] == [ClickPoint(e, view)];
  }

  /** A new image discards the encoding: the click that follows it is not decoded. */
  lemma NewImageBlocksClicks(s: State, url: string, e: Click, view: Geometry.View, isDragging: bool, blockMaskClick: bool)
    requires Geometry.NonDegenerate(view)
    ensures var s' := NewImage(s, url);
      ImageClick(s', e, view, isDragging, blockMaskClick) == Step(s', None)
  {
  }

  /** The reset a new image performs clears what the mask reset clears (except the selected
      object), and also the image and its encoding. */
  lemma NewImageResetsMore(s: State, url: string)
    ensures var n := NewImage(s, url); var m := ResetMask(s);
      && n.points == m.points && n.mask == m.mask && n.prevMaskArray == m.prevMaskArray
      && n.image.None? && !n.imageEncoded && m.imageEncoded == s.imageEncoded && m.image == s.image
  {
  }

  /** At the guard's next evaluation auto-encoding does not fire again: once it has fired the
      session is loading, and once an encode reply has arrived the image counts as encoded.
      A later decode reply can clear `loading` again; see `StaleReplyReEncodes`. */
  lemma AutoEncodeOnce(s: State, im: Imaging, d: real)
    ensures var r := AutoEncode(s, im); AutoEncode(r.state, im).sent.None?
    ensures AutoEncode(OnWorkerMessage(s, EncodeImageDone(d), im), im).sent.None?
  {
  }

  /** The whole happy path: mount, successful pong, new image loaded, auto-encode, encode done.
      Exactly one encode request is posted, and afterwards a click is decoded. */
  lemma StartupToFirstDecode(url: string, device: string, c: Canvas, im: Imaging, d: real, e: Click, view: Geometry.View)
    requires Geometry.NonDegenerate(view)
    ensures
      var s0 := Mount(url).state;
      var s1 := OnWorkerMessage(s0, Pong(true, device), im);
      var s2 := ImageLoaded(s1, c);
      var a := AutoEncode(s2, im);
      var s3 := OnWorkerMessage(a.state, EncodeImageDone(d), im);
      var r := ImageClick(s3, e, view, false, false);
      && a.sent == Some(EncodeImage(im.canvasToFloat32Array(im.resizeCanvas(c, ImageSize))))
      && AutoEncode(s3, im).sent.None?
      && r.sent == Some(DecodeMask([ClickPoint(e, view)], None, None))
  {
    var s0 := Mount(url).state;
    var s1 := OnWorkerMessage(s0, Pong(true, device), im);
    var s2 := ImageLoaded(s1, c);
    assert ShouldAutoEncode(s2);
    assert [] + [ClickPoint(e, view)] == [ClickPoint(e, view)];
  }

  /** There is no busy rejection: a click while a decode is still in flight posts another
      decode request, with the prior mask cached so far. */
  lemma ClickWhileLoadingStillDecodes(s: State, e: Click, view: Geometry.View)
    requires Geometry.NonDegenerate(view) && s.imageEncoded && s.loading
    ensures var r := ImageClick(s, e, view, false, false);
      r.sent.Some? && r.sent.value.DecodeMask? && r.sent.value.maskArray == s.prevMaskArray
  {
  }

  /** While the model is still loading (before a successful pong) a loaded image is not encoded. */
  lemma NoEncodeWhileModelLoads(url: string, c: Canvas, im: Imaging)
    ensures AutoEncode(ImageLoaded(Mount(url).state, c), im).sent.None?
  {
  }

  // Event sequences

  /** A user action, effect or worker reply, applied by `Apply`. */
  datatype Event =
    | Press(e: Click, isDragging: bool, blockMaskClick: bool)
    | Reply(m: WorkerMessage)
    | Loaded(c: Canvas)
    | AutoEncodeEffect
    | EncodeButton
    | ResetMaskButton
    | NewSource(url: string)
    | StatsButton

  /** The final state of a run and the messages it posted, in order. */
  datatype Trace = Trace(state: State, sent: seq<Request>)

  predicate IsEncodeDone(ev: Event) {
    ev.Reply? && ev.m.EncodeImageDone?
  }

  /** One event's transition. The encode button is taken to do nothing without an image, since
      what the page sends then depends on lib/imageutils. The page disables the encode button
      while loading or once the image is encoded, and the mask reset button while there is no
      mask; `Apply` accepts both in any state, so it admits more runs than the page does. */
  function Apply(s: State, ev: Event, view: Geometry.View, im: Imaging): (r: Step)
    requires Geometry.NonDegenerate(view)
    ensures ev.Press? ==> r == ImageClick(s, ev.e, view, ev.isDragging, ev.blockMaskClick)
    ensures ev.Reply? ==> r == Step(OnWorkerMessage(s, ev.m, im), None)
    ensures !ev.Press? && r.sent.Some? ==> !r.sent.value.DecodeMask?
  {
    match ev
    case Press(e, isDragging, blockMaskClick) => ImageClick(s, e, view, isDragging, blockMaskClick)
    case Reply(m) => Step(OnWorkerMessage(s, m, im), None)
    case Loaded(c) => Step(ImageLoaded(s, c), None)
    case AutoEncodeEffect => AutoEncode(s, im)
    case EncodeButton => if s.image.Some? then EncodeImageClick(s, im) else Step(s, None)
    case ResetMaskButton => Step(ResetMask(s), None)
    case NewSource(url) => Step(NewImage(s, url), None)
    case StatsButton => RequestStatsClick(s)
  }

  /** The events applied in order from `s`. */
  function Run(s: State, evs: seq<Event>, view: Geometry.View, im: Imaging): (r: Trace)
    requires Geometry.NonDegenerate(view)
    ensures |r.sent| <= |evs|
    ensures |evs| == 0 ==> r == Trace(s, [])
    decreases |evs|
  {
    if |evs| == 0 then Trace(s, [])
    else
      var st := Apply(s, evs[0], view, im);
      var rest := Run(st.state, evs[1..], view, im);
      Trace(rest.state, (if st.sent.Some? then [st.sent.value] else []) + rest.sent)
  }

  /** Only an encode reply marks an image encoded: every other event leaves an unencoded session
      unencoded, and no event posts a decode while it is. */
  lemma UnencodedStays(s: State, ev: Event, view: Geometry.View, im: Imaging)
    requires Geometry.NonDegenerate(view)
    requires !s.imageEncoded && !IsEncodeDone(ev)
    ensures var r := Apply(s, ev, view, im);
      !r.state.imageEncoded && (r.sent.Some? ==> !r.sent.value.DecodeMask?)
  {
  }

  /** However many events follow, none of them an `encodeImageDone` reply, an unencoded session
      posts no decode request and stays unencoded. */
  lemma {:induction false} NoDecodeUntilEncodeDone(s: State, evs: seq<Event>, view: Geometry.View, im: Imaging)
    requires Geometry.NonDegenerate(view)
    requires !s.imageEncoded
    requires forall i :: 0 <= i < |evs| ==> !IsEncodeDone(evs[i])
    ensures var r := Run(s, evs, view, im);
      !r.state.imageEncoded && forall k :: 0 <= k < |r.sent| ==> !r.sent[k].DecodeMask?
    decreases |evs|
  {
    if |evs| > 0 {
      var st := Apply(s, evs[0], view, im);
      UnencodedStays(s, evs[0], view, im);
      NoDecodeUntilEncodeDone(st.state, evs[1..], view, im);
    }
  }

  /** After a new image, no click is decoded until an `encodeImageDone` reply arrives, whatever
      clicks, replies and other events come first. */
  lemma NewImageBlocksDecodes(s: State, url: string, evs: seq<Event>, view: Geometry.View, im: Imaging)
    requires Geometry.NonDegenerate(view)
    requires forall i :: 0 <= i < |evs| ==> !IsEncodeDone(evs[i])
    ensures var r := Run(NewImage(s, url), evs, view, im);
      !r.state.imageEncoded && forall k :: 0 <= k < |r.sent| ==> !r.sent[k].DecodeMask?
  {
    NoDecodeUntilEncodeDone(NewImage(s, url), evs, view, im);
  }

  // Stale replies

  /** As the page is written: two clicks are posted; the first reply clears `loading`, which
      re-enables the new-image buttons; a new image loads and is auto-encoded; then the second,
      stale decode reply arrives. It clears `loading` again, so the guard posts a second encode,
      and the old image's mask becomes the prior mask for the new one. */
  lemma StaleReplyReEncodes(s0: State, e1: Click, e2: Click, view: Geometry.View, url: string, c: Canvas,
                            masks1: MaskTensor, scores1: seq<real>, masks2: MaskTensor, scores2: seq<real>, im: Imaging)
    requires Geometry.NonDegenerate(view) && s0.imageEncoded
    ensures
      var s1 := ImageClick(s0, e1, view, false, false).state;
      var s2 := ImageClick(s1, e2, view, false, false);
      var s3 := OnWorkerMessage(s2.state, DecodeMaskResult(masks1, scores1), im);
      var s4 := ImageLoaded(NewImage(s3, url), c);
      var a := AutoEncode(s4, im);
      var s5 := OnWorkerMessage(a.state, DecodeMaskResult(masks2, scores2), im);
      && s2.sent.Some? && !s3.loading && a.sent.Some?
      && !s5.imageEncoded && AutoEncode(s5, im).sent.Some?
      && s5.prevMaskArray == Some(im.sliceTensor(masks2, MaskSelect.BestMaskIndex(scores2)))
  {
  }

  /** The evidently intended handling: each reply is tagged with the image URL that was current
      when its request was posted, and an encode or decode reply for another image is dropped. */
  function OnWorkerMessageFor(s: State, requestedFor: string, m: WorkerMessage, im: Imaging): (r: State)
    ensures (m.EncodeImageDone? || m.DecodeMaskResult?) && requestedFor != s.imageUrl ==> r == s
    ensures requestedFor == s.imageUrl ==> r == OnWorkerMessage(s, m, im)
    ensures !m.EncodeImageDone? && !m.DecodeMaskResult? ==> r == OnWorkerMessage(s, m, im)
  {
    if (m.EncodeImageDone? || m.DecodeMaskResult?) && requestedFor != s.imageUrl then s
    else OnWorkerMessage(s, m, im)
  }

  /** The same sequence with tagged replies: the first reply is applied, the stale one is
      dropped, the session stays loading until its own encode reply, no second encode is
      posted and the new image gets no prior mask. */
  lemma StaleReplyDropped(s0: State, e1: Click, e2: Click, view: Geometry.View, url: string, c: Canvas,
                          masks1: MaskTensor, scores1: seq<real>, masks2: MaskTensor, scores2: seq<real>, im: Imaging)
    requires Geometry.NonDegenerate(view) && s0.imageEncoded && url != s0.imageUrl
    ensures
      var s1 := ImageClick(s0, e1, view, false, false).state;
      var s2 := ImageClick(s1, e2, view, false, false).state;
      var s3 := OnWorkerMessageFor(s2, s0.imageUrl, DecodeMaskResult(masks1, scores1), im);
      var s4 := ImageLoaded(NewImage(s3, url), c);
      var a := AutoEncode(s4, im);
      var s5 := OnWorkerMessageFor(a.state, s0.imageUrl, DecodeMaskResult(masks2, scores2), im);
      && s3.prevMaskArray == Some(im.sliceTensor(masks1, MaskSelect.BestMaskIndex(scores1)))
      && a.sent.Some? && s5.loading && AutoEncode(s5, im).sent.None? && s5.prevMaskArray.None?
  {
  }
}
