/**
 * The popup sizing rule of `Popup.prototype.setDimensions`: after an image has
 * loaded, the popup takes the image's natural size with the caption's height added
 * underneath; a missing natural dimension falls back to the popup's current inline
 * style, read as a pixel count (an unset style counts as 0).
 */
module Layout {
  import opened Wrappers

  /** A popup's inline width and height in pixels. */
  datatype Size = Size(width: nat, height: nat)

  /**
   * Popup size after a load. `naturalWidth`/`naturalHeight` are the loaded image's
   * natural dimensions (0 when absent), `styleWidth`/`styleHeight` the popup's
   * current inline style (`None` when unset or unparsable), `labelHeight` the
   * rendered height of the caption.
   */
  function SetDimensions(naturalWidth: nat, naturalHeight: nat,
                         styleWidth: Option<nat>, styleHeight: Option<nat>,
                         labelHeight: nat): (r: Size)
    ensures naturalWidth != 0 ==> r.width == naturalWidth
    ensures naturalWidth == 0 ==> r.width == styleWidth.GetOr(0)
    ensures naturalHeight != 0 ==> r.height == naturalHeight + labelHeight
    ensures naturalHeight == 0 ==> r.height == styleHeight.GetOr(0)
  {
    var width := if naturalWidth != 0 then naturalWidth else styleWidth.GetOr(0);
    var height := if naturalHeight != 0 then naturalHeight + labelHeight else styleHeight.GetOr(0);
    Size(width, height)
  }

  /** Once the image has both natural dimensions, the previous style plays no part. */
  lemma NaturalSizeIgnoresStyle(w: nat, h: nat, a: Option<nat>, b: Option<nat>,
                                c: Option<nat>, d: Option<nat>, caption: nat)
    requires w != 0 && h != 0
    ensures SetDimensions(w, h, a, b, caption) == SetDimensions(w, h, c, d, caption)
  {
  }

  /** The caption height changes the result exactly when the image has a height. */
  lemma LabelCountsOnlyWithImage(w: nat, h: nat, a: Option<nat>, b: Option<nat>,
                                 caption1: nat, caption2: nat)
    ensures SetDimensions(w, h, a, b, caption1) == SetDimensions(w, h, a, b, caption2)
        <==> h == 0 || caption1 == caption2
  {
  }

  /** A load with no natural size keeps the popup at the size it already has. */
  lemma EmptyImageKeepsSize(s: Size, caption: nat)
    ensures SetDimensions(0, 0, Some(s.width), Some(s.height), caption) == s
  {
  }

  /** Re-applying the same image to a popup already sized for it changes nothing. */
  lemma SetDimensionsStable(w: nat, h: nat, a: Option<nat>, b: Option<nat>, caption: nat)
    ensures var s := SetDimensions(w, h, a, b, caption);
            SetDimensions(w, h, Some(s.width), Some(s.height), caption) == s
  {
  }

  /** A 400 x 300 image under a 20-pixel caption gives a 400 x 320 popup. */
  lemma CaptionExample()
    ensures SetDimensions(400, 300, None, None, 20) == Size(400, 320)
  {
  }
}
