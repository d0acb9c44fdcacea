/**
 The vertical-alignment inversion applied to the resize-family queries: the
 GL textures are upside down with respect to the display, so a request to
 align at the top is placed as if it asked for the bottom, and vice versa.
 */
module Alignment {
  import opened GlTypes

  /** Exchanges TOP and BOTTOM and leaves every other alignment value alone. */
  function SwapVertical(a: Align): (r: Align)
    ensures a == Top <==> r == Bottom
    ensures a == Bottom <==> r == Top
    ensures a != Top && a != Bottom ==> r == a
  {
    if a == Top then Bottom
    else if a == Bottom then Top
    else a
  }

  /** The configuration the placement is computed from: the same as the
      query's, except for the swapped vertical alignment. */
  function FlipVertical(c: DisplayCfg): (r: DisplayCfg)
    ensures r.(align := c.align) == c
    ensures r.align.horizontal == c.align.horizontal
    ensures r.align.vertical == SwapVertical(c.align.vertical)
  {
    c.(align := c.align.(vertical := SwapVertical(c.align.vertical)))
  }

  /** The swap is an involution. */
  lemma SwapInvolution(a: Align)
    ensures SwapVertical(SwapVertical(a)) == a
  {
  }

  /** So is the configuration flip. */
  lemma FlipInvolution(c: DisplayCfg)
    ensures FlipVertical(FlipVertical(c)) == c
  {
  }
}
