/** Pointer positions turned into fractions of a horizontal strip, as the
    seek strip and the volume bar handlers compute them.  Page coordinates,
    element offsets and widths are plain reals here. */
module Geometry {

  /** `Math.min(1, Math.max(0, x))`. */
  function Clamp01(x: real): (r: real)
    ensures 0.0 <= r <= 1.0
    ensures 0.0 <= x <= 1.0 ==> r == x
    ensures x < 0.0 ==> r == 0.0
    ensures x > 1.0 ==> r == 1.0
  {
    if x < 0.0 then 0.0 else if x > 1.0 then 1.0 else x
  }

  /** `_seekPercentage`: how far across the seek strip the pointer is, as a
      fraction of the strip's width, clamped to [0,1].  `left` is the page
      offset of the element the handler was bound to. */
  function SeekPercentage(pageX: real, left: real, width: real): (r: real)
    requires width > 0.0
    ensures 0.0 <= r <= 1.0
    ensures left <= pageX <= left + width ==> r * width == pageX - left
    ensures pageX <= left ==> r == 0.0
    ensures pageX >= left + width ==> r == 1.0
  {
    Clamp01((pageX - left) / width)
  }

  /** The fixed offset both volume handlers subtract from the pointer's
      distance to the bar's left edge. */
  const VolumeOffset: real := 7.5

  /** The volume the click handler on the volume bar computes: the pointer's
      offset into the bar, less `VolumeOffset`, over the bar's width.
      It is NOT clamped: a click less than `VolumeOffset` into the bar gives
      a negative level, and one more than `VolumeOffset` past the bar's end a
      level above 1. */
  function VolumeClickLevel(pageX: real, left: real, width: real): (r: real)
    requires width > 0.0
    ensures r * width == pageX - left - VolumeOffset
    ensures pageX < left + VolumeOffset ==> r < 0.0
    ensures pageX > left + VolumeOffset + width ==> r > 1.0
  {
    (pageX - left - VolumeOffset) / width
  }

  /** The volume the drag handler computes: the click level clamped to [0,1]. */
  function VolumeDragLevel(pageX: real, left: real, width: real): (r: real)
    requires width > 0.0
    ensures 0.0 <= r <= 1.0
    ensures 0.0 <= VolumeClickLevel(pageX, left, width) <= 1.0 ==> r == VolumeClickLevel(pageX, left, width)
    ensures VolumeClickLevel(pageX, left, width) < 0.0 ==> r == 0.0
    ensures VolumeClickLevel(pageX, left, width) > 1.0 ==> r == 1.0
  {
    Clamp01(VolumeClickLevel(pageX, left, width))
  }
}
