/** `hooks/useResize.ts`: the resize form's width/height state with an aspect-ratio lock
    (`useResize`) and the trim form's start/end state (`useTrim`). */
module Resize {
  import opened Wrappers
  import Rounding

  datatype ResizeState = ResizeState(width: int, height: int, ratio: bool)

  /** `Partial<ResizeState>`: the fields an update mentions. */
  datatype ResizePatch = ResizePatch(width: Option<int>, height: Option<int>, ratio: Option<bool>)

  datatype Preset = Preset(caption: string, width: int, height: int)

  /** `PRESETS`, the sizes `useResize` offers: three distinct captions (the source's
      `label`), each a landscape size that is a valid initial size for the hook. */
  function Presets(): (r: seq<Preset>)
    ensures |r| == 3
    ensures forall i :: 0 <= i < |r| ==> r[i].width > r[i].height > 0
    ensures forall i, j :: 0 <= i < j < |r| ==> r[i].caption != r[j].caption
  {
    [Preset("1080p", 1920, 1080), Preset("720p", 1280, 720), Preset("Standard", 800, 600)]
  }

  /** `{ ...prev, ...updates }`. */
  function Merged(prev: ResizeState, updates: ResizePatch): ResizeState {
    ResizeState(updates.width.GetOr(prev.width), updates.height.GetOr(prev.height), updates.ratio.GetOr(prev.ratio))
  }

  /** The state `updateState` moves to. With the lock on and only one dimension given, the
      other is `Math.round` of it scaled by the initial aspect ratio; otherwise the update
      is a plain overwrite. */
  function NextState(prev: ResizeState, updates: ResizePatch, initialWidth: int, initialHeight: int): (r: ResizeState)
    requires initialWidth > 0 && initialHeight > 0
    ensures r.ratio == updates.ratio.GetOr(prev.ratio)
    ensures !r.ratio ==> r == Merged(prev, updates)
    ensures updates.width.Some? == updates.height.Some? ==> r == Merged(prev, updates)
    ensures r.ratio && updates.width.Some? && updates.height.None? ==>
      r.width == updates.width.value &&
      2 * r.height * initialWidth <= 2 * r.width * initialHeight + initialWidth < 2 * (r.height + 1) * initialWidth
    ensures r.ratio && updates.height.Some? && updates.width.None? ==>
      r.height == updates.height.value &&
      2 * r.width * initialHeight <= 2 * r.height * initialWidth + initialHeight < 2 * (r.width + 1) * initialHeight
  {
    var merged := Merged(prev, updates);
    if merged.ratio && updates.width.Some? && updates.height.None? then
      merged.(height := Rounding.Round(merged.width * initialHeight, initialWidth))
    else if merged.ratio && updates.height.Some? && updates.width.None? then
      merged.(width := Rounding.Round(merged.height * initialWidth, initialHeight))
    else merged
  }

  /** The locked height is the integer nearest to `width / aspectRatio`. */
  lemma LockedHeightIsNearest(width: int, initialWidth: int, initialHeight: int)
    requires initialWidth > 0 && initialHeight > 0
    ensures var h := Rounding.Round(width * initialHeight, initialWidth);
      var exact := width as real / (initialWidth as real / initialHeight as real);
      h as real - 0.5 <= exact < h as real + 0.5
  {
    var h := Rounding.Round(width * initialHeight, initialWidth);
    var iw, ih := initialWidth as real, initialHeight as real;
    var n := (width * initialHeight) as real;
    assert width as real / (iw / ih) == n / iw;
    assert 2 * h * initialWidth <= 2 * (width * initialHeight) + initialWidth < 2 * (h + 1) * initialWidth;
    assert (h as real - 0.5) * iw <= n < (h as real + 0.5) * iw;
    RealDivBounds(n, iw, h as real - 0.5, h as real + 0.5);
  }

  lemma RealDivBounds(x: real, y: real, lo: real, hi: real)
    requires y > 0.0 && lo * y <= x < hi * y
    ensures lo <= x / y < hi
  {
    var q := x / y;
    assert q * y == x;
    assert (q - lo) * y >= 0.0;
    assert (hi - q) * y > 0.0;
  }

  /** `useResize(initialWidth, initialHeight)`; a caller that leaves the arguments out gets
      800 by 600, which is `Presets()[2]`. */
  class ResizeHook {
    const initialWidth: int
    const initialHeight: int
    var state: ResizeState

    constructor (initialWidth: int, initialHeight: int)
      requires initialWidth > 0 && initialHeight > 0
      ensures this.initialWidth == initialWidth && this.initialHeight == initialHeight
      ensures state == ResizeState(initialWidth, initialHeight, false)
    {
      this.initialWidth := initialWidth;
      this.initialHeight := initialHeight;
      state := ResizeState(initialWidth, initialHeight, false);
    }

    ghost predicate Valid()
      reads this
    {
      initialWidth > 0 && initialHeight > 0
    }

    /** `aspectRatio`, fixed by the initial dimensions. */
    function AspectRatio(): real
      reads this
      requires Valid()
    {
      initialWidth as real / initialHeight as real
    }

    method UpdateState(updates: ResizePatch)
      requires Valid()
      modifies this
      ensures Valid()
      ensures state == NextState(old(state), updates, initialWidth, initialHeight)
    {
      state := NextState(state, updates, initialWidth, initialHeight);
    }

    /** `setDimensions(width, height)`: both dimensions, the lock flag kept, no ratio applied. */
    method SetDimensions(width: int, height: int)
      requires Valid()
      modifies this
      ensures Valid()
      ensures state == ResizeState(width, height, old(state).ratio)
    {
      state := state.(width := width, height := height);
    }
  }

  datatype TrimState = TrimState(start: real, end: real)

  datatype TrimPatch = TrimPatch(start: Option<real>, end: Option<real>)

  /** `useTrim(initialStart, initialEnd)`: neither setter checks `start < end`. A caller
      that leaves the arguments out gets the empty range 0 to 0. */
  class TrimHook {
    var state: TrimState

    constructor (initialStart: real, initialEnd: real)
      ensures state == TrimState(initialStart, initialEnd)
    {
      state := TrimState(initialStart, initialEnd);
    }

    method UpdateState(updates: TrimPatch)
      modifies this
      ensures state == TrimState(updates.start.GetOr(old(state).start), updates.end.GetOr(old(state).end))
    {
      state := TrimState(updates.start.GetOr(state.start), updates.end.GetOr(state.end));
    }

    method SetTrimRange(start: real, end: real)
      modifies this
      ensures state == TrimState(start, end)
    {
      state := TrimState(start, end);
    }
  }
}
