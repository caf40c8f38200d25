/** `AutoFitTextureView`: a view that keeps a requested aspect ratio. Its
    two ratio fields are validated by `setAspectRatio`, and `onMeasure`
    shrinks the available size to that ratio. */
module AutoFitTextureView {

  import Arith

  /** Outcome of `setAspectRatio`: normal return, or the
      `IllegalArgumentException` it throws. */
  datatype Outcome = Ok | IllegalArgument(message: string)

  /** The integer rule of `onMeasure` for ratio (ratioWidth, ratioHeight)
      and available size (width, height), as sizes from `MeasureSpec.getSize`
      (never negative). */
  function Measure(ratioWidth: int, ratioHeight: int, width: int, height: int): (m: (int, int))
    requires ratioWidth >= 0 && ratioHeight >= 0 && width >= 0 && height >= 0
    ensures ratioWidth == 0 || ratioHeight == 0 ==> m == (width, height)
    ensures m.0 == width || m.1 == height
    ensures 0 <= m.0 <= width && 0 <= m.1 <= height
  {
    if 0 == ratioWidth || 0 == ratioHeight then (width, height)
    else
      var fitWidth := height * ratioWidth / ratioHeight;
      Arith.DivFloor(height * ratioWidth, ratioHeight);
      if width < fitWidth then
        WidthBoundFitsHeight(ratioWidth, ratioHeight, width, height);
        (width, width * ratioHeight / ratioWidth)
      else
        (fitWidth, height)
  }

  /** When the width is the binding side, the height derived from it fits. */
  lemma WidthBoundFitsHeight(ratioWidth: int, ratioHeight: int, width: int, height: int)
    requires ratioWidth > 0 && ratioHeight > 0 && width >= 0 && height >= 0
    requires width < height * ratioWidth / ratioHeight
    ensures 0 <= width * ratioHeight / ratioWidth <= height
  {
    var fitWidth := height * ratioWidth / ratioHeight;
    Arith.DivFloor(height * ratioWidth, ratioHeight);
    Arith.MulMonotone(width + 1, fitWidth, ratioHeight);
    assert (width + 1) * ratioHeight == width * ratioHeight + ratioHeight;
    Arith.DivFloor(width * ratioHeight, ratioWidth);
    Arith.DivMonotone(width * ratioHeight, height * ratioWidth, ratioWidth);
    Arith.MulDivCancel(height, ratioWidth);
  }

  /** With a positive ratio the measured size keeps the ratio up to
      truncation. The width is kept exactly when a width one larger would
      still fit the ratio-derived width, and then the height is the
      ratio-derived height rounded down. Otherwise the height is kept and
      the width is the ratio-derived width rounded down. */
  lemma MeasureKeepsRatio(ratioWidth: int, ratioHeight: int, width: int, height: int)
    requires ratioWidth > 0 && ratioHeight > 0 && width >= 0 && height >= 0
    ensures var m := Measure(ratioWidth, ratioHeight, width, height);
      (width + 1) * ratioHeight <= height * ratioWidth ==>
        m.0 == width && m.1 * ratioWidth <= width * ratioHeight < (m.1 + 1) * ratioWidth
    ensures var m := Measure(ratioWidth, ratioHeight, width, height);
      (width + 1) * ratioHeight > height * ratioWidth ==>
        m.1 == height && m.0 * ratioHeight <= height * ratioWidth < (m.0 + 1) * ratioHeight
  {
    var m := Measure(ratioWidth, ratioHeight, width, height);
    var heightArea, widthArea := height * ratioWidth, width * ratioHeight;
    var fitWidth, fitHeight := heightArea / ratioHeight, widthArea / ratioWidth;
    Arith.DivFloor(heightArea, ratioHeight);
    Arith.DivFloor(widthArea, ratioWidth);
    assert (width + 1) * ratioHeight == widthArea + ratioHeight;
    assert m == if width < fitWidth then (width, fitHeight) else (fitWidth, height);
    if width < fitWidth {
      Arith.MulMonotone(width + 1, fitWidth, ratioHeight);
      assert (fitHeight + 1) * ratioWidth == fitHeight * ratioWidth + ratioWidth;
    } else {
      Arith.MulMonotone(fitWidth + 1, width + 1, ratioHeight);
      assert (fitWidth + 1) * ratioHeight == fitWidth * ratioHeight + ratioHeight;
    }
  }

  /** Only the ratio matters: (k*rw, k*rh) measures like (rw, rh), so
      `setAspectRatio(2, 3)` and `setAspectRatio(4, 6)` give the same result. */
  lemma MeasureScaleInvariant(ratioWidth: int, ratioHeight: int, width: int, height: int, k: int)
    requires ratioWidth >= 0 && ratioHeight >= 0 && width >= 0 && height >= 0 && k > 0
    ensures k * ratioWidth >= 0 && k * ratioHeight >= 0
    ensures Measure(k * ratioWidth, k * ratioHeight, width, height) == Measure(ratioWidth, ratioHeight, width, height)
  {
    if ratioWidth > 0 && ratioHeight > 0 {
      Arith.DivCancel(height * ratioWidth, ratioHeight, k);
      assert height * (k * ratioWidth) == (height * ratioWidth) * k;
      assert k * ratioHeight == ratioHeight * k;
      Arith.DivCancel(width * ratioHeight, ratioWidth, k);
      assert width * (k * ratioHeight) == (width * ratioHeight) * k;
      assert k * ratioWidth == ratioWidth * k;
    } else {
      assert k * ratioWidth == 0 || k * ratioHeight == 0;
    }
  }

  /** The example of the `setAspectRatio` documentation. */
  lemma TwoThreeIsFourSix(width: int, height: int)
    requires width >= 0 && height >= 0
    ensures Measure(4, 6, width, height) == Measure(2, 3, width, height)
  {
    MeasureScaleInvariant(2, 3, width, height, 2);
  }

  class AutoFitTextureView {
    /** `mRatioWidth`. */
    var ratioWidth: int
    /** `mRatioHeight`. */
    var ratioHeight: int

    /** `setAspectRatio` never stores a negative component. */
    ghost predicate Valid()
      reads this
    {
      ratioWidth >= 0 && ratioHeight >= 0
    }

    /** A new view has ratio (0, 0): no constraint. */
    constructor ()
      ensures Valid() && ratioWidth == 0 && ratioHeight == 0
    {
      ratioWidth := 0;
      ratioHeight := 0;
    }

    /** `setAspectRatio`: a negative component is rejected and nothing is
        stored; otherwise both are stored as given, (0, 0) included. */
    method SetAspectRatio(width: int, height: int) returns (outcome: Outcome)
      requires Valid()
      modifies this
      ensures Valid()
      ensures outcome.IllegalArgument? <==> width < 0 || height < 0
      ensures outcome.IllegalArgument? ==>
                ratioWidth == old(ratioWidth) && ratioHeight == old(ratioHeight)
      ensures outcome.Ok? ==> ratioWidth == width && ratioHeight == height
    {
      if width < 0 || height < 0 {
        return IllegalArgument("Size cannot be negative.");
      }
      ratioWidth := width;
      ratioHeight := height;
      outcome := Ok;
    }

    /** `onMeasure` on the sizes of the two measure specs: the dimension
        passed to `setMeasuredDimension`. */
    method OnMeasure(widthSize: int, heightSize: int) returns (measuredWidth: int, measuredHeight: int)
      requires Valid() && widthSize >= 0 && heightSize >= 0
      ensures (measuredWidth, measuredHeight) == Measure(ratioWidth, ratioHeight, widthSize, heightSize)
      ensures measuredWidth <= widthSize && measuredHeight <= heightSize
      ensures measuredWidth == widthSize || measuredHeight == heightSize
    {
      var measured := Measure(ratioWidth, ratioHeight, widthSize, heightSize);
      measuredWidth, measuredHeight := measured.0, measured.1;
    }
  }

  /** Before any `setAspectRatio`, a view measures to exactly the space it is
      given; a rejected call keeps it that way. */
  method FreshViewMeasuresAvailable(widthSize: int, heightSize: int)
    returns (rejected: Outcome, measuredWidth: int, measuredHeight: int)
    requires widthSize >= 0 && heightSize >= 0
    ensures rejected.IllegalArgument?
    ensures measuredWidth == widthSize && measuredHeight == heightSize
  {
    var view := new AutoFitTextureView();
    rejected := view.SetAspectRatio(-1, 3);
    measuredWidth, measuredHeight := view.OnMeasure(widthSize, heightSize);
  }
}
