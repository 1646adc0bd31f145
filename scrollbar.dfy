/** ControlScrollbar: a vertical scrollbar whose progress is clamped into [0, total - covered]. */
module Scrollbar {
  import opened Geometry

  /** The mouse buttons SDL reports. */
  datatype MouseButton = LeftButton | MiddleButton | RightButton | ExtraButton(index: int)

  /**
   * The float the scrollbar scrolls. The scrollbar keeps a reference to it,
   * so its owner sees every change.
   */
  class ProgressCell {
    var value: real

    constructor (value: real)
      ensures this.value == value
    {
      this.value := value;
    }
  }

  /** The progress after the pointer travels dy while dragging the bar: the travel is scaled by total / covered. */
  function Scrolled(p: real, dy: real, total: real, covered: real): real
    requires covered > 0.0
  {
    p + dy * total / covered
  }

  function Clamp(v: real, lo: real, hi: real): real {
    Min(hi, Max(lo, v))
  }

  /**
   * The bar inside the track rect: it keeps the track's left and right, starts
   * progress * covered / total below the track's top and is height * covered / total tall.
   */
  function BarRect(track: Rectf, progress: real, covered: real, total: real): (bar: Rectf)
    requires total > 0.0 && covered >= 0.0 && track.Width() >= 0.0 && track.Height() >= 0.0
    ensures bar.Left() == track.Left() && bar.Right() == track.Right()
    ensures bar.Top() == track.Top() + progress * covered / total
    ensures bar.Height() == track.Height() * covered / total
  {
    var top := track.Top() + progress * covered / total;
    assert track.Height() * covered / total >= 0.0 by {
      assert track.Height() * covered >= 0.0;
    }
    FromEdges(track.Left(), top, track.Right(), top + track.Height() * covered / total)
  }

  /** When the track is as tall as the covered region, a clamped progress keeps the bar inside the track. */
  lemma BarStaysInsideTrack(track: Rectf, progress: real, covered: real, total: real)
    requires covered > 0.0 && total >= covered && track.Width() >= 0.0 && track.Height() == covered
    requires 0.0 <= progress <= total - covered
    ensures var bar := BarRect(track, progress, covered, total);
      track.Top() <= bar.Top() && bar.Bottom() <= track.Bottom()
  {
    BarArithmetic(progress, covered, total);
  }

  /** The bar's offset is non-negative and offset plus height never exceeds the covered region. */
  lemma BarArithmetic(p: real, c: real, t: real)
    requires c > 0.0 && t >= c && 0.0 <= p <= t - c
    ensures p * c / t >= 0.0 && p * c / t + c * c / t <= c
  {
    assert p * c >= 0.0;
    assert p * c / t + c * c / t == (p + c) * c / t;
    MulLeDiv(p + c, t, c);
  }

  lemma MulLeDiv(a: real, b: real, c: real)
    requires 0.0 <= a <= b && b > 0.0 && c >= 0.0
    ensures a * c / b <= c
  {
    assert a * c <= b * c;
    assert a * c / b <= b * c / b;
  }

  class ControlScrollbar {
    const mouseWheelSpeed: real
    var scrolling: bool
    var hovering: bool
    var totalRegion: real
    const coveredRegion: real
    const progress: ProgressCell
    var rect: Rectf
    var lastMousePos: real

    /** The total region is at least the covered one and the track has a non-negative size. */
    ghost predicate Valid()
      reads this
    {
      totalRegion >= coveredRegion && rect.Width() >= 0.0 && rect.Height() >= 0.0
    }

    /** Shares progress with its owner; a total region smaller than the covered one is raised to it. */
    constructor (totalRegion: real, coveredRegion: real, progress: ProgressCell, mouseWheelSpeed: real)
      ensures Valid() && this.progress == progress && this.coveredRegion == coveredRegion
      ensures this.totalRegion == Max(totalRegion, coveredRegion)
      ensures !scrolling && !hovering && this.mouseWheelSpeed == mouseWheelSpeed
    {
      this.mouseWheelSpeed := mouseWheelSpeed;
      scrolling := false;
      hovering := false;
      this.totalRegion := totalRegion;
      this.coveredRegion := coveredRegion;
      this.progress := progress;
      rect := Rectf(Vec(0.0, 0.0), Vec(0.0, 0.0), 0.0);
      lastMousePos := 0.0;
      new;
      if this.totalRegion < this.coveredRegion {
        this.totalRegion := this.coveredRegion;
      }
    }

    method SetRect(r: Rectf)
      requires Valid() && r.Width() >= 0.0 && r.Height() >= 0.0
      modifies this
      ensures Valid() && rect == r
      ensures scrolling == old(scrolling) && hovering == old(hovering) && totalRegion == old(totalRegion)
      ensures lastMousePos == old(lastMousePos)
    {
      rect := r;
    }

    /**
     * The bar spans the track's width; when the track is as tall as the
     * covered region and the progress is in range, it lies inside the track.
     */
    function GetBarRect(): (bar: Rectf)
      reads this, progress
      requires Valid() && totalRegion > 0.0 && coveredRegion >= 0.0
      ensures bar.Left() == rect.Left() && bar.Right() == rect.Right()
      ensures coveredRegion > 0.0 && rect.Height() == coveredRegion && 0.0 <= progress.value <= totalRegion - coveredRegion ==>
        rect.Top() <= bar.Top() && bar.Bottom() <= rect.Bottom()
    {
      var bar := BarRect(rect, progress.value, coveredRegion, totalRegion);
      if coveredRegion > 0.0 && rect.Height() == coveredRegion && 0.0 <= progress.value <= totalRegion - coveredRegion then
        BarStaysInsideTrack(rect, progress.value, coveredRegion, totalRegion);
        bar
      else
        bar
    }

    /** Releasing any button stops scrolling; the event is never consumed. */
    method OnMouseButtonUp(button: MouseButton) returns (handled: bool)
      requires Valid()
      modifies this
      ensures Valid() && !handled && !scrolling
      ensures hovering == old(hovering) && lastMousePos == old(lastMousePos) && rect == old(rect)
      ensures totalRegion == old(totalRegion)
    {
      scrolling := false;
      return false;
    }

    /** A left press on the bar starts scrolling and is consumed; anything else is ignored. */
    method OnMouseButtonDown(button: MouseButton, mouse: Vec) returns (handled: bool)
      requires Valid() && (button == LeftButton ==> totalRegion > 0.0 && coveredRegion >= 0.0)
      modifies this
      ensures Valid() && totalRegion == old(totalRegion) && rect == old(rect)
      ensures handled <==> button == LeftButton && old(GetBarRect().ContainsPoint(mouse))
      ensures scrolling == (old(scrolling) || handled)
      ensures hovering == old(hovering) && lastMousePos == old(lastMousePos)
    {
      if button == LeftButton {
        if GetBarRect().ContainsPoint(mouse) {
          scrolling := true;
          return true;
        } else {
          return false;
        }
      } else {
        return false;
      }
    }

    /**
     * Records hover state and pointer height; while scrolling, moves the
     * progress by the pointer's travel scaled by total / covered, clamped.
     */
    method OnMouseMotion(mouse: Vec) returns (handled: bool)
      requires Valid() && coveredRegion > 0.0
      modifies this, progress
      ensures Valid() && totalRegion == old(totalRegion) && rect == old(rect) && scrolling == old(scrolling)
      ensures hovering == old(GetBarRect()).ContainsPoint(mouse)
      ensures lastMousePos == mouse.y
      ensures handled == scrolling
      ensures !scrolling ==> progress.value == old(progress.value)
      ensures scrolling ==>
        progress.value == Clamp(Scrolled(old(progress.value), mouse.y - old(lastMousePos), totalRegion, coveredRegion),
                                0.0, totalRegion - coveredRegion)
      ensures scrolling ==> 0.0 <= progress.value <= totalRegion - coveredRegion
    {
      var bar := GetBarRect();
      var newProgress := Scrolled(progress.value, mouse.y - lastMousePos, totalRegion, coveredRegion);
      hovering := bar.ContainsPoint(mouse);
      lastMousePos := mouse.y;
      if !scrolling {
        return false;
      }
      progress.value := Min(totalRegion - coveredRegion, Max(0.0, newProgress));
      return true;
    }

    /** Scrolls by wheel * speed and clamps the progress into [0, total - covered]; always consumed. */
    method OnMouseWheel(wheelY: int) returns (handled: bool)
      requires Valid()
      modifies progress
      ensures handled
      ensures progress.value == Clamp(old(progress.value) - wheelY as real * mouseWheelSpeed,
                                      0.0, totalRegion - coveredRegion)
      ensures 0.0 <= progress.value <= totalRegion - coveredRegion
    {
      progress.value := progress.value - wheelY as real * mouseWheelSpeed;
      if progress.value < 0.0 {
        progress.value := 0.0;
      } else if progress.value > totalRegion - coveredRegion {
        progress.value := totalRegion - coveredRegion;
      }
      return true;
    }
  }
}
