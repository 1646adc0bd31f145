/** ButtonWidget: an editor toolbar button with a grab/hover state machine. */
module ButtonWidget {
  import opened Geometry
  import opened Scrollbar

  /** Which click handler ran during an event. */
  datatype Fired = NoCallback | LeftCallback | RightCallback

  class ButtonWidget {
    const rect: Rectf
    const hasLeftCallback: bool
    const hasRightCallback: bool
    var grab: bool
    var hover: bool
    var mousePos: Vec

    /** The hit area is a square at pos whose side is the sprite's width. */
    constructor (spriteWidth: int, pos: Vec, hasLeftCallback: bool, hasRightCallback: bool)
      ensures rect.p1 == pos && rect.Width() == rect.Height() == spriteWidth as real && rect.angle == 0.0
      ensures !grab && !hover
      ensures this.hasLeftCallback == hasLeftCallback && this.hasRightCallback == hasRightCallback
    {
      rect := FromPointSize(pos, Vec(spriteWidth as real, spriteWidth as real));
      this.hasLeftCallback := hasLeftCallback;
      this.hasRightCallback := hasRightCallback;
      grab := false;
      hover := false;
      mousePos := Vec(0.0, 0.0);
    }

    /**
     * Release: when grabbed, fires the pressed button's callback if the pointer
     * is still inside, ungrabs and consumes the event; otherwise clears hover.
     */
    method OnMouseButtonUp(button: MouseButton, mouse: Vec) returns (handled: bool, fired: Fired)
      modifies this
      ensures mousePos == mouse && !grab
      ensures handled == old(grab)
      ensures !old(grab) ==> !hover && fired == NoCallback
      ensures old(grab) && rect.ContainsPoint(mouse) && button == LeftButton ==>
        hover == !hasLeftCallback && fired == (if hasLeftCallback then LeftCallback else NoCallback)
      ensures old(grab) && rect.ContainsPoint(mouse) && button == RightButton ==>
        hover == !hasRightCallback && fired == (if hasRightCallback then RightCallback else NoCallback)
      ensures old(grab) && (!rect.ContainsPoint(mouse) || button !in {LeftButton, RightButton}) ==>
        hover == old(hover) && fired == NoCallback
    {
      mousePos := mouse;
      fired := NoCallback;
      if grab {
        if rect.ContainsPoint(mousePos) {
          match button
          case LeftButton =>
            if hasLeftCallback { fired := LeftCallback; }
            hover := !hasLeftCallback;
          case RightButton =>
            if hasRightCallback { fired := RightCallback; }
            hover := !hasRightCallback;
          case _ =>
        }
        grab := false;
        return true, fired;
      } else {
        hover := false;
        return false, fired;
      }
    }

    /** Press: other buttons are ignored entirely; a press inside grabs, one outside clears hover. */
    method OnMouseButtonDown(button: MouseButton, mouse: Vec) returns (handled: bool)
      modifies this
      ensures button !in {LeftButton, RightButton} ==>
        !handled && grab == old(grab) && hover == old(hover) && mousePos == old(mousePos)
      ensures button in {LeftButton, RightButton} ==>
        mousePos == mouse && handled == rect.ContainsPoint(mouse) && hover == handled &&
        grab == (old(grab) || handled)
    {
      if button != LeftButton && button != RightButton {
        return false;
      }
      mousePos := mouse;
      if rect.ContainsPoint(mousePos) {
        hover := true;
        grab := true;
        return true;
      } else {
        hover := false;
        return false;
      }
    }

    /** Motion: hover follows the pointer; the event is consumed only while grabbed. */
    method OnMouseMotion(mouse: Vec) returns (handled: bool)
      modifies this
      ensures mousePos == mouse && hover == rect.ContainsPoint(mouse)
      ensures handled == grab && grab == old(grab)
    {
      mousePos := mouse;
      if grab {
        hover := rect.ContainsPoint(mousePos);
        return true;
      } else if rect.ContainsPoint(mousePos) {
        hover := true;
        return false;
      } else {
        hover := false;
        return false;
      }
    }
  }
}
