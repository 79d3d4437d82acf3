/**
 * The floating square buttons of the game screen and the panel that holds
 * them: a button is clicked when the mouse is released over it after a press,
 * and each click toggles its `active` flag.
 */
module Ui {
  import opened Common

  /** pygame's `Rect.collidepoint`: the left and top edges are inside, the right and bottom ones are not. */
  predicate CollidePoint(r: Rect, p: (int, int)): (b: bool)
    ensures b ==> r.w > 0 && r.h > 0
  {
    r.x <= p.0 < r.x + r.w && r.y <= p.1 < r.y + r.h
  }

  /**
   * The edges of `collidepoint`: a non-empty rectangle holds its top-left
   * corner, never a point on its right or bottom edge, and two rectangles
   * side by side, or one above the other, share no point.
   */
  lemma CollideEdges(r: Rect, p: (int, int))
    ensures CollidePoint(r, (r.x, r.y)) <==> r.w > 0 && r.h > 0
    ensures !CollidePoint(r, (r.x + r.w, p.1)) && !CollidePoint(r, (p.0, r.y + r.h))
    ensures CollidePoint(r, p) ==> !CollidePoint(r.(x := r.x + r.w), p) && !CollidePoint(r.(y := r.y + r.h), p)
  {
  }

  /** The three flags of a button. */
  datatype ButtonState = ButtonState(hovered: bool, pressed: bool, active: bool)

  /**
   * One call of `RoundedButton.update` on the flags of a button at `rect`,
   * and whether it reports a click.
   */
  function Step(s: ButtonState, rect: Rect, mouse: (int, int), mouseDown: bool): (r: (ButtonState, bool))
    ensures r.0.hovered == CollidePoint(rect, mouse)
    ensures r.1 <==> s.pressed && !mouseDown && CollidePoint(rect, mouse)
    ensures r.0.pressed == ((CollidePoint(rect, mouse) || s.pressed) && mouseDown)
    ensures r.0.active == (s.active != r.1)
  {
    var hovered := CollidePoint(rect, mouse);
    if hovered && mouseDown then (s.(hovered := true, pressed := true), false)
    else if s.pressed && !mouseDown then
      if hovered then (ButtonState(true, false, !s.active), true)
      else (ButtonState(false, false, s.active), false)
    else (s.(hovered := hovered), false)
  }

  /** Pressing over a button and releasing over it is a click and toggles `active`, whatever the flags were. */
  lemma PressReleaseClicks(s: ButtonState, rect: Rect, p: (int, int), q: (int, int))
    requires CollidePoint(rect, p) && CollidePoint(rect, q)
    ensures var down := Step(s, rect, p, true);
      var up := Step(down.0, rect, q, false);
      !down.1 && up.1 && up.0.active == !s.active && !up.0.pressed
  {
  }

  /** A release is never a click unless a press came first. */
  lemma NoClickWithoutPress(s: ButtonState, rect: Rect, mouse: (int, int), mouseDown: bool)
    requires !s.pressed
    ensures !Step(s, rect, mouse, mouseDown).1
    ensures Step(s, rect, mouse, mouseDown).0.active == s.active
  {
  }

  /** A press that begins off the button does not press it in that step. */
  lemma PressOffButtonIgnored(s: ButtonState, rect: Rect, p: (int, int))
    requires !s.pressed && !CollidePoint(rect, p)
    ensures !Step(s, rect, p, true).0.pressed
  {
  }

  /** A press made over the button is kept while the mouse is held, wherever it goes, and is not a click. */
  lemma PressHeldOffButton(s: ButtonState, rect: Rect, p: (int, int))
    requires s.pressed
    ensures Step(s, rect, p, true).0.pressed && !Step(s, rect, p, true).1
  {
  }

  /** The fill colours of a button in its four looks. */
  datatype Palette = Palette(normal: Rgb, hover: Rgb, active: Rgb, activeHover: Rgb)

  const DefaultPalette := Palette(Rgb(70, 70, 90), Rgb(90, 90, 110), Rgb(34, 139, 34), Rgb(50, 200, 50))

  /** The quit button keeps the default active colours but is red otherwise. */
  const QuitPalette := DefaultPalette.(normal := Rgb(180, 50, 50), hover := Rgb(220, 70, 70))

  /** The colour `draw` fills a button with. */
  function FillColor(p: Palette, active: bool, hovered: bool): (c: Rgb)
    ensures c in {p.normal, p.hover, p.active, p.activeHover}
  {
    if active then (if hovered then p.activeHover else p.active)
    else (if hovered then p.hover else p.normal)
  }

  /** No two of the four colours coincide. */
  predicate AllDistinct(p: Palette)
  {
    && p.normal != p.hover && p.normal != p.active && p.normal != p.activeHover
    && p.hover != p.active && p.hover != p.activeHover && p.active != p.activeHover
  }

  /** With four different colours, the fill tells both the active and the hovered flag. */
  lemma FillColorShowsState(p: Palette, a1: bool, h1: bool, a2: bool, h2: bool)
    requires AllDistinct(p)
    ensures FillColor(p, a1, h1) == FillColor(p, a2, h2) <==> a1 == a2 && h1 == h2
  {
  }

  /** Both palettes in the game show every state in a different colour. */
  lemma GamePalettesDistinct()
    ensures AllDistinct(DefaultPalette) && AllDistinct(QuitPalette)
  {
  }

  /** The icon's alpha: opaque when active, translucent otherwise. */
  function IconAlpha(active: bool): (a: Channel)
    ensures active <==> a == 255
  {
    if active then 255 else 180
  }

  class RoundedButton {
    var rect: Rect
    const size: int
    const cornerRadius: int
    var isHovered: bool
    var isPressed: bool
    var active: bool
    var palette: Palette

    function State(): ButtonState
      reads this
    {
      ButtonState(isHovered, isPressed, active)
    }

    constructor (pos: (int, int), size: int, cornerRadius: int := 12)
      ensures rect == Rect(pos.0, pos.1, size, size) && this.size == size && this.cornerRadius == cornerRadius
      ensures State() == ButtonState(false, false, false) && palette == DefaultPalette
    {
      rect := Rect(pos.0, pos.1, size, size);
      this.size := size;
      this.cornerRadius := cornerRadius;
      isHovered := false;
      isPressed := false;
      active := false;
      palette := DefaultPalette;
    }

    /** `update`: refresh the hover flag, track the press, and report a click on release. */
    method Update(mouse: (int, int), mouseDown: bool) returns (clicked: bool)
      modifies this`isHovered, this`isPressed, this`active
      ensures (State(), clicked) == Step(old(State()), rect, mouse, mouseDown)
    {
      isHovered := CollidePoint(rect, mouse);
      if isHovered && mouseDown {
        isPressed := true;
      } else if isPressed && !mouseDown {
        isPressed := false;
        if isHovered {
          active := !active;
          return true;
        }
      }
      return false;
    }

    /** The fill colour and icon alpha `draw` uses. */
    function DrawStyle(): (style: (Rgb, Channel))
      reads this
      ensures style.0 == FillColor(palette, active, isHovered) && style.1 == IconAlpha(active)
      ensures style.1 == 255 <==> active
    {
      (FillColor(palette, active, isHovered), IconAlpha(active))
    }

    /** `set_position`: move the button, keeping its size. */
    method SetPosition(x: int, y: int)
      modifies this`rect
      ensures rect == old(rect).(x := x, y := y)
    {
      rect := rect.(x := x, y := y);
    }
  }

  const ButtonSize := 64
  const ButtonMargin := 20

  /** Where the overlay button goes: the bottom right corner, 20 pixels in. */
  function OverlaySlot(width: int, height: int): Rect
  {
    Rect(width - ButtonSize - ButtonMargin, height - ButtonSize - ButtonMargin, ButtonSize, ButtonSize)
  }

  /** Where the quit button goes: the top right corner, 20 pixels in. */
  function QuitSlot(width: int): Rect
  {
    Rect(width - ButtonSize - ButtonMargin, ButtonMargin, ButtonSize, ButtonSize)
  }

  /** In a window at least 84 pixels each way, every point of both buttons lies in the window. */
  lemma SlotsInWindow(width: int, height: int, p: (int, int))
    requires width >= ButtonSize + ButtonMargin && height >= ButtonSize + ButtonMargin
    ensures CollidePoint(OverlaySlot(width, height), p) ==> 0 <= p.0 < width && 0 <= p.1 < height
    ensures CollidePoint(QuitSlot(width), p) ==> 0 <= p.0 < width && 0 <= p.1 < height
  {
  }

  /** In a window tall enough for one button, the two buttons share no point exactly when it is at least 168 pixels high. */
  lemma SlotsDisjoint(width: int, height: int)
    requires height >= ButtonSize + ButtonMargin
    ensures (forall p: (int, int) :: !(CollidePoint(OverlaySlot(width, height), p) && CollidePoint(QuitSlot(width), p)))
        <==> height >= 2 * (ButtonSize + ButtonMargin)
  {
    if height < 2 * (ButtonSize + ButtonMargin) {
      var p := (width - ButtonSize - ButtonMargin, Max(ButtonMargin, height - ButtonSize - ButtonMargin));
      assert CollidePoint(OverlaySlot(width, height), p) && CollidePoint(QuitSlot(width), p);
    }
  }

  class GameUI {
    const panelWidth: int
    var windowWidth: int
    var windowHeight: int
    const buttonOverlay: RoundedButton
    const buttonQuit: RoundedButton
    var showOverlay: bool
    var quitRequested: bool

    /** The buttons are distinct objects in their slots, and the overlay flag follows the overlay button. */
    ghost predicate Valid()
      reads this, buttonOverlay, buttonQuit
    {
      && buttonOverlay != buttonQuit
      && buttonOverlay.rect == OverlaySlot(windowWidth, windowHeight)
      && buttonQuit.rect == QuitSlot(windowWidth)
      && showOverlay == buttonOverlay.active
    }

    constructor (panelWidth: int, windowSize: (int, int))
      ensures Valid() && fresh(buttonOverlay) && fresh(buttonQuit)
      ensures this.panelWidth == panelWidth && windowWidth == windowSize.0 && windowHeight == windowSize.1
      ensures !showOverlay && !quitRequested
      ensures buttonOverlay.palette == DefaultPalette && buttonQuit.palette == QuitPalette
      ensures buttonOverlay.cornerRadius == 16 && buttonQuit.cornerRadius == 16
      ensures buttonOverlay.State() == ButtonState(false, false, false) && buttonQuit.State() == ButtonState(false, false, false)
    {
      this.panelWidth := panelWidth;
      windowWidth := windowSize.0;
      windowHeight := windowSize.1;
      var x := windowSize.0 - ButtonSize - ButtonMargin;
      var y := windowSize.1 - ButtonSize - ButtonMargin;
      buttonOverlay := new RoundedButton((x, y), ButtonSize, 16);
      buttonQuit := new RoundedButton((x, ButtonMargin), ButtonSize, 16);
      new;
      buttonQuit.palette := QuitPalette;
      showOverlay := false;
      quitRequested := false;
    }

    /** `update`: feed the mouse to both buttons; report an overlay toggle and a quit click. */
    method Update(mouse: (int, int), mouseDown: bool) returns (overlayChanged: bool, quitClicked: bool)
      requires Valid()
      modifies buttonOverlay`isHovered, buttonOverlay`isPressed, buttonOverlay`active,
               buttonQuit`isHovered, buttonQuit`isPressed, buttonQuit`active, this`showOverlay
      ensures Valid()
      ensures (buttonOverlay.State(), overlayChanged) == Step(old(buttonOverlay.State()), buttonOverlay.rect, mouse, mouseDown)
      ensures (buttonQuit.State(), quitClicked) == Step(old(buttonQuit.State()), buttonQuit.rect, mouse, mouseDown)
      ensures showOverlay == (old(showOverlay) != overlayChanged)
      ensures windowHeight >= 2 * (ButtonSize + ButtonMargin) ==> !(overlayChanged && quitClicked)
    {
      overlayChanged := false;
      quitClicked := false;
      var c := buttonOverlay.Update(mouse, mouseDown);
      if c {
        showOverlay := buttonOverlay.active;
        overlayChanged := true;
      }
      c := buttonQuit.Update(mouse, mouseDown);
      if c {
        quitClicked := true;
      }
      if windowHeight >= 2 * (ButtonSize + ButtonMargin) {
        SlotsDisjoint(windowWidth, windowHeight);
      }
    }

    /** `resize`: remember the new window size and move both buttons to their slots in it. */
    method Resize(newWidth: int, newHeight: int)
      requires Valid()
      modifies this`windowWidth, this`windowHeight, buttonOverlay`rect, buttonQuit`rect
      ensures Valid()
      ensures windowWidth == newWidth && windowHeight == newHeight
      ensures buttonOverlay.rect == OverlaySlot(newWidth, newHeight) && buttonQuit.rect == QuitSlot(newWidth)
    {
      windowWidth := newWidth;
      windowHeight := newHeight;
      var x := newWidth - ButtonSize - ButtonMargin;
      buttonOverlay.SetPosition(x, newHeight - ButtonSize - ButtonMargin);
      buttonQuit.SetPosition(x, ButtonMargin);
    }
  }
}
