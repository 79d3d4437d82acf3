/** The part of the game object that the event handler and the renderer share. */
module Game {
  import opened Common

  class GameState {
    /** `need_redraw`: the next frame must be drawn in full. */
    var needRedraw: bool
    /** `map_surface`, by its size; None until the first full render. */
    var mapSurface: Option<(int, int)>

    constructor ()
      ensures needRedraw && mapSurface.None?
    {
      needRedraw := true;
      mapSurface := None;
    }
  }
}
