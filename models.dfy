/** The record kept for each 10×10 chunk of the map. */
module Models {
  import opened Common

  /**
   * Terrain pixel counts, the derived wood amount and five resource amounts
   * of the chunk at `position`; every count starts at 0.
   */
  datatype ChunkData = ChunkData(
    position: Coord,
    water: int := 0,
    grass: int := 0,
    snow: int := 0,
    sand: int := 0,
    wood: int := 0,
    oil: int := 0,
    gold: int := 0,
    iron: int := 0,
    copper: int := 0,
    coal: int := 0)
}
