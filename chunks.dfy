/**
 * Extraction of one chunk's data from the map image: the terrain of its
 * 10×10 pixels is tallied by exact colour match, then a generator seeded from
 * `(seed, x, y)` decides oil and the four minerals, and wood follows from the
 * terrain counts.
 */
module Chunks {
  import opened Common
  import opened Models

  datatype Terrain = Water | Grass | Snow | Sand

  /** The map image's pixels by position; a position that cannot be read is absent. */
  type Pixels = map<Coord, Rgb>

  /** The successive raw outputs of a seeded generator. */
  type Stream = nat -> nat

  const ChunkSize: nat := 10
  const DefaultSeed: int := 42
  /** The amount of terrain from which a chunk counts as mostly water, or mostly sand and snow. */
  const Mostly: int := 90

  /** The colour table: exact RGB values of the four terrains. */
  function TerrainOf(c: Rgb): (t: Option<Terrain>)
    ensures t == Some(Water) <==> c == Rgb(120, 190, 255)
    ensures t == Some(Grass) <==> c == Rgb(0, 180, 0)
    ensures t == Some(Snow) <==> c == Rgb(255, 255, 255)
    ensures t == Some(Sand) <==> c == Rgb(220, 200, 140)
  {
    if c == Rgb(120, 190, 255) then Some(Water)
    else if c == Rgb(0, 180, 0) then Some(Grass)
    else if c == Rgb(255, 255, 255) then Some(Snow)
    else if c == Rgb(220, 200, 140) then Some(Sand)
    else None
  }

  /** The `k`-th pixel visited for chunk `(x, y)`: row-major over `r` then `c`. */
  function ChunkPixel(x: int, y: int, k: nat): Coord
  {
    (x * ChunkSize + k / ChunkSize, y * ChunkSize + k % ChunkSize)
  }

  /** The terrain of the `k`-th pixel, None when it is unreadable or matches no colour. */
  function Classify(pixels: Pixels, x: int, y: int, k: nat): Option<Terrain>
  {
    var p := ChunkPixel(x, y, k);
    if p in pixels then TerrainOf(pixels[p]) else None
  }

  /** How many of the first `k` pixels of the chunk are of terrain `t`. */
  function Count(pixels: Pixels, x: int, y: int, t: Terrain, k: nat): nat
  {
    if k == 0 then 0
    else Count(pixels, x, y, t, k - 1) + (if Classify(pixels, x, y, k - 1) == Some(t) then 1 else 0)
  }

  /** The record after the first `k` pixels have been tallied. */
  function Tallied(pixels: Pixels, x: int, y: int, k: nat): ChunkData
  {
    ChunkData((x, y),
      water := Count(pixels, x, y, Water, k), grass := Count(pixels, x, y, Grass, k),
      snow := Count(pixels, x, y, Snow, k), sand := Count(pixels, x, y, Sand, k))
  }

  /** One more pixel of terrain `t`. */
  function Bump(d: ChunkData, t: Terrain): ChunkData
  {
    match t
    case Water => d.(water := d.water + 1)
    case Grass => d.(grass := d.grass + 1)
    case Snow => d.(snow := d.snow + 1)
    case Sand => d.(sand := d.sand + 1)
  }

  /** Each pixel goes to at most one terrain, so the four counts add up to at most `k`. */
  lemma {:induction false} TalliedTotal(pixels: Pixels, x: int, y: int, k: nat)
    ensures var d := Tallied(pixels, x, y, k);
      d.water + d.grass + d.snow + d.sand <= k
  {
    if k > 0 {
      TalliedTotal(pixels, x, y, k - 1);
    }
  }

  /** A chunk's four terrain counts add up to at most its 100 pixels. */
  lemma ChunkTerrainBound(pixels: Pixels, x: int, y: int)
    ensures var d := Tallied(pixels, x, y, ChunkSize * ChunkSize);
      && d.position == (x, y)
      && 0 <= d.water && 0 <= d.grass && 0 <= d.snow && 0 <= d.sand
      && d.water + d.grass + d.snow + d.sand <= 100
      && d.wood == 0 && d.oil == 0 && d.gold == 0 && d.iron == 0 && d.copper == 0 && d.coal == 0
  {
    TalliedTotal(pixels, x, y, 100);
  }

  /** `random.randint(a, b)` at draw `i` of a stream: a value in `[a, b]`. */
  function Draw(raw: Stream, i: nat, a: int, b: int): (v: int)
    requires a <= b
    ensures a <= v <= b
  {
    a + raw(i) % (b - a + 1)
  }

  /** An amount a roll can leave: nothing, a small deposit or a large one. */
  predicate AmountOk(v: int)
  {
    v == 0 || 10 <= v <= 40 || 60 <= v <= 100
  }

  /**
   * One resource roll starting at draw `i`: `p` in `[0, 50]`; below 30 a small
   * deposit, above `high` a large one, otherwise `current` stays. Returns the
   * amount and the next draw.
   */
  function Roll(raw: Stream, i: nat, current: int, high: int): (r: (int, nat))
    requires 30 <= high <= 50
    ensures var p := Draw(raw, i, 0, 50);
      && (p < 30 ==> 10 <= r.0 <= 40 && r.1 == i + 2)
      && (p > high ==> 60 <= r.0 <= 100 && r.1 == i + 2)
      && (30 <= p <= high ==> r.0 == current && r.1 == i + 1)
  {
    var p := Draw(raw, i, 0, 50);
    if p < 30 then (Draw(raw, i + 1, 10, 40), i + 2)
    else if p > high then (Draw(raw, i + 1, 60, 100), i + 2)
    else (current, i + 1)
  }

  datatype Mineral = Gold | Iron | Copper | Coal

  /** The minerals in the order their rolls are drawn. */
  const Minerals: seq<Mineral> := [Gold, Iron, Copper, Coal]

  function Amount(d: ChunkData, m: Mineral): int
  {
    match m
    case Gold => d.gold
    case Iron => d.iron
    case Copper => d.copper
    case Coal => d.coal
  }

  function SetAmount(d: ChunkData, m: Mineral, v: int): ChunkData
  {
    match m
    case Gold => d.(gold := v)
    case Iron => d.(iron := v)
    case Copper => d.(copper := v)
    case Coal => d.(coal := v)
  }

  /** The record and next draw after rolling each mineral of `ms` in turn from draw `i`. */
  function Prospect(d: ChunkData, raw: Stream, i: nat, ms: seq<Mineral>): (ChunkData, nat)
  {
    if |ms| == 0 then (d, i)
    else
      var (before, j) := Prospect(d, raw, i, ms[..|ms| - 1]);
      var m := ms[|ms| - 1];
      var (v, next) := Roll(raw, j, Amount(before, m), 45);
      (SetAmount(before, m, v), next)
  }

  /** Rolling one more mineral: the roll of `ms[j]` on top of the first `j` rolls. */
  lemma ProspectNext(d: ChunkData, raw: Stream, i: nat, ms: seq<Mineral>, j: nat)
    requires j < |ms|
    ensures var (before, c) := Prospect(d, raw, i, ms[..j]);
      var (v, next) := Roll(raw, c, Amount(before, ms[j]), 45);
      Prospect(d, raw, i, ms[..j + 1]) == (SetAmount(before, ms[j], v), next)
  {
    assert ms[..j + 1][..j] == ms[..j];
  }

  /** Mineral rolls touch nothing but the minerals, and keep every amount a possible one. */
  lemma {:induction false} ProspectShape(d: ChunkData, raw: Stream, i: nat, ms: seq<Mineral>)
    requires forall m :: AmountOk(Amount(d, m))
    ensures var r := Prospect(d, raw, i, ms).0;
      && r.position == d.position && r.water == d.water && r.grass == d.grass
      && r.snow == d.snow && r.sand == d.sand && r.wood == d.wood && r.oil == d.oil
      && forall m :: AmountOk(Amount(r, m))
  {
    if |ms| > 0 {
      ProspectShape(d, raw, i, ms[..|ms| - 1]);
      var (before, j) := Prospect(d, raw, i, ms[..|ms| - 1]);
      var m := ms[|ms| - 1];
      var (v, next) := Roll(raw, j, Amount(before, m), 45);
      assert AmountOk(v);
      forall m' ensures AmountOk(Amount(SetAmount(before, m, v), m')) {
        if m' != m {
          assert Amount(SetAmount(before, m, v), m') == Amount(before, m');
        }
      }
    }
  }

  /** Oil is rolled for chunks that are mostly water, or mostly sand and snow. */
  predicate OilGate(d: ChunkData)
  {
    d.water >= Mostly || d.sand + d.snow >= Mostly
  }

  /** The oil roll from draw `i`, made only when the gate opens: the record and the next draw. */
  function OilStep(d: ChunkData, raw: Stream, i: nat): (ChunkData, nat)
  {
    if OilGate(d) then
      var (oil, next) := Roll(raw, i, d.oil, 40);
      (d.(oil := oil), next)
    else (d, i)
  }

  /** The mineral rolls from draw `i`, made only for chunks that are not mostly water. */
  function MineralStep(d: ChunkData, raw: Stream, i: nat): ChunkData
  {
    if d.water < Mostly then Prospect(d, raw, i, Minerals).0 else d
  }

  /** What `get_chunk_data(x, y)` computes from the pixels and the chunk's draw stream. */
  function ChunkDataSpec(pixels: Pixels, raw: Stream, x: int, y: int): ChunkData
  {
    var (withOil, i) := OilStep(Tallied(pixels, x, y, ChunkSize * ChunkSize), raw, 0);
    var withMinerals := MineralStep(withOil, raw, i);
    withMinerals.(wood := withMinerals.grass + withMinerals.snow / 2)
  }

  /**
   * The chunk record: terrain as tallied, oil only where the gate allows it,
   * no minerals in mostly-water chunks, every amount a possible roll, and
   * wood derived from grass and snow.
   */
  lemma ChunkDataShape(pixels: Pixels, raw: Stream, x: int, y: int)
    ensures var d := ChunkDataSpec(pixels, raw, x, y);
      var base := Tallied(pixels, x, y, ChunkSize * ChunkSize);
      && d.position == (x, y)
      && d.water == base.water && d.grass == base.grass && d.snow == base.snow && d.sand == base.sand
      && d.water + d.grass + d.snow + d.sand <= 100
      && (d.oil != 0 ==> OilGate(d))
      && (d.water >= Mostly ==> d.gold == 0 && d.iron == 0 && d.copper == 0 && d.coal == 0)
      && AmountOk(d.oil) && AmountOk(d.gold) && AmountOk(d.iron) && AmountOk(d.copper) && AmountOk(d.coal)
      && d.wood == d.grass + d.snow / 2
  {
    ChunkTerrainBound(pixels, x, y);
    var (withOil, i) := OilStep(Tallied(pixels, x, y, ChunkSize * ChunkSize), raw, 0);
    assert AmountOk(withOil.oil);
    if withOil.water < Mostly {
      forall m ensures AmountOk(Amount(withOil, m)) {
        assert Amount(withOil, m) == 0;
      }
      ProspectShape(withOil, raw, i, Minerals);
      var r := Prospect(withOil, raw, i, Minerals).0;
      assert AmountOk(Amount(r, Gold)) && AmountOk(Amount(r, Iron));
      assert AmountOk(Amount(r, Copper)) && AmountOk(Amount(r, Coal));
    }
  }

  /** How the first draw decides oil: small below 30, large above 40, none in between or without the gate. */
  lemma OilRoll(pixels: Pixels, raw: Stream, x: int, y: int)
    ensures var d := ChunkDataSpec(pixels, raw, x, y);
      var p := Draw(raw, 0, 0, 50);
      && (!OilGate(d) ==> d.oil == 0)
      && (OilGate(d) && p < 30 ==> 10 <= d.oil <= 40)
      && (OilGate(d) && p > 40 ==> 60 <= d.oil <= 100)
      && (OilGate(d) && 30 <= p <= 40 ==> d.oil == 0)
  {
    var (withOil, i) := OilStep(Tallied(pixels, x, y, ChunkSize * ChunkSize), raw, 0);
    if withOil.water < Mostly {
      forall m ensures AmountOk(Amount(withOil, m)) {
        assert Amount(withOil, m) == 0;
      }
      ProspectShape(withOil, raw, i, Minerals);
    }
  }

  /** Python's generator object: a stream of raw draws and how many have been used. */
  class Random {
    const raw: Stream
    var cursor: nat

    constructor (raw: Stream)
      ensures this.raw == raw && cursor == 0
    {
      this.raw := raw;
      cursor := 0;
    }

    /** `randint(a, b)`: the next draw, scaled into `[a, b]`. */
    method RandInt(a: int, b: int) returns (v: int)
      requires a <= b
      modifies this`cursor
      ensures v == Draw(raw, old(cursor), a, b) && cursor == old(cursor) + 1
    {
      v := Draw(raw, cursor, a, b);
      cursor := cursor + 1;
    }
  }

  /**
   * The extractor over a loaded map image. `hash` stands for Python's `hash`
   * of a `(seed, x, y)` tuple and `generator` for `Random(n)`'s output stream.
   */
  class ChunkDataExtractor {
    const pixels: Pixels
    const seed: int
    const hash: (int, int, int) -> int
    const generator: nat -> Stream

    constructor (pixels: Pixels, hash: (int, int, int) -> int, generator: nat -> Stream, seed: Option<int> := None)
      ensures this.pixels == pixels && this.hash == hash && this.generator == generator
      ensures this.seed == (if seed.Some? then seed.value else DefaultSeed)
    {
      this.pixels := pixels;
      this.hash := hash;
      this.generator := generator;
      this.seed := if seed.Some? then seed.value else DefaultSeed;
    }

    /** `_get_chunk_random`: the generator seeded with the low 32 bits of the tuple's hash. */
    function ChunkStream(x: int, y: int): Stream
    {
      generator(hash(seed, x, y) % 0x1_0000_0000)
    }

    /** `get_chunk_pixels`: the chunk's record with its terrain tallied and everything else 0. */
    method GetChunkPixels(x: int, y: int) returns (d: ChunkData)
      ensures d == Tallied(pixels, x, y, ChunkSize * ChunkSize)
      ensures d.position == (x, y) && d.water + d.grass + d.snow + d.sand <= 100
    {
      d := ChunkData((x, y));
      for r := 0 to ChunkSize
        invariant d == Tallied(pixels, x, y, r * ChunkSize)
      {
        for c := 0 to ChunkSize
          invariant d == Tallied(pixels, x, y, r * ChunkSize + c)
        {
          var k := r * ChunkSize + c;
          assert ChunkPixel(x, y, k) == (x * ChunkSize + r, y * ChunkSize + c);
          var p := (x * ChunkSize + r, y * ChunkSize + c);
          if p in pixels {
            var t := TerrainOf(pixels[p]);
            if t.Some? {
              d := Bump(d, t.value);
            }
          }
        }
      }
      ChunkTerrainBound(pixels, x, y);
    }

    /** `get_chunk_data`: the tallied record with its resources rolled; a function of the pixels, the seed and `(x, y)`. */
    method GetChunkData(x: int, y: int) returns (d: ChunkData)
      ensures d == ChunkDataSpec(pixels, ChunkStream(x, y), x, y)
    {
      d := GetChunkPixels(x, y);
      var rng := new Random(ChunkStream(x, y));
      d := RollOil(rng, d);
      d := RollMinerals(rng, d);
      d := d.(wood := d.grass + d.snow / 2);
    }
  }

  /** The oil part of `get_chunk_data`, drawing from `rng`. */
  method RollOil(rng: Random, d: ChunkData) returns (e: ChunkData)
    modifies rng
    ensures (e, rng.cursor) == OilStep(d, rng.raw, old(rng.cursor))
  {
    e := d;
    if e.water >= Mostly || e.sand + e.snow >= Mostly {
      var p := rng.RandInt(0, 50);
      if p < 30 {
        var v := rng.RandInt(10, 40);
        e := e.(oil := v);
      } else if p > 40 {
        var v := rng.RandInt(60, 100);
        e := e.(oil := v);
      }
    }
  }

  /** The mineral loop of `get_chunk_data`, drawing from `rng`. */
  method RollMinerals(rng: Random, d: ChunkData) returns (e: ChunkData)
    modifies rng
    ensures e == MineralStep(d, rng.raw, old(rng.cursor))
  {
    e := d;
    if e.water < Mostly {
      ghost var from := rng.cursor;
      for j := 0 to |Minerals|
        invariant (e, rng.cursor) == Prospect(d, rng.raw, from, Minerals[..j])
      {
        ProspectNext(d, rng.raw, from, Minerals, j);
        e := RollMineral(rng, e, Minerals[j]);
      }
      assert Minerals[..|Minerals|] == Minerals;
    }
  }

  /** One pass of the mineral loop: roll `m` and store a new deposit when the roll asks for one. */
  method RollMineral(rng: Random, e: ChunkData, m: Mineral) returns (f: ChunkData)
    modifies rng
    ensures var (v, next) := Roll(rng.raw, old(rng.cursor), Amount(e, m), 45);
      f == SetAmount(e, m, v) && rng.cursor == next
  {
    f := e;
    var p := rng.RandInt(0, 50);
    if p < 30 {
      var v := rng.RandInt(10, 40);
      f := SetAmount(e, m, v);
    } else if p > 45 {
      var v := rng.RandInt(60, 100);
      f := SetAmount(e, m, v);
    } else {
      assert SetAmount(e, m, Amount(e, m)) == e;
    }
  }
}
