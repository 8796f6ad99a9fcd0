/** The first-fit packer of combine.py:59-102: sprites are placed, in input order,
    on fresh canvases until none is left or a canvas pass places nothing. */
module Packer {
  import opened Wrappers
  import opened Seqs
  import opened Grid

  /** The configuration constants of combine.py:8-13. */
  datatype Config = Config(gridSize: int, maxWidth: nat, maxHeight: nat,
                           maxSpriteWidth: nat, maxSpriteHeight: nat)
  {
    /** `GRID_SIZE` is a divisor of the source; `//` by zero raises. */
    predicate Valid() {
      gridSize > 0
    }

    /** `rows = MAX_HEIGHT // GRID_SIZE` (combine.py:68). */
    function Rows(): nat
      requires Valid()
    {
      maxHeight / gridSize
    }

    /** `cols = MAX_WIDTH // GRID_SIZE` (combine.py:67). */
    function Cols(): nat
      requires Valid()
    {
      maxWidth / gridSize
    }
  }

  /** The values of combine.py:8-13. */
  const Defaults: Config := Config(48, 256, 256, 96, 96)

  /** A source image: its path and its pixel size (what `Image.open(path).size` gives). */
  datatype Sprite = Sprite(path: string, w: nat, h: nat)

  /** A sprite pasted with its top-left corner on grid cell `(x, y)`. */
  datatype Placement = Placement(sprite: Sprite, x: nat, y: nat)

  /** One canvas: its placements in the order they were made (`placed_this_sheet`). */
  type Tileset = seq<Placement>

  /** The rejection test of combine.py:76. */
  predicate Oversize(cfg: Config, s: Sprite) {
    s.w > cfg.maxSpriteWidth || s.h > cfg.maxSpriteHeight
  }

  function WidthCells(cfg: Config, s: Sprite): nat
    requires cfg.Valid()
  {
    CellSpan(s.w, cfg.gridSize)
  }

  function HeightCells(cfg: Config, s: Sprite): nat
    requires cfg.Valid()
  {
    CellSpan(s.h, cfg.gridSize)
  }

  /** The pixel offset `(x * GRID_SIZE, y * GRID_SIZE)` of combine.py:85-86. */
  function PixelOffset(cfg: Config, p: Placement): (int, int) {
    (p.x * cfg.gridSize, p.y * cfg.gridSize)
  }

  /** The grid cells a placement occupies. */
  function Footprint(cfg: Config, p: Placement): set<Cell>
    requires cfg.Valid()
  {
    RectCells(p.x, p.y, WidthCells(cfg, p.sprite), HeightCells(cfg, p.sprite))
  }

  /** The cells a canvas's placements occupy: the state of its grid. */
  function Covered(cfg: Config, t: Tileset): set<Cell>
    requires cfg.Valid()
    decreases |t|
  {
    if t == [] then {} else Covered(cfg, t[..|t| - 1]) + Footprint(cfg, t[|t| - 1])
  }

  function Sprites(t: Tileset): seq<Sprite>
    decreases |t|
  {
    if t == [] then [] else Sprites(t[..|t| - 1]) + [t[|t| - 1].sprite]
  }

  /** All placed sprites, canvas after canvas. */
  function AllSprites(ts: seq<Tileset>): seq<Sprite>
    decreases |ts|
  {
    if ts == [] then [] else AllSprites(ts[..|ts| - 1]) + Sprites(ts[|ts| - 1])
  }

  function Paths(ss: seq<Sprite>): set<string> {
    set s | s in ss :: s.path
  }

  /** The state of one canvas pass: the session's `remaining` and `used_images`, the
      sprites rejected so far (the source only drops them), and `placed_this_sheet`. */
  datatype PassState = PassState(remaining: seq<Sprite>, used: set<string>,
                                 rejected: seq<Sprite>, placed: Tileset)

  /** One iteration of the loop over the snapshot (combine.py:73-95). */
  function Step(cfg: Config, st: PassState, s: Sprite): (r: PassState)
    requires cfg.Valid() && s in st.remaining
    ensures |r.remaining| + |r.placed| + |r.rejected| == |st.remaining| + |st.placed| + |st.rejected|
    ensures |st.placed| <= |r.placed| && |st.rejected| <= |r.rejected|
    ensures multiset(r.remaining) == multiset(st.remaining) ||
            multiset(r.remaining) == multiset(st.remaining) - multiset{s}
  {
    if Oversize(cfg, s) then
      st.(remaining := Remove(st.remaining, s), rejected := st.rejected + [s])
    else
      match FirstFit(Covered(cfg, st.placed), cfg.Rows(), cfg.Cols(), WidthCells(cfg, s), HeightCells(cfg, s))
      case None => st
      case Some(c) =>
        st.(remaining := Remove(st.remaining, s), used := st.used + {s.path},
            placed := st.placed + [Placement(s, c.col, c.row)])
  }

  /** One turn of the pass loop: the head of `todo` is still pending, and the rest
      of `todo` stays pending after it. */
  lemma RunPassStep(cfg: Config, st: PassState, todo: seq<Sprite>)
    requires cfg.Valid() && todo != [] && multiset(todo) <= multiset(st.remaining)
    ensures todo[0] in st.remaining
    ensures multiset(todo[1..]) <= multiset(Step(cfg, st, todo[0]).remaining)
    ensures RunPass(cfg, st, todo) == RunPass(cfg, Step(cfg, st, todo[0]), todo[1..])
  {
    PendingAfterStep(todo, st.remaining);
  }

  /** The `for img_path in remaining[:]` loop: `todo` is what is left of the snapshot. */
  function RunPass(cfg: Config, st: PassState, todo: seq<Sprite>): (r: PassState)
    requires cfg.Valid() && multiset(todo) <= multiset(st.remaining)
    ensures |r.remaining| + |r.placed| + |r.rejected| == |st.remaining| + |st.placed| + |st.rejected|
    ensures |st.placed| <= |r.placed| && |st.rejected| <= |r.rejected|
    decreases |todo|
  {
    if todo == [] then st
    else
      PendingAfterStep(todo, st.remaining);
      RunPass(cfg, Step(cfg, st, todo[0]), todo[1..])
  }

  /** The packing session: what is left, the finished canvases, `used_images`, and
      the rejected sprites. */
  datatype Session = Session(remaining: seq<Sprite>, tilesets: seq<Tileset>,
                             used: set<string>, rejected: seq<Sprite>)

  /** The `while remaining:` loop of combine.py:64-100 from session state `s`. A pass
      that places nothing ends the loop; otherwise its canvas becomes a tileset. */
  function PackFrom(cfg: Config, s: Session): (r: Session)
    requires cfg.Valid()
    decreases |s.remaining|
  {
    if s.remaining == [] then s
    else
      var p := RunPass(cfg, PassState(s.remaining, s.used, s.rejected, []), s.remaining);
      if p.placed == [] then s.(remaining := p.remaining, used := p.used, rejected := p.rejected)
      else PackFrom(cfg, Session(p.remaining, s.tilesets + [p.placed], p.used, p.rejected))
  }

  /** `pack_images_to_tilesets(image_paths)` as a function of the input sprites. */
  function Pack(cfg: Config, images: seq<Sprite>): Session
    requires cfg.Valid()
  {
    PackFrom(cfg, Session(images, [], {}, []))
  }

  /** The body of the pass loop for sprite `s` on the current canvas's `grid`
      (combine.py:74-95): reject it for its size, place it at the first cell where
      it fits and mark the grid, or leave it for a later canvas. */
  method PlaceOne(cfg: Config, grid: array2<bool>, s: Sprite,
                  remaining0: seq<Sprite>, used0: set<string>, placed0: Tileset, ghost rejected0: seq<Sprite>)
    returns (remaining: seq<Sprite>, used: set<string>, placed: Tileset, ghost rejected: seq<Sprite>)
    requires cfg.Valid() && s in remaining0
    requires grid.Length0 == cfg.Rows() && grid.Length1 == cfg.Cols()
    requires Occupied(grid) == Covered(cfg, placed0)
    modifies grid
    ensures PassState(remaining, used, rejected, placed) ==
            Step(cfg, PassState(remaining0, used0, rejected0, placed0), s)
    ensures Occupied(grid) == Covered(cfg, placed)
  {
    remaining, used, placed, rejected := remaining0, used0, placed0, rejected0;
    if s.w > cfg.maxSpriteWidth || s.h > cfg.maxSpriteHeight {
      remaining := Remove(remaining, s);
      rejected := rejected + [s];
    } else {
      var found := FindFirstFit(grid, s.w, s.h, cfg.gridSize);
      if found.Some? {
        var x, y := found.value.col, found.value.row;
        MarkGrid(grid, x, y, s.w, s.h, cfg.gridSize);
        var p := Placement(s, x, y);
        assert (placed + [p])[..|placed|] == placed;
        placed := placed + [p];
        used := used + {s.path};
        remaining := Remove(remaining, s);
      }
    }
  }

  /** One canvas pass of combine.py:65-95: a fresh grid, then each sprite of a
      snapshot of `remaining`, in order, through `PlaceOne`. */
  method PackSheet(cfg: Config, remaining0: seq<Sprite>, used0: set<string>, ghost rejected0: seq<Sprite>)
    returns (remaining: seq<Sprite>, used: set<string>, placedThisSheet: Tileset, ghost rejected: seq<Sprite>)
    requires cfg.Valid()
    ensures remaining == RunPass(cfg, PassState(remaining0, used0, rejected0, []), remaining0).remaining
    ensures used == RunPass(cfg, PassState(remaining0, used0, rejected0, []), remaining0).used
    ensures placedThisSheet == RunPass(cfg, PassState(remaining0, used0, rejected0, []), remaining0).placed
    ensures rejected == RunPass(cfg, PassState(remaining0, used0, rejected0, []), remaining0).rejected
  {
    remaining, used, rejected := remaining0, used0, rejected0;
    var grid := CreateGrid(cfg.maxWidth, cfg.maxHeight, cfg.gridSize);
    placedThisSheet := [];
    var snapshot := remaining;
    var k := 0;
    while k < |snapshot|
      invariant 0 <= k <= |snapshot|
      invariant multiset(snapshot[k..]) <= multiset(remaining)
      invariant RunPass(cfg, PassState(remaining0, used0, rejected0, []), remaining0) ==
                RunPass(cfg, PassState(remaining, used, rejected, placedThisSheet), snapshot[k..])
      invariant grid.Length0 == cfg.Rows() && grid.Length1 == cfg.Cols()
      invariant Occupied(grid) == Covered(cfg, placedThisSheet)
    {
      var s := snapshot[k];
      assert snapshot[k..][0] == s && snapshot[k..][1..] == snapshot[k + 1..];
      RunPassStep(cfg, PassState(remaining, used, rejected, placedThisSheet), snapshot[k..]);
      remaining, used, placedThisSheet, rejected := PlaceOne(cfg, grid, s, remaining, used, placedThisSheet, rejected);
      k := k + 1;
    }
    assert snapshot[k..] == [];
  }

  /** `pack_images_to_tilesets` (combine.py:59-102): canvas passes while sprites
      remain; a pass that placed something becomes a tileset, one that placed
      nothing ends the loop. */
  method PackImagesToTilesets(cfg: Config, images: seq<Sprite>) returns (tilesets: seq<Tileset>, used: set<string>)
    requires cfg.Valid()
    ensures tilesets == Pack(cfg, images).tilesets
    ensures used == Pack(cfg, images).used
  {
    tilesets := [];
    used := {};
    var remaining := images;
    ghost var rejected: seq<Sprite> := [];
    while remaining != []
      invariant PackFrom(cfg, Session(remaining, tilesets, used, rejected)) == Pack(cfg, images)
      decreases |remaining|
    {
      ghost var before := Session(remaining, tilesets, used, rejected);
      ghost var pass := RunPass(cfg, PassState(remaining, used, rejected, []), remaining);
      var placedThisSheet;
      remaining, used, placedThisSheet, rejected := PackSheet(cfg, remaining, used, rejected);
      assert pass == PassState(remaining, used, rejected, placedThisSheet);
      if placedThisSheet != [] {
        tilesets := tilesets + [placedThisSheet];
        assert PackFrom(cfg, before) == PackFrom(cfg, Session(remaining, tilesets, used, rejected));
      } else {
        assert PackFrom(cfg, before) == before.(remaining := remaining, used := used, rejected := rejected);
        break;
      }
    }
  }
}
