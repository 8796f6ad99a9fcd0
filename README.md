# Img2Tile sprite packer, modelled in Dafny

`combine.py` collects the PNG sprites of a directory and packs them onto
fixed-size tileset canvases. Each canvas carries an occupancy grid of
`GRID_SIZE`-pixel cells. Sprites are taken in input order, and each goes to the
first cell, in row-major order, where its footprint fits.

- A sprite over the size cap is dropped.
- A sprite that fits nowhere waits for the next canvas.
- A pass that places nothing ends the run.

Each tileset is saved under a numbered name, and the packed sources may then
be deleted.

The model has eleven modules:

- `Grid` (grid.dfy) holds the occupancy grid. The grid is an `array2<bool>`, and
  `create_grid`, `check_fit` and `mark_grid` are methods on it, each proved
  against the abstract set of occupied cells (`Occupied`). The row-major scan is
  the method `FindFirstFit`, proved equal to the function `FirstFit`, which is
  characterised by the first-fit property itself.
- `Packer` (packer.dfy) holds the packing loop. The imperative methods `PlaceOne`
  (one sprite), `PackSheet` (one canvas pass over the snapshot of `remaining`) and
  `PackImagesToTilesets` (the `while remaining:` loop) are proved equal to the
  pure functions `Step`, `RunPass` and `Pack`.
- `PackerProofs` (packer_proofs.dfy) and `PackerTheorems` (packer_theorems.dfy)
  prove what the packer promises, as facts about `Pack`:
  - footprints stay in bounds and do not overlap;
  - placement is first-fit;
  - input order is kept;
  - sprites are conserved, with exactly one outcome each;
  - oversize sprites are rejected;
  - the number of canvases is bounded, so the loop terminates.
- `PackerDeferral` (deferral.dfy) proves the other half of each placement
  decision: a sprite is put off to a later canvas only when it fits at no cell
  of the current one.
- `UnitSprites` (unit_sprites.dfy) and `PackerScenarios` (scenarios.dfy) work out
  the packing exactly:
  - for sprites of at most one cell, which fill canvas after canvas in row-major
    order (26 sprites of 48×48 under the shipped constants make 25 + 1);
  - for a few small configurations.
- `Naming` (naming.dfy) holds the source-file filter and the output file names.
- `Driver` (driver.dfy) is `main`: listing, packing, saving and deleting, with
  the filesystem as parameters.
- `Seqs` (seqs.dfy) and `Wrappers` (wrappers.dfy) are helpers: subsequences,
  Python's `list.remove`, and `Option`.

A sprite is its path plus its pixel size `(w, h)`. A tileset is the ordered list
of its placements `(sprite, x, y)` in grid cells. The pixel offset
`(x*GRID_SIZE, y*GRID_SIZE)` is derived from that (`Packer.PixelOffset`). The
configuration constants of combine.py:8-13 are a parameter `Config`, and
`Packer.Defaults` holds the shipped values.

Two facts about the loop that the model keeps:

- The pass walks a copy of `remaining` (combine.py:72) while removing from the
  original, so each sprite is visited once per pass.
- A canvas that places nothing ends the loop, silently (combine.py:97-100).

## Model

| member | source | states |
|---|---|---|
| Grid.CellSpan | combine.py:40-41 | `-(-w // g)` is the ceiling of `w / g`: `(cells-1)*g < w <= cells*g` |
| Grid.CreateGrid | combine.py:32-35 | a fresh grid of `h // g` rows and `w // g` columns, every cell free |
| Grid.CheckFit | combine.py:37-50 | given a grid with at least one row (the source reads `grid[0]`): true exactly when the `ceil(w/g) × ceil(h/g)` footprint at `(x, y)` lies inside the grid and none of its cells is occupied |
| Grid.MarkGrid | combine.py:52-57 | given a footprint inside the grid: each cell of it becomes occupied and every other cell keeps its value; the occupied set grows by exactly the footprint |
| Grid.MarkedCellsBlockFit | combine.py:43-57 | after marking, no footprint that shares a cell with the marked one fits |
| Grid.FirstFitFrom | combine.py:82-95 | the row-major scan from `(x, y)` returns a cell inside the grid where the footprint fits, at or after the start; no cell between the start and the result (or after the start, when it returns none) fits |
| Grid.FirstFitCharacterised | combine.py:81-95 | any cell that fits, with no fitting cell before it in row-major order, is the scan's result; when no cell fits, the scan returns none |
| Grid.EmptyGridFit | combine.py:81-95 | on an empty grid a footprint fits iff the grid has a cell and the footprint is no larger than the grid; it then goes to `(0, 0)` |
| Grid.FindFirstFit | combine.py:81-95 | the nested scan, with `placed` and its two `break`s, returns the first-fit cell of the grid's occupied cells, or none |
| Seqs.Remove | combine.py:91 | `list.remove` takes out the first occurrence: one element fewer, the multiset loses exactly that element, the rest keeps its order |
| Packer.Step | combine.py:73-95 | one sprite of the pass: the count of remaining, placed and rejected sprites is preserved, and `remaining` either keeps its contents or loses exactly that sprite |
| Packer.RunPass | combine.py:72-95 | a pass over a snapshot preserves the total count of remaining, placed and rejected sprites and never un-places or un-rejects |
| Packer.RunPassStep | combine.py:72 | walking the snapshot: the next snapshot entry is still in `remaining`, and the rest of the snapshot stays pending after it is handled |
| Packer.PlaceOne | combine.py:73-95 | the loop body on the live grid computes `Step`, and afterwards the grid's occupied cells are exactly the union of the canvas's footprints |
| Packer.PackSheet | combine.py:65-95 | one canvas pass on a fresh grid computes `RunPass` over the snapshot `remaining[:]` |
| Packer.PackImagesToTilesets | combine.py:59-102 | the returned tilesets and `used_images` are those of `Pack` |
| PackerProofs.FirstFitSequenceSound | combine.py:81-95 | on a canvas built by first-fit: every footprint is inside the grid, footprints are pairwise disjoint, each sprite fitted when it was placed, and no earlier cell in row-major order fitted then |
| PackerProofs.PastedWithinCanvas | combine.py:85-87 | a placed sprite's pixel rectangle `(x*g, y*g, w, h)` lies inside the `MAX_WIDTH × MAX_HEIGHT` canvas |
| PackerTheorems.PackPastedWithinCanvas | combine.py:85-87 | every placement of every tileset `Pack` returns is pasted with its whole `w × h` pixel rectangle inside the `MAX_WIDTH × MAX_HEIGHT` canvas |
| PackerDeferral.NoFitStaysNoFit | combine.py:43-57 | marking more cells never makes a footprint fit that fitted nowhere |
| PackerDeferral.PassLeavesOnlyUnfitting | combine.py:72-95 | every sprite a canvas pass leaves in `remaining` is under the size cap and fits at no cell of that pass's finished canvas |
| PackerDeferral.PackDefersOnlyUnfitting | combine.py:64-100 | a sprite on tileset `u`, or left over at the end, fits at no cell of any earlier tileset `t < u`: no sprite is put off while an earlier canvas could hold it |
| PackerProofs.RunPassKeepsOrder | combine.py:72-89 | the sprites placed in a pass form a subsequence of the snapshot, in snapshot order |
| PackerProofs.RunPassDropsOversize | combine.py:76-79 | every copy of an oversize sprite in the snapshot leaves `remaining` during the pass |
| PackerProofs.RunPassStalled | combine.py:97-100 | if a pass on a fresh canvas places nothing, every sprite it saw was oversize or fits no empty grid |
| PackerProofs.PackFromLeftover | combine.py:64-100 | what is left when the loop stops is not oversize, and fits no empty grid |
| PackerTheorems.PackTilesetsSound | combine.py:64-100 | every tileset is non-empty, holds no oversize sprite, and is a subsequence of the input; its footprints are in bounds and pairwise disjoint; each sprite sits on the first row-major cell that fitted when it was placed |
| PackerTheorems.PackConservation | combine.py:59-102 | input = placed + rejected + left over, as multisets; rejected sprites are oversize; `used_images` is exactly the set of placed paths; the leftover keeps input order and fits no empty grid |
| PackerTheorems.PackTilesetCount | combine.py:64-100 | there are at most as many tilesets as placed sprites, and at most as many placed sprites as inputs (the loop's termination bound) |
| PackerTheorems.PackEachSpriteOneOutcome | combine.py:59-102 | with distinct paths, each input sprite is exactly one of placed once, rejected or left over; it is rejected iff oversize; its path is used iff it was placed; no path is on two tilesets |
| PackerTheorems.NothingLeftWhenCapFitsCanvas | combine.py:64-100 | when the size cap's footprint fits an empty canvas, nothing is left over: every sprite is placed or rejected |
| PackerTheorems.DefaultsLeaveNothingBehind | combine.py:8-13 | with the shipped constants (5 × 5 cells, cap 2 × 2 cells), nothing is left over |
| UnitSprites.UnitPack | combine.py:59-102 | one-cell sprites all get placed: canvas after canvas, each filled in row-major order up to `rows*cols`, with nothing rejected or left over |
| UnitSprites.ChunksCount | combine.py:64-100 | one-cell sprites need `ceil(n / (rows*cols))` canvases |
| UnitSprites.ChunksSizes | combine.py:64-100 | every canvas of one-cell sprites but the last is full, and none is empty |
| UnitSprites.TwentySixTilesMakeTwoCanvases | combine.py:8-13 | 26 sprites of 48×48 under the shipped constants give a canvas of 25 in row-major order and a second holding the last one at `(0, 0)` |
| PackerScenarios.ThreeSmallSpritesShareOneCanvas | combine.py:81-95 | three 40×40 sprites under the shipped constants go to `(0,0)`, `(1,0)`, `(2,0)` of a single canvas |
| PackerScenarios.SecondSpriteOpensSecondCanvas | combine.py:64-100 | on a one-cell canvas two sprites make two tilesets |
| PackerScenarios.OversizeSpriteAloneMakesNoCanvas | combine.py:76-79 | a sprite wider than the cap alone is rejected and produces no tileset and no used path |
| PackerScenarios.UnplaceableSpriteStopsThePacker | combine.py:97-100 | a sprite under the cap but larger than the canvas stops the packer with that sprite left over and no tileset |
| Naming.SourceImages | combine.py:21-27 | the sources are a subsequence of the listing, and a name is among them iff it is listed, is a regular file, ends in `.png` in any case, and does not start with `tileset_` |
| Naming.NatToString | combine.py:113 | `str(n)` is a non-empty string of decimal digits with no leading zero |
| Naming.ParseNatToString | combine.py:113 | the decimal string reads back as the same number |
| Naming.NatToStringInjective | combine.py:113 | two numbers have the same decimal string iff they are equal |
| Naming.PrefixStartsWithTileset | combine.py:18 | the run prefix starts with `tileset_` |
| Naming.TilesetNamesDistinct | combine.py:112-113 | two canvases of one run get the same file name iff they have the same index |
| Naming.SavedTilesetIsNotSource | combine.py:24-26 | a saved tileset's name ends in `.png`, yet the source filter rejects it, because the name starts with `tileset_` |
| Driver.SavesNamesDistinct | combine.py:112-114 | the saved file names are pairwise distinct, and none is a source name |
| Driver.SaveTilesets | combine.py:112-114 | the `enumerate` loop saves the i-th tileset under the i-th name, in order |
| Driver.PackedPathsAreSources | combine.py:110-120 | every used path is one of the source paths |
| Driver.UsedPathsAreSaved | combine.py:110-120 | every used path lies on one of the saved tilesets |
| Driver.Combine | combine.py:104-123 | no sources means nothing saved or deleted; otherwise the saved files are the packed tilesets under their names; with deletion on, exactly `used_images` is deleted; every deleted path was a listed source file and lies on a saved tileset; with a prefix starting with `tileset_`, no saved file is deleted |

## Left out

- RunPass: its own contract states only the counts a pass preserves. That every sprite it leaves pending fits nowhere on its canvas is proved separately, as `PackerDeferral.PassLeavesOnlyUnfitting`.
- Filesystem I/O: `os.listdir`, `os.path.isfile`, `tileset.save` and `os.remove`. The listing and the set of regular files are parameters of `Driver.Combine`, a save is recorded as a (name, tileset) pair, and deletion is the returned set of paths.
- The errors `os.remove` can raise, and their handler (combine.py:119-123): these are foreign-call failures, so the model treats deletion of every used path as what is attempted.
- Everything from PIL (`Image.new`, `Image.open`, `canvas.paste`). These are foreign library calls with pixel buffers. A sprite's size is a given `(w, h)`, and `Driver.SpritesOf` takes the size of each path as a function parameter. The canvas is represented by its placements and their pixel offsets; pixels are not modelled.
- `time.time()` in `TILESET_PREFIX` (combine.py:18) is nondeterministic. `Naming.TilesetPrefix` takes the clock reading as a parameter, and `Driver.Combine` takes any prefix.
- All `print` reporting (combine.py:77, 107, 115, 121, 123): these are side effects only.
- `Naming.Lower`: lowers only ASCII letters, because Unicode case mapping is outside the model. Python's `str.lower` also maps other letters, but none of them can turn a name into one ending in `.png`.
- Rejected sprites: the source only drops them. The model records them in a `rejected` list, ghost in the methods, so that conservation can be stated.
- `Seqs.Remove`: it removes the first occurrence of the whole sprite (path and size), whereas the source removes the first equal path. The two agree because a path determines its size.
- Sprite ids: the packer is modelled for any input, including repeated paths. Only the exactly-one-outcome results require distinct paths, which `os.listdir` guarantees.
- Zero-size sprites: no `w, h >= 1` requirement is made. A 0-pixel side yields a footprint that covers no cell; when such a sprite is placed, it goes to `(0, 0)`, as in the source.
- Zero-row or zero-column grids: the packer is not required to have either. On such a grid, the scan never calls `check_fit`.
- The order in which `used_images`, a Python set, is iterated for deletion (combine.py:118): it is modelled as a set, so order is not captured.
