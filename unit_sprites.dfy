/** Sprites of one grid cell: the packer fills each canvas in row-major order,
    `rows * cols` sprites to a canvas, and opens a new canvas for the rest. */
module UnitSprites {
  import opened Wrappers
  import opened Seqs
  import opened Grid
  import opened Packer
  import opened PackerProofs

  /** A sprite under the size cap whose footprint is exactly one cell. */
  predicate UnitSprite(cfg: Config, s: Sprite)
    requires cfg.Valid()
  {
    !Oversize(cfg, s) && WidthCells(cfg, s) == 1 && HeightCells(cfg, s) == 1
  }

  predicate AllUnit(cfg: Config, xs: seq<Sprite>)
    requires cfg.Valid()
  {
    forall i :: 0 <= i < |xs| ==> UnitSprite(cfg, xs[i])
  }

  /** The `i`-th cell in row-major order of a grid `cols` cells wide. */
  function Slot(cols: nat, i: nat): Cell
    requires cols > 0
  {
    Cell(i % cols, i / cols)
  }

  /** Row `q` ends before row `q + 1` starts. */
  lemma RowBound(q: nat, r: nat, q': nat, cols: nat)
    requires r < cols && q < q'
    ensures q * cols + r < q' * cols
  {
    MulMonotonic(q + 1, q', cols);
    MulSucc(q, cols);
  }

  lemma DivModUnique(i: nat, cols: nat, q: nat, r: nat)
    requires 0 < cols && r < cols && i == q * cols + r
    ensures i / cols == q && i % cols == r
  {
    var q', r' := i / cols, i % cols;
    assert i == q' * cols + r' && r' < cols;
    if q' < q {
      RowBound(q', r', q, cols);
      assert false;
    } else if q < q' {
      RowBound(q, r, q', cols);
      assert false;
    }
  }

  lemma SlotOfCell(cols: nat, c: Cell)
    requires 0 < cols && c.col < cols
    ensures Slot(cols, c.row * cols + c.col) == c
  {
    DivModUnique(c.row * cols + c.col, cols, c.row, c.col);
  }

  /** The first `k` cells in row-major order. */
  function SlotsBelow(cols: nat, k: nat): (occ: set<Cell>)
    requires cols > 0
    ensures forall c :: c in occ <==> c.col < cols && c.row * cols + c.col < k
  {
    var occ := set i: nat | i < k :: Slot(cols, i);
    assert forall c :: c in occ <==> c.col < cols && c.row * cols + c.col < k by {
      forall c
        ensures c in occ <==> c.col < cols && c.row * cols + c.col < k
      {
        if c.col < cols {
          SlotOfCell(cols, c);
        }
        if c in occ {
          var i: nat :| i < k && Slot(cols, i) == c;
          assert i == (i / cols) * cols + i % cols;
        }
      }
    }
    occ
  }

  /** A canvas of `xs`, the `i`-th sprite in the `i`-th row-major cell. */
  function RowMajor(cols: nat, xs: seq<Sprite>): (t: Tileset)
    requires cols > 0
    ensures |t| == |xs|
    ensures forall i :: 0 <= i < |xs| ==> t[i] == Placement(xs[i], i % cols, i / cols)
  {
    seq(|xs|, i requires 0 <= i < |xs| => Placement(xs[i], i % cols, i / cols))
  }

  lemma RowMajorSnoc(cols: nat, xs: seq<Sprite>, k: nat)
    requires 0 < cols && k < |xs|
    ensures RowMajor(cols, xs[..k + 1]) == RowMajor(cols, xs[..k]) + [Placement(xs[k], k % cols, k / cols)]
  {
  }

  lemma UnitPlacementFootprint(cfg: Config, p: Placement)
    requires cfg.Valid() && UnitSprite(cfg, p.sprite)
    ensures Footprint(cfg, p) == {Cell(p.x, p.y)}
  {
    forall c ensures c in Footprint(cfg, p) <==> c == Cell(p.x, p.y) {
      assert c == Cell(c.col, c.row);
    }
  }

  lemma SlotsBelowSucc(cols: nat, k: nat)
    requires 0 < cols
    ensures SlotsBelow(cols, k + 1) == SlotsBelow(cols, k) + {Slot(cols, k)}
  {
    forall c ensures c in SlotsBelow(cols, k + 1) <==> c in SlotsBelow(cols, k) || c == Slot(cols, k) {
      if c.col < cols && c.row * cols + c.col == k {
        SlotOfCell(cols, c);
      }
      if c == Slot(cols, k) {
        assert k == (k / cols) * cols + k % cols;
      }
    }
  }

  /** A row-major canvas of `k` unit sprites covers exactly the first `k` cells. */
  lemma {:induction false} CoveredRowMajor(cfg: Config, xs: seq<Sprite>)
    requires cfg.Valid() && 0 < cfg.Cols() && AllUnit(cfg, xs)
    ensures Covered(cfg, RowMajor(cfg.Cols(), xs)) == SlotsBelow(cfg.Cols(), |xs|)
    decreases |xs|
  {
    var cols := cfg.Cols();
    if xs != [] {
      var k := |xs| - 1;
      var p := Placement(xs[k], k % cols, k / cols);
      assert xs[..k + 1] == xs;
      RowMajorSnoc(cols, xs, k);
      assert AllUnit(cfg, xs[..k]);
      CoveredRowMajor(cfg, xs[..k]);
      CoveredAppend(cfg, RowMajor(cols, xs[..k]), p);
      UnitPlacementFootprint(cfg, p);
      SlotsBelowSucc(cols, k);
    }
  }

  lemma BeforeByIndex(cols: nat, c: Cell, d: Cell)
    requires 0 < cols && c.col < cols && d.col < cols && Before(c, d)
    ensures c.row * cols + c.col < d.row * cols + d.col
  {
    if c.row < d.row {
      RowBound(c.row, c.col, d.row, cols);
    }
  }

  /** With `k` cells filled, a unit sprite goes to the next cell in row-major order. */
  lemma NextSlotFits(rows: nat, cols: nat, k: nat)
    requires 0 < cols && k < rows * cols
    ensures FirstFit(SlotsBelow(cols, k), rows, cols, 1, 1) == Some(Slot(cols, k))
  {
    var occ := SlotsBelow(cols, k);
    var s := Slot(cols, k);
    assert k == (k / cols) * cols + k % cols;
    assert s.row < rows by {
      if s.row >= rows {
        MulMonotonic(rows, s.row, cols);
        assert false;
      }
    }
    assert s !in occ;
    assert RectCells(s.col, s.row, 1, 1) !! occ by {
      forall c | c in RectCells(s.col, s.row, 1, 1) ensures c !in occ {
        assert c == Cell(c.col, c.row);
      }
    }
    forall c: Cell | c.col < cols && c.row < rows && Before(c, s)
      ensures !FitsAt(occ, rows, cols, c.col, c.row, 1, 1)
    {
      BeforeByIndex(cols, c, s);
      assert c in RectCells(c.col, c.row, 1, 1);
    }
    FirstFitCharacterised(occ, rows, cols, 1, 1, Some(s));
  }

  /** With every cell filled, no unit sprite fits. */
  lemma FullGridNoFit(rows: nat, cols: nat)
    requires 0 < cols
    ensures FirstFit(SlotsBelow(cols, rows * cols), rows, cols, 1, 1) == None
  {
    var occ := SlotsBelow(cols, rows * cols);
    forall c: Cell | c.col < cols && c.row < rows
      ensures !FitsAt(occ, rows, cols, c.col, c.row, 1, 1)
    {
      RowBound(c.row, c.col, rows, cols);
      assert c in RectCells(c.col, c.row, 1, 1);
    }
    FirstFitCharacterised(occ, rows, cols, 1, 1, None);
  }

  function Capacity(cfg: Config): nat
    requires cfg.Valid()
  {
    cfg.Rows() * cfg.Cols()
  }

  function Min(a: nat, b: nat): nat {
    if a <= b then a else b
  }

  /** Once the canvas is full, the rest of the pass changes nothing. */
  lemma {:induction false} FullPassChangesNothing(cfg: Config, st: PassState, todo: seq<Sprite>)
    requires cfg.Valid() && 0 < cfg.Cols() && AllUnit(cfg, todo)
    requires multiset(todo) <= multiset(st.remaining)
    requires Covered(cfg, st.placed) == SlotsBelow(cfg.Cols(), Capacity(cfg))
    ensures RunPass(cfg, st, todo) == st
    decreases |todo|
  {
    if todo != [] {
      PendingAfterStep(todo, st.remaining);
      FullGridNoFit(cfg.Rows(), cfg.Cols());
      assert Step(cfg, st, todo[0]) == st;
      assert AllUnit(cfg, todo[1..]);
      FullPassChangesNothing(cfg, st, todo[1..]);
    }
  }

  lemma NextUnitFits(cfg: Config, xs: seq<Sprite>, k: nat)
    requires cfg.Valid() && 0 < cfg.Cols() && AllUnit(cfg, xs) && k < Min(|xs|, Capacity(cfg))
    ensures FirstFit(Covered(cfg, RowMajor(cfg.Cols(), xs[..k])), cfg.Rows(), cfg.Cols(),
                     WidthCells(cfg, xs[k]), HeightCells(cfg, xs[k])) == Some(Slot(cfg.Cols(), k))
  {
    assert AllUnit(cfg, xs[..k]);
    CoveredRowMajor(cfg, xs[..k]);
    NextSlotFits(cfg.Rows(), cfg.Cols(), k);
  }

  lemma PathsSnoc(xs: seq<Sprite>, k: nat)
    requires k < |xs|
    ensures Paths(xs[..k + 1]) == Paths(xs[..k]) + {xs[k].path}
  {
    assert xs[..k + 1] == xs[..k] + [xs[k]];
    PathsConcat(xs[..k], [xs[k]]);
  }

  lemma PathsSplit(xs: seq<Sprite>, m: nat)
    requires m <= |xs|
    ensures Paths(xs) == Paths(xs[..m]) + Paths(xs[m..])
  {
    assert xs == xs[..m] + xs[m..];
    PathsConcat(xs[..m], xs[m..]);
  }

  lemma PlaceNextUnit(cfg: Config, xs: seq<Sprite>, k: nat, used: set<string>, rejected: seq<Sprite>)
    requires cfg.Valid() && 0 < cfg.Cols() && AllUnit(cfg, xs) && k < Min(|xs|, Capacity(cfg))
    ensures Step(cfg, PassState(xs[k..], used + Paths(xs[..k]), rejected, RowMajor(cfg.Cols(), xs[..k])), xs[k]) ==
            PassState(xs[k + 1..], used + Paths(xs[..k + 1]), rejected, RowMajor(cfg.Cols(), xs[..k + 1]))
  {
    var st := PassState(xs[k..], used + Paths(xs[..k]), rejected, RowMajor(cfg.Cols(), xs[..k]));
    NextUnitFits(cfg, xs, k);
    assert xs[k..][0] == xs[k];
    RemoveHead(xs[k..]);
    PathsSnoc(xs, k);
    RowMajorSnoc(cfg.Cols(), xs, k);
  }

  /** One pass over unit sprites places the first `min(|xs|, rows * cols)` of
      them in row-major order and leaves the rest, in order, for the next canvas. */
  lemma {:induction false} FillingPass(cfg: Config, xs: seq<Sprite>, k: nat, used: set<string>, rejected: seq<Sprite>)
    requires cfg.Valid() && 0 < cfg.Cols() && AllUnit(cfg, xs) && k <= Min(|xs|, Capacity(cfg))
    ensures var m := Min(|xs|, Capacity(cfg));
      RunPass(cfg, PassState(xs[k..], used + Paths(xs[..k]), rejected, RowMajor(cfg.Cols(), xs[..k])), xs[k..]) ==
      PassState(xs[m..], used + Paths(xs[..m]), rejected, RowMajor(cfg.Cols(), xs[..m]))
    decreases Min(|xs|, Capacity(cfg)) - k
  {
    var m := Min(|xs|, Capacity(cfg));
    var st := PassState(xs[k..], used + Paths(xs[..k]), rejected, RowMajor(cfg.Cols(), xs[..k]));
    if k < m {
      PlaceNextUnit(cfg, xs, k, used, rejected);
      assert xs[k..][0] == xs[k] && xs[k..][1..] == xs[k + 1..];
      FillingPass(cfg, xs, k + 1, used, rejected);
    } else if k < |xs| {
      assert AllUnit(cfg, xs[..k]) && AllUnit(cfg, xs[k..]);
      CoveredRowMajor(cfg, xs[..k]);
      FullPassChangesNothing(cfg, st, xs[k..]);
    }
  }

  /** The canvases unit sprites fill: full canvases of `rows * cols`, then the rest. */
  function Chunks(cfg: Config, xs: seq<Sprite>): seq<Tileset>
    requires cfg.Valid() && 0 < cfg.Cols() && 0 < cfg.Rows()
    decreases |xs|
  {
    if xs == [] then []
    else
      var m := Min(|xs|, Capacity(cfg));
      assert 0 < m by {
        assert 1 * cfg.Cols() <= cfg.Rows() * cfg.Cols();
      }
      [RowMajor(cfg.Cols(), xs[..m])] + Chunks(cfg, xs[m..])
  }

  lemma UnitFirstPass(cfg: Config, xs: seq<Sprite>, used: set<string>, rejected: seq<Sprite>)
    requires cfg.Valid() && 0 < cfg.Cols() && AllUnit(cfg, xs)
    ensures var m := Min(|xs|, Capacity(cfg));
      RunPass(cfg, PassState(xs, used, rejected, []), xs) ==
      PassState(xs[m..], used + Paths(xs[..m]), rejected, RowMajor(cfg.Cols(), xs[..m]))
  {
    assert xs[0..] == xs && xs[..0] == [];
    assert used + Paths([]) == used;
    FillingPass(cfg, xs, 0, used, rejected);
  }

  lemma ChunksLast(cfg: Config, xs: seq<Sprite>)
    requires cfg.Valid() && 0 < cfg.Cols() && 0 < cfg.Rows() && 0 < |xs| <= Capacity(cfg)
    ensures Chunks(cfg, xs) == [RowMajor(cfg.Cols(), xs)]
  {
    assert xs[..|xs|] == xs && xs[|xs|..] == [];
  }

  lemma ChunksFull(cfg: Config, xs: seq<Sprite>)
    requires cfg.Valid() && 0 < cfg.Cols() && 0 < cfg.Rows() && Capacity(cfg) < |xs|
    ensures Chunks(cfg, xs) == [RowMajor(cfg.Cols(), xs[..Capacity(cfg)])] + Chunks(cfg, xs[Capacity(cfg)..])
  {
  }

  lemma {:induction false} UnitPackFrom(cfg: Config, xs: seq<Sprite>, ts: seq<Tileset>, used: set<string>, rejected: seq<Sprite>)
    requires cfg.Valid() && 0 < cfg.Cols() && 0 < cfg.Rows() && AllUnit(cfg, xs)
    ensures PackFrom(cfg, Session(xs, ts, used, rejected)) == Session([], ts + Chunks(cfg, xs), used + Paths(xs), rejected)
    decreases |xs|
  {
    if xs != [] {
      var m := Min(|xs|, Capacity(cfg));
      var first := RowMajor(cfg.Cols(), xs[..m]);
      assert 1 * cfg.Cols() <= cfg.Rows() * cfg.Cols();
      UnitFirstPass(cfg, xs, used, rejected);
      assert first[0].sprite == xs[0];
      assert AllUnit(cfg, xs[m..]);
      UnitPackFrom(cfg, xs[m..], ts + [first], used + Paths(xs[..m]), rejected);
      PathsSplit(xs, m);
      assert Chunks(cfg, xs) == [first] + Chunks(cfg, xs[m..]);
      assert ts + [first] + Chunks(cfg, xs[m..]) == ts + Chunks(cfg, xs);
    }
  }

  /** Packing unit sprites places every one of them: canvas after canvas, each
      filled in row-major order, and nothing is rejected or left over. */
  lemma UnitPack(cfg: Config, xs: seq<Sprite>)
    requires cfg.Valid() && 0 < cfg.Cols() && 0 < cfg.Rows() && AllUnit(cfg, xs)
    ensures Pack(cfg, xs) == Session([], Chunks(cfg, xs), Paths(xs), [])
  {
    UnitPackFrom(cfg, xs, [], {}, []);
  }

  /** There are `ceil(|xs| / (rows * cols))` canvases. */
  lemma {:induction false} ChunksCount(cfg: Config, xs: seq<Sprite>)
    requires cfg.Valid() && 0 < cfg.Cols() && 0 < cfg.Rows()
    ensures var ch := Chunks(cfg, xs);
      (|ch| - 1) * Capacity(cfg) < |xs| <= |ch| * Capacity(cfg) || (xs == [] && ch == [])
    decreases |xs|
  {
    if xs != [] {
      var n := Capacity(cfg);
      var m := Min(|xs|, n);
      MulMonotonic(1, cfg.Rows(), cfg.Cols());
      ChunksCount(cfg, xs[m..]);
      var rest := Chunks(cfg, xs[m..]);
      assert |Chunks(cfg, xs)| == |rest| + 1;
      MulSucc(|rest|, n);
    }
  }

  /** All canvases but the last hold exactly `n` sprites, and none is empty. */
  ghost predicate FullButLast(n: nat, ch: seq<Tileset>) {
    forall t :: 0 <= t < |ch| ==> 0 < |ch[t]| <= n && (t < |ch| - 1 ==> |ch[t]| == n)
  }

  lemma FullButLastCons(n: nat, c: Tileset, rest: seq<Tileset>)
    requires 0 < |c| <= n && (rest != [] ==> |c| == n) && FullButLast(n, rest)
    ensures FullButLast(n, [c] + rest)
  {
    var ch := [c] + rest;
    forall t | 1 <= t < |ch|
      ensures 0 < |ch[t]| <= n && (t < |ch| - 1 ==> |ch[t]| == n)
    {
      assert ch[t] == rest[t - 1];
    }
  }

  lemma {:induction false} ChunksSizes(cfg: Config, xs: seq<Sprite>)
    requires cfg.Valid() && 0 < cfg.Cols() && 0 < cfg.Rows()
    ensures FullButLast(Capacity(cfg), Chunks(cfg, xs))
    decreases |xs|
  {
    if xs != [] {
      var n := Capacity(cfg);
      var m := Min(|xs|, n);
      MulMonotonic(1, cfg.Rows(), cfg.Cols());
      ChunksSizes(cfg, xs[m..]);
      var rest := Chunks(cfg, xs[m..]);
      assert Chunks(cfg, xs) == [RowMajor(cfg.Cols(), xs[..m])] + rest;
      assert rest != [] ==> m == n;
      FullButLastCons(n, RowMajor(cfg.Cols(), xs[..m]), rest);
    }
  }

  /** Twenty-six 48 x 48 sprites under the shipped constants: a first canvas of
      25 in row-major order and a second holding the last sprite at `(0, 0)`. */
  lemma TwentySixTilesMakeTwoCanvases(xs: seq<Sprite>)
    requires |xs| == 26 && forall i :: 0 <= i < |xs| ==> xs[i].w == 48 && xs[i].h == 48
    ensures var r := Pack(Defaults, xs);
      |r.tilesets| == 2 && |r.tilesets[0]| == 25 && r.tilesets[1] == [Placement(xs[25], 0, 0)] &&
      (forall i :: 0 <= i < 25 ==> r.tilesets[0][i] == Placement(xs[i], i % 5, i / 5)) &&
      r.used == Paths(xs) && r.remaining == [] && r.rejected == []
  {
    var cfg := Defaults;
    assert cfg.Rows() == 5 && cfg.Cols() == 5 && Capacity(cfg) == 25;
    assert CellSpan(48, 48) == 1;
    assert AllUnit(cfg, xs);
    UnitPack(cfg, xs);
    ChunksFull(cfg, xs);
    ChunksLast(cfg, xs[25..]);
  }
}
