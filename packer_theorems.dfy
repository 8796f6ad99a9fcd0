/** The packer's guarantees, stated about `Pack(cfg, images)`: the function that
    `PackImagesToTilesets` is proved to compute. */
module PackerTheorems {
  import opened Seqs
  import opened Grid
  import opened Packer
  import opened PackerProofs

  /** No two input sprites share a path, as `os.listdir` guarantees (combine.py:23). */
  ghost predicate DistinctPaths(ss: seq<Sprite>) {
    forall i, j :: 0 <= i < j < |ss| ==> ss[i].path != ss[j].path
  }

  // ---------------------------------------------------------------------------
  // Helpers about flattening and distinctness

  lemma {:induction false} AllSpritesMembers(ts: seq<Tileset>)
    ensures forall t, k :: 0 <= t < |ts| && 0 <= k < |ts[t]| ==> ts[t][k].sprite in AllSprites(ts)
    ensures forall x :: x in AllSprites(ts) ==>
      exists t, k :: 0 <= t < |ts| && 0 <= k < |ts[t]| && ts[t][k].sprite == x
    decreases |ts|
  {
    if ts != [] {
      var ts' := ts[..|ts| - 1];
      var last := ts[|ts| - 1];
      AllSpritesMembers(ts');
      SpritesIndex(last);
      assert forall t :: 0 <= t < |ts'| ==> ts[t] == ts'[t];
      forall x | x in AllSprites(ts)
        ensures exists t, k :: 0 <= t < |ts| && 0 <= k < |ts[t]| && ts[t][k].sprite == x
      {
        if x !in AllSprites(ts') {
          assert x in Sprites(last);
          var k :| 0 <= k < |Sprites(last)| && Sprites(last)[k] == x;
          assert ts[|ts| - 1][k].sprite == x;
        }
      }
    }
  }

  lemma SamePathSameSprite(b: seq<Sprite>, x: Sprite, y: Sprite)
    requires DistinctPaths(b) && x in b && y in b && x.path == y.path
    ensures x == y
  {
    var i :| 0 <= i < |b| && b[i] == x;
    var j :| 0 <= j < |b| && b[j] == y;
    assert !(i < j) && !(j < i);
  }

  lemma {:induction false} DistinctCount(ss: seq<Sprite>, x: Sprite)
    requires DistinctPaths(ss) && x in ss
    ensures multiset(ss)[x] == 1
    decreases |ss|
  {
    var ss' := ss[..|ss| - 1];
    var last := ss[|ss| - 1];
    assert ss == ss' + [last];
    assert DistinctPaths(ss');
    if x == last {
      assert x !in ss';
    } else {
      DistinctCount(ss', x);
    }
  }

  lemma TwoOccurrences(a: seq<Sprite>, i: nat, j: nat)
    requires i < j < |a| && a[i] == a[j]
    ensures multiset(a)[a[i]] >= 2
  {
    assert a == a[..j] + a[j..];
    assert a[..j][i] == a[i];
    assert a[j..][0] == a[j];
    assert a[i] in multiset(a[..j]) && a[i] in multiset(a[j..]);
  }

  /** Drawing sprites from a list with distinct paths, without reuse, keeps the paths distinct. */
  lemma SubMultisetDistinct(a: seq<Sprite>, b: seq<Sprite>)
    requires multiset(a) <= multiset(b) && DistinctPaths(b)
    ensures DistinctPaths(a)
  {
    forall i, j | 0 <= i < j < |a|
      ensures a[i].path != a[j].path
    {
      if a[i].path == a[j].path {
        assert a[i] in multiset(a) && a[j] in multiset(a);
        SamePathSameSprite(b, a[i], a[j]);
        TwoOccurrences(a, i, j);
        DistinctCount(b, a[i]);
        assert false;
      }
    }
  }

  lemma DistinctConcat(a: seq<Sprite>, b: seq<Sprite>)
    requires DistinctPaths(a + b)
    ensures DistinctPaths(a) && Paths(a) !! Paths(b)
  {
    forall i, j | 0 <= i < j < |a| ensures a[i].path != a[j].path {
      assert (a + b)[i] == a[i] && (a + b)[j] == a[j];
    }
    forall x, y | x in a && y in b ensures x.path != y.path {
      var i :| 0 <= i < |a| && a[i] == x;
      var j :| 0 <= j < |b| && b[j] == y;
      assert (a + b)[i] == x && (a + b)[|a| + j] == y;
    }
  }

  lemma TilesetPathsInAll(ts: seq<Tileset>, t: nat)
    requires t < |ts|
    ensures Paths(Sprites(ts[t])) <= Paths(AllSprites(ts))
  {
    AllSpritesMembers(ts);
    SpritesIndex(ts[t]);
    forall q | q in Paths(Sprites(ts[t])) ensures q in Paths(AllSprites(ts)) {
      var x :| x in Sprites(ts[t]) && x.path == q;
      var k :| 0 <= k < |Sprites(ts[t])| && Sprites(ts[t])[k] == x;
      assert ts[t][k].sprite == x;
    }
  }

  /** In a flattened list with distinct paths, no path is shared by two tilesets. */
  lemma {:induction false} DistinctAcrossTilesets(ts: seq<Tileset>)
    requires DistinctPaths(AllSprites(ts))
    ensures forall t, u :: 0 <= t < u < |ts| ==> Paths(Sprites(ts[t])) !! Paths(Sprites(ts[u]))
    decreases |ts|
  {
    if ts != [] {
      var ts' := ts[..|ts| - 1];
      assert AllSprites(ts) == AllSprites(ts') + Sprites(ts[|ts| - 1]);
      DistinctConcat(AllSprites(ts'), Sprites(ts[|ts| - 1]));
      DistinctAcrossTilesets(ts');
      forall t, u | 0 <= t < u < |ts|
        ensures Paths(Sprites(ts[t])) !! Paths(Sprites(ts[u]))
      {
        assert ts[t] == ts'[t];
        if u < |ts| - 1 {
          assert ts[u] == ts'[u];
        } else {
          TilesetPathsInAll(ts', t);
        }
      }
    }
  }

  lemma {:induction false} AllSpritesCount(ts: seq<Tileset>)
    requires forall t :: 0 <= t < |ts| ==> ts[t] != []
    ensures |AllSprites(ts)| >= |ts|
    decreases |ts|
  {
    if ts != [] {
      var ts' := ts[..|ts| - 1];
      assert forall t :: 0 <= t < |ts'| ==> ts'[t] == ts[t];
      AllSpritesCount(ts');
      SpritesIndex(ts[|ts| - 1]);
    }
  }

  // ---------------------------------------------------------------------------
  // The guarantees

  lemma PackInv(cfg: Config, images: seq<Sprite>)
    requires cfg.Valid()
    ensures SessionInv(cfg, images, Pack(cfg, images))
  {
    SessionInvStart(cfg, images);
    PackFromKeepsSessionInv(cfg, images, Session(images, [], {}, []));
  }

  /** Every tileset is non-empty, has no oversize sprite, lists its sprites in
      input order, keeps every footprint inside the grid, has pairwise disjoint
      footprints, and put each sprite on the first row-major cell where
      `check_fit` held. */
  lemma PackTilesetsSound(cfg: Config, images: seq<Sprite>)
    requires cfg.Valid()
    ensures var ts := Pack(cfg, images).tilesets;
      forall t :: 0 <= t < |ts| ==>
        ts[t] != [] && NoOversize(cfg, ts[t]) && IsSubseq(Sprites(ts[t]), images) &&
        (forall k :: 0 <= k < |ts[t]| ==>
           ts[t][k].x < cfg.Cols() && ts[t][k].y < cfg.Rows() &&
           ts[t][k].x + WidthCells(cfg, ts[t][k].sprite) <= cfg.Cols() &&
           ts[t][k].y + HeightCells(cfg, ts[t][k].sprite) <= cfg.Rows()) &&
        (forall i, j :: 0 <= i < j < |ts[t]| ==> Footprint(cfg, ts[t][i]) !! Footprint(cfg, ts[t][j])) &&
        (forall k, c: Cell :: 0 <= k < |ts[t]| && c.col < cfg.Cols() && c.row < cfg.Rows() &&
           (c == Cell(ts[t][k].x, ts[t][k].y) || Before(c, Cell(ts[t][k].x, ts[t][k].y)))
           ==> (FitsAt(Covered(cfg, ts[t][..k]), cfg.Rows(), cfg.Cols(), c.col, c.row,
                   WidthCells(cfg, ts[t][k].sprite), HeightCells(cfg, ts[t][k].sprite))
            <==> c == Cell(ts[t][k].x, ts[t][k].y)))
  {
    PackInv(cfg, images);
    var ts := Pack(cfg, images).tilesets;
    forall t | 0 <= t < |ts| {
      FirstFitSequenceSound(cfg, ts[t]);
    }
  }

  /** Conservation and bookkeeping: every input sprite is placed, rejected or
      left over, as often as it occurs in the input; only oversize sprites are
      rejected; `used_images` is the set of placed paths; what is left over keeps
      input order, is not oversize, and fits nowhere on an empty grid. */
  lemma PackConservation(cfg: Config, images: seq<Sprite>)
    requires cfg.Valid()
    ensures var r := Pack(cfg, images);
      multiset(images) == multiset(AllSprites(r.tilesets)) + multiset(r.rejected) + multiset(r.remaining)
    ensures var r := Pack(cfg, images); forall x :: x in r.rejected ==> Oversize(cfg, x)
    ensures var r := Pack(cfg, images); r.used == Paths(AllSprites(r.tilesets))
    ensures var r := Pack(cfg, images); IsSubseq(r.remaining, images)
    ensures var r := Pack(cfg, images); forall x :: x in r.remaining ==>
      !Oversize(cfg, x) && FirstFit({}, cfg.Rows(), cfg.Cols(), WidthCells(cfg, x), HeightCells(cfg, x)).None?
  {
    PackInv(cfg, images);
    PackFromLeftover(cfg, Session(images, [], {}, []));
  }

  /** No more tilesets than placed sprites, and no more placed sprites than inputs. */
  lemma PackTilesetCount(cfg: Config, images: seq<Sprite>)
    requires cfg.Valid()
    ensures |Pack(cfg, images).tilesets| <= |AllSprites(Pack(cfg, images).tilesets)| <= |images|
  {
    PackInv(cfg, images);
    var r := Pack(cfg, images);
    AllSpritesCount(r.tilesets);
    assert |multiset(images)| == |multiset(AllSprites(r.tilesets))| + |multiset(r.remaining)| + |multiset(r.rejected)|;
  }

  /** Every pasted sprite lies inside its canvas: the pixel rectangle at
      `(x * GRID_SIZE, y * GRID_SIZE)` of size `w x h` is within `MAX_WIDTH x MAX_HEIGHT`. */
  lemma PackPastedWithinCanvas(cfg: Config, images: seq<Sprite>)
    requires cfg.Valid()
    ensures var ts := Pack(cfg, images).tilesets;
      forall t, k :: 0 <= t < |ts| && 0 <= k < |ts[t]| ==>
        0 <= PixelOffset(cfg, ts[t][k]).0 && PixelOffset(cfg, ts[t][k]).0 + ts[t][k].sprite.w <= cfg.maxWidth &&
        0 <= PixelOffset(cfg, ts[t][k]).1 && PixelOffset(cfg, ts[t][k]).1 + ts[t][k].sprite.h <= cfg.maxHeight
  {
    PackTilesetsSound(cfg, images);
    var ts := Pack(cfg, images).tilesets;
    forall t, k | 0 <= t < |ts| && 0 <= k < |ts[t]|
      ensures 0 <= PixelOffset(cfg, ts[t][k]).0 && PixelOffset(cfg, ts[t][k]).0 + ts[t][k].sprite.w <= cfg.maxWidth
      ensures 0 <= PixelOffset(cfg, ts[t][k]).1 && PixelOffset(cfg, ts[t][k]).1 + ts[t][k].sprite.h <= cfg.maxHeight
    {
      PastedWithinCanvas(cfg, ts[t][k]);
    }
  }

  /** What is left when packing stops: sprites that are not oversize yet fit no
      empty grid. */
  ghost predicate Finished(cfg: Config, r: Session)
    requires cfg.Valid()
  {
    forall x :: x in r.remaining ==>
      !Oversize(cfg, x) && FirstFit({}, cfg.Rows(), cfg.Cols(), WidthCells(cfg, x), HeightCells(cfg, x)).None?
  }

  lemma PlacedNotOversize(cfg: Config, ts: seq<Tileset>)
    requires forall t :: 0 <= t < |ts| ==> NoOversize(cfg, ts[t])
    ensures forall x :: x in AllSprites(ts) ==> !Oversize(cfg, x)
  {
    AllSpritesMembers(ts);
  }

  lemma OneOutcome(cfg: Config, images: seq<Sprite>, r: Session, x: Sprite)
    requires cfg.Valid() && SessionInv(cfg, images, r) && Finished(cfg, r)
    requires DistinctPaths(images) && x in images
    ensures multiset(AllSprites(r.tilesets))[x] + multiset(r.rejected)[x] + multiset(r.remaining)[x] == 1
    ensures x in r.rejected <==> Oversize(cfg, x)
  {
    DistinctCount(images, x);
    assert multiset(images)[x] ==
      multiset(r.remaining)[x] + multiset(AllSprites(r.tilesets))[x] + multiset(r.rejected)[x];
    if Oversize(cfg, x) {
      PlacedNotOversize(cfg, r.tilesets);
      assert x !in r.remaining && x !in AllSprites(r.tilesets);
    }
    if x in r.rejected {
      var i :| 0 <= i < |r.rejected| && r.rejected[i] == x;
    }
  }

  lemma UsedMeansPlaced(cfg: Config, images: seq<Sprite>, r: Session, x: Sprite)
    requires cfg.Valid() && SessionInv(cfg, images, r)
    requires DistinctPaths(images) && x in images
    ensures x.path in r.used <==> x in AllSprites(r.tilesets)
  {
    if x.path in r.used {
      var y :| y in AllSprites(r.tilesets) && y.path == x.path;
      assert y in multiset(images);
      SamePathSameSprite(images, x, y);
    }
  }

  lemma OneTilesetPerPath(cfg: Config, images: seq<Sprite>, r: Session)
    requires cfg.Valid() && SessionInv(cfg, images, r) && DistinctPaths(images)
    ensures forall t, u :: 0 <= t < u < |r.tilesets| ==> Paths(Sprites(r.tilesets[t])) !! Paths(Sprites(r.tilesets[u]))
  {
    SubMultisetDistinct(AllSprites(r.tilesets), images);
    DistinctAcrossTilesets(r.tilesets);
  }

  lemma PackFinished(cfg: Config, images: seq<Sprite>)
    requires cfg.Valid()
    ensures SessionInv(cfg, images, Pack(cfg, images)) && Finished(cfg, Pack(cfg, images))
  {
    PackInv(cfg, images);
    PackFromLeftover(cfg, Session(images, [], {}, []));
  }

  /** With distinct paths, each input sprite has exactly one fate: placed once,
      rejected for its size, or left over; oversize sprites are exactly the
      rejected ones; a path is in `used_images` exactly when its sprite was
      placed; and no path appears on two tilesets. */
  lemma PackEachSpriteOneOutcome(cfg: Config, images: seq<Sprite>, x: Sprite)
    requires cfg.Valid() && DistinctPaths(images) && x in images
    ensures var r := Pack(cfg, images);
      multiset(AllSprites(r.tilesets))[x] + multiset(r.rejected)[x] + multiset(r.remaining)[x] == 1
    ensures var r := Pack(cfg, images); x in r.rejected <==> Oversize(cfg, x)
    ensures var r := Pack(cfg, images); x.path in r.used <==> x in AllSprites(r.tilesets)
    ensures var r := Pack(cfg, images);
      forall t, u :: 0 <= t < u < |r.tilesets| ==> Paths(Sprites(r.tilesets[t])) !! Paths(Sprites(r.tilesets[u]))
  {
    PackFinished(cfg, images);
    var r := Pack(cfg, images);
    OneOutcome(cfg, images, r, x);
    UsedMeansPlaced(cfg, images, r, x);
    OneTilesetPerPath(cfg, images, r);
  }

  lemma FinishedEmptyWhenCapFits(cfg: Config, r: Session)
    requires cfg.Valid() && Finished(cfg, r) && 0 < cfg.Rows() && 0 < cfg.Cols()
    requires CellSpan(cfg.maxSpriteWidth, cfg.gridSize) <= cfg.Cols()
    requires CellSpan(cfg.maxSpriteHeight, cfg.gridSize) <= cfg.Rows()
    ensures r.remaining == []
  {
    if r.remaining != [] {
      var x := r.remaining[0];
      assert x in r.remaining;
      assert x.w <= cfg.maxSpriteWidth && x.h <= cfg.maxSpriteHeight;
      CellSpanMonotonic(x.w, cfg.maxSpriteWidth, cfg.gridSize);
      CellSpanMonotonic(x.h, cfg.maxSpriteHeight, cfg.gridSize);
      EmptyGridFit(cfg.Rows(), cfg.Cols(), WidthCells(cfg, x), HeightCells(cfg, x));
      assert false;
    }
  }

  /** When a size-capped sprite always fits an empty canvas, nothing is left over:
      the no-progress `break` is then only reached with `remaining` empty. */
  lemma NothingLeftWhenCapFitsCanvas(cfg: Config, images: seq<Sprite>)
    requires cfg.Valid() && 0 < cfg.Rows() && 0 < cfg.Cols()
    requires CellSpan(cfg.maxSpriteWidth, cfg.gridSize) <= cfg.Cols()
    requires CellSpan(cfg.maxSpriteHeight, cfg.gridSize) <= cfg.Rows()
    ensures Pack(cfg, images).remaining == []
  {
    PackFinished(cfg, images);
    FinishedEmptyWhenCapFits(cfg, Pack(cfg, images));
  }

  /** With the shipped constants (5 x 5 cells of 48 pixels, sprites up to 96 x 96,
      i.e. 2 x 2 cells), every sprite is either placed or rejected. */
  lemma DefaultsLeaveNothingBehind(images: seq<Sprite>)
    ensures Pack(Defaults, images).remaining == []
  {
    assert Defaults.Rows() == 5 && Defaults.Cols() == 5;
    assert CellSpan(96, 48) == 2;
    NothingLeftWhenCapFitsCanvas(Defaults, images);
  }
}
