/** What the packer promises, proved about the specification functions of module
    Packer (and so, through PackImagesToTilesets's postcondition, about the method). */
module PackerProofs {
  import opened Wrappers
  import opened Seqs
  import opened Grid
  import opened Packer

  // ---------------------------------------------------------------------------
  // Bookkeeping over placements

  lemma SpritesAppend(t: Tileset, p: Placement)
    ensures Sprites(t + [p]) == Sprites(t) + [p.sprite]
  {
    assert (t + [p])[..|t|] == t;
  }

  lemma CoveredAppend(cfg: Config, t: Tileset, p: Placement)
    requires cfg.Valid()
    ensures Covered(cfg, t + [p]) == Covered(cfg, t) + Footprint(cfg, p)
  {
    assert (t + [p])[..|t|] == t;
  }

  lemma AllSpritesAppend(ts: seq<Tileset>, t: Tileset)
    ensures AllSprites(ts + [t]) == AllSprites(ts) + Sprites(t)
  {
    assert (ts + [t])[..|ts|] == ts;
  }

  lemma {:induction false} SpritesIndex(t: Tileset)
    ensures |Sprites(t)| == |t|
    ensures forall i :: 0 <= i < |t| ==> Sprites(t)[i] == t[i].sprite
    decreases |t|
  {
    if t != [] {
      SpritesIndex(t[..|t| - 1]);
    }
  }

  lemma PathsConcat(a: seq<Sprite>, b: seq<Sprite>)
    ensures Paths(a + b) == Paths(a) + Paths(b)
  {
    assert forall s :: s in a + b <==> s in a || s in b;
  }

  /** Each placement's footprint is part of the canvas's covered cells. */
  lemma {:induction false} CoveredContains(cfg: Config, t: Tileset, i: nat)
    requires cfg.Valid() && i < |t|
    ensures Footprint(cfg, t[i]) <= Covered(cfg, t)
    decreases |t|
  {
    if i < |t| - 1 {
      CoveredContains(cfg, t[..|t| - 1], i);
    }
  }

  // ---------------------------------------------------------------------------
  // One canvas

  /** Every placement of `t` sits on the cell the row-major scan from `(0, 0)`
      chose on the grid left by the placements before it. */
  ghost predicate IsFirstFitSequence(cfg: Config, t: Tileset)
    requires cfg.Valid()
  {
    forall k :: 0 <= k < |t| ==>
      FirstFit(Covered(cfg, t[..k]), cfg.Rows(), cfg.Cols(), WidthCells(cfg, t[k].sprite), HeightCells(cfg, t[k].sprite))
        == Some(Cell(t[k].x, t[k].y))
  }

  lemma FirstFitSequenceAppend(cfg: Config, t: Tileset, p: Placement)
    requires cfg.Valid() && IsFirstFitSequence(cfg, t)
    requires FirstFit(Covered(cfg, t), cfg.Rows(), cfg.Cols(), WidthCells(cfg, p.sprite), HeightCells(cfg, p.sprite))
               == Some(Cell(p.x, p.y))
    ensures IsFirstFitSequence(cfg, t + [p])
  {
    var t' := t + [p];
    forall k | 0 <= k < |t'|
      ensures FirstFit(Covered(cfg, t'[..k]), cfg.Rows(), cfg.Cols(), WidthCells(cfg, t'[k].sprite), HeightCells(cfg, t'[k].sprite))
                == Some(Cell(t'[k].x, t'[k].y))
    {
      if k < |t| {
        assert t'[..k] == t[..k] && t'[k] == t[k];
      } else {
        assert t'[..k] == t;
      }
    }
  }

  /** The placements of one canvas: each footprint lies inside the grid, no two
      footprints share a cell, and each sprite went to the first cell in row-major
      order where `check_fit` held at the time. */
  lemma FirstFitSequenceSound(cfg: Config, t: Tileset)
    requires cfg.Valid() && IsFirstFitSequence(cfg, t)
    ensures forall k :: 0 <= k < |t| ==>
      t[k].x < cfg.Cols() && t[k].y < cfg.Rows() &&
      t[k].x + WidthCells(cfg, t[k].sprite) <= cfg.Cols() && t[k].y + HeightCells(cfg, t[k].sprite) <= cfg.Rows()
    ensures forall i, j :: 0 <= i < j < |t| ==> Footprint(cfg, t[i]) !! Footprint(cfg, t[j])
    ensures forall k :: 0 <= k < |t| ==>
      FitsAt(Covered(cfg, t[..k]), cfg.Rows(), cfg.Cols(), t[k].x, t[k].y, WidthCells(cfg, t[k].sprite), HeightCells(cfg, t[k].sprite))
    ensures forall k, c: Cell :: 0 <= k < |t| && c.col < cfg.Cols() && c.row < cfg.Rows() && Before(c, Cell(t[k].x, t[k].y)) ==>
      !FitsAt(Covered(cfg, t[..k]), cfg.Rows(), cfg.Cols(), c.col, c.row, WidthCells(cfg, t[k].sprite), HeightCells(cfg, t[k].sprite))
  {
    forall i, j | 0 <= i < j < |t|
      ensures Footprint(cfg, t[i]) !! Footprint(cfg, t[j])
    {
      assert t[..j][i] == t[i];
      CoveredContains(cfg, t[..j], i);
      assert FitsAt(Covered(cfg, t[..j]), cfg.Rows(), cfg.Cols(), t[j].x, t[j].y,
                    WidthCells(cfg, t[j].sprite), HeightCells(cfg, t[j].sprite));
    }
  }

  /** Cells `[x, x + n)` of a grid `limit / g` cells wide lie within `limit`
      pixels. */
  lemma SpanWithin(x: nat, n: nat, limit: nat, g: nat)
    requires 0 < g && x + n <= limit / g
    ensures x * g + n * g <= limit
  {
    MulMonotonic(x + n, limit / g, g);
    assert (x + n) * g == x * g + n * g;
    assert limit == (limit / g) * g + limit % g;
  }

  /** A placed sprite's pixels, pasted at `PixelOffset`, lie inside the
      `MAX_WIDTH x MAX_HEIGHT` canvas. */
  lemma PastedWithinCanvas(cfg: Config, p: Placement)
    requires cfg.Valid()
    requires p.x + WidthCells(cfg, p.sprite) <= cfg.Cols() && p.y + HeightCells(cfg, p.sprite) <= cfg.Rows()
    ensures 0 <= PixelOffset(cfg, p).0 && PixelOffset(cfg, p).0 + p.sprite.w <= cfg.maxWidth
    ensures 0 <= PixelOffset(cfg, p).1 && PixelOffset(cfg, p).1 + p.sprite.h <= cfg.maxHeight
  {
    var g := cfg.gridSize;
    var wc, hc := WidthCells(cfg, p.sprite), HeightCells(cfg, p.sprite);
    SpanWithin(p.x, wc, cfg.maxWidth, g);
    SpanWithin(p.y, hc, cfg.maxHeight, g);
  }

  // ---------------------------------------------------------------------------
  // One canvas pass

  ghost predicate NoOversize(cfg: Config, t: Tileset) {
    forall i :: 0 <= i < |t| ==> !Oversize(cfg, t[i].sprite)
  }

  ghost predicate AllOversize(cfg: Config, ss: seq<Sprite>) {
    forall i :: 0 <= i < |ss| ==> Oversize(cfg, ss[i])
  }

  /** What a pass conserves, from its start `st0`: every sprite is still pending,
      placed, or rejected, and only oversize sprites are rejected. */
  ghost predicate PassCounts(cfg: Config, st0: PassState, st: PassState) {
    multiset(st.remaining) + multiset(Sprites(st.placed)) + multiset(st.rejected)
      == multiset(st0.remaining) + multiset(st0.rejected) &&
    |st0.rejected| <= |st.rejected| && st.rejected[..|st0.rejected|] == st0.rejected &&
    AllOversize(cfg, st.rejected[|st0.rejected|..])
  }

  /** What a pass's placements satisfy: none is oversize, each is recorded in
      `used_images`, each is a first-fit choice, and `remaining` keeps its order. */
  ghost predicate PassPlacements(cfg: Config, st0: PassState, st: PassState)
    requires cfg.Valid()
  {
    NoOversize(cfg, st.placed) &&
    st.used == st0.used + Paths(Sprites(st.placed)) &&
    IsSubseq(st.remaining, st0.remaining) &&
    IsFirstFitSequence(cfg, st.placed)
  }

  /** What holds at every point of a pass that started in `st0` on an empty canvas. */
  ghost predicate PassInv(cfg: Config, st0: PassState, st: PassState)
    requires cfg.Valid()
  {
    st0.placed == [] && PassCounts(cfg, st0, st) && PassPlacements(cfg, st0, st)
  }

  lemma PassInvStart(cfg: Config, st0: PassState)
    requires cfg.Valid() && st0.placed == []
    ensures PassInv(cfg, st0, st0)
  {
    SubseqRefl(st0.remaining);
  }

  lemma RejectKeepsPassInv(cfg: Config, st0: PassState, st: PassState, s: Sprite)
    requires cfg.Valid() && s in st.remaining && Oversize(cfg, s) && PassInv(cfg, st0, st)
    ensures PassInv(cfg, st0, st.(remaining := Remove(st.remaining, s), rejected := st.rejected + [s]))
  {
    var r := st.(remaining := Remove(st.remaining, s), rejected := st.rejected + [s]);
    assert r.rejected[|st0.rejected|..] == st.rejected[|st0.rejected|..] + [s];
    assert r.rejected[..|st0.rejected|] == st.rejected[..|st0.rejected|];
    assert multiset(r.rejected) == multiset(st.rejected) + multiset{s};
    assert multiset(r.remaining) + multiset{s} == multiset(st.remaining);
    assert PassCounts(cfg, st0, r);
    SubseqTrans(r.remaining, st.remaining, st0.remaining);
    assert PassPlacements(cfg, st0, r);
  }

  lemma PlaceKeepsPassCounts(cfg: Config, st0: PassState, st: PassState, s: Sprite, c: Cell)
    requires cfg.Valid() && s in st.remaining && PassCounts(cfg, st0, st)
    ensures PassCounts(cfg, st0, st.(remaining := Remove(st.remaining, s), used := st.used + {s.path},
                                     placed := st.placed + [Placement(s, c.col, c.row)]))
  {
    var p := Placement(s, c.col, c.row);
    var r := st.(remaining := Remove(st.remaining, s), used := st.used + {s.path}, placed := st.placed + [p]);
    SpritesAppend(st.placed, p);
    assert multiset(Sprites(r.placed)) == multiset(Sprites(st.placed)) + multiset{s};
    assert multiset(r.remaining) + multiset{s} == multiset(st.remaining);
  }

  lemma UsedAfterPlace(used0: set<string>, used: set<string>, t: Tileset, p: Placement)
    requires used == used0 + Paths(Sprites(t))
    ensures used + {p.sprite.path} == used0 + Paths(Sprites(t + [p]))
  {
    SpritesAppend(t, p);
    PathsConcat(Sprites(t), [p.sprite]);
    assert Paths([p.sprite]) == {p.sprite.path};
  }

  lemma PlaceKeepsPassPlacements(cfg: Config, st0: PassState, st: PassState, s: Sprite, c: Cell)
    requires cfg.Valid() && s in st.remaining && !Oversize(cfg, s) && PassPlacements(cfg, st0, st)
    requires FirstFit(Covered(cfg, st.placed), cfg.Rows(), cfg.Cols(), WidthCells(cfg, s), HeightCells(cfg, s)) == Some(c)
    ensures PassPlacements(cfg, st0, st.(remaining := Remove(st.remaining, s), used := st.used + {s.path},
                                         placed := st.placed + [Placement(s, c.col, c.row)]))
  {
    var p := Placement(s, c.col, c.row);
    UsedAfterPlace(st0.used, st.used, st.placed, p);
    FirstFitSequenceAppend(cfg, st.placed, p);
    SubseqTrans(Remove(st.remaining, s), st.remaining, st0.remaining);
    assert NoOversize(cfg, st.placed + [p]) by {
      forall i | 0 <= i < |st.placed| + 1 ensures !Oversize(cfg, (st.placed + [p])[i].sprite) {
        if i < |st.placed| {
          assert (st.placed + [p])[i] == st.placed[i];
        }
      }
    }
  }

  lemma PlaceKeepsPassInv(cfg: Config, st0: PassState, st: PassState, s: Sprite, c: Cell)
    requires cfg.Valid() && s in st.remaining && !Oversize(cfg, s) && PassInv(cfg, st0, st)
    requires FirstFit(Covered(cfg, st.placed), cfg.Rows(), cfg.Cols(), WidthCells(cfg, s), HeightCells(cfg, s)) == Some(c)
    ensures PassInv(cfg, st0, st.(remaining := Remove(st.remaining, s), used := st.used + {s.path},
                                  placed := st.placed + [Placement(s, c.col, c.row)]))
  {
    PlaceKeepsPassCounts(cfg, st0, st, s, c);
    PlaceKeepsPassPlacements(cfg, st0, st, s, c);
  }

  lemma StepPreservesPassInv(cfg: Config, st0: PassState, st: PassState, s: Sprite)
    requires cfg.Valid() && s in st.remaining && PassInv(cfg, st0, st)
    ensures PassInv(cfg, st0, Step(cfg, st, s))
  {
    if Oversize(cfg, s) {
      RejectKeepsPassInv(cfg, st0, st, s);
    } else {
      match FirstFit(Covered(cfg, st.placed), cfg.Rows(), cfg.Cols(), WidthCells(cfg, s), HeightCells(cfg, s))
      case None =>
      case Some(c) => PlaceKeepsPassInv(cfg, st0, st, s, c);
    }
  }

  lemma {:induction false} RunPassPreservesPassInv(cfg: Config, st0: PassState, st: PassState, todo: seq<Sprite>)
    requires cfg.Valid() && multiset(todo) <= multiset(st.remaining) && PassInv(cfg, st0, st)
    ensures PassInv(cfg, st0, RunPass(cfg, st, todo))
    decreases |todo|
  {
    if todo != [] {
      PendingAfterStep(todo, st.remaining);
      StepPreservesPassInv(cfg, st0, st, todo[0]);
      RunPassPreservesPassInv(cfg, st0, Step(cfg, st, todo[0]), todo[1..]);
    }
  }

  lemma StepKeepsOrder(cfg: Config, st: PassState, done: seq<Sprite>, s: Sprite)
    requires cfg.Valid() && s in st.remaining
    requires IsSubseq(Sprites(st.placed), done)
    ensures IsSubseq(Sprites(Step(cfg, st, s).placed), done + [s])
  {
    var st' := Step(cfg, st, s);
    var found := FirstFit(Covered(cfg, st.placed), cfg.Rows(), cfg.Cols(), WidthCells(cfg, s), HeightCells(cfg, s));
    if Oversize(cfg, s) || found.None? {
      assert st'.placed == st.placed;
      SubseqExtend(Sprites(st.placed), done, s);
    } else {
      var p := Placement(s, found.value.col, found.value.row);
      assert st'.placed == st.placed + [p];
      SpritesAppend(st.placed, p);
      SubseqAppendBoth(Sprites(st.placed), done, s);
    }
  }

  /** A canvas's placements follow the order of the snapshot the pass walked. */
  lemma {:induction false} RunPassKeepsOrder(cfg: Config, st: PassState, done: seq<Sprite>, todo: seq<Sprite>)
    requires cfg.Valid() && multiset(todo) <= multiset(st.remaining)
    requires IsSubseq(Sprites(st.placed), done)
    ensures IsSubseq(Sprites(RunPass(cfg, st, todo).placed), done + todo)
    decreases |todo|
  {
    if todo == [] {
      assert done + todo == done;
    } else {
      PendingAfterStep(todo, st.remaining);
      var s := todo[0];
      StepKeepsOrder(cfg, st, done, s);
      RunPassKeepsOrder(cfg, Step(cfg, st, s), done + [s], todo[1..]);
      ShiftHead(done, todo);
    }
  }

  /** An oversize sprite leaves `remaining` once for every time the snapshot visits it. */
  lemma StepDropsOversize(cfg: Config, st: PassState, s: Sprite, x: Sprite)
    requires cfg.Valid() && s in st.remaining && Oversize(cfg, x)
    ensures multiset(Step(cfg, st, s).remaining)[x] == multiset(st.remaining)[x] - (if s == x then 1 else 0)
  {
  }

  lemma MultisetHead<T>(todo: seq<T>, x: T)
    requires todo != []
    ensures multiset(todo)[x] == (if todo[0] == x then 1 else 0) + multiset(todo[1..])[x]
  {
    assert todo == [todo[0]] + todo[1..];
  }

  lemma {:induction false} RunPassDropsOversize(cfg: Config, st: PassState, todo: seq<Sprite>, x: Sprite)
    requires cfg.Valid() && multiset(todo) <= multiset(st.remaining) && Oversize(cfg, x)
    ensures multiset(RunPass(cfg, st, todo).remaining)[x] == multiset(st.remaining)[x] - multiset(todo)[x]
    decreases |todo|
  {
    if todo != [] {
      RunPassStep(cfg, st, todo);
      var st' := Step(cfg, st, todo[0]);
      StepDropsOversize(cfg, st, todo[0], x);
      RunPassDropsOversize(cfg, st', todo[1..], x);
      MultisetHead(todo, x);
    }
  }


  /** A pass that places nothing on its canvas met only sprites that are oversize
      or that fit nowhere on an empty grid. */
  lemma {:induction false} RunPassStalled(cfg: Config, st: PassState, todo: seq<Sprite>)
    requires cfg.Valid() && multiset(todo) <= multiset(st.remaining)
    requires st.placed == [] && RunPass(cfg, st, todo).placed == []
    ensures forall x :: x in todo ==>
      Oversize(cfg, x) || FirstFit({}, cfg.Rows(), cfg.Cols(), WidthCells(cfg, x), HeightCells(cfg, x)).None?
    decreases |todo|
  {
    if todo != [] {
      PendingAfterStep(todo, st.remaining);
      var st' := Step(cfg, st, todo[0]);
      assert st'.placed == [];
      RunPassStalled(cfg, st', todo[1..]);
      assert forall x :: x in todo ==> x == todo[0] || x in todo[1..];
    }
  }

  // ---------------------------------------------------------------------------
  // The whole session

  /** A saved canvas: non-empty, no oversize sprite, first-fit placements, and its
      sprites in input order. */
  ghost predicate GoodTileset(cfg: Config, images: seq<Sprite>, t: Tileset)
    requires cfg.Valid()
  {
    t != [] && NoOversize(cfg, t) && IsFirstFitSequence(cfg, t) && IsSubseq(Sprites(t), images)
  }

  /** What holds of the session at the top of every `while remaining:` iteration. */
  ghost predicate SessionInv(cfg: Config, images: seq<Sprite>, s: Session)
    requires cfg.Valid()
  {
    multiset(images) == multiset(s.remaining) + multiset(AllSprites(s.tilesets)) + multiset(s.rejected) &&
    AllOversize(cfg, s.rejected) &&
    (forall t :: 0 <= t < |s.tilesets| ==> GoodTileset(cfg, images, s.tilesets[t])) &&
    s.used == Paths(AllSprites(s.tilesets)) &&
    IsSubseq(s.remaining, images)
  }

  lemma SessionInvStart(cfg: Config, images: seq<Sprite>)
    requires cfg.Valid()
    ensures SessionInv(cfg, images, Session(images, [], {}, []))
  {
    SubseqRefl(images);
  }

  /** The sprites a finished pass leaves pending or rejected keep the session's
      bookkeeping; `placed` is what the pass's canvas received. */
  lemma PassKeepsCounts(cfg: Config, images: seq<Sprite>, s: Session, p: PassState)
    requires cfg.Valid() && SessionInv(cfg, images, s)
    requires PassInv(cfg, PassState(s.remaining, s.used, s.rejected, []), p)
    ensures multiset(images) ==
      multiset(p.remaining) + multiset(AllSprites(s.tilesets + [p.placed])) + multiset(p.rejected)
    ensures AllOversize(cfg, p.rejected)
    ensures IsSubseq(p.remaining, images)
    ensures p.used == Paths(AllSprites(s.tilesets + [p.placed]))
  {
    var n := |s.rejected|;
    assert p.rejected == p.rejected[..n] + p.rejected[n..];
    SubseqTrans(p.remaining, s.remaining, images);
    AllSpritesAppend(s.tilesets, p.placed);
    assert multiset(AllSprites(s.tilesets + [p.placed])) ==
           multiset(AllSprites(s.tilesets)) + multiset(Sprites(p.placed));
    MultisetRegroup(multiset(images), multiset(s.remaining), multiset(AllSprites(s.tilesets)), multiset(s.rejected),
                    multiset(p.remaining), multiset(Sprites(p.placed)), multiset(p.rejected));
    PathsConcat(AllSprites(s.tilesets), Sprites(p.placed));
  }

  /** The multiset arithmetic of folding a pass into the session. */
  lemma MultisetRegroup<T>(all: multiset<T>, rem: multiset<T>, done: multiset<T>, rej: multiset<T>,
                           rem': multiset<T>, placed: multiset<T>, rej': multiset<T>)
    requires all == rem + done + rej
    requires rem' + placed + rej' == rem + rej
    ensures all == rem' + (done + placed) + rej'
  {
    forall x
      ensures all[x] == (rem' + (done + placed) + rej')[x]
    {
      assert (rem' + placed + rej')[x] == (rem + rej)[x];
    }
  }

  /** A pass that placed nothing ends the loop with the session invariant intact. */
  lemma StalledPassKeepsSessionInv(cfg: Config, images: seq<Sprite>, s: Session, p: PassState)
    requires cfg.Valid() && SessionInv(cfg, images, s)
    requires PassInv(cfg, PassState(s.remaining, s.used, s.rejected, []), p)
    requires p.placed == []
    ensures SessionInv(cfg, images, s.(remaining := p.remaining, used := p.used, rejected := p.rejected))
  {
    PassKeepsCounts(cfg, images, s, p);
    assert Sprites(p.placed) == [];
    AllSpritesAppend(s.tilesets, p.placed);
  }

  /** A pass that placed something becomes the next tileset with the session invariant intact. */
  lemma GoodTilesetsAppend(cfg: Config, images: seq<Sprite>, ts: seq<Tileset>, t: Tileset)
    requires cfg.Valid() && GoodTileset(cfg, images, t)
    requires forall i :: 0 <= i < |ts| ==> GoodTileset(cfg, images, ts[i])
    ensures forall i :: 0 <= i < |ts + [t]| ==> GoodTileset(cfg, images, (ts + [t])[i])
  {
    forall i | 0 <= i < |ts + [t]| ensures GoodTileset(cfg, images, (ts + [t])[i]) {
      if i < |ts| {
        assert (ts + [t])[i] == ts[i];
      }
    }
  }

  lemma ProductivePassKeepsSessionInv(cfg: Config, images: seq<Sprite>, s: Session, p: PassState)
    requires cfg.Valid() && SessionInv(cfg, images, s)
    requires PassInv(cfg, PassState(s.remaining, s.used, s.rejected, []), p)
    requires IsSubseq(Sprites(p.placed), s.remaining)
    requires p.placed != []
    ensures SessionInv(cfg, images, Session(p.remaining, s.tilesets + [p.placed], p.used, p.rejected))
  {
    PassKeepsCounts(cfg, images, s, p);
    SubseqTrans(Sprites(p.placed), s.remaining, images);
    assert GoodTileset(cfg, images, p.placed);
    GoodTilesetsAppend(cfg, images, s.tilesets, p.placed);
  }

  lemma {:induction false} PackFromKeepsSessionInv(cfg: Config, images: seq<Sprite>, s: Session)
    requires cfg.Valid() && SessionInv(cfg, images, s)
    ensures SessionInv(cfg, images, PackFrom(cfg, s))
    decreases |s.remaining|
  {
    if s.remaining != [] {
      var st0 := PassState(s.remaining, s.used, s.rejected, []);
      var p := RunPass(cfg, st0, s.remaining);
      PassInvStart(cfg, st0);
      RunPassPreservesPassInv(cfg, st0, st0, s.remaining);
      SubseqEmpty<Sprite>([]);
      RunPassKeepsOrder(cfg, st0, [], s.remaining);
      assert [] + s.remaining == s.remaining;
      if p.placed == [] {
        StalledPassKeepsSessionInv(cfg, images, s, p);
      } else {
        ProductivePassKeepsSessionInv(cfg, images, s, p);
        PackFromKeepsSessionInv(cfg, images, Session(p.remaining, s.tilesets + [p.placed], p.used, p.rejected));
      }
    }
  }

  /** The sprites left over when the loop stops are never oversize, and each is
      too large for an empty grid: the no-progress `break` strands nothing that
      a fresh canvas could hold. */
  lemma {:induction false} PackFromLeftover(cfg: Config, s: Session)
    requires cfg.Valid()
    ensures forall x :: x in PackFrom(cfg, s).remaining ==>
      !Oversize(cfg, x) && FirstFit({}, cfg.Rows(), cfg.Cols(), WidthCells(cfg, x), HeightCells(cfg, x)).None?
    decreases |s.remaining|
  {
    if s.remaining != [] {
      var st0 := PassState(s.remaining, s.used, s.rejected, []);
      var p := RunPass(cfg, st0, s.remaining);
      if p.placed == [] {
        assert PackFrom(cfg, s).remaining == p.remaining;
        forall x | x in p.remaining
          ensures !Oversize(cfg, x) && FirstFit({}, cfg.Rows(), cfg.Cols(), WidthCells(cfg, x), HeightCells(cfg, x)).None?
        {
          if Oversize(cfg, x) {
            RunPassDropsOversize(cfg, st0, s.remaining, x);
            assert false;
          }
          PassInvStart(cfg, st0);
          RunPassPreservesPassInv(cfg, st0, st0, s.remaining);
          SubseqMembers(p.remaining, s.remaining);
          RunPassStalled(cfg, st0, s.remaining);
        }
      } else {
        PackFromLeftover(cfg, Session(p.remaining, s.tilesets + [p.placed], p.used, p.rejected));
      }
    }
  }
}
