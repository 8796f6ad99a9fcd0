/** Small runs of the packer, worked out through the model. */
module PackerScenarios {
  import opened Seqs
  import opened Grid
  import opened Packer
  import opened UnitSprites

  lemma SmallSpritesAreUnit(xs: seq<Sprite>)
    requires forall i :: 0 <= i < |xs| ==> 0 < xs[i].w <= 48 && 0 < xs[i].h <= 48
    ensures AllUnit(Defaults, xs)
  {
    forall i | 0 <= i < |xs| ensures UnitSprite(Defaults, xs[i]) {
      CellSpanMonotonic(xs[i].w, 48, 48);
      CellSpanMonotonic(xs[i].h, 48, 48);
    }
  }

  lemma RowMajorThree(a: Sprite, b: Sprite, c: Sprite)
    ensures RowMajor(5, [a, b, c]) == [Placement(a, 0, 0), Placement(b, 1, 0), Placement(c, 2, 0)]
  {
    var t := RowMajor(5, [a, b, c]);
    assert t[1] == Placement(b, 1 % 5, 1 / 5);
  }

  /** Three 40 x 40 sprites under the shipped constants share the first canvas,
      left to right along its top row. */
  lemma ThreeSmallSpritesShareOneCanvas(a: Sprite, b: Sprite, c: Sprite)
    requires a.w == a.h == b.w == b.h == c.w == c.h == 40
    ensures Pack(Defaults, [a, b, c]) ==
      Session([], [[Placement(a, 0, 0), Placement(b, 1, 0), Placement(c, 2, 0)]], {a.path, b.path, c.path}, [])
  {
    var xs := [a, b, c];
    assert Defaults.Rows() == 5 && Defaults.Cols() == 5 && Capacity(Defaults) == 25;
    SmallSpritesAreUnit(xs);
    RowMajorThree(a, b, c);
    ChunksLast(Defaults, xs);
    assert Paths(xs) == {a.path, b.path, c.path};
    UnitPack(Defaults, xs);
  }

  lemma OneCellCanvas(a: Sprite, b: Sprite)
    requires a.w == a.h == b.w == b.h == 48
    ensures var cfg := Config(48, 48, 48, 48, 48);
      AllUnit(cfg, [a, b]) && Capacity(cfg) == 1 && cfg.Cols() == 1 && cfg.Rows() == 1 &&
      Chunks(cfg, [a, b]) == [[Placement(a, 0, 0)], [Placement(b, 0, 0)]]
  {
    var cfg := Config(48, 48, 48, 48, 48);
    var xs := [a, b];
    assert cfg.Rows() == 1 && cfg.Cols() == 1 && Capacity(cfg) == 1;
    assert CellSpan(48, 48) == 1;
    assert AllUnit(cfg, xs);
    ChunksFull(cfg, xs);
    assert xs[..1] == [a] && xs[1..] == [b];
    ChunksLast(cfg, [b]);
    assert RowMajor(1, [a])[0] == Placement(a, 0, 0) && RowMajor(1, [b])[0] == Placement(b, 0, 0);
    assert RowMajor(1, [a]) == [Placement(a, 0, 0)] && RowMajor(1, [b]) == [Placement(b, 0, 0)];
  }

  /** On a one-cell canvas the second 48 x 48 sprite does not fit the first canvas
      and opens a second one. */
  lemma SecondSpriteOpensSecondCanvas(a: Sprite, b: Sprite)
    requires a.w == a.h == b.w == b.h == 48
    ensures var cfg := Config(48, 48, 48, 48, 48);
      Pack(cfg, [a, b]) == Session([], [[Placement(a, 0, 0)], [Placement(b, 0, 0)]], {a.path, b.path}, [])
  {
    OneCellCanvas(a, b);
    assert Paths([a, b]) == {a.path, b.path};
    UnitPack(Config(48, 48, 48, 48, 48), [a, b]);
  }

  /** A sprite over the 96-pixel cap is rejected: no canvas is saved and its
      path never reaches `used_images`. */
  lemma OversizeSpriteAloneMakesNoCanvas(big: Sprite)
    requires big.w > 96
    ensures Pack(Defaults, [big]) == Session([], [], {}, [big])
  {
    var st0 := PassState([big], {}, [], []);
    RemoveHead([big]);
    assert Step(Defaults, st0, big) == PassState([], {}, [big], []);
    assert RunPass(Defaults, st0, [big]) == PassState([], {}, [big], []);
  }

  /** A sprite under the cap but wider than the canvas is never placed: the first
      pass places nothing, the loop stops, and the sprite is left over. */
  lemma UnplaceableSpriteStopsThePacker(s: Sprite)
    requires s.w == 96 && s.h == 48
    ensures Pack(Config(48, 48, 48, 96, 96), [s]) == Session([s], [], {}, [])
  {
    var cfg := Config(48, 48, 48, 96, 96);
    assert CellSpan(96, 48) == 2 && CellSpan(48, 48) == 1;
    EmptyGridFit(1, 1, 2, 1);
    var st0 := PassState([s], {}, [], []);
    assert Step(cfg, st0, s) == st0;
    assert RunPass(cfg, st0, [s]) == st0;
  }
}
