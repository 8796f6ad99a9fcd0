/** The other half of each placement decision (combine.py:81-95): a sprite stays
    in `remaining` only when it fits at no cell of the current canvas, so no
    sprite is put off to a later canvas while an earlier one could hold it. */
module PackerDeferral {
  import opened Wrappers
  import opened Seqs
  import opened Grid
  import opened Packer
  import opened PackerProofs

  /** `check_fit` is false for `x` at every cell of a canvas holding `t`. */
  ghost predicate FitsNowhere(cfg: Config, t: Tileset, x: Sprite)
    requires cfg.Valid()
  {
    FirstFit(Covered(cfg, t), cfg.Rows(), cfg.Cols(), WidthCells(cfg, x), HeightCells(cfg, x)).None?
  }

  /** Marking more cells never makes a footprint fit. */
  lemma NoFitStaysNoFit(occ: set<Cell>, occ': set<Cell>, rows: nat, cols: nat, wc: nat, hc: nat)
    requires occ <= occ' && FirstFit(occ, rows, cols, wc, hc).None?
    ensures FirstFit(occ', rows, cols, wc, hc).None?
  {
    forall c: Cell | c.col < cols && c.row < rows
      ensures !FitsAt(occ', rows, cols, c.col, c.row, wc, hc)
    {
      assert !Before(c, Cell(0, 0));
    }
    FirstFitCharacterised(occ', rows, cols, wc, hc, None);
  }

  /** A canvas that only gains placements keeps every sprite that fitted nowhere
      fitting nowhere. */
  lemma FitsNowhereAfterStep(cfg: Config, st: PassState, s: Sprite, x: Sprite)
    requires cfg.Valid() && s in st.remaining && FitsNowhere(cfg, st.placed, x)
    ensures FitsNowhere(cfg, Step(cfg, st, s).placed, x)
  {
    var st' := Step(cfg, st, s);
    if st'.placed != st.placed {
      var p := st'.placed[|st.placed|];
      assert st'.placed == st.placed + [p];
      CoveredAppend(cfg, st.placed, p);
      NoFitStaysNoFit(Covered(cfg, st.placed), Covered(cfg, st'.placed), cfg.Rows(), cfg.Cols(),
                      WidthCells(cfg, x), HeightCells(cfg, x));
    }
  }

  /** Midway through a pass whose snapshot still holds `todo`: every pending copy
      the pass has already visited is under the size cap and fits nowhere on the
      canvas. */
  ghost predicate Deferred(cfg: Config, st: PassState, todo: seq<Sprite>)
    requires cfg.Valid()
  {
    forall x :: multiset(todo)[x] < multiset(st.remaining)[x] ==>
      !Oversize(cfg, x) && FitsNowhere(cfg, st.placed, x)
  }

  lemma StepKeepsDeferred(cfg: Config, st: PassState, todo: seq<Sprite>)
    requires cfg.Valid() && todo != [] && multiset(todo) <= multiset(st.remaining)
    requires Deferred(cfg, st, todo)
    ensures todo[0] in st.remaining
    ensures Deferred(cfg, Step(cfg, st, todo[0]), todo[1..])
  {
    var s := todo[0];
    PendingAfterStep(todo, st.remaining);
    var st' := Step(cfg, st, s);
    forall x | multiset(todo[1..])[x] < multiset(st'.remaining)[x]
      ensures !Oversize(cfg, x) && FitsNowhere(cfg, st'.placed, x)
    {
      MultisetHead(todo, x);
      if st' == st {
        if multiset(todo)[x] < multiset(st.remaining)[x] {
          FitsNowhereAfterStep(cfg, st, s, x);
        } else {
          // the visited copy is `s` itself, which the step left in place
          assert x == s;
        }
      } else {
        assert multiset(st'.remaining) == multiset(st.remaining) - multiset{s};
        assert multiset(todo)[x] < multiset(st.remaining)[x];
        FitsNowhereAfterStep(cfg, st, s, x);
      }
    }
  }

  lemma {:induction false} RunPassKeepsDeferred(cfg: Config, st: PassState, todo: seq<Sprite>)
    requires cfg.Valid() && multiset(todo) <= multiset(st.remaining) && Deferred(cfg, st, todo)
    ensures Deferred(cfg, RunPass(cfg, st, todo), [])
    decreases |todo|
  {
    if todo != [] {
      StepKeepsDeferred(cfg, st, todo);
      RunPassStep(cfg, st, todo);
      RunPassKeepsDeferred(cfg, Step(cfg, st, todo[0]), todo[1..]);
    }
  }

  /** A canvas pass over the snapshot `remaining[:]` leaves pending only sprites
      that are under the size cap and fit at no cell of that pass's canvas. */
  lemma PassLeavesOnlyUnfitting(cfg: Config, st: PassState)
    requires cfg.Valid()
    ensures var r := RunPass(cfg, st, st.remaining);
      forall x :: x in r.remaining ==> !Oversize(cfg, x) && FitsNowhere(cfg, r.placed, x)
  {
    RunPassKeepsDeferred(cfg, st, st.remaining);
    var r := RunPass(cfg, st, st.remaining);
    forall x | x in r.remaining ensures !Oversize(cfg, x) && FitsNowhere(cfg, r.placed, x) {
      assert multiset(r.remaining)[x] > 0;
    }
  }

  // ---------------------------------------------------------------------------
  // Across canvases

  /** A pass from an empty canvas draws everything it places or leaves from `st.remaining`. */
  lemma PassMembers(cfg: Config, st: PassState)
    requires cfg.Valid() && st.placed == []
    ensures var p := RunPass(cfg, st, st.remaining);
      (forall x :: x in p.remaining ==> x in st.remaining) &&
      (forall k :: 0 <= k < |p.placed| ==> p.placed[k].sprite in st.remaining)
  {
    var p := RunPass(cfg, st, st.remaining);
    PassInvStart(cfg, st);
    RunPassPreservesPassInv(cfg, st, st, st.remaining);
    SubseqMembers(p.remaining, st.remaining);
    SubseqEmpty<Sprite>([]);
    RunPassKeepsOrder(cfg, st, [], st.remaining);
    assert [] + st.remaining == st.remaining;
    SubseqMembers(Sprites(p.placed), st.remaining);
    SpritesIndex(p.placed);
  }

  /** `r` only appended tilesets to those of `s`, and drew their sprites and its
      leftover from `s.remaining`. */
  ghost predicate DrawnFrom(s: Session, r: Session) {
    |s.tilesets| <= |r.tilesets| && r.tilesets[..|s.tilesets|] == s.tilesets &&
    (forall x :: x in r.remaining ==> x in s.remaining) &&
    (forall u, k :: |s.tilesets| <= u < |r.tilesets| && 0 <= k < |r.tilesets[u]| ==>
       r.tilesets[u][k].sprite in s.remaining)
  }

  lemma DrawnFromAppend(s: Session, s': Session, r: Session, placed: Tileset)
    requires s'.tilesets == s.tilesets + [placed] && DrawnFrom(s', r)
    requires forall x :: x in s'.remaining ==> x in s.remaining
    requires forall k :: 0 <= k < |placed| ==> placed[k].sprite in s.remaining
    ensures DrawnFrom(s, r)
    ensures r.tilesets[|s.tilesets|] == placed
  {
    var n := |s.tilesets|;
    assert r.tilesets[n] == r.tilesets[..n + 1][n];
    assert r.tilesets[..n] == r.tilesets[..n + 1][..n];
  }

  lemma {:induction false} PackFromShape(cfg: Config, s: Session)
    requires cfg.Valid()
    ensures DrawnFrom(s, PackFrom(cfg, s))
    decreases |s.remaining|
  {
    if s.remaining != [] {
      var st0 := PassState(s.remaining, s.used, s.rejected, []);
      var p := RunPass(cfg, st0, s.remaining);
      PassMembers(cfg, st0);
      if p.placed != [] {
        var s' := Session(p.remaining, s.tilesets + [p.placed], p.used, p.rejected);
        PackFromShape(cfg, s');
        DrawnFromAppend(s, s', PackFrom(cfg, s'), p.placed);
      } else {
        assert PackFrom(cfg, s) == s.(remaining := p.remaining, used := p.used, rejected := p.rejected);
      }
    }
  }

  /** Every tileset of `r` from index `n` on is one that no later sprite, and no
      leftover sprite, fits. */
  ghost predicate DefersFrom(cfg: Config, n: nat, r: Session)
    requires cfg.Valid()
  {
    (forall t, u, k :: n <= t < u < |r.tilesets| && 0 <= k < |r.tilesets[u]| ==>
       FitsNowhere(cfg, r.tilesets[t], r.tilesets[u][k].sprite)) &&
    (forall t, x :: n <= t < |r.tilesets| && x in r.remaining ==> FitsNowhere(cfg, r.tilesets[t], x))
  }

  lemma DefersFromAppend(cfg: Config, s': Session, r: Session, n: nat)
    requires cfg.Valid() && |s'.tilesets| == n + 1
    requires DefersFrom(cfg, n + 1, r) && DrawnFrom(s', r)
    requires forall x :: x in s'.remaining ==> FitsNowhere(cfg, r.tilesets[n], x)
    ensures DefersFrom(cfg, n, r)
  {
    forall t, u, k | n <= t < u < |r.tilesets| && 0 <= k < |r.tilesets[u]|
      ensures FitsNowhere(cfg, r.tilesets[t], r.tilesets[u][k].sprite)
    {
      if t == n {
        assert r.tilesets[u][k].sprite in s'.remaining;
      }
    }
    forall t, x | n <= t < |r.tilesets| && x in r.remaining
      ensures FitsNowhere(cfg, r.tilesets[t], x)
    {
      if t == n {
        assert x in s'.remaining;
      }
    }
  }

  lemma {:induction false} PackFromDefers(cfg: Config, s: Session)
    requires cfg.Valid()
    ensures DefersFrom(cfg, |s.tilesets|, PackFrom(cfg, s))
    decreases |s.remaining|
  {
    if s.remaining != [] {
      var st0 := PassState(s.remaining, s.used, s.rejected, []);
      var p := RunPass(cfg, st0, s.remaining);
      PassMembers(cfg, st0);
      if p.placed != [] {
        var s' := Session(p.remaining, s.tilesets + [p.placed], p.used, p.rejected);
        var r := PackFrom(cfg, s');
        PackFromDefers(cfg, s');
        PackFromShape(cfg, s');
        DrawnFromAppend(s, s', r, p.placed);
        PassLeavesOnlyUnfitting(cfg, st0);
        DefersFromAppend(cfg, s', r, |s.tilesets|);
      } else {
        assert PackFrom(cfg, s) == s.(remaining := p.remaining, used := p.used, rejected := p.rejected);
      }
    }
  }

  /** No sprite is deferred while an earlier canvas could hold it: a sprite on
      tileset `u`, or left over at the end, fits at no cell of any earlier
      tileset as that tileset stood when its pass ended. */
  lemma PackDefersOnlyUnfitting(cfg: Config, images: seq<Sprite>)
    requires cfg.Valid()
    ensures var r := Pack(cfg, images);
      forall t, u, k :: 0 <= t < u < |r.tilesets| && 0 <= k < |r.tilesets[u]| ==>
        FirstFit(Covered(cfg, r.tilesets[t]), cfg.Rows(), cfg.Cols(),
                 WidthCells(cfg, r.tilesets[u][k].sprite), HeightCells(cfg, r.tilesets[u][k].sprite)).None?
    ensures var r := Pack(cfg, images);
      forall t, x :: 0 <= t < |r.tilesets| && x in r.remaining ==>
        FirstFit(Covered(cfg, r.tilesets[t]), cfg.Rows(), cfg.Cols(), WidthCells(cfg, x), HeightCells(cfg, x)).None?
  {
    PackFromDefers(cfg, Session(images, [], {}, []));
    assert DefersFrom(cfg, 0, Pack(cfg, images));
  }
}
