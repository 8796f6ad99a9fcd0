/** `main` (combine.py:104-123): list the sources, pack them, save every tileset
    under a numbered name and, when enabled, delete the sources that were packed. */
module Driver {
  import opened Packer
  import opened PackerTheorems
  import opened Naming

  /** The sprites for `paths`, with `size` standing for `Image.open(path).size`
      (combine.py:73-74). */
  function SpritesOf(paths: seq<string>, size: string -> (nat, nat)): (r: seq<Sprite>)
    ensures |r| == |paths|
    ensures forall i :: 0 <= i < |r| ==> r[i].path == paths[i]
  {
    seq(|paths|, i requires 0 <= i < |paths| => Sprite(paths[i], size(paths[i]).0, size(paths[i]).1))
  }

  /** The files written for `tilesets`, in order: each tileset under its name. */
  function Saves(prefix: string, tilesets: seq<Tileset>): seq<(string, Tileset)> {
    seq(|tilesets|, i requires 0 <= i < |tilesets| => (TilesetName(prefix, i), tilesets[i]))
  }

  /** The file names of `Saves` are pairwise distinct, and none is a source name
      when the prefix starts with `tileset_`. */
  lemma SavesNamesDistinct(prefix: string, tilesets: seq<Tileset>)
    ensures var s := Saves(prefix, tilesets);
      forall i, j :: 0 <= i < |s| && 0 <= j < |s| && s[i].0 == s[j].0 ==> i == j
    ensures StartsWith(prefix, "tileset_") ==>
      forall i :: 0 <= i < |tilesets| ==> !IsSourceName(Saves(prefix, tilesets)[i].0)
  {
    var s := Saves(prefix, tilesets);
    forall i, j | 0 <= i < |s| && 0 <= j < |s| && s[i].0 == s[j].0 ensures i == j {
      TilesetNamesDistinct(prefix, i, j);
    }
    if StartsWith(prefix, "tileset_") {
      forall i | 0 <= i < |tilesets| ensures !IsSourceName(s[i].0) {
        SavedTilesetIsNotSource(prefix, i);
      }
    }
  }

  /** The `enumerate` loop of combine.py:112-114, with `tileset.save` recorded
      as a (file name, tileset) pair. */
  method SaveTilesets(prefix: string, tilesets: seq<Tileset>) returns (saved: seq<(string, Tileset)>)
    ensures saved == Saves(prefix, tilesets)
  {
    saved := [];
    var i := 0;
    while i < |tilesets|
      invariant 0 <= i <= |tilesets|
      invariant saved == Saves(prefix, tilesets[..i])
    {
      saved := saved + [(TilesetName(prefix, i), tilesets[i])];
      i := i + 1;
      assert tilesets[..i] == tilesets[..i - 1] + [tilesets[i - 1]];
    }
    assert tilesets[..i] == tilesets;
  }

  /** Every sprite on a canvas came from the input, so its path is one of `paths`. */
  lemma PackedPathsAreSources(cfg: Config, paths: seq<string>, size: string -> (nat, nat))
    requires cfg.Valid()
    ensures Pack(cfg, SpritesOf(paths, size)).used <= set p | p in paths
  {
    var images := SpritesOf(paths, size);
    var r := Pack(cfg, images);
    PackConservation(cfg, images);
    forall q | q in r.used ensures q in paths {
      var x :| x in AllSprites(r.tilesets) && x.path == q;
      assert x in multiset(AllSprites(r.tilesets));
      assert x in multiset(images);
      var i :| 0 <= i < |images| && images[i] == x;
    }
  }

  /** A used path lies on one of the saved canvases. */
  lemma UsedPathsAreSaved(cfg: Config, images: seq<Sprite>, prefix: string)
    requires cfg.Valid()
    ensures var r := Pack(cfg, images); var s := Saves(prefix, r.tilesets);
      forall q :: q in r.used ==>
        exists i, k :: 0 <= i < |s| && 0 <= k < |s[i].1| && s[i].1[k].sprite.path == q
  {
    var r := Pack(cfg, images);
    var s := Saves(prefix, r.tilesets);
    PackConservation(cfg, images);
    AllSpritesMembers(r.tilesets);
    forall q | q in r.used
      ensures exists i, k :: 0 <= i < |s| && 0 <= k < |s[i].1| && s[i].1[k].sprite.path == q
    {
      var x :| x in AllSprites(r.tilesets) && x.path == q;
      var t, k :| 0 <= t < |r.tilesets| && 0 <= k < |r.tilesets[t]| && r.tilesets[t][k].sprite == x;
      assert s[t].1 == r.tilesets[t];
    }
  }

  /** `main` with the directory, the files' sizes, the prefix and the deletion
      switch (`DELETE_SOURCE_FILES`, combine.py:15) as parameters; returns
      the files saved and the paths deleted. */
  method Combine(cfg: Config, listing: seq<string>, files: set<string>,
                 size: string -> (nat, nat), prefix: string, deleteSources: bool)
    returns (saved: seq<(string, Tileset)>, deleted: set<string>)
    requires cfg.Valid()
    ensures var sources := SourceImages(listing, files);
      sources == [] ==> saved == [] && deleted == {}
    ensures var sources := SourceImages(listing, files);
      sources != [] ==> saved == Saves(prefix, Pack(cfg, SpritesOf(sources, size)).tilesets)
    ensures var sources := SourceImages(listing, files);
      deleted == if deleteSources && sources != [] then Pack(cfg, SpritesOf(sources, size)).used else {}
    ensures forall q :: q in deleted ==>
      q in listing && q in files && IsSourceName(q) &&
      exists i, k :: 0 <= i < |saved| && 0 <= k < |saved[i].1| && saved[i].1[k].sprite.path == q
    ensures StartsWith(prefix, "tileset_") ==> forall i :: 0 <= i < |saved| ==> saved[i].0 !in deleted
  {
    var sources := SourceImages(listing, files);
    if sources == [] {
      return [], {};
    }
    var images := SpritesOf(sources, size);
    var tilesets, used := PackImagesToTilesets(cfg, images);
    saved := SaveTilesets(prefix, tilesets);
    deleted := if deleteSources then used else {};
    PackedPathsAreSources(cfg, sources, size);
    UsedPathsAreSaved(cfg, images, prefix);
    SavesNamesDistinct(prefix, tilesets);
  }
}
