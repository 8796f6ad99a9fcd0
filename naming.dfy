/** File names: which directory entries count as source sprites, and what the
    saved tilesets are called. */
module Naming {
  import opened Seqs

  predicate StartsWith(s: string, prefix: string) {
    |prefix| <= |s| && s[..|prefix|] == prefix
  }

  predicate EndsWith(s: string, suffix: string) {
    |suffix| <= |s| && s[|s| - |suffix|..] == suffix
  }

  /** `str.lower` on ASCII letters; every other character is kept. */
  function LowerChar(c: char): char {
    if 'A' <= c <= 'Z' then (c as int + 32) as char else c
  }

  function Lower(s: string): string {
    seq(|s|, i requires 0 <= i < |s| => LowerChar(s[i]))
  }

  /** The name test of combine.py:24,26: a `.png` name in any letter case that
      does not start with the literal `tileset_`. */
  predicate IsSourceName(f: string) {
    EndsWith(Lower(f), ".png") && !StartsWith(f, "tileset_")
  }

  /** `get_source_images`: the directory listing filtered, in order, to regular
      files (`files`) whose name passes `IsSourceName`. */
  function SourceImages(listing: seq<string>, files: set<string>): (r: seq<string>)
    ensures IsSubseq(r, listing)
    ensures forall f :: f in r <==> f in listing && f in files && IsSourceName(f)
    decreases |listing|
  {
    if listing == [] then []
    else
      var f := listing[|listing| - 1];
      var rest := SourceImages(listing[..|listing| - 1], files);
      assert listing == listing[..|listing| - 1] + [f];
      if f in files && IsSourceName(f) then
        SubseqAppendBoth(rest, listing[..|listing| - 1], f);
        rest + [f]
      else
        SubseqExtend(rest, listing[..|listing| - 1], f);
        rest
  }

  // ---------------------------------------------------------------------------
  // Decimal numerals, as Python's `str` writes a non-negative `int`

  function Digit(d: nat): char
    requires d < 10
  {
    "0123456789"[d]
  }

  predicate IsDigit(c: char) {
    '0' <= c <= '9'
  }

  /** `str(n)`: decimal digits, with no leading zero except for `0` itself. */
  function NatToString(n: nat): (s: string)
    ensures 0 < |s| && forall i :: 0 <= i < |s| ==> IsDigit(s[i])
    ensures s[0] == '0' ==> n == 0
    decreases n
  {
    if n < 10 then [Digit(n)] else NatToString(n / 10) + [Digit(n % 10)]
  }

  /** The value of a string of decimal digits. */
  function ParseNat(s: string): nat
    requires forall i :: 0 <= i < |s| ==> IsDigit(s[i])
    decreases |s|
  {
    if s == [] then 0
    else
      assert IsDigit(s[|s| - 1]);
      ParseNat(s[..|s| - 1]) * 10 + (s[|s| - 1] as int - '0' as int)
  }

  lemma {:induction false} ParseNatToString(n: nat)
    ensures ParseNat(NatToString(n)) == n
    decreases n
  {
    if n >= 10 {
      var s := NatToString(n / 10);
      ParseNatToString(n / 10);
      assert (s + [Digit(n % 10)])[..|s|] == s;
    }
  }

  lemma NatToStringInjective(a: nat, b: nat)
    ensures NatToString(a) == NatToString(b) <==> a == b
  {
    ParseNatToString(a);
    ParseNatToString(b);
  }

  // ---------------------------------------------------------------------------
  // Output names

  /** `TILESET_PREFIX` (combine.py:18), with the clock reading `now` as a parameter. */
  function TilesetPrefix(gridSize: nat, now: nat): string {
    "tileset_" + NatToString(gridSize) + "_" + NatToString(now) + "_"
  }

  /** The file name of the `i`-th saved tileset, counted from 0 (combine.py:113). */
  function TilesetName(prefix: string, i: nat): string {
    prefix + NatToString(i + 1) + ".png"
  }

  lemma PrefixStartsWithTileset(gridSize: nat, now: nat)
    ensures StartsWith(TilesetPrefix(gridSize, now), "tileset_")
  {
    var p := TilesetPrefix(gridSize, now);
    assert p == "tileset_" + (NatToString(gridSize) + "_" + NatToString(now) + "_");
  }

  /** Distinct tilesets of one run get distinct file names, so no save overwrites
      another. */
  lemma TilesetNamesDistinct(prefix: string, i: nat, j: nat)
    ensures TilesetName(prefix, i) == TilesetName(prefix, j) <==> i == j
  {
    if TilesetName(prefix, i) == TilesetName(prefix, j) {
      var a, b := NatToString(i + 1), NatToString(j + 1);
      var n := TilesetName(prefix, i);
      assert n == prefix + a + ".png" && n == prefix + b + ".png";
      assert |a| == |b|;
      assert a == n[|prefix|..|prefix| + |a|];
      assert b == n[|prefix|..|prefix| + |b|];
      NatToStringInjective(i + 1, j + 1);
    }
  }

  lemma LowerConcat(a: string, b: string)
    ensures Lower(a + b) == Lower(a) + Lower(b)
  {
  }

  /** A saved tileset's name ends in `.png`, yet a later run does not take it
      for a source when the prefix starts with `tileset_`, as the shipped prefix
      does. */
  lemma SavedTilesetIsNotSource(prefix: string, i: nat)
    requires StartsWith(prefix, "tileset_")
    ensures EndsWith(Lower(TilesetName(prefix, i)), ".png")
    ensures StartsWith(TilesetName(prefix, i), "tileset_")
    ensures !IsSourceName(TilesetName(prefix, i))
  {
    var n := TilesetName(prefix, i);
    LowerConcat(prefix + NatToString(i + 1), ".png");
    assert Lower(".png") == ".png";
    assert n[..|prefix|] == prefix;
    assert n[..8] == prefix[..8];
  }
}
