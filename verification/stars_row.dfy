/** The row of three star glyphs: the count is clamped to 0..3 and slot i
    (1, 2 or 3) shows a filled star when i is at most the clamped count. */
module StarsRow {

  /** `Math.max(0, Math.min(3, stars))`. */
  function Clamp(stars: int): (s: int)
    ensures 0 <= s <= 3
    ensures 0 <= stars <= 3 ==> s == stars
    ensures stars < 0 ==> s == 0
    ensures stars > 3 ==> s == 3
  {
    if stars < 0 then 0 else if stars > 3 then 3 else stars
  }

  /** The three slots, left to right; `true` is a filled star. */
  function Glyphs(stars: int): (g: seq<bool>)
    ensures |g| == 3
    ensures forall k :: 0 <= k < 3 ==> (g[k] <==> k + 1 <= Clamp(stars))
  {
    var s := Clamp(stars);
    [1 <= s, 2 <= s, 3 <= s]
  }

  /** The number of filled slots. */
  function FilledCount(g: seq<bool>): (n: nat)
    ensures n <= |g|
  {
    if g == [] then 0 else (if g[0] then 1 else 0) + FilledCount(g[1..])
  }

  /** The row shows exactly the clamped count of filled stars, and the
      filled ones come first. */
  lemma FilledMatchesClamp(stars: int)
    ensures FilledCount(Glyphs(stars)) == Clamp(stars)
    ensures forall i, j :: 0 <= i < j < 3 && Glyphs(stars)[j] ==> Glyphs(stars)[i]
  {
    var g := Glyphs(stars);
    assert FilledCount(g[2..]) == (if g[2] then 1 else 0) by {
      assert g[2..][1..] == [];
    }
    assert FilledCount(g[1..]) == (if g[1] then 1 else 0) + FilledCount(g[2..]) by {
      assert g[1..][1..] == g[2..];
    }
  }

  /** Clamping twice is clamping once. */
  lemma ClampIdempotent(stars: int)
    ensures Clamp(Clamp(stars)) == Clamp(stars)
  {
  }

  /** More stars never show fewer filled glyphs, slot by slot. */
  lemma GlyphsMonotone(a: int, b: int)
    requires a <= b
    ensures Clamp(a) <= Clamp(b)
    ensures forall i :: 0 <= i < 3 && Glyphs(a)[i] ==> Glyphs(b)[i]
    ensures FilledCount(Glyphs(a)) <= FilledCount(Glyphs(b))
  {
    FilledMatchesClamp(a);
    FilledMatchesClamp(b);
  }
}
