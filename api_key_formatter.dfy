/**
 * The masked display of a key (src/utils/apiKeyFormatter.js): a key whose id is
 * in the visible set is shown whole, any other as its first four characters,
 * 32 copies of the mask glyph and its last four characters.
 */
module ApiKeyFormatter {

  /**
   * The glyph the source repeats: the three characters U+00E2 U+20AC U+00A2
   * (a bullet whose UTF-8 bytes were read as Windows-1252). Nothing below
   * depends on its content, only on its length.
   */
  const MaskUnit: string := "\U{E2}\U{20AC}\U{A2}"

  /** How many copies of the glyph make the middle. */
  const MaskCopies: nat := 32

  /** How many characters are kept at each end. */
  const Shown: nat := 4

  function Min(a: int, b: int): int
  {
    if a <= b then a else b
  }

  function Max(a: int, b: int): int
  {
    if a <= b then b else a
  }

  /** `unit.repeat(n)`. */
  function Repeat(unit: string, n: nat): (r: string)
    ensures |r| == n * |unit|
    ensures forall c :: c in r ==> c in unit
    ensures n > 0 ==> unit <= r
  {
    if n == 0 then ""
    else
      var rest := Repeat(unit, n - 1);
      assert |unit + rest| == |unit| + (n - 1) * |unit| == n * |unit|;
      unit + rest
  }

  /** `s.substring(0, 4)`: `substring` clamps an end beyond the string to its length. */
  function Head(s: string): (r: string)
    ensures |r| == Min(Shown, |s|) && r <= s
  {
    s[..Min(Shown, |s|)]
  }

  /** `s.substring(s.length - 4)`: `substring` clamps a negative start to 0. */
  function Tail(s: string): (r: string)
    ensures |r| == Min(Shown, |s|) && r == s[|s| - |r|..]
  {
    s[Max(0, |s| - Shown)..]
  }

  /** The masked form of a hidden key. */
  function Masked(key: string): string
  {
    Head(key) + Repeat(MaskUnit, MaskCopies) + Tail(key)
  }

  /** `formatApiKey(key, keyId, visibleKeys)`. */
  function FormatApiKey(key: string, keyId: nat, visibleKeys: set<nat>): (r: string)
    ensures keyId in visibleKeys ==> r == key
    ensures keyId !in visibleKeys ==>
              && |r| == 2 * Min(Shown, |key|) + MaskCopies * |MaskUnit|
              && r[..Min(Shown, |key|)] == key[..Min(Shown, |key|)]
              && r[|r| - Min(Shown, |key|)..] == key[|key| - Min(Shown, |key|)..]
  {
    if keyId in visibleKeys then key else Masked(key)
  }

  /**
   * A hidden key of at least four characters is shown as exactly its first four
   * characters, the 32 glyphs and its last four: 8 + 32 * |glyph| characters
   * whatever the key's length.
   */
  lemma HiddenKeyShape(key: string, keyId: nat, visibleKeys: set<nat>)
    requires keyId !in visibleKeys && |key| >= Shown
    ensures var r := FormatApiKey(key, keyId, visibleKeys);
            && |r| == 2 * Shown + MaskCopies * |MaskUnit|
            && r[..Shown] == key[..Shown]
            && r[Shown..|r| - Shown] == Repeat(MaskUnit, MaskCopies)
            && r[|r| - Shown..] == key[|key| - Shown..]
  {
    var r := FormatApiKey(key, keyId, visibleKeys);
    assert r == Head(key) + Repeat(MaskUnit, MaskCopies) + Tail(key);
    assert |Head(key)| == Shown;
  }

  /** The display reveals nothing but the ends: hidden keys with equal ends look the same. */
  lemma SameEndsSameMask(k1: string, k2: string, id1: nat, id2: nat, visibleKeys: set<nat>)
    requires id1 !in visibleKeys && id2 !in visibleKeys
    requires |k1| >= Shown && |k2| >= Shown
    requires k1[..Shown] == k2[..Shown] && k1[|k1| - Shown..] == k2[|k2| - Shown..]
    ensures FormatApiKey(k1, id1, visibleKeys) == FormatApiKey(k2, id2, visibleKeys)
  {
  }

  /** A key shorter than four characters is shown whole on both sides of the mask. */
  lemma ShortKeyRepeated(key: string, keyId: nat, visibleKeys: set<nat>)
    requires keyId !in visibleKeys && |key| < Shown
    ensures FormatApiKey(key, keyId, visibleKeys) == key + Repeat(MaskUnit, MaskCopies) + key
  {
  }
}
