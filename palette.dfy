/** The colour pickers of the notes page: a 32-bit string hash in the JavaScript idiom
    `hash = ((hash << 5) - hash) + code; hash = hash & hash`, folded into a six-colour
    palette with `Math.abs(hash) % 6`. */
module Palette {

  const TwoTo32: int := 0x1_0000_0000
  const TwoTo31: int := 0x8000_0000

  /** A value of a 32-bit signed integer. */
  predicate IsInt32(x: int) {
    -TwoTo31 <= x < TwoTo31
  }

  /** The ECMAScript ToInt32 conversion every bitwise operator applies to its operands:
      the integer congruent to `x` modulo 2^32 in the signed range. */
  function ToInt32(x: int): (r: int)
    ensures IsInt32(r)
    ensures (r - x) % TwoTo32 == 0
  {
    var m := x % TwoTo32;
    if m >= TwoTo31 then m - TwoTo32 else m
  }

  /** ToInt32 depends only on the residue modulo 2^32. */
  lemma ToInt32Congruent(x: int, y: int)
    requires (x - y) % TwoTo32 == 0
    ensures ToInt32(x) == ToInt32(y)
  {
    var q := (x - y) / TwoTo32;
    assert x == y + q * TwoTo32;
    assert x % TwoTo32 == y % TwoTo32;
  }

  /** A 32-bit signed integer converts to itself. */
  lemma ToInt32OfInt32(x: int)
    requires IsInt32(x)
    ensures ToInt32(x) == x
  {
    ToInt32Congruent(x, x);
    if x < 0 {
      assert x % TwoTo32 == x + TwoTo32;
    } else {
      assert x % TwoTo32 == x;
    }
  }

  /** One loop step as written: `hash << 5` is ToInt32 of `hash * 32`, the subtraction and
      the addition are exact, and `hash & hash` converts back to 32 bits. */
  function HashStep(hash: int, code: int): int {
    ToInt32(ToInt32(hash * 32) - hash + code)
  }

  /** The hash of a whole string, character by character from the left. */
  function HashOf(s: string): int
    decreases |s|
  {
    if s == [] then 0 else HashStep(HashOf(s[..|s| - 1]), s[|s| - 1] as int)
  }

  /** The polynomial the loop evaluates by Horner's rule, with unbounded integers:
      `s[0] * 31^(n-1) + ... + s[n-1]`. */
  function Polynomial(s: string): int
    decreases |s|
  {
    if s == [] then 0 else 31 * Polynomial(s[..|s| - 1]) + s[|s| - 1] as int
  }

  /** A step of the loop is `31 * hash + code` reduced to 32 bits. */
  lemma HashStepIsMultiplyAdd(hash: int, code: int)
    ensures HashStep(hash, code) == ToInt32(31 * hash + code)
  {
    var a := ToInt32(hash * 32);
    assert (a - hash * 32) % TwoTo32 == 0;
    assert (a - hash + code) - (31 * hash + code) == a - hash * 32;
    ToInt32Congruent(a - hash + code, 31 * hash + code);
  }

  /** The hash is the polynomial hash of the string modulo 2^32 (the same value as Java's
      `String.hashCode` on the string's code units). */
  lemma {:induction false} HashIsPolynomial(s: string)
    ensures HashOf(s) == ToInt32(Polynomial(s))
    decreases |s|
  {
    if s != [] {
      var init := s[..|s| - 1];
      var c := s[|s| - 1] as int;
      HashIsPolynomial(init);
      HashStepIsMultiplyAdd(HashOf(init), c);
      var h := ToInt32(Polynomial(init));
      StepKeepsCongruence(h, Polynomial(init), c);
      ToInt32Congruent(31 * h + c, 31 * Polynomial(init) + c);
    }
  }

  /** Values equal modulo 2^32 stay equal modulo 2^32 after a step of the polynomial. */
  lemma StepKeepsCongruence(h: int, p: int, c: int)
    requires (h - p) % TwoTo32 == 0
    ensures ((31 * h + c) - (31 * p + c)) % TwoTo32 == 0
  {
    var k := (h - p) / TwoTo32;
    assert h - p == k * TwoTo32;
    assert (31 * h + c) - (31 * p + c) == (31 * k) * TwoTo32;
  }

  /** The loop of `getTagColor` and `getFolderColor`. */
  method StringHash(s: string) returns (hash: int)
    ensures hash == ToInt32(Polynomial(s))
    ensures IsInt32(hash)
  {
    hash := 0;
    var i := 0;
    while i < |s|
      invariant 0 <= i <= |s|
      invariant hash == HashOf(s[..i])
    {
      assert s[..i + 1][..i] == s[..i];
      hash := ToInt32(ToInt32(hash * 32) - hash + s[i] as int);
      i := i + 1;
    }
    assert s[..|s|] == s;
    HashIsPolynomial(s);
  }

  /** `Math.abs(hash) % 6`. */
  function PaletteIndex(hash: int): (i: nat)
    ensures i < 6
  {
    (if hash < 0 then -hash else hash) % 6
  }

  const TagColours: seq<string> := ["#C27B66", "#8C9A84", "#DCCFC2", "#4A5D4E", "#E6E2DA", "#2D3A31"]
  const FolderColours: seq<string> := ["#8C9A84", "#C27B66", "#4A5D4E", "#DCCFC2", "#9BA593", "#B08D7A"]

  /** `getTagColor`: always a palette entry, and the same one for the same name. */
  method TagColour(name: string) returns (colour: string)
    ensures colour in TagColours
    ensures colour == TagColours[PaletteIndex(ToInt32(Polynomial(name)))]
  {
    var hash := StringHash(name);
    colour := TagColours[PaletteIndex(hash)];
  }

  /** `getFolderColor`: the same hash over the folder palette. */
  method FolderColour(name: string) returns (colour: string)
    ensures colour in FolderColours
    ensures colour == FolderColours[PaletteIndex(ToInt32(Polynomial(name)))]
  {
    var hash := StringHash(name);
    colour := FolderColours[PaletteIndex(hash)];
  }

  /** Worked values: a one-letter name hashes to its code, so "a" (97) picks entry 1 of the
      tag palette; the empty name picks entry 0. */
  lemma SmallNames()
    ensures ToInt32(Polynomial("a")) == 97 && PaletteIndex(97) == 1 && TagColours[1] == "#8C9A84"
    ensures ToInt32(Polynomial("")) == 0 && TagColours[PaletteIndex(0)] == "#C27B66"
  {
    assert "a"[..0] == "";
    ToInt32OfInt32(97);
    ToInt32OfInt32(0);
  }
}
