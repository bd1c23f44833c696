/**
 * The character-range helpers of DocumentsViewer: shifting katakana to
 * hiragana and back, ASCII letters up and down, and the code strings of
 * consecutive code points. One shift and one code range are defined here;
 * the four shifters and the five code strings are instances of them.
 */
module CharCodes {

  /** Code points a shift may produce: below the surrogate block. */
  const ShiftLimit: int := 0xD800

  predicate InRange(c: char, lo: int, hi: int)
  {
    lo <= c as int <= hi
  }

  /** A shift that moves [lo, hi] by `d` and keeps everything else. */
  predicate ShiftOk(lo: int, hi: int, d: int)
  {
    0 <= lo <= hi < ShiftLimit && 0 <= lo + d && hi + d < ShiftLimit
  }

  /** The source and target ranges of a shift do not overlap. */
  predicate Disjoint(lo: int, hi: int, d: int)
  {
    d > hi - lo || d < lo - hi
  }

  function ShiftChar(c: char, lo: int, hi: int, d: int): char
    requires ShiftOk(lo, hi, d)
  {
    if InRange(c, lo, hi) then (c as int + d) as char else c
  }

  /** The loop of the shifters: every character in [lo, hi] moves by `d`. */
  function ShiftText(s: string, lo: int, hi: int, d: int): (r: string)
    requires ShiftOk(lo, hi, d)
    ensures |r| == |s|
  {
    seq(|s|, i requires 0 <= i < |s| => ShiftChar(s[i], lo, hi, d))
  }

  const KataLo: int := 0x30A1  // ァ
  const KataHi: int := 0x30F3  // ン
  const HiraLo: int := 0x3041  // ぁ
  const HiraHi: int := 0x3093  // ん

  /** katakana_to_hiragana: ァ..ン move down to ぁ..ん. */
  function KatakanaToHiragana(s: string): string
  {
    ShiftText(s, KataLo, KataHi, HiraLo - KataLo)
  }

  /** hiragana_to_katakana: ぁ..ん move up to ァ..ン. */
  function HiraganaToKatakana(s: string): string
  {
    ShiftText(s, HiraLo, HiraHi, KataLo - HiraLo)
  }

  /** a_to_A: ASCII a..z become A..Z. */
  function LowerToUpper(s: string): string
  {
    ShiftText(s, 'a' as int, 'z' as int, 'A' as int - 'a' as int)
  }

  /** A_to_a: ASCII A..Z become a..z. */
  function UpperToLower(s: string): string
  {
    ShiftText(s, 'A' as int, 'Z' as int, 'a' as int - 'A' as int)
  }

  /**
   * A shift between disjoint ranges keeps the length, leaves no character
   * of its source range, and moves exactly those characters.
   */
  lemma ShiftClears(s: string, lo: int, hi: int, d: int)
    requires ShiftOk(lo, hi, d) && Disjoint(lo, hi, d)
    ensures var r := ShiftText(s, lo, hi, d);
      |r| == |s|
      && (forall i :: 0 <= i < |r| ==> !InRange(r[i], lo, hi))
      && (forall i :: 0 <= i < |r| ==> (r[i] == s[i] <==> !InRange(s[i], lo, hi)))
  {
  }

  /**
   * Shifting back restores the text exactly when it had no character of
   * the target range to begin with.
   */
  lemma ShiftRoundTrip(s: string, lo: int, hi: int, d: int)
    requires ShiftOk(lo, hi, d) && Disjoint(lo, hi, d)
    ensures ShiftOk(lo + d, hi + d, -d)
    ensures ShiftText(ShiftText(s, lo, hi, d), lo + d, hi + d, -d) == s
        <==> forall i :: 0 <= i < |s| ==> !InRange(s[i], lo + d, hi + d)
  {
    var r := ShiftText(ShiftText(s, lo, hi, d), lo + d, hi + d, -d);
    if r == s {
      forall i | 0 <= i < |s| ensures !InRange(s[i], lo + d, hi + d) {
        assert r[i] == s[i];
      }
    }
  }

  /** The shift is idempotent: a second pass has nothing left to move. */
  lemma ShiftIdempotent(s: string, lo: int, hi: int, d: int)
    requires ShiftOk(lo, hi, d) && Disjoint(lo, hi, d)
    ensures ShiftText(ShiftText(s, lo, hi, d), lo, hi, d) == ShiftText(s, lo, hi, d)
  {
    ShiftClears(s, lo, hi, d);
  }

  /**
   * Katakana to hiragana and back is the identity exactly on text without
   * hiragana; the result has no katakana left in ァ..ン.
   */
  lemma KanaRoundTrip(s: string)
    ensures HiraganaToKatakana(KatakanaToHiragana(s)) == s
        <==> forall i :: 0 <= i < |s| ==> !InRange(s[i], HiraLo, HiraHi)
    ensures forall i :: 0 <= i < |s| ==> !InRange(KatakanaToHiragana(s)[i], KataLo, KataHi)
  {
    ShiftRoundTrip(s, KataLo, KataHi, HiraLo - KataLo);
    ShiftClears(s, KataLo, KataHi, HiraLo - KataLo);
  }

  /**
   * a..z up and back down is the identity exactly on text without A..Z;
   * the result has no a..z left.
   */
  lemma LatinRoundTrip(s: string)
    ensures UpperToLower(LowerToUpper(s)) == s
        <==> forall i :: 0 <= i < |s| ==> !InRange(s[i], 'A' as int, 'Z' as int)
    ensures forall i :: 0 <= i < |s| ==> !InRange(LowerToUpper(s)[i], 'a' as int, 'z' as int)
  {
    ShiftRoundTrip(s, 'a' as int, 'z' as int, 'A' as int - 'a' as int);
    ShiftClears(s, 'a' as int, 'z' as int, 'A' as int - 'a' as int);
  }

  /** A code point that is a Unicode scalar value. */
  predicate IsScalar(n: int)
  {
    (0 <= n < 0xD800) || (0xE000 <= n < 0x11_0000)
  }

  /** A run of code points that crosses no surrogate. */
  predicate ScalarRun(lo: int, hi: int)
  {
    lo <= hi + 1 && IsScalar(lo) && IsScalar(hi) && (hi < 0xD800 || lo >= 0xE000)
  }

  /** The characters lo, lo+1, ..., hi. */
  function CodeRange(lo: int, hi: int): (r: string)
    requires ScalarRun(lo, hi)
    ensures |r| == hi - lo + 1
    ensures forall i :: 0 <= i < |r| ==> r[i] as int == lo + i
  {
    seq(hi - lo + 1, i requires 0 <= i <= hi - lo => (lo + i) as char)
  }

  /** Python's range(hi, lo, -1) as characters: hi, hi-1, ..., lo+1. */
  function CodeRangeDown(hi: int, lo: int): (r: string)
    requires ScalarRun(lo + 1, hi)
    ensures |r| == hi - lo
    ensures forall i :: 0 <= i < |r| ==> r[i] as int == hi - i
  {
    seq(hi - lo, i requires 0 <= i < hi - lo => (hi - i) as char)
  }

  const BrailleLo: int := 0x2800  // ⠀
  const BrailleHi: int := 0x283F  // ⠿

  /** braille_code: every six-dot cell from ⠀ to ⠿. */
  function BrailleCode(): string
  {
    CodeRange(BrailleLo, BrailleHi)
  }

  /** braille_code_r: ⠿ down to ⠁ (the range stops before ⠀). */
  function BrailleCodeR(): string
  {
    CodeRangeDown(BrailleHi, BrailleLo)
  }

  /** winbes_code: ASCII ' ' to '_'. */
  function WinbesCode(): string
  {
    CodeRange(' ' as int, '_' as int)
  }

  /** winbes_code_r: '_' down to '!'. */
  function WinbesCodeR(): string
  {
    CodeRangeDown('_' as int, ' ' as int)
  }

  /** katakana_code: half-width ｱ to ﾝ. */
  function KatakanaCode(): string
  {
    CodeRange(0xFF71, 0xFF9D)
  }

  /**
   * The descending code strings are the ascending ones reversed without
   * their first character, and the WinBES string pairs each of the 64 cells
   * with one ASCII character, 0x2800 - 0x20 code points apart.
   */
  lemma CodeStrings()
    ensures |BrailleCode()| == 64 && |WinbesCode()| == 64 && |KatakanaCode()| == 45
    ensures |BrailleCodeR()| == 63 && |WinbesCodeR()| == 63
    ensures forall i :: 0 <= i < 63 ==> BrailleCodeR()[i] == BrailleCode()[63 - i]
    ensures forall i :: 0 <= i < 63 ==> WinbesCodeR()[i] == WinbesCode()[63 - i]
    ensures forall i :: 0 <= i < 64 ==> BrailleCode()[i] as int == WinbesCode()[i] as int + 0x27E0
  {
  }
}
