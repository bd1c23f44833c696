/**
 * The byte formats DocumentsViewer.op1/op2 and convert_bes_to_unicode read,
 * as specification functions on byte sequences.
 *
 * A dot-pattern file (.BES/.BET) stores one braille cell per byte at
 * 0xA0 + dots, with 0x0D/0x0A for CR/LF, 0xFD/0xFE for a line break and
 * 0x0C/0xFF as fillers. A flat-table file (.BSE) stores one NABCC character
 * per byte.
 */
module BesFormat {
  import opened Strings
  import opened Outcomes

  /** The dot-pattern decoders scan this far into the header. */
  const DotHeaderLimit: nat := 1024
  /** The flat-table decoder scans this far into the header. */
  const FlatHeaderLimit: nat := 512

  /**
   * Where decoding starts in a buffer of `n` bytes. The scanning loop stops
   * one past `limit` in a long buffer, at the last index of a short one and
   * at 0 in an empty one.
   */
  function HeaderStart(n: nat, limit: nat): (start: nat)
    ensures n == 0 ==> start == 0
    ensures n > 0 ==> start < n
    ensures n > limit + 1 ==> start == limit + 1
    ensures 0 < n <= limit + 1 ==> start == n - 1
  {
    if n == 0 then 0 else Min(limit + 1, n - 1)
  }

  predicate IsBrailleCell(c: char)
  {
    '⠀' <= c <= '⠿'
  }

  /** A character a dot-pattern decoder can produce. */
  predicate IsDecodedChar(c: char)
  {
    IsBrailleCell(c) || c == '\r' || c == '\n'
  }

  predicate IsDecodedText(s: string)
  {
    forall i :: 0 <= i < |s| ==> IsDecodedChar(s[i])
  }

  /** What one byte contributes to a dot-pattern decoding. */
  function ByteText(b: bv8): (r: string)
    ensures |r| <= 2
  {
    var code := b as int + 0x2800 - 0xA0;
    if b == 0x0D then "\r"
    else if b == 0x0A then "\n"
    else if b == 0xFD || b == 0xFE then "\r\n"
    else if b == 0x0C || b == 0xFF then ""
    else if 0x2800 <= code <= 0x283F then [code as char]
    else ""
  }

  /** The byte a dot-pattern file uses for a braille cell. */
  function CellByte(c: char): (b: bv8)
    requires IsBrailleCell(c)
    ensures 0xA0 <= b <= 0xDF
  {
    (c as int - 0x2800 + 0xA0) as bv8
  }

  /** A cell written as its byte decodes back to the same cell. */
  lemma CellRoundTrip(c: char)
    requires IsBrailleCell(c)
    ensures ByteText(CellByte(c)) == [c]
  {
  }

  /** Only the bytes 0xA0..0xDF produce braille cells. */
  lemma CellBytes(b: bv8)
    ensures (|ByteText(b)| == 1 && IsBrailleCell(ByteText(b)[0])) <==> 0xA0 <= b <= 0xDF
  {
  }

  /** The decoding loop: every byte's text, in order. */
  function DecodeBytes(s: seq<bv8>): (r: string)
    ensures |r| <= 2 * |s|
  {
    if s == [] then "" else DecodeBytes(s[..|s| - 1]) + ByteText(s[|s| - 1])
  }

  /** The decoding loop only produces braille cells, CR and LF. */
  lemma {:induction false} DecodeBytesAlphabet(s: seq<bv8>)
    ensures IsDecodedText(DecodeBytes(s))
  {
    if s != [] {
      DecodeBytesAlphabet(s[..|s| - 1]);
      var front, last := DecodeBytes(s[..|s| - 1]), ByteText(s[|s| - 1]);
      assert IsDecodedText(last);
      forall i | 0 <= i < |front + last| ensures IsDecodedChar((front + last)[i]) {
        if i < |front| {
          assert (front + last)[i] == front[i];
        } else {
          assert (front + last)[i] == last[i - |front|];
        }
      }
    }
  }

  lemma {:induction false} DecodeConcat(a: seq<bv8>, b: seq<bv8>)
    ensures DecodeBytes(a + b) == DecodeBytes(a) + DecodeBytes(b)
    decreases |b|
  {
    if b == [] {
      assert a + b == a;
    } else {
      SnocSplit(a, b);
      DecodeConcat(a, b[..|b| - 1]);
      AppendAssoc(DecodeBytes(a), DecodeBytes(b[..|b| - 1]), ByteText(b[|b| - 1]));
    }
  }

  function EncodeCells(s: string): (r: seq<bv8>)
    requires forall i :: 0 <= i < |s| ==> IsBrailleCell(s[i])
    ensures |r| == |s|
  {
    seq(|s|, i requires 0 <= i < |s| => CellByte(s[i]))
  }

  /** Any text of braille cells survives being written as bytes and decoded. */
  lemma {:induction false} DecodeEncodeCells(s: string)
    requires forall i :: 0 <= i < |s| ==> IsBrailleCell(s[i])
    ensures DecodeBytes(EncodeCells(s)) == s
  {
    if s != [] {
      var e := EncodeCells(s);
      assert e[..|e| - 1] == EncodeCells(s[..|s| - 1]);
      DecodeEncodeCells(s[..|s| - 1]);
      CellRoundTrip(s[|s| - 1]);
    }
  }

  /** `tenji.replace(b'\x0d\xfe', b'\r\n')` */
  function ReplaceCrFe(s: seq<bv8>): seq<bv8>
  {
    ReplaceAll(s, [0x0D, 0xFE], [0x0D, 0x0A])
  }

  /** The rewrite keeps the length and leaves no 0x0D 0xFE pair. */
  lemma CrFeEffect(s: seq<bv8>)
    ensures |ReplaceCrFe(s)| == |s|
    ensures NoPair(ReplaceCrFe(s), 0x0D, 0xFE)
    ensures Count(ReplaceCrFe(s), 0xFD) == Count(s, 0xFD)
  {
    ReplaceAllLength(s, [0x0D, 0xFE], [0x0D, 0x0A]);
    ReplacePairClears(s, 0x0D, 0xFE, 0x0D, 0x0A);
    ReplaceAllCount(s, [0x0D, 0xFE], [0x0D, 0x0A], 0xFD);
    assert Count([0x0D as bv8, 0x0A], 0xFD) == 0;
    assert Count([0x0D as bv8, 0xFE], 0xFD) == 0;
  }

  /**
   * Byte `k` once the blanking loop has handled indices 2 .. j-1: each 0xFD
   * met at index i overwrote indices i-2 and i-1 with 0x0C. The loop only
   * writes behind its index, so every test reads an original byte.
   */
  function BlankedAt(s: seq<bv8>, j: int, k: int): bv8
    requires 0 <= k < |s|
  {
    if (1 <= k && k + 1 < j && k + 1 < |s| && s[k + 1] == 0xFD)
       || (k + 2 < j && k + 2 < |s| && s[k + 2] == 0xFD)
    then 0x0C
    else s[k]
  }

  /** The buffer after the whole blanking loop. */
  function BlankBeforeFd(s: seq<bv8>): (r: seq<bv8>)
    ensures |r| == |s|
  {
    seq(|s|, k requires 0 <= k < |s| => BlankedAt(s, |s|, k))
  }

  /**
   * A 0xFD at index 2 or later blanks the two bytes before it; a 0xFD at
   * index 0 or 1 blanks nothing; every changed byte became 0x0C because of
   * a 0xFD one or two places later.
   */
  lemma BlankingEffect(s: seq<bv8>)
    ensures forall i :: 2 <= i < |s| && s[i] == 0xFD ==>
      BlankBeforeFd(s)[i - 2] == 0x0C && BlankBeforeFd(s)[i - 1] == 0x0C
    ensures |s| >= 1 && (|s| < 3 || s[2] != 0xFD) ==> BlankBeforeFd(s)[0] == s[0]
    ensures forall k :: 0 <= k < |s| && BlankBeforeFd(s)[k] != s[k] ==>
      BlankBeforeFd(s)[k] == 0x0C
      && ((1 <= k && k + 1 < |s| && s[k + 1] == 0xFD) || (k + 2 < |s| && s[k + 2] == 0xFD))
  {
  }

  /** Without 0xFD bytes, blanking changes nothing. */
  lemma NoFdNoBlanking(s: seq<bv8>)
    requires 0xFD !in s
    ensures BlankBeforeFd(s) == s
  {
  }

  /**
   * A 0xFD at index 2 or later, with no other 0xFD in the two places after
   * it, decodes together with the two bytes before it to one line break.
   */
  lemma FdLineBreak(s: seq<bv8>, i: nat)
    requires 2 <= i < |s| && s[i] == 0xFD
    requires i + 1 >= |s| || s[i + 1] != 0xFD
    requires i + 2 >= |s| || s[i + 2] != 0xFD
    ensures DecodeBytes(BlankBeforeFd(s)[i - 2..i + 1]) == "\r\n"
  {
    var r := BlankBeforeFd(s)[i - 2..i + 1];
    assert r == [0x0C, 0x0C, 0xFD];
    assert r[..2] == [0x0C, 0x0C] && r[..2][..1] == [0x0C] && r[..2][..1][..0] == [];
    assert DecodeBytes(r[..2][..1]) == "";
    assert DecodeBytes(r[..2]) == "";
  }

  /** The dot-pattern decoding of a whole file (op1, convert_bes_to_unicode). */
  function DotPattern(content: seq<bv8>): string
  {
    var body := content[HeaderStart(|content|, DotHeaderLimit)..];
    DecodeBytes(BlankBeforeFd(ReplaceCrFe(body)))
  }

  /** Only braille cells, CR and LF come out, at most two per decoded byte. */
  lemma DotPatternAlphabet(content: seq<bv8>)
    ensures IsDecodedText(DotPattern(content))
    ensures |DotPattern(content)| <= 2 * (|content| - HeaderStart(|content|, DotHeaderLimit))
  {
    var body := content[HeaderStart(|content|, DotHeaderLimit)..];
    CrFeEffect(body);
    DecodeBytesAlphabet(BlankBeforeFd(ReplaceCrFe(body)));
  }

  /** An empty file decodes to nothing; a file of up to 1026 bytes to its last byte. */
  lemma DotPatternShort(content: seq<bv8>)
    requires |content| <= DotHeaderLimit + 2
    ensures content == [] ==> DotPattern(content) == ""
    ensures content != [] ==> DotPattern(content) == ByteText(content[|content| - 1])
  {
    if content != [] {
      var body := content[HeaderStart(|content|, DotHeaderLimit)..];
      assert body == [content[|content| - 1]];
      assert BlankBeforeFd(ReplaceCrFe(body)) == body;
      assert DecodeBytes(body) == DecodeBytes([]) + ByteText(content[|content| - 1]);
    }
  }

  /**
   * Reference decoder: reads left to right, and a 0x0D directly followed by
   * 0xFE is one line break.
   */
  function DecodePairs(s: seq<bv8>): string
    decreases |s|
  {
    if |s| >= 2 && s[..2] == [0x0D, 0xFE] then "\r\n" + DecodePairs(s[2..])
    else if s == [] then ""
    else ByteText(s[0]) + DecodePairs(s[1..])
  }

  lemma DecodeSingle(b: bv8)
    ensures DecodeBytes([b]) == ByteText(b)
  {
    assert [b][..0] == [];
  }

  lemma DecodeCrLf()
    ensures DecodeBytes([0x0D, 0x0A]) == "\r\n"
  {
    var s: seq<bv8> := [0x0D, 0x0A];
    assert s[..1] == [0x0D];
    DecodeSingle(0x0D);
  }

  lemma {:induction false} DecodeCrFeIsDecodePairs(s: seq<bv8>)
    ensures DecodeBytes(ReplaceCrFe(s)) == DecodePairs(s)
    decreases |s|
  {
    if |s| < 2 {
      assert ReplaceCrFe(s) == s;
      if s != [] {
        DecodeSingle(s[0]);
        assert s == [s[0]];
      }
    } else if s[..2] == [0x0D, 0xFE] {
      assert ReplaceCrFe(s) == [0x0D, 0x0A] + ReplaceCrFe(s[2..]);
      DecodeCrFeIsDecodePairs(s[2..]);
      DecodeConcat([0x0D, 0x0A], ReplaceCrFe(s[2..]));
      DecodeCrLf();
    } else {
      assert ReplaceCrFe(s) == [s[0]] + ReplaceCrFe(s[1..]);
      DecodeCrFeIsDecodePairs(s[1..]);
      DecodeConcat([s[0]], ReplaceCrFe(s[1..]));
      DecodeSingle(s[0]);
    }
  }

  /**
   * For a header-less body without 0xFD bytes the dot-pattern decoding is
   * the reference decoder: each 0x0D 0xFE pair, taken left to right without
   * overlap, becomes one "\r\n".
   */
  lemma DecodeWithoutFd(s: seq<bv8>)
    requires 0xFD !in s
    ensures DecodeBytes(BlankBeforeFd(ReplaceCrFe(s))) == DecodePairs(s)
  {
    CrFeEffect(s);
    CountZeroIffAbsent(s, 0xFD);
    CountZeroIffAbsent(ReplaceCrFe(s), 0xFD);
    NoFdNoBlanking(ReplaceCrFe(s));
    DecodeCrFeIsDecodePairs(s);
  }

  /** What one byte contributes to a flat-table decoding. */
  function FlatByte(nabcc: map<char, string>, b: bv8): Outcome<string>
  {
    var key := (b as int) as char;
    if b == 0xFD || b == 0xFE then Ok("\r\n")
    else if b == 0x0D then Ok("")
    else if b == 0x0A then Ok("\r\n")
    else if b == 0xFF then Ok("")
    else if key in nabcc then Ok(nabcc[key])
    else Raised(KeyError)
  }

  /** A byte the flat-table decoder has no glyph for. */
  predicate Unmapped(nabcc: map<char, string>, b: bv8)
  {
    b != 0xFD && b != 0xFE && b != 0x0D && b != 0x0A && b != 0xFF
    && (b as int) as char !in nabcc
  }

  /** The flat-table decoding loop: the first unmapped byte aborts it. */
  function DecodeFlat(nabcc: map<char, string>, s: seq<bv8>): Outcome<string>
  {
    if s == [] then Ok("")
    else match DecodeFlat(nabcc, s[..|s| - 1])
      case Ok(t) => (
        match FlatByte(nabcc, s[|s| - 1])
        case Ok(u) => Ok(t + u)
        case other => other)
      case other => other
  }

  /** The flat-table decoding of a whole file (op2). */
  function FlatTable(nabcc: map<char, string>, content: seq<bv8>): Outcome<string>
  {
    DecodeFlat(nabcc, content[HeaderStart(|content|, FlatHeaderLimit)..])
  }

  /**
   * The flat-table decoder fails, with a missing-key error, exactly when some
   * byte is unmapped; it never hangs.
   */
  lemma {:induction false} DecodeFlatFails(nabcc: map<char, string>, s: seq<bv8>)
    ensures !DecodeFlat(nabcc, s).Hangs?
    ensures DecodeFlat(nabcc, s).Raised? ==> DecodeFlat(nabcc, s).fault == KeyError
    ensures DecodeFlat(nabcc, s).Raised? <==> exists i :: 0 <= i < |s| && Unmapped(nabcc, s[i])
  {
    if s != [] {
      var init := s[..|s| - 1];
      DecodeFlatFails(nabcc, init);
      if exists i :: 0 <= i < |init| && Unmapped(nabcc, init[i]) {
        var i :| 0 <= i < |init| && Unmapped(nabcc, init[i]);
        assert s[i] == init[i];
      }
      if exists i :: 0 <= i < |s| && Unmapped(nabcc, s[i]) {
        var i :| 0 <= i < |s| && Unmapped(nabcc, s[i]);
        if i < |init| {
          assert init[i] == s[i];
        }
      }
    }
  }

  /**
   * When no glyph contains a line feed, each 0xFD, 0xFE and 0x0A byte is one
   * line of a successful flat-table decoding.
   */
  lemma {:induction false} DecodeFlatLines(nabcc: map<char, string>, s: seq<bv8>)
    requires forall k :: k in nabcc ==> '\n' !in nabcc[k]
    requires DecodeFlat(nabcc, s).Ok?
    ensures Count(DecodeFlat(nabcc, s).value, '\n')
         == Count(s, 0xFD) + Count(s, 0xFE) + Count(s, 0x0A)
  {
    if s != [] {
      var init := s[..|s| - 1];
      var b := s[|s| - 1];
      DecodeFlatLines(nabcc, init);
      var t := DecodeFlat(nabcc, init).value;
      var u := FlatByte(nabcc, b).value;
      CountConcat(t, u, '\n');
      CountSnoc(s, 0xFD);
      CountSnoc(s, 0xFE);
      CountSnoc(s, 0x0A);
      if b == 0xFD || b == 0xFE || b == 0x0A {
        assert "\r\n"[1..] == "\n";
      } else if b != 0x0D && b != 0xFF {
        CountZeroIffAbsent(u, '\n');
      }
    }
  }
}
