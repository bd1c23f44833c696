/**
 * katakana_conv: transcription of a braille buffer to kana text. One cursor
 * moves over the buffer; each cell either maps through j01 or is a sign
 * that hands the cursor to a two-cell table lookup or to one of the
 * sub-converters. `KanaStep` is one pass through the loop body, ending at
 * the index the body leaves in `pos` before its final `pos = pos + 1`.
 */
module Kana {
  import opened Strings
  import opened Outcomes
  import opened TenjiTables
  import opened Runs
  import EngQuote
  import InfoNote

  const RomaSign: char := '⠰'
  const QuoteSign: char := '⠦'
  const DashSign: char := '⠤'
  const LongSign: char := '⠒'
  const BlankCell: char := '⠀'
  /** The cells after ⠰ that end a Roman-letter prefix (m_Separator). */
  const Separators: string := [BlankCell, DashSign, '\r', '\n']

  /** The cells katakana_conv does not simply look up in j01. */
  predicate IsSignCell(c: char)
  {
    c in [NumSign, RomaSign, QuoteSign, DashSign, LongSign, '⠲', '⠢', '⠸', '⠨', '⠘', '⠈',
          CapSign, '⠐']
  }

  /**
   * The two-cell table a prefix sign selects, and what a miss emits: ⠲
   * j09 "。", ⠢ j08 "？", ⠐ j02 "ッ", ⠸ j07, ⠨ j06, ⠘ j05 and ⠈ j04 nothing.
   */
  function PrefixTable(t: Tables, c: char): Option<(Table, string)>
  {
    if c == '⠲' then Some((t.j09, "。"))
    else if c == '⠢' then Some((t.j08, "？"))
    else if c == '⠸' then Some((t.j07, ""))
    else if c == '⠨' then Some((t.j06, ""))
    else if c == '⠘' then Some((t.j05, ""))
    else if c == '⠈' then Some((t.j04, ""))
    else if c == '⠐' then Some((t.j02, "ッ"))
    else None
  }

  /** A two-cell lookup at `p`: a hit also consumes the next cell. */
  function Prefixed(table: Table, b: string, p: nat, miss: string): Conv
  {
    var key := Slice(b, p, p + 2);
    if key in table then Conv(table[key], p + 1) else Conv(miss, p)
  }

  /** `j01[buff[pos]]`, which raises KeyError on a missing cell. */
  function Lookup(j01: Table, c: char, p: nat): Outcome<Conv>
  {
    if [c] in j01 then Ok(Conv(j01[[c]], p)) else Raised(KeyError)
  }

  /**
   * What the ⠰ branch emits before roma_conv and where roma_conv starts:
   * ⠰⠄ gives "＜" and ⠰⠤ gives "『", both consuming the second cell; ⠰ before
   * a blank cell, CR or LF gives j01's text for ⠰.
   */
  function RomaPrefix(t: Tables, b: string, p: nat): (string, nat)
    requires p + 1 < |b|
  {
    var n := b[p + 1];
    if n == '⠄' then ("＜", p + 1)
    else if n in Separators then
      if n == DashSign then ("『", p + 1)
      else (CellText(t.j01, b[p]), p)
    else ("", p)
  }

  /** One pass through katakana_conv's loop body at `p`. */
  function KanaStep(t: Tables, b: string, p: nat): (r: Outcome<Conv>)
    requires p < |b|
    ensures r.Ok? ==> r.value.next >= p
  {
    var ch := b[p];
    if ch == NumSign then Ok(NumericConv(t.j10, b, p))
    else if ch == RomaSign then
      if p + 1 >= |b| then Raised(IndexError)
      else
        var (pre, q) := RomaPrefix(t, b, p);
        match RomaConv(t, b, q)
        case Ok(c) => Ok(Conv(pre + c.text, c.next))
        case Raised(e) => Raised(e)
        case Hangs => Hangs
    else if ch == QuoteSign then
      EngQuote.EngConv(t, b, p, if p == 0 then b[|b| - 1] else b[p - 1])
    else if ch == DashSign then
      if p + 1 >= |b| then Raised(IndexError)
      else if b[p + 1] == '⠆' then Ok(Conv("』", p + 1))
      else if b[p + 1] == '⠂' then Ok(Conv("】", p + 1))
      else Lookup(t.j01, ch, p)
    else if ch == LongSign then
      if Slice(b, p, p + 1) == "⠂" then Ok(Conv("ー・", p + 1))
      else Lookup(t.j01, ch, p)
    else if ch == CapSign then
      if p + 1 >= |b| then Raised(IndexError)
      else if b[p + 1] == QuoteSign then InfoNote.InfoConv(t, b, p)
      else if b[p + 1] == '⠆' then Ok(Conv("＞", p + 1))
      else Ok(Prefixed(t.j03, b, p, ""))
    else if PrefixTable(t, ch).Some? then
      var (table, miss) := PrefixTable(t, ch).value;
      Ok(Prefixed(table, b, p, miss))
    else if [ch] in t.j01 then Ok(Conv(t.j01[[ch]], p))
    else Ok(Conv([ch], p))
  }

  /** katakana_conv's loop from `p` with text `w` so far. */
  function KanaFrom(t: Tables, b: string, p: nat, w: string): (r: Outcome<string>)
    ensures r.Ok? ==> StartsWith(r.value, w)
    decreases |b| - p
  {
    if p >= |b| then Ok(w)
    else
      match KanaStep(t, b, p)
      case Ok(c) => KanaFrom(t, b, c.next + 1, w + c.text)
      case Raised(e) => Raised(e)
      case Hangs => Hangs
  }

  /** katakana_conv over the whole buffer. */
  function KatakanaConv(t: Tables, b: string): Outcome<string>
  {
    KanaFrom(t, b, 0, "")
  }

  /** Reference reading of a buffer without signs: each cell through j01, or kept. */
  function PlainKana(j01: Table, s: string): string
  {
    if s == [] then "" else (if [s[0]] in j01 then j01[[s[0]]] else [s[0]]) + PlainKana(j01, s[1..])
  }

  /** At a cell that is no sign, one pass of the loop body reads it through j01 or keeps it. */
  lemma KanaStepPlain(t: Tables, b: string, p: nat)
    requires p < |b| && !IsSignCell(b[p])
    ensures KanaStep(t, b, p) == Ok(Conv(if [b[p]] in t.j01 then t.j01[[b[p]]] else [b[p]], p))
  {
    assert PrefixTable(t, b[p]).None?;
  }

  /** Where no sign cell occurs, katakana_conv is the plain cell-by-cell reading. */
  lemma {:induction false} KanaPlain(t: Tables, b: string, p: nat, w: string)
    requires p <= |b|
    requires forall k :: p <= k < |b| ==> !IsSignCell(b[k])
    ensures KanaFrom(t, b, p, w) == Ok(w + PlainKana(t.j01, b[p..]))
    decreases |b| - p
  {
    if p < |b| {
      var ch := b[p];
      var c := if [ch] in t.j01 then t.j01[[ch]] else [ch];
      KanaStepPlain(t, b, p);
      KanaPlain(t, b, p + 1, w + c);
      assert b[p..][1..] == b[p + 1..];
      assert PlainKana(t.j01, b[p..]) == c + PlainKana(t.j01, b[p + 1..]);
      AppendAssoc(w, c, PlainKana(t.j01, b[p + 1..]));
    } else {
      assert b[p..] == [] && PlainKana(t.j01, []) == [];
      assert w + [] == w;
    }
  }

  /**
   * After ⠲, ⠢, ⠐, ⠸, ⠨, ⠘ or ⠈, a two-cell hit in the sign's table emits
   * its text and consumes both cells; a miss emits the sign's default and
   * consumes the sign alone.
   */
  lemma KanaPrefix(t: Tables, b: string, p: nat, w: string)
    requires p < |b| && PrefixTable(t, b[p]).Some?
    ensures var (table, miss) := PrefixTable(t, b[p]).value;
      var key := Slice(b, p, p + 2);
      KanaFrom(t, b, p, w)
      == if key in table then KanaFrom(t, b, p + 2, w + table[key])
         else KanaFrom(t, b, p + 1, w + miss)
  {
    var (table, miss) := PrefixTable(t, b[p]).value;
    KanaStepPrefix(t, b, p);
    var c := Prefixed(table, b, p, miss);
    assert KanaFrom(t, b, p, w) == KanaFrom(t, b, c.next + 1, w + c.text);
  }

  /** At a prefix sign, one pass of the loop body is the two-cell lookup. */
  lemma KanaStepPrefix(t: Tables, b: string, p: nat)
    requires p < |b| && PrefixTable(t, b[p]).Some?
    ensures var (table, miss) := PrefixTable(t, b[p]).value;
      KanaStep(t, b, p) == Ok(Prefixed(table, b, p, miss))
  {
  }

  /** A cell in no table and no sign passes through unchanged. */
  lemma KanaPassThrough(t: Tables, b: string, p: nat, w: string)
    requires p < |b| && !IsSignCell(b[p]) && [b[p]] !in t.j01
    ensures KanaFrom(t, b, p, w) == KanaFrom(t, b, p + 1, w + [b[p]])
  {
    assert PrefixTable(t, b[p]).None?;
  }

  /** ⠒ always maps through j01: the "ー・" branch compares a one-cell slice with "⠂". */
  lemma KanaLongSign(t: Tables, b: string, p: nat, w: string)
    requires p < |b| && b[p] == LongSign
    ensures KanaFrom(t, b, p, w)
      == if [LongSign] in t.j01 then KanaFrom(t, b, p + 1, w + t.j01[[LongSign]])
         else Raised(KeyError)
  {
    assert Slice(b, p, p + 1) == [LongSign];
  }

  /** ⠰, ⠤, ⠠ or ⠦ in the last cell looks past the buffer and raises IndexError. */
  lemma KanaLastCellRaises(t: Tables, b: string, w: string)
    requires |b| > 0 && b[|b| - 1] in [RomaSign, DashSign, CapSign, QuoteSign]
    ensures KanaFrom(t, b, |b| - 1, w) == Raised(IndexError)
  {
  }

  /**
   * ⠦ in the first cell reads the cell "before" it from the end of the
   * buffer: the closing sequence is chosen by the last cell.
   */
  lemma KanaQuoteWraps(t: Tables, b: string)
    requires 1 < |b| && b[0] == QuoteSign
    ensures KanaStep(t, b, 0) == EngQuote.EngConv(t, b, 0, b[|b| - 1])
  {
  }

  /** A step diverges only inside info_conv, at a ⠼ that numeric2_conv hands back. */
  lemma KanaStepHangs(t: Tables, b: string, p: nat)
    requires p < |b|
    ensures KanaStep(t, b, p).Hangs? ==> exists k :: p < k < |b| && InfoNote.StallAt(t, b, k)
  {
    if b[p] == CapSign && p + 1 < |b| && b[p + 1] == QuoteSign {
      InfoNote.OuterLoopHangs(t, b, p + 1, NoCaps, "");
    }
  }

  /**
   * katakana_conv never returns only when an info quote meets a ⠼ that
   * numeric2_conv hands straight back; a buffer without such a cell is
   * always converted or raises.
   */
  lemma {:induction false} KanaHangs(t: Tables, b: string, p: nat, w: string)
    ensures KanaFrom(t, b, p, w).Hangs? ==> exists k :: p < k < |b| && InfoNote.StallAt(t, b, k)
    decreases |b| - p
  {
    if p < |b| {
      KanaStepHangs(t, b, p);
      match KanaStep(t, b, p)
      case Ok(c) => KanaHangs(t, b, c.next + 1, w + c.text);
      case Raised(_) =>
      case Hangs =>
    }
  }
}
