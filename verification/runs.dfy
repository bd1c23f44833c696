/**
 * The run converters DocumentsViewer.katakana_conv calls at a prefix cell:
 * numeric_conv and numeric2_conv (digits after the number sign ⠼) and
 * roma_conv (Latin letters after the foreign-letter sign ⠰). Each scans
 * `b` from the cell after the prefix and hands back its text and the index
 * the caller adds one to before resuming, as a `Conv`.
 *
 * The loops are written as tail-recursive functions over the scan index and
 * the text so far; DocumentsViewer's methods are proved equal to them.
 */
module Runs {
  import opened Strings
  import opened Outcomes
  import opened TenjiTables

  /** A converter's text and the index it returns to its caller. */
  datatype Conv = Conv(text: string, next: int)

  /**
   * `f_oomoji`: 0 no capitals, 1 a run of capitals (⠠⠠), 2 the next letter
   * only (⠠), 3 a kana mark (info_conv only).
   */
  datatype Oomoji = NoCaps | CapsRun | CapNext | KanaMark

  const NumSign: char := '⠼'
  const CapSign: char := '⠠'
  const CloseSign: char := '⠴'

  /** `t[c]` for a cell, or nothing when the table has no entry. */
  function CellText(t: Table, c: char): string
  {
    if [c] in t then t[[c]] else ""
  }

  // ---------------------------------------------------------------- numeric_conv

  /** numeric_conv's loop at index `p`, having produced `w`. */
  function NumericLoop(j10: Table, b: string, p: int, w: string): (r: Conv)
    requires 1 <= p <= |b|
    ensures p - 1 <= r.next <= |b|
    decreases |b| - p
  {
    if p >= |b| then Conv(w, p)
    else if b[p] == NumSign then Conv(w + "、", p)
    else if b[p] == '\r' then Conv(w + "\r\n", p + 1)
    else if [b[p]] !in j10 then Conv(w, p - 1)
    else NumericLoop(j10, b, p + 1, w + j10[[b[p]]])
  }

  /** numeric_conv(pos), called with `b[pos] == '⠼'`. */
  function NumericConv(j10: Table, b: string, pos: int): (r: Conv)
    requires 0 <= pos < |b|
    ensures pos <= r.next <= |b|
  {
    NumericLoop(j10, b, pos + 1, "")
  }

  /** A cell numeric_conv translates and moves past. */
  predicate IsDigit(j10: Table, c: char)
  {
    c != NumSign && c != '\r' && [c] in j10
  }

  /** The first index at or after `p` that does not hold a digit cell. */
  function DigitsEnd(j10: Table, b: string, p: nat): (q: nat)
    requires p <= |b|
    ensures p <= q <= |b|
    ensures forall k :: p <= k < q ==> IsDigit(j10, b[k])
    ensures q < |b| ==> !IsDigit(j10, b[q])
    decreases |b| - p
  {
    if p == |b| || !IsDigit(j10, b[p]) then p else DigitsEnd(j10, b, p + 1)
  }

  /** Every cell of `s` translated through `t`, in order. */
  function MapCells(t: Table, s: string): string
  {
    if s == [] then "" else CellText(t, s[0]) + MapCells(t, s[1..])
  }

  /**
   * How numeric_conv ends at the first non-digit `q`: a second ⠼ gives "、"
   * and is consumed, a CR gives "\r\n" and the cell after it is consumed too,
   * any other cell is handed back so the caller resumes on it, and the end of
   * the buffer returns its length.
   */
  function NumericTail(b: string, q: int): Conv
  {
    if q < 0 || q >= |b| then Conv("", |b|)
    else if b[q] == NumSign then Conv("、", q)
    else if b[q] == '\r' then Conv("\r\n", q + 1)
    else Conv("", q - 1)
  }

  lemma {:induction false} NumericLoopSpec(j10: Table, b: string, p: nat, w: string)
    requires 1 <= p <= |b|
    ensures var q := DigitsEnd(j10, b, p);
      NumericLoop(j10, b, p, w)
      == Conv(w + MapCells(j10, b[p..q]) + NumericTail(b, q).text, NumericTail(b, q).next)
    decreases |b| - p
  {
    var q := DigitsEnd(j10, b, p);
    if p < |b| && IsDigit(j10, b[p]) {
      var d := j10[[b[p]]];
      NumericLoopSpec(j10, b, p + 1, w + d);
      assert b[p..q][1..] == b[p + 1..q];
      assert MapCells(j10, b[p..q]) == d + MapCells(j10, b[p + 1..q]);
      AppendAssoc(w, d, MapCells(j10, b[p + 1..q]));
    } else {
      assert MapCells(j10, b[p..q]) == [];
      assert w + [] == w;
    }
  }

  /**
   * numeric_conv translates the digit run after ⠼ through j10 and returns an
   * index at or after the ⠼, so the main loop always advances.
   */
  lemma NumericConvSpec(j10: Table, b: string, pos: nat)
    requires pos < |b|
    ensures var q := DigitsEnd(j10, b, pos + 1);
      var r := NumericConv(j10, b, pos);
      && r.text == MapCells(j10, b[pos + 1..q]) + NumericTail(b, q).text
      && r.next == NumericTail(b, q).next
      && pos <= r.next
  {
    NumericLoopSpec(j10, b, pos + 1, "");
  }

  // --------------------------------------------------------------- numeric2_conv

  /**
   * numeric2_conv's loop. Its half-width flag is always set, so digits come
   * from i03 and a repeated ⠼ gives "," without ending the run.
   */
  function Numeric2Loop(i03: Table, b: string, p: int, w: string): (r: Conv)
    requires 1 <= p <= |b|
    ensures p - 1 <= r.next <= |b|
    decreases |b| - p
  {
    if p >= |b| then Conv(w, p)
    else if b[p] == NumSign then Numeric2Loop(i03, b, p + 1, w + ",")
    else if b[p] == '\r' then Conv(w + "\r\n", p + 1)
    else if [b[p]] !in i03 then Conv(w, p - 1)
    else Numeric2Loop(i03, b, p + 1, w + i03[[b[p]]])
  }

  /** numeric2_conv(pos), called with `b[pos] == '⠼'`. */
  function Numeric2Conv(i03: Table, b: string, pos: int): (r: Conv)
    requires 0 <= pos < |b|
    ensures pos <= r.next <= |b|
  {
    Numeric2Loop(i03, b, pos + 1, "")
  }

  /** A cell numeric2_conv moves past: ⠼ or an i03 digit. */
  predicate IsDigit2(i03: Table, c: char)
  {
    c == NumSign || (c != '\r' && [c] in i03)
  }

  function Digits2End(i03: Table, b: string, p: nat): (q: nat)
    requires p <= |b|
    ensures p <= q <= |b|
    ensures forall k :: p <= k < q ==> IsDigit2(i03, b[k])
    ensures q < |b| ==> !IsDigit2(i03, b[q])
    decreases |b| - p
  {
    if p == |b| || !IsDigit2(i03, b[p]) then p else Digits2End(i03, b, p + 1)
  }

  function Digit2Text(i03: Table, c: char): string
  {
    if c == NumSign then "," else CellText(i03, c)
  }

  function MapDigits2(i03: Table, s: string): string
  {
    if s == [] then "" else Digit2Text(i03, s[0]) + MapDigits2(i03, s[1..])
  }

  /** How numeric2_conv ends at the first cell that is neither ⠼ nor a digit. */
  function Numeric2Tail(b: string, q: int): Conv
  {
    if q < 0 || q >= |b| then Conv("", |b|)
    else if b[q] == '\r' then Conv("\r\n", q + 1)
    else Conv("", q - 1)
  }

  lemma {:induction false} Numeric2LoopSpec(i03: Table, b: string, p: nat, w: string)
    requires 1 <= p <= |b|
    ensures var q := Digits2End(i03, b, p);
      Numeric2Loop(i03, b, p, w)
      == Conv(w + MapDigits2(i03, b[p..q]) + Numeric2Tail(b, q).text, Numeric2Tail(b, q).next)
    decreases |b| - p
  {
    var q := Digits2End(i03, b, p);
    if p < |b| && IsDigit2(i03, b[p]) {
      var d := Digit2Text(i03, b[p]);
      assert b[p] == NumSign ==> d == ",";
      Numeric2LoopSpec(i03, b, p + 1, w + d);
      assert b[p..q][1..] == b[p + 1..q];
      assert MapDigits2(i03, b[p..q]) == d + MapDigits2(i03, b[p + 1..q]);
      AppendAssoc(w, d, MapDigits2(i03, b[p + 1..q]));
    } else {
      assert MapDigits2(i03, b[p..q]) == [];
      assert w + [] == w;
    }
  }

  /**
   * numeric2_conv translates the run of ⠼ and i03 digits after its ⠼, and
   * hands back its own start exactly when the next cell ends the run at
   * once without being CR: this is the stall info_conv cannot leave.
   */
  lemma Numeric2ConvSpec(i03: Table, b: string, pos: nat)
    requires pos < |b|
    ensures var q := Digits2End(i03, b, pos + 1);
      var r := Numeric2Conv(i03, b, pos);
      && r.text == MapDigits2(i03, b[pos + 1..q]) + Numeric2Tail(b, q).text
      && r.next == Numeric2Tail(b, q).next
    ensures Numeric2Conv(i03, b, pos).next == pos
        <==> pos + 1 < |b| && !IsDigit2(i03, b[pos + 1]) && b[pos + 1] != '\r'
  {
    Numeric2LoopSpec(i03, b, pos + 1, "");
  }

  // ------------------------------------------------------------------ roma_conv

  /**
   * roma_conv's loop with capital mode `f`. Looking one cell past a ⠠ raises
   * IndexError when the ⠠ is the last cell.
   */
  function RomaLoop(t: Tables, b: string, p: int, w: string, f: Oomoji): (r: Outcome<Conv>)
    requires 1 <= p <= |b|
    ensures r.Ok? ==> p - 1 <= r.value.next <= |b|
    ensures !r.Hangs? && (r.Raised? ==> r.fault == IndexError)
    decreases |b| - p
  {
    if p >= |b| then Ok(Conv(w, p))
    else if b[p] == CapSign then
      if p + 1 >= |b| then Raised(IndexError)
      else if b[p + 1] == CapSign then RomaLoop(t, b, p + 1, w, CapsRun)
      else if f != CapsRun then RomaLoop(t, b, p + 1, w, CapNext)
      else RomaLoop(t, b, p + 1, w, f)
    else if [b[p]] !in t.j11 then Ok(Conv(w, p - 1))
    else if f == NoCaps then RomaLoop(t, b, p + 1, w + CellText(t.j12, b[p]), f)
    else if f == CapsRun then RomaLoop(t, b, p + 1, w + t.j11[[b[p]]], f)
    else if f == CapNext then RomaLoop(t, b, p + 1, w + t.j11[[b[p]]], NoCaps)
    else RomaLoop(t, b, p + 1, w, f)
  }

  /** roma_conv(pos), called at the ⠰ (or the cell after it). */
  function RomaConv(t: Tables, b: string, pos: int): (r: Outcome<Conv>)
    requires 0 <= pos < |b|
    ensures r.Ok? ==> pos <= r.value.next <= |b|
    ensures !r.Hangs? && (r.Raised? ==> r.fault == IndexError)
  {
    RomaLoop(t, b, pos + 1, "", NoCaps)
  }

  /** A cell that keeps a Roman-letter run going. */
  predicate IsRomaCell(j11: Table, c: char)
  {
    c == CapSign || [c] in j11
  }

  function RomaEnd(j11: Table, b: string, p: nat): (q: nat)
    requires p <= |b|
    ensures p <= q <= |b|
    ensures forall k :: p <= k < q ==> IsRomaCell(j11, b[k])
    ensures q < |b| ==> !IsRomaCell(j11, b[q])
    decreases |b| - p
  {
    if p == |b| || !IsRomaCell(j11, b[p]) then p else RomaEnd(j11, b, p + 1)
  }

  /** The run starting at `p` reaches the end of the buffer on a ⠠. */
  predicate RunEndsOnCap(j11: Table, b: string, p: nat)
    requires p <= |b|
  {
    var q := RomaEnd(j11, b, p);
    q == |b| && q > p && b[q - 1] == CapSign
  }

  /** The text and mode roma_conv carries past a run cell at `p`. */
  function RomaCarry(t: Tables, b: string, p: nat, w: string, f: Oomoji): (string, Oomoji)
    requires p + 1 < |b| || (p < |b| && b[p] != CapSign)
  {
    if b[p] == CapSign then
      (w, if b[p + 1] == CapSign then CapsRun else if f != CapsRun then CapNext else f)
    else if f == NoCaps then (w + CellText(t.j12, b[p]), f)
    else if f == CapsRun then (w + CellText(t.j11, b[p]), f)
    else if f == CapNext then (w + CellText(t.j11, b[p]), NoCaps)
    else (w, f)
  }

  /** On a run cell that is not a final ⠠, roma_conv moves on one cell. */
  lemma RomaStep(t: Tables, b: string, p: nat, w: string, f: Oomoji)
    requires 1 <= p < |b| && IsRomaCell(t.j11, b[p])
    requires p + 1 < |b| || b[p] != CapSign
    ensures var (w', f') := RomaCarry(t, b, p, w, f);
      RomaLoop(t, b, p, w, f) == RomaLoop(t, b, p + 1, w', f')
  {
  }

  /**
   * roma_conv fails exactly when its run of letters and ⠠ cells ends the
   * buffer with a ⠠.
   */
  lemma {:induction false} RomaLoopFails(t: Tables, b: string, p: nat, w: string, f: Oomoji)
    requires 1 <= p <= |b|
    ensures RomaLoop(t, b, p, w, f).Raised? <==> RunEndsOnCap(t.j11, b, p)
    decreases |b| - p
  {
    if p < |b| && IsRomaCell(t.j11, b[p]) && (p + 1 < |b| || b[p] != CapSign) {
      var (w', f') := RomaCarry(t, b, p, w, f);
      RomaStep(t, b, p, w, f);
      RomaLoopFails(t, b, p + 1, w', f');
    }
  }

  /**
   * Otherwise roma_conv returns the index before the first cell outside the
   * run, or the buffer's length.
   */
  lemma {:induction false} RomaLoopNext(t: Tables, b: string, p: nat, w: string, f: Oomoji)
    requires 1 <= p <= |b|
    ensures var q := RomaEnd(t.j11, b, p);
      RomaLoop(t, b, p, w, f).Ok? ==> RomaLoop(t, b, p, w, f).value.next == if q == |b| then q else q - 1
    decreases |b| - p
  {
    if p < |b| && IsRomaCell(t.j11, b[p]) && (p + 1 < |b| || b[p] != CapSign) {
      var (w', f') := RomaCarry(t, b, p, w, f);
      RomaStep(t, b, p, w, f);
      RomaLoopNext(t, b, p + 1, w', f');
    }
  }

  /** The letters of a run in capital mode: ⠠ cells give nothing. */
  function UpperText(j11: Table, s: string): string
  {
    if s == [] then ""
    else UpperCell(j11, s[0]) + UpperText(j11, s[1..])
  }

  /**
   * Without capital signs every letter comes from j12, and a letter j12 does
   * not have is dropped.
   */
  lemma {:induction false} RomaLower(t: Tables, b: string, p: nat, w: string)
    requires 1 <= p <= |b|
    requires forall k :: p <= k < RomaEnd(t.j11, b, p) ==> b[k] != CapSign
    ensures var q := RomaEnd(t.j11, b, p);
      RomaLoop(t, b, p, w, NoCaps).Ok?
      && RomaLoop(t, b, p, w, NoCaps).value.text == w + MapCells(t.j12, b[p..q])
    decreases |b| - p
  {
    var q := RomaEnd(t.j11, b, p);
    if p < q {
      var d := CellText(t.j12, b[p]);
      assert b[p..q][1..] == b[p + 1..q];
      RomaLower(t, b, p + 1, w + d);
      assert MapCells(t.j12, b[p..q]) == d + MapCells(t.j12, b[p + 1..q]);
      AppendAssoc(w, d, MapCells(t.j12, b[p + 1..q]));
    } else {
      assert MapCells(t.j12, b[p..q]) == [];
      assert w + [] == w;
    }
  }

  /** What a capital-run letter contributes: ⠠ cells give nothing. */
  function UpperCell(j11: Table, c: char): string
  {
    if c == CapSign then "" else CellText(j11, c)
  }

  /** One cell of a capital run that does not end the buffer on ⠠. */
  lemma RomaCapsStep(t: Tables, b: string, p: nat, w: string)
    requires 1 <= p <= |b| && p < RomaEnd(t.j11, b, p)
    requires !RunEndsOnCap(t.j11, b, p)
    ensures RomaLoop(t, b, p, w, CapsRun) == RomaLoop(t, b, p + 1, w + UpperCell(t.j11, b[p]), CapsRun)
    ensures !RunEndsOnCap(t.j11, b, p + 1)
    ensures RomaEnd(t.j11, b, p + 1) == RomaEnd(t.j11, b, p)
    ensures var q := RomaEnd(t.j11, b, p);
      UpperText(t.j11, b[p..q]) == UpperCell(t.j11, b[p]) + UpperText(t.j11, b[p + 1..q])
  {
    var q := RomaEnd(t.j11, b, p);
    assert b[p..q][1..] == b[p + 1..q];
    if b[p] == CapSign {
      assert w + "" == w;
    }
    RomaStep(t, b, p, w, CapsRun);
  }

  /**
   * After ⠠⠠ every later letter of the run comes from j11, until the run
   * ends; the mode never drops back.
   */
  lemma {:induction false} RomaCapsRun(t: Tables, b: string, p: nat, w: string)
    requires 1 <= p <= |b|
    requires !RunEndsOnCap(t.j11, b, p)
    ensures var q := RomaEnd(t.j11, b, p);
      RomaLoop(t, b, p, w, CapsRun).Ok?
      && RomaLoop(t, b, p, w, CapsRun).value.text == w + UpperText(t.j11, b[p..q])
    decreases |b| - p
  {
    var q := RomaEnd(t.j11, b, p);
    if p < q {
      var d := UpperCell(t.j11, b[p]);
      RomaCapsStep(t, b, p, w);
      RomaCapsRun(t, b, p + 1, w + d);
      AppendAssoc(w, d, UpperText(t.j11, b[p + 1..q]));
    } else {
      assert UpperText(t.j11, b[p..q]) == [];
      assert w + [] == w;
    }
  }

  /**
   * A single ⠠ capitalises exactly the letter after it; the rest of the run
   * is lower case again.
   */
  lemma RomaSingleCap(t: Tables, b: string, p: nat, w: string)
    requires 1 <= p && p + 1 < |b|
    requires b[p] == CapSign && b[p + 1] != CapSign && [b[p + 1]] in t.j11
    requires forall k :: p + 2 <= k < RomaEnd(t.j11, b, p + 2) ==> b[k] != CapSign
    ensures var q := RomaEnd(t.j11, b, p + 2);
      RomaLoop(t, b, p, w, NoCaps).Ok?
      && RomaLoop(t, b, p, w, NoCaps).value.text
         == w + t.j11[[b[p + 1]]] + MapCells(t.j12, b[p + 2..q])
  {
    assert RomaLoop(t, b, p, w, NoCaps) == RomaLoop(t, b, p + 2, w + t.j11[[b[p + 1]]], NoCaps);
    RomaLower(t, b, p + 2, w + t.j11[[b[p + 1]]]);
  }

  /**
   * ⠠⠠ at the start of a run puts the whole rest of it in capitals.
   */
  lemma RomaDoubleCap(t: Tables, b: string, p: nat, w: string)
    requires 1 <= p && p + 1 < |b| && b[p] == CapSign && b[p + 1] == CapSign
    requires !RunEndsOnCap(t.j11, b, p + 1)
    ensures var q := RomaEnd(t.j11, b, p + 1);
      RomaLoop(t, b, p, w, NoCaps).Ok?
      && RomaLoop(t, b, p, w, NoCaps).value.text == w + UpperText(t.j11, b[p + 1..q])
  {
    RomaCapsRun(t, b, p + 1, w);
  }
}
