/**
 * eng_conv: the foreign-quote mode katakana_conv enters at ⠦. It reads
 * English braille through e01/e02/e03 until a closing ⠴, and brackets its
 * text with "￣".
 *
 * Each loop is a tail-recursive function over its index and the text so
 * far: `LettersLoop`, `CapitalsLoop` and `CapitalPass` for the inner loops
 * of the three capital modes, `OuterPass` for one pass of the outer loop's
 * body and `EngLoop` for the outer loop.
 */
module EngQuote {
  import opened Strings
  import opened Outcomes
  import opened TenjiTables
  import opened Runs

  const QuoteMark: string := "￣"

  /**
   * `xxx`: the closing sequence. It is ⠴ followed by `sc`, the cell before
   * ⠦, when j01 reads that cell as "＿", "｜" or "　", and ⠴ alone otherwise.
   */
  function Closer(j01: Table, sc: char): string
  {
    if [sc] in j01 && (j01[[sc]] == "＿" || j01[[sc]] == "｜" || j01[[sc]] == "　")
    then [CloseSign, sc]
    else [CloseSign]
  }

  /** A closing sequence of the shape `Closer` builds: ⠴, then at most one more cell. */
  predicate IsCloser(xxx: string)
  {
    (|xxx| == 1 || |xxx| == 2) && xxx[0] == CloseSign
  }

  /** eng_conv's closing test at `x`, as written: five slices of `|xxx|` cells. */
  predicate ClosesAsWritten(b: string, x: nat, xxx: string)
  {
    var s := Slice(b, x, x + |xxx|);
    s == xxx || s == "⠴⠀" || s == "⠴\n" || s == "⠴\r" || s == "⠴⠤"
  }

  /**
   * The closing test cell by cell: a ⠴, and with a two-cell closer, a
   * second cell that is the closer's own, a blank cell, LF, CR or ⠤.
   */
  predicate Closes(b: string, x: int, xxx: string)
  {
    0 <= x < |b| && b[x] == CloseSign
    && (|xxx| <= 1 || (x + 1 < |b| && b[x + 1] in [xxx[1], '⠀', '\n', '\r', '⠤']))
  }

  /**
   * For every closer eng_conv builds, the five slice comparisons are the
   * cell-by-cell test: with a one-cell closer the literals of two cells
   * can never match, so only ⠴ itself closes.
   */
  lemma ClosesAsWrittenIff(b: string, x: nat, xxx: string)
    requires IsCloser(xxx)
    ensures ClosesAsWritten(b, x, xxx) <==> Closes(b, x, xxx)
  {
    var s := Slice(b, x, x + |xxx|);
    if x >= |b| {
      assert |s| == 0;
    } else if |xxx| == 1 {
      assert |s| == 1 && s[0] == b[x];
    } else if x + 1 < |b| {
      assert s == [b[x], b[x + 1]];
    } else {
      assert |s| == 1;
    }
  }

  /** `Closer` builds closers of that shape, whatever the cell before ⠦. */
  lemma ClosesIff(j01: Table, sc: char, b: string, x: nat)
    ensures IsCloser(Closer(j01, sc))
    ensures var xxx := Closer(j01, sc);
      ClosesAsWritten(b, x, xxx) <==>
        x < |b| && b[x] == CloseSign
        && (|xxx| == 1 || (x + 1 < |b| && b[x + 1] in [sc, '⠀', '\n', '\r', '⠤']))
  {
    ClosesAsWrittenIff(b, x, Closer(j01, sc));
  }

  /**
   * eng_conv's test for a double capital sign at `x`, as written: it
   * compares the one-cell slice at `x` with the two cells ⠠⠠.
   */
  predicate DoubleCap(b: string, x: nat)
  {
    Slice(b, x, x + 1) == "⠠⠠"
  }

  /** A one-cell slice is never two cells, so the double-capital test never succeeds. */
  lemma NoDoubleCap(b: string, x: nat)
    ensures !DoubleCap(b, x)
  {
    OneCellSliceIsNotTwoCells(b, x, "⠠⠠");
  }

  /**
   * How a pass of the outer loop's body ends: the quote closed with `conv`,
   * or the outer loop goes on from `at + 1` in capital mode `f`.
   */
  datatype Pass = Closed(conv: Conv) | Continue(at: int, f: Oomoji, w: string)

  /**
   * What every pass starting at `x` with text `w` keeps: the text only
   * grows, the index does not go back, and a closed quote ends on a closing
   * ⠴ with "￣" appended as its last output.
   */
  predicate Extends(b: string, xxx: string, x: int, w: string, r: Pass)
  {
    && (r.Closed? ==>
          r.conv.next >= x && StartsWith(r.conv.text, w) && |r.conv.text| > |w|
          && Closes(b, r.conv.next, xxx) && EndsWith(r.conv.text, QuoteMark))
    && (r.Continue? ==> r.at >= x && StartsWith(r.w, w))
  }

  /** The index a pass ends at is not before the index `x` it started from. */
  predicate Ahead(r: Pass, x: int)
  {
    if r.Closed? then r.conv.next >= x else r.at >= x
  }

  lemma StartsWithTrans(a: string, b: string, c: string)
    requires StartsWith(a, b) && StartsWith(b, c)
    ensures StartsWith(a, c)
  {
    assert a[..|c|] == a[..|b|][..|c|];
  }

  /** A pass that keeps what a later start keeps also keeps what an earlier start keeps. */
  lemma ExtendsEarlier(b: string, xxx: string, x: int, x2: int, w: string, u: string, r: Pass)
    requires x <= x2 && Extends(b, xxx, x2, w + u, r)
    ensures Extends(b, xxx, x, w, r)
  {
    assert (w + u)[..|w|] == w;
    StartsWithTrans(if r.Closed? then r.conv.text else r.w, w + u, w);
  }

  /**
   * What the inner loops read at a cell that is not a sign: a number
   * through numeric2_conv, else e03, else the mode's letter table
   * (e02 in lower case, e01 in capitals). `next` is the index of the last
   * cell read.
   */
  function ReadCell(t: Tables, letters: Table, b: string, x: nat): (c: Conv)
    requires x < |b|
    ensures x <= c.next <= |b|
  {
    if b[x] == NumSign then Numeric2Conv(t.i03, b, x)
    else if [b[x]] in t.e03 then Conv(t.e03[[b[x]]], x)
    else Conv(CellText(letters, b[x]), x)
  }

  /** How a pass of an inner loop's body ends: it leaves the loop with `pass`, or reads cell text `c`. */
  datatype Step = Break(pass: Pass) | Read(c: Conv)

  /**
   * One pass of the body the three inner loops share, at `x` with text `w`:
   * a closing ⠴ closes the quote, ⠠⠠ and ⠠ leave for the capital modes, and
   * any other cell is read through `letters`.
   */
  function InnerStep(t: Tables, letters: Table, b: string, xxx: string, x: nat, w: string): (s: Step)
    requires x < |b|
    ensures s.Break? ==> Ahead(s.pass, x) && (s.pass.Continue? ==> s.pass.w == w)
    ensures s.Break? <==> Closes(b, x, xxx) || b[x] == CapSign
  {
    NoDoubleCap(b, x);
    if Closes(b, x, xxx) then Break(Closed(Conv(w + QuoteMark, x)))
    else if DoubleCap(b, x) then Break(Continue(x + 1, CapsRun, w))
    else if b[x] == CapSign then Break(Continue(x, CapNext, w))
    else Read(ReadCell(t, letters, b, x))
  }

  /** The inner loop of lower-case mode (f_oomoji 0) from `x`. */
  function LettersLoop(t: Tables, b: string, xxx: string, x: nat, w: string): (r: Pass)
    ensures Ahead(r, x)
    decreases |b| - x
  {
    if x >= |b| then Continue(x, NoCaps, w)
    else
      match InnerStep(t, t.e02, b, xxx, x, w)
      case Break(r) => r
      case Read(c) => LettersLoop(t, b, xxx, c.next + 1, w + c.text)
  }

  /**
   * The inner loop of capital-run mode (f_oomoji 1) from `x`. After each
   * letter the mode is cleared, but the loop goes on reading through e01.
   */
  function CapitalsLoop(t: Tables, b: string, xxx: string, x: nat, w: string, f: Oomoji): (r: Pass)
    ensures Ahead(r, x)
    decreases |b| - x
  {
    if x >= |b| then Continue(x, f, w)
    else
      match InnerStep(t, t.e01, b, xxx, x, w)
      case Break(r) => r
      case Read(c) => CapitalsLoop(t, b, xxx, c.next + 1, w + c.text, NoCaps)
  }

  /** The inner loop of single-capital mode (f_oomoji 2), which breaks after one pass. */
  function CapitalPass(t: Tables, b: string, xxx: string, x: nat, w: string): (r: Pass)
    requires x < |b|
    ensures Ahead(r, x)
  {
    match InnerStep(t, t.e01, b, xxx, x, w)
    case Break(r) => r
    case Read(c) => Continue(c.next, NoCaps, w + c.text)
  }

  /** One pass through the body of the outer loop at `p`, in capital mode `f`. */
  function OuterPass(t: Tables, b: string, xxx: string, p: nat, f: Oomoji, w: string): (r: Pass)
    requires p < |b|
    ensures Ahead(r, p)
  {
    if b[p] == CloseSign then
      if Closes(b, p, xxx) then Closed(Conv(w + QuoteMark, p)) else Continue(p, f, w)
    else if f == NoCaps then LettersLoop(t, b, xxx, p, w)
    else if f == CapsRun then CapitalsLoop(t, b, xxx, p, w, CapsRun)
    else if f == CapNext then CapitalPass(t, b, xxx, p, w)
    else Continue(p, NoCaps, w)
  }

  /**
   * The outer loop from `p` in capital mode `f`: it returns at a closing ⠴
   * with "￣" appended, or past the end of the buffer.
   */
  function EngLoop(t: Tables, b: string, xxx: string, p: nat, f: Oomoji, w: string): (r: Conv)
    ensures r.next >= p
    decreases |b| - p
  {
    if p >= |b| then Conv(w, p)
    else
      match OuterPass(t, b, xxx, p, f, w)
      case Closed(r) => r
      case Continue(q, g, w') => EngLoop(t, b, xxx, q + 1, g, w')
  }

  /**
   * Where eng_conv's loop starts and in which mode, after looking at the
   * cell after ⠦. A ⠦ in the last cell raises IndexError.
   */
  function EngStart(b: string, pos: nat): (r: Outcome<(int, Oomoji)>)
    ensures r.Ok? ==> r.value.0 > pos
    ensures !r.Hangs? && (r.Raised? <==> pos + 1 >= |b|)
  {
    var p := pos + 1;
    NoDoubleCap(b, p);
    if DoubleCap(b, p) then Ok((p + 2, CapsRun))
    else if p >= |b| then Raised(IndexError)
    else if b[p] == CapSign then Ok((p + 1, CapNext))
    else Ok((p, NoCaps))
  }

  /**
   * eng_conv(pos, sc) with ⠦ at `pos` and `sc` the cell katakana_conv reads
   * at `pos - 1`. Its text starts with "￣"; it returns either the index of
   * a closing ⠴, after appending a second "￣", or an index past the buffer.
   */
  function EngConv(t: Tables, b: string, pos: nat, sc: char): (r: Outcome<Conv>)
    requires pos < |b|
    ensures r.Raised? <==> pos + 1 == |b|
    ensures !r.Hangs?
    ensures r.Ok? ==> r.value.next > pos
  {
    match EngStart(b, pos)
    case Ok((p, f)) => Ok(EngLoop(t, b, Closer(t.j01, sc), p, f, QuoteMark))
    case Raised(e) => Raised(e)
    case Hangs => Hangs
  }

  /** A pass that closes the quote right away keeps `w` and ends in "￣". */
  lemma CloseExtends(b: string, xxx: string, x: nat, w: string)
    requires Closes(b, x, xxx)
    ensures Extends(b, xxx, x, w, Closed(Conv(w + QuoteMark, x)))
  {
    assert (w + QuoteMark)[..|w|] == w;
    assert (w + QuoteMark)[|w + QuoteMark| - |QuoteMark|..] == QuoteMark;
  }

  /** A pass of the shared body that leaves its loop keeps `w`; one that closes ends in "￣". */
  lemma BreakExtends(t: Tables, letters: Table, b: string, xxx: string, x: nat, w: string)
    requires x < |b|
    ensures var s := InnerStep(t, letters, b, xxx, x, w);
      s.Break? ==> Extends(b, xxx, x, w, s.pass)
  {
    if Closes(b, x, xxx) {
      CloseExtends(b, xxx, x, w);
    } else {
      assert w[..|w|] == w;
    }
  }

  /** The lower-case loop only appends to its text, and closes on a closing ⠴. */
  lemma {:induction false} LettersExtends(t: Tables, b: string, xxx: string, x: nat, w: string)
    ensures Extends(b, xxx, x, w, LettersLoop(t, b, xxx, x, w))
    decreases |b| - x
  {
    if x < |b| {
      BreakExtends(t, t.e02, b, xxx, x, w);
      match InnerStep(t, t.e02, b, xxx, x, w)
      case Break(_) =>
      case Read(c) =>
        LettersExtends(t, b, xxx, c.next + 1, w + c.text);
        ExtendsEarlier(b, xxx, x, c.next + 1, w, c.text, LettersLoop(t, b, xxx, c.next + 1, w + c.text));
    } else {
      assert w[..|w|] == w;
    }
  }

  /** The capital-run loop only appends to its text, and closes on a closing ⠴. */
  lemma {:induction false} CapitalsExtends(t: Tables, b: string, xxx: string, x: nat, w: string, f: Oomoji)
    ensures Extends(b, xxx, x, w, CapitalsLoop(t, b, xxx, x, w, f))
    decreases |b| - x
  {
    if x < |b| {
      BreakExtends(t, t.e01, b, xxx, x, w);
      match InnerStep(t, t.e01, b, xxx, x, w)
      case Break(_) =>
      case Read(c) =>
        CapitalsExtends(t, b, xxx, c.next + 1, w + c.text, NoCaps);
        ExtendsEarlier(b, xxx, x, c.next + 1, w, c.text, CapitalsLoop(t, b, xxx, c.next + 1, w + c.text, NoCaps));
    } else {
      assert w[..|w|] == w;
    }
  }

  /** A pass of the outer loop only appends to its text, and closes on a closing ⠴. */
  lemma OuterExtends(t: Tables, b: string, xxx: string, p: nat, f: Oomoji, w: string)
    requires p < |b|
    ensures Extends(b, xxx, p, w, OuterPass(t, b, xxx, p, f, w))
  {
    if b[p] == CloseSign {
      if Closes(b, p, xxx) {
        CloseExtends(b, xxx, p, w);
      }
    } else if f == NoCaps {
      LettersExtends(t, b, xxx, p, w);
    } else if f == CapsRun {
      CapitalsExtends(t, b, xxx, p, w, CapsRun);
    } else if f == CapNext {
      BreakExtends(t, t.e01, b, xxx, p, w);
      var c := ReadCell(t, t.e01, b, p);
      assert (w + c.text)[..|w|] == w;
    } else {
      assert w[..|w|] == w;
    }
  }

  /**
   * The outer loop only appends to its text; it returns past the buffer,
   * or at a closing ⠴ with "￣" as its last output.
   */
  lemma {:induction false} EngLoopEnds(t: Tables, b: string, xxx: string, p: nat, f: Oomoji, w: string)
    ensures var r := EngLoop(t, b, xxx, p, f, w);
      StartsWith(r.text, w)
      && (r.next >= |b| || (Closes(b, r.next, xxx) && EndsWith(r.text, QuoteMark) && |r.text| > |w|))
    decreases |b| - p
  {
    if p < |b| {
      OuterExtends(t, b, xxx, p, f, w);
      match OuterPass(t, b, xxx, p, f, w)
      case Closed(_) =>
      case Continue(q, g, w') =>
        EngLoopEnds(t, b, xxx, q + 1, g, w');
        StartsWithTrans(EngLoop(t, b, xxx, q + 1, g, w').text, w', w);
    }
  }

  /**
   * eng_conv's text starts with "￣"; it returns either past the buffer or
   * at a ⠴ that closes the quote, after appending a second "￣".
   */
  lemma EngConvEnds(t: Tables, b: string, pos: nat, sc: char)
    requires pos < |b|
    ensures var r := EngConv(t, b, pos, sc);
      r.Ok? ==>
        && StartsWith(r.value.text, QuoteMark)
        && (r.value.next >= |b|
            || (Closes(b, r.value.next, Closer(t.j01, sc)) && EndsWith(r.value.text, QuoteMark)
                && |r.value.text| >= 2 * |QuoteMark|))
  {
    match EngStart(b, pos)
    case Ok((p, f)) => EngLoopEnds(t, b, Closer(t.j01, sc), p, f, QuoteMark);
    case Raised(_) =>
    case Hangs =>
  }

  /** The lower-case loop never hands capital-run mode back: its only way there tests a one-cell slice against "⠠⠠". */
  lemma {:induction false} LettersNeverCapsRun(t: Tables, b: string, xxx: string, x: nat, w: string)
    ensures LettersLoop(t, b, xxx, x, w).Continue? ==> LettersLoop(t, b, xxx, x, w).f != CapsRun
    decreases |b| - x
  {
    if x < |b| {
      NoDoubleCap(b, x);
      match InnerStep(t, t.e02, b, xxx, x, w)
      case Break(_) =>
      case Read(c) => LettersNeverCapsRun(t, b, xxx, c.next + 1, w + c.text);
    }
  }

  /**
   * eng_conv never enters capital-run mode: neither its start nor a pass of
   * its outer loop from any other mode leaves it there, because the only
   * transitions into it test a one-cell slice against "⠠⠠".
   */
  lemma EngNeverCapsRun(t: Tables, b: string, xxx: string, pos: nat, p: nat, f: Oomoji, w: string)
    requires p < |b| && f != CapsRun
    ensures EngStart(b, pos).Ok? ==> EngStart(b, pos).value.1 != CapsRun
    ensures OuterPass(t, b, xxx, p, f, w).Continue? ==> OuterPass(t, b, xxx, p, f, w).f != CapsRun
  {
    NoDoubleCap(b, pos + 1);
    NoDoubleCap(b, p);
    LettersNeverCapsRun(t, b, xxx, p, w);
  }
}
