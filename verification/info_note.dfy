/**
 * info_conv: the information-processing quote katakana_conv enters at ⠠⠦.
 * It reads Latin text through i01 (capitals) and i02 (plain), and numbers
 * through numeric2_conv, until ⠠⠴ or a plain-mode ⠴ closes it.
 *
 * The outer loop walks the buffer keeping the capital mode `f_oomoji`; on
 * a letter cell it runs the inner loop of the current mode, which either
 * returns from info_conv or hands the outer loop the index it resumes at.
 * Each loop is a tail-recursive function here. One inner loop can stop
 * moving: the capitals loop does not step past the index numeric2_conv
 * hands back, and when that is its own ⠼ the loop never ends. The model
 * reports such a loop as `Hangs`.
 */
module InfoNote {
  import opened Strings
  import opened Outcomes
  import opened TenjiTables
  import opened Runs

  const KanaSign: char := '⠨'

  /**
   * How an inner loop ends: info_conv returns `r`, or its outer loop
   * resumes at `at` (the index after the outer `pos + 1`) in mode `f`.
   */
  datatype Exit = Done(r: Outcome<Conv>) | Resume(at: int, f: Oomoji, w: string)

  /**
   * The inner loops test `buff[x:x+1] == "⠠⠴"`: a slice of one cell against
   * two cells, which never holds.
   */
  predicate ClosingPair(b: string, x: nat)
  {
    Slice(b, x, x + 1) == "⠠⠴"
  }

  lemma NoClosingPair(b: string, x: nat)
    ensures !ClosingPair(b, x)
  {
    OneCellSliceIsNotTwoCells(b, x, "⠠⠴");
  }

  /** What one pass through an inner loop's body does: leave the loop, or go on at `x`. */
  datatype Step = Leave(e: Exit) | Next(x: nat, w: string)

  /**
   * The body of the loop of mode 0 (plain letters, i02) at `x`. Its ⠠⠴
   * branch and its last lookup branch would spin without moving; neither
   * can be taken.
   */
  function PlainStep(t: Tables, b: string, x: nat, w: string): (s: Step)
    requires x < |b|
    ensures s.Next? ==> s.x > x
    ensures s.Leave? && s.e.Resume? ==> s.e.at > x && s.e.f == NoCaps
    ensures s.Leave? && s.e.Done? ==> !s.e.r.Hangs? && (s.e.r.Ok? ==> s.e.r.value.next > x)
  {
    NoClosingPair(b, x);
    if ClosingPair(b, x) then Leave(Done(Hangs))
    else if b[x] == CloseSign then
      if [CloseSign] in t.i02 then Leave(Done(Ok(Conv(w + t.i02[[CloseSign]], x + 1))))
      else Leave(Done(Raised(KeyError)))
    else if b[x] == NumSign then
      var c := Numeric2Conv(t.i03, b, x);
      Next(c.next + 1, w + c.text)
    else if Slice(b, x, x + 2) in t.i02 then Next(x + 2, w + t.i02[Slice(b, x, x + 2)])
    else if Slice(b, x, x + 1) in t.i02 then Next(x + 1, w + t.i02[Slice(b, x, x + 1)])
    else if (assert Slice(b, x, x + 1) == [b[x]]; [b[x]] in t.i02) then Leave(Done(Hangs))
    else Leave(Resume(x + 1, NoCaps, w))
  }

  /** The loop of mode 0 from `x` with text `w` so far. */
  function PlainLoop(t: Tables, b: string, x: nat, w: string): (e: Exit)
    ensures e.Resume? ==> e.at > x && e.f == NoCaps
    ensures e.Done? ==> !e.r.Hangs? && (e.r.Ok? ==> e.r.value.next > x)
    decreases |b| - x
  {
    if x >= |b| then Resume(x + 1, NoCaps, w)
    else
      match PlainStep(t, b, x, w)
      case Leave(e) => e
      case Next(x', w') => PlainLoop(t, b, x', w')
  }

  /**
   * The body of the loop of mode 1 (a run of capitals, i01) at `x`. A ⠼
   * that numeric2_conv hands straight back leaves `x` where it was, and
   * the loop repeats it for ever.
   */
  function CapsStep(t: Tables, b: string, x: nat, w: string): (s: Step)
    requires x < |b|
    ensures s.Next? ==> s.x > x
    ensures s.Leave? && s.e.Resume? ==> s.e.at > x && s.e.f == CapsRun
    ensures s.Leave? && s.e.Done? ==> s.e.r.Hangs?
  {
    NoClosingPair(b, x);
    if ClosingPair(b, x) then Leave(Resume(x, CapsRun, w))
    else if b[x] == NumSign then
      var c := Numeric2Conv(t.i03, b, x);
      if c.next == x then Leave(Done(Hangs))
      else Next(c.next, w + c.text)
    else if Slice(b, x, x + 1) in t.i01 then Next(x + 1, w + t.i01[Slice(b, x, x + 1)])
    else if (assert Slice(b, x, x + 1) == [b[x]]; [b[x]] in t.i01) then Leave(Done(Hangs))
    else Leave(Resume(x + 1, CapsRun, w))
  }

  /** The loop of mode 1 from `x` with text `w` so far. */
  function CapsLoop(t: Tables, b: string, x: nat, w: string): (e: Exit)
    ensures e.Resume? ==> e.at > x && e.f == CapsRun
    ensures e.Done? ==> e.r.Hangs?
    decreases |b| - x
  {
    if x >= |b| then Resume(x + 1, CapsRun, w)
    else
      match CapsStep(t, b, x, w)
      case Leave(e) => e
      case Next(x', w') => CapsLoop(t, b, x', w')
  }

  /** Mode 2 (one capital, i01): the loop body runs once and the mode drops to 0. */
  function SingleLetter(t: Tables, b: string, x: nat, w: string): (e: Exit)
    ensures e.Resume? && e.at > x && e.f == NoCaps
  {
    NoClosingPair(b, x);
    if x >= |b| then Resume(x + 1, NoCaps, w)
    else if ClosingPair(b, x) then Resume(x, NoCaps, w)
    else if b[x] == NumSign then
      var c := Numeric2Conv(t.i03, b, x);
      Resume(c.next + 1, NoCaps, w + c.text)
    else if Slice(b, x, x + 1) in t.i01 then Resume(x + 2, NoCaps, w + t.i01[Slice(b, x, x + 1)])
    else if [b[x]] in t.i01 then Resume(x + 1, NoCaps, w + t.i01[[b[x]]])
    else Resume(x + 1, NoCaps, w)
  }

  /** One pass through the outer loop's body at `p < |b|` in mode `f`. */
  function OuterPass(t: Tables, b: string, p: nat, f: Oomoji, w: string): (e: Exit)
    requires p < |b|
    ensures e.Resume? ==> e.at > p
    ensures e.Done? && e.r.Ok? ==> e.r.value.next > p
  {
    if b[p] == CapSign then
      if p + 1 >= |b| then Done(Raised(IndexError))
      else if b[p + 1] == CloseSign then Done(Ok(Conv(w + ")", p + 1)))
      else if b[p + 1] == CapSign then Resume(p + 1, CapsRun, w)
      else if f != CapsRun then Resume(p + 1, CapNext, w)
      else if b[p + 1] == KanaSign then Resume(p + 1, KanaMark, w)
      else Resume(p + 1, f, w)
    else if b[p] == NumSign then
      var c := Numeric2Conv(t.i03, b, p);
      Resume(c.next + 1, f, w + c.text)
    else if f == NoCaps then PlainLoop(t, b, p, w)
    else if f == CapsRun then CapsLoop(t, b, p, w)
    else if f == CapNext then SingleLetter(t, b, p, w)
    else Resume(p + 1, NoCaps, w)
  }

  /** info_conv's outer loop from `p` in mode `f` with text `w` so far. */
  function OuterLoop(t: Tables, b: string, p: nat, f: Oomoji, w: string): (r: Outcome<Conv>)
    ensures r.Ok? ==> r.value.next >= p
    decreases |b| - p
  {
    if p >= |b| then Ok(Conv(w, p))
    else
      match OuterPass(t, b, p, f, w)
      case Done(r) => r
      case Resume(q, f', w') => OuterLoop(t, b, q, f', w')
  }

  /** info_conv(pos), with ⠠ at `pos` and ⠦ after it. */
  function InfoConv(t: Tables, b: string, pos: nat): (r: Outcome<Conv>)
    ensures r.Ok? ==> r.value.next > pos
  {
    OuterLoop(t, b, pos + 1, NoCaps, "")
  }

  // ------------------------------------------------------------------ divergence

  /** A ⠼ that numeric2_conv hands straight back: the next cell is neither ⠼, an i03 digit nor CR. */
  predicate StallAt(t: Tables, b: string, k: int)
  {
    0 <= k && k + 1 < |b| && b[k] == NumSign && !IsDigit2(t.i03, b[k + 1]) && b[k + 1] != '\r'
  }

  /** The capitals loop gives up at a ⠼ exactly where numeric2_conv stalls. */
  lemma CapsStall(t: Tables, b: string, x: nat, w: string)
    requires x < |b| && b[x] == NumSign
    ensures StallAt(t, b, x) <==> Numeric2Conv(t.i03, b, x).next == x
    ensures CapsStep(t, b, x, w).Leave? <==> StallAt(t, b, x)
  {
    Numeric2ConvSpec(t.i03, b, x);
    NoClosingPair(b, x);
  }

  /** The capitals loop gives up only at a stalling ⠼. */
  lemma CapsStepHangs(t: Tables, b: string, x: nat, w: string)
    requires x < |b|
    ensures var s := CapsStep(t, b, x, w);
      s.Leave? && s.e.Done? ==> StallAt(t, b, x)
  {
    NoClosingPair(b, x);
    if b[x] == NumSign {
      CapsStall(t, b, x, w);
    } else {
      assert Slice(b, x, x + 1) == [b[x]];
    }
  }

  lemma {:induction false} CapsLoopHangs(t: Tables, b: string, x: nat, w: string)
    ensures CapsLoop(t, b, x, w).Done? ==> exists k :: x <= k < |b| && StallAt(t, b, k)
    decreases |b| - x
  {
    if x < |b| {
      CapsStepHangs(t, b, x, w);
      match CapsStep(t, b, x, w)
      case Leave(_) =>
      case Next(x', w') => CapsLoopHangs(t, b, x', w');
    }
  }

  /**
   * info_conv never returns only where its capitals loop meets a ⠼ that
   * numeric2_conv hands back; without such a ⠼ it returns or raises.
   */
  lemma {:induction false} OuterLoopHangs(t: Tables, b: string, p: nat, f: Oomoji, w: string)
    ensures OuterLoop(t, b, p, f, w).Hangs? ==> exists k :: p <= k < |b| && StallAt(t, b, k)
    decreases |b| - p
  {
    if p < |b| {
      if b[p] != CapSign && b[p] != NumSign && f == CapsRun {
        CapsLoopHangs(t, b, p, w);
      }
      match OuterPass(t, b, p, f, w)
      case Done(_) =>
      case Resume(q, f', w') => OuterLoopHangs(t, b, q, f', w');
    }
  }

  /**
   * A capital run whose letter is followed by ⠼ and a blank cell: the
   * capitals loop stalls on the ⠼ and info_conv never returns.
   */
  lemma InfoHangExample(t: Tables)
    requires ['⠁'] in t.i01 && ['⠀'] !in t.i03
    requires "⠦⠠" !in t.i02 && "⠦" !in t.i02
    ensures InfoConv(t, "⠠⠦⠠⠠⠁⠼⠀", 0) == Hangs
  {
    var b := "⠠⠦⠠⠠⠁⠼⠀";
    var a := t.i01["⠁"];
    assert Slice(b, 1, 2) == "⠦" && Slice(b, 1, 3) == "⠦⠠" && Slice(b, 4, 5) == "⠁";
    assert PlainLoop(t, b, 1, "") == Resume(2, NoCaps, "");
    assert OuterLoop(t, b, 2, NoCaps, "") == OuterLoop(t, b, 4, CapsRun, "");
    CapsStall(t, b, 5, a);
    assert CapsLoop(t, b, 4, "") == CapsLoop(t, b, 5, a);
  }

  // ---------------------------------------------------------------- how it ends

  /**
   * How a return of info_conv looks: it is at ⠠⠴ after appending ")", or
   * after a plain-mode ⠴ whose i02 text it appended, or past the buffer.
   */
  predicate Closed(t: Tables, b: string, r: Conv)
  {
    var n := r.next;
    n >= |b|
    || (1 <= n < |b| && b[n - 1] == CapSign && b[n] == CloseSign && EndsWith(r.text, ")"))
    || (1 <= n <= |b| && b[n - 1] == CloseSign && [CloseSign] in t.i02
        && EndsWith(r.text, t.i02[[CloseSign]]))
  }

  lemma PlainStepCloses(t: Tables, b: string, x: nat, w: string)
    requires x < |b|
    ensures var s := PlainStep(t, b, x, w);
      s.Leave? && s.e.Done? && s.e.r.Ok? ==> Closed(t, b, s.e.r.value)
  {
    NoClosingPair(b, x);
    if b[x] == CloseSign && [CloseSign] in t.i02 {
      EndsWithAppend(w, t.i02[[CloseSign]]);
    }
  }

  lemma {:induction false} PlainLoopCloses(t: Tables, b: string, x: nat, w: string)
    ensures var e := PlainLoop(t, b, x, w);
      e.Done? && e.r.Ok? ==> Closed(t, b, e.r.value)
    decreases |b| - x
  {
    if x < |b| {
      PlainStepCloses(t, b, x, w);
      match PlainStep(t, b, x, w)
      case Leave(_) =>
      case Next(x', w') => PlainLoopCloses(t, b, x', w');
    }
  }

  lemma OuterPassCloses(t: Tables, b: string, p: nat, f: Oomoji, w: string)
    requires p < |b|
    ensures var e := OuterPass(t, b, p, f, w);
      e.Done? && e.r.Ok? ==> Closed(t, b, e.r.value)
  {
    PlainLoopCloses(t, b, p, w);
    if b[p] == CapSign && p + 1 < |b| && b[p + 1] == CloseSign {
      EndsWithAppend(w, ")");
    }
  }

  /** Every return of info_conv has the shape `Closed` describes. */
  lemma {:induction false} OuterLoopEnds(t: Tables, b: string, p: nat, f: Oomoji, w: string)
    ensures var r := OuterLoop(t, b, p, f, w);
      r.Ok? ==> Closed(t, b, r.value)
    decreases |b| - p
  {
    if p < |b| {
      OuterPassCloses(t, b, p, f, w);
      match OuterPass(t, b, p, f, w)
      case Done(_) =>
      case Resume(q, f', w') => OuterLoopEnds(t, b, q, f', w');
    }
  }

  /**
   * info_conv raises IndexError only when the buffer ends in ⠠, and
   * KeyError only when i02 has no ⠴.
   */
  lemma {:induction false} PlainLoopFaults(t: Tables, b: string, x: nat, w: string)
    ensures var e := PlainLoop(t, b, x, w);
      e.Done? && e.r.Raised? ==> e.r.fault == KeyError && [CloseSign] !in t.i02
    decreases |b| - x
  {
    if x < |b| {
      NoClosingPair(b, x);
      match PlainStep(t, b, x, w)
      case Leave(_) =>
      case Next(x', w') => PlainLoopFaults(t, b, x', w');
    }
  }

  lemma OuterPassFaults(t: Tables, b: string, p: nat, f: Oomoji, w: string)
    requires p < |b|
    ensures var e := OuterPass(t, b, p, f, w);
      e.Done? && e.r.Raised? ==>
        (e.r.fault == IndexError && b[|b| - 1] == CapSign)
        || (e.r.fault == KeyError && [CloseSign] !in t.i02)
  {
    PlainLoopFaults(t, b, p, w);
  }

  lemma {:induction false} OuterLoopFaults(t: Tables, b: string, p: nat, f: Oomoji, w: string)
    ensures var r := OuterLoop(t, b, p, f, w);
      r.Raised? ==>
        (r.fault == IndexError && |b| > 0 && b[|b| - 1] == CapSign)
        || (r.fault == KeyError && [CloseSign] !in t.i02)
    decreases |b| - p
  {
    if p < |b| {
      OuterPassFaults(t, b, p, f, w);
      match OuterPass(t, b, p, f, w)
      case Done(_) =>
      case Resume(q, f', w') => OuterLoopFaults(t, b, q, f', w');
    }
  }
}
