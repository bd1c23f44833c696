/**
 * TenjiTexter's DocumentsViewer: a braille buffer `buff` that view() fills
 * from a .BES/.BET/.BSE file, and the loops that decode files and transcribe
 * the buffer to kana. Every method is proved to compute the specification
 * function of the same name in BesFormat, Runs, EngQuote, InfoNote, Kana or
 * CharCodes; the properties of the decoders and converters are lemmas there.
 *
 * The file contents are a byte-sequence parameter: opening and reading the
 * file is not part of this model.
 */
module TenjiTexter {
  import opened Strings
  import opened Outcomes
  import opened TenjiTables
  import opened Runs
  import opened BesFormat
  import CharCodes
  import EngQuote
  import InfoNote
  import Kana

  /**
   * `for i in range(n): if i > limit: break`, which leaves `i` at the start
   * of the decoded part of the file.
   */
  method SkipHeader(n: nat, limit: nat) returns (i: nat)
    ensures i == HeaderStart(n, limit)
  {
    i := 0;
    var k := 0;
    while k < n
      invariant k <= n && k <= limit + 1
      invariant i == if k == 0 then 0 else k - 1
    {
      i := k;
      if i > limit {
        break;
      }
      k := k + 1;
    }
  }

  /**
   * `for i in range(2, len(tenji)): if tenji[i] == 0xfd: tenji[i-2] =
   * tenji[i-1] = 0x0c`, in place.
   */
  method BlankBeforeFdInPlace(tenji: array<bv8>)
    modifies tenji
    ensures tenji[..] == BlankBeforeFd(old(tenji[..]))
  {
    ghost var s := tenji[..];
    var i := 2;
    while i < tenji.Length
      invariant 2 <= i && (i <= tenji.Length || i == 2)
      invariant forall k :: 0 <= k < tenji.Length ==> tenji[k] == BlankedAt(s, i, k)
    {
      if tenji[i] == 0xFD {
        tenji[i - 2] := 0x0C;
        tenji[i - 1] := 0x0C;
      }
      i := i + 1;
    }
    assert forall k :: 0 <= k < tenji.Length ==> tenji[k] == BlankBeforeFd(s)[k];
  }

  /** The dot-pattern decoding loop of op1 and convert_bes_to_unicode. */
  method DecodeDots(tenji: array<bv8>) returns (ret: string)
    ensures ret == DecodeBytes(tenji[..])
  {
    ret := "";
    var i := 0;
    while i < tenji.Length
      invariant 0 <= i <= tenji.Length
      invariant ret == DecodeBytes(tenji[..i])
    {
      var b := tenji[i];
      var ch := b as int + 0x2800 - 0xA0;
      if b == 0x0D {
        ret := ret + "\r";
      } else if b == 0x0A {
        ret := ret + "\n";
      } else if b == 0xFD {
        ret := ret + "\r\n";
      } else if b == 0xFE {
        ret := ret + "\r\n";
      } else if b == 0x0C {
      } else if b == 0xFF {
      } else if 0x2800 <= ch <= 0x283F {
        ret := ret + [ch as char];
      }
      assert tenji[..i + 1][..i] == tenji[..i];
      i := i + 1;
    }
    assert tenji[..i] == tenji[..];
  }

  /** What view() stores in the buffer for a file name and its contents. */
  function ViewText(nabcc: map<char, string>, fileName: string, content: seq<bv8>): Outcome<string>
  {
    var ext := AsciiUpper(Splitext(fileName).1);
    if ext == ".BES" || ext == ".BET" then Ok(DotPattern(content))
    else if ext == ".BSE" then FlatTable(nabcc, content)
    else Ok("")
  }

  /**
   * view() never diverges; only a .BSE file can fail, with KeyError on a
   * byte the NABCC table lacks; any other extension empties the buffer.
   */
  lemma ViewOutcomes(nabcc: map<char, string>, fileName: string, content: seq<bv8>)
    ensures !ViewText(nabcc, fileName, content).Hangs?
    ensures ViewText(nabcc, fileName, content).Raised? ==>
      AsciiUpper(Splitext(fileName).1) == ".BSE"
      && ViewText(nabcc, fileName, content).fault == KeyError
    ensures AsciiUpper(Splitext(fileName).1) !in [".BES", ".BET", ".BSE"] ==>
      ViewText(nabcc, fileName, content) == Ok("")
  {
    var body := content[HeaderStart(|content|, FlatHeaderLimit)..];
    DecodeFlatFails(nabcc, body);
  }

  class DocumentsViewer {
    /** m_Separator */
    const separators: string := Kana.Separators
    /** The braille text being read. */
    var buff: string

    constructor ()
      ensures buff == ""
    {
      buff := "";
    }

    /**
     * view(): decode a file by its extension into `buff`. A .BSE byte the
     * NABCC table lacks raises KeyError and leaves `buff` as it was.
     */
    method View(nabcc: map<char, string>, fileName: string, content: seq<bv8>)
      returns (fault: Option<Fault>)
      modifies this
      ensures ViewText(nabcc, fileName, content).Ok? ==>
        fault == None && buff == ViewText(nabcc, fileName, content).value
      ensures ViewText(nabcc, fileName, content).Raised? ==>
        fault == Some(ViewText(nabcc, fileName, content).fault) && buff == old(buff)
    {
      var ret := "";
      var ext := AsciiUpper(Splitext(fileName).1);
      if ext == ".BES" {
        ret := Op1(content);
      } else if ext == ".BET" {
        ret := Op1(content);
      } else if ext == ".BSE" {
        var r := Op2(nabcc, content);
        DecodeFlatFails(nabcc, content[HeaderStart(|content|, FlatHeaderLimit)..]);
        if r.Raised? {
          return Some(r.fault);
        }
        ret := r.value;
      }
      buff := ret;
      fault := None;
    }

    /** op1: a dot-pattern (.BES/.BET) file. */
    method Op1(content: seq<bv8>) returns (ret: string)
      ensures ret == DotPattern(content)
    {
      var i := SkipHeader(|content|, DotHeaderLimit);
      var body := ReplaceCrFe(content[i..]);
      var tenji := new bv8[|body|](k requires 0 <= k < |body| => body[k]);
      assert tenji[..] == body;
      BlankBeforeFdInPlace(tenji);
      ret := DecodeDots(tenji);
    }

    /** op2: a flat-table (.BSE) file through the NABCC table. */
    method Op2(nabcc: map<char, string>, content: seq<bv8>) returns (r: Outcome<string>)
      ensures r == FlatTable(nabcc, content)
    {
      var i := SkipHeader(|content|, FlatHeaderLimit);
      var tenji := content[i..];
      var ret := "";
      var k := 0;
      while k < |tenji|
        invariant 0 <= k <= |tenji|
        invariant DecodeFlat(nabcc, tenji[..k]) == Ok(ret)
      {
        var b := tenji[k];
        assert tenji[..k + 1][..k] == tenji[..k] && tenji[..k + 1][k] == b;
        var d := "";
        if b == 0xFD {
          d := "\r\n";
        } else if b == 0xFE {
          d := "\r\n";
        } else if b == 0x0D {
        } else if b == 0x0A {
          d := "\r\n";
        } else if b == 0xFF {
        } else {
          var key := (b as int) as char;
          if key !in nabcc {
            DecodeFlatFails(nabcc, tenji);
            assert Unmapped(nabcc, tenji[k]);
            return Raised(KeyError);
          }
          d := nabcc[key];
        }
        assert FlatByte(nabcc, b) == Ok(d);
        ret := ret + d;
        k := k + 1;
      }
      assert tenji[..k] == tenji;
      r := Ok(ret);
    }

    /** numeric_conv(pos), called at a ⠼. */
    method NumericConv(t: Tables, pos: nat) returns (r: Conv)
      requires pos < |buff|
      ensures r == Runs.NumericConv(t.j10, buff, pos)
    {
      var wbuff := "";
      var p := pos + 1;
      while p < |buff|
        invariant pos + 1 <= p <= |buff|
        invariant NumericLoop(t.j10, buff, p, wbuff) == NumericLoop(t.j10, buff, pos + 1, "")
        decreases |buff| - p
      {
        var ch := buff[p];
        if ch == NumSign {
          wbuff := wbuff + "、";
          break;
        }
        if ch == '\r' {
          p := p + 1;
          wbuff := wbuff + "\r\n";
          return Conv(wbuff, p);
        }
        if [ch] !in t.j10 {
          p := p - 1;
          return Conv(wbuff, p);
        } else {
          wbuff := wbuff + t.j10[[ch]];
        }
        p := p + 1;
      }
      return Conv(wbuff, p);
    }

    /**
     * numeric2_conv(pos), called at a ⠼. Its half-width flag is set on entry
     * and never cleared, so the full-width branches are never taken.
     */
    method Numeric2Conv(t: Tables, pos: nat) returns (r: Conv)
      requires pos < |buff|
      ensures r == Runs.Numeric2Conv(t.i03, buff, pos)
    {
      var wbuff := "";
      var halfWidth := true;
      var p := pos + 1;
      while p < |buff|
        invariant pos + 1 <= p <= |buff|
        invariant Numeric2Loop(t.i03, buff, p, wbuff) == Numeric2Loop(t.i03, buff, pos + 1, "")
        decreases |buff| - p
      {
        var ch := buff[p];
        if ch == NumSign {
          if halfWidth {
            wbuff := wbuff + ",";
          } else {
            wbuff := wbuff + "、";
          }
        } else {
          if ch == '\r' {
            p := p + 1;
            wbuff := wbuff + "\r\n";
            return Conv(wbuff, p);
          } else if [ch] !in t.i03 {
            p := p - 1;
            return Conv(wbuff, p);
          }
          if halfWidth {
            wbuff := wbuff + CellText(t.i03, ch);
          } else {
            wbuff := wbuff + CellText(t.j10, ch);
          }
        }
        p := p + 1;
      }
      return Conv(wbuff, p);
    }

    /** roma_conv(pos): Latin letters through j12, or j11 after ⠠ or ⠠⠠. */
    method RomaConv(t: Tables, pos: nat) returns (r: Outcome<Conv>)
      requires pos < |buff|
      ensures r == Runs.RomaConv(t, buff, pos)
    {
      var wbuff := "";
      var f := NoCaps;
      var p := pos + 1;
      while p < |buff|
        invariant pos + 1 <= p <= |buff|
        invariant RomaLoop(t, buff, p, wbuff, f) == RomaLoop(t, buff, pos + 1, "", NoCaps)
        decreases |buff| - p
      {
        var ch := buff[p];
        if ch == CapSign {
          if p + 1 >= |buff| {
            return Raised(IndexError);
          }
          if buff[p + 1] == CapSign {
            f := CapsRun;
          } else if f != CapsRun {
            f := CapNext;
          }
        } else {
          if [ch] !in t.j11 {
            p := p - 1;
            return Ok(Conv(wbuff, p));
          }
          if f == NoCaps {
            ghost var w0 := wbuff;
            if [ch] in t.j12 {
              wbuff := wbuff + t.j12[[ch]];
            }
            assert wbuff == w0 + CellText(t.j12, ch);
          } else if f == CapsRun {
            wbuff := wbuff + t.j11[[ch]];
          } else if f == CapNext {
            wbuff := wbuff + t.j11[[ch]];
            f := NoCaps;
          }
        }
        p := p + 1;
      }
      return Ok(Conv(wbuff, p));
    }

    /** eng_conv(pos, sc) at a ⠦, with `sc` the cell before it. */
    method EngConv(t: Tables, pos: nat, sc: char) returns (r: Outcome<Conv>)
      requires pos < |buff|
      ensures r == EngQuote.EngConv(t, buff, pos, sc)
    {
      var wbuff := "";
      var f := NoCaps;
      var xxx := [CloseSign];
      if [sc] in t.j01 {
        var ch := t.j01[[sc]];
        if ch == "＿" {
          xxx := xxx + [sc];
        } else if ch == "｜" {
          xxx := xxx + [sc];
        } else if ch == "　" {
          xxx := xxx + [sc];
        }
      }
      assert xxx == EngQuote.Closer(t.j01, sc);
      assert EngQuote.IsCloser(xxx);
      var p := pos + 1;
      wbuff := wbuff + EngQuote.QuoteMark;
      var twoCaps := IsDoubleCap(p);
      if twoCaps {
        f := CapsRun;
        p := p + 2;
      } else if p >= |buff| {
        return Raised(IndexError);
      } else if buff[p] == CapSign {
        f := CapNext;
        p := p + 1;
      } else {
        f := NoCaps;
      }
      assert wbuff == EngQuote.QuoteMark;
      assert EngQuote.EngStart(buff, pos) == Ok((p, f));
      var c := EngQuoted(t, xxx, p, f, wbuff);
      return Ok(c);
    }

    /**
     * eng_conv's outer loop from `p0` in capital mode `f0`: it returns at a
     * closing ⠴, or past the end of the buffer.
     */
    method EngQuoted(t: Tables, xxx: string, p0: nat, f0: Oomoji, w0: string) returns (r: Conv)
      requires EngQuote.IsCloser(xxx)
      ensures r == EngQuote.EngLoop(t, buff, xxx, p0, f0, w0)
    {
      var p: nat := p0;
      var f := f0;
      var wbuff := w0;
      while p < |buff|
        invariant EngQuote.EngLoop(t, buff, xxx, p, f, wbuff) == EngQuote.EngLoop(t, buff, xxx, p0, f0, w0)
        decreases |buff| - p
      {
        var pass := EngPass(t, xxx, p, f, wbuff);
        match pass
        case Closed(c) =>
          return c;
        case Continue(q, g, w) =>
          p, f, wbuff := q + 1, g, w;
      }
      return Conv(wbuff, p);
    }

    /** One pass through the body of eng_conv's outer loop at `p`. */
    method EngPass(t: Tables, xxx: string, p: nat, f: Oomoji, w: string) returns (pass: EngQuote.Pass)
      requires p < |buff| && EngQuote.IsCloser(xxx)
      ensures pass == EngQuote.OuterPass(t, buff, xxx, p, f, w)
    {
      if buff[p] == CloseSign {
        var closes := IsClosing(xxx, p);
        if closes {
          return EngQuote.Closed(Conv(w + EngQuote.QuoteMark, p));
        }
        pass := EngQuote.Continue(p, f, w);
      } else if f == NoCaps {
        pass := EngLetters(t, xxx, p, w);
      } else if f == CapsRun {
        pass := EngCapitals(t, xxx, p, w);
      } else if f == CapNext {
        pass := EngCapital(t, xxx, p, w);
      } else {
        pass := EngQuote.Continue(p, NoCaps, w);
      }
    }

    /**
     * What eng_conv's inner loops read at a cell that is not a sign: a
     * number through numeric2_conv, else e03, else `letters`.
     */
    method ReadCell(t: Tables, letters: Table, x: nat) returns (c: Conv)
      requires x < |buff|
      ensures c == EngQuote.ReadCell(t, letters, buff, x)
    {
      if buff[x] == NumSign {
        c := Numeric2Conv(t, x);
      } else if [buff[x]] in t.e03 {
        c := Conv(t.e03[[buff[x]]], x);
      } else if [buff[x]] in letters {
        c := Conv(letters[[buff[x]]], x);
      } else {
        c := Conv("", x);
      }
    }

    /** eng_conv's double-capital test at `x`: a one-cell slice compared with ⠠⠠. */
    method IsDoubleCap(x: nat) returns (twoCaps: bool)
      ensures twoCaps == EngQuote.DoubleCap(buff, x)
    {
      twoCaps := Slice(buff, x, x + 1) == "⠠⠠";
    }

    /** eng_conv's closing test at `x`: the five slice comparisons against `xxx` and the fixed closers. */
    method IsClosing(xxx: string, x: nat) returns (closes: bool)
      requires EngQuote.IsCloser(xxx)
      ensures closes == EngQuote.Closes(buff, x, xxx)
    {
      EngQuote.ClosesAsWrittenIff(buff, x, xxx);
      var s := Slice(buff, x, x + |xxx|);
      closes := s == xxx || s == "⠴⠀" || s == "⠴\n" || s == "⠴\r" || s == "⠴⠤";
    }

    /**
     * eng_conv's inner loop for lower-case letters (f_oomoji 0) from `x0`:
     * it closes the quote, or breaks out at a capital sign with the index
     * and mode the outer loop goes on from.
     */
    method EngLetters(t: Tables, xxx: string, x0: nat, w0: string) returns (r: EngQuote.Pass)
      requires EngQuote.IsCloser(xxx)
      ensures r == EngQuote.LettersLoop(t, buff, xxx, x0, w0)
    {
      var wbuff := w0;
      var x := x0;
      while x < |buff|
        invariant EngQuote.LettersLoop(t, buff, xxx, x, wbuff) == EngQuote.LettersLoop(t, buff, xxx, x0, w0)
        decreases |buff| - x
      {
        var s := InnerStep(t, t.e02, xxx, x, wbuff);
        match s
        case Break(pass) =>
          return pass;
        case Read(c) =>
          x := c.next;
          wbuff := wbuff + c.text;
        x := x + 1;
      }
      return EngQuote.Continue(x, NoCaps, wbuff);
    }

    /**
     * eng_conv's inner loop for a capital run (f_oomoji 1). The source clears
     * the mode after each letter but stays in this loop, so the letters that
     * follow still read through e01.
     */
    method EngCapitals(t: Tables, xxx: string, x0: nat, w0: string) returns (r: EngQuote.Pass)
      requires EngQuote.IsCloser(xxx)
      ensures r == EngQuote.CapitalsLoop(t, buff, xxx, x0, w0, CapsRun)
    {
      var wbuff := w0;
      var f := CapsRun;
      var x := x0;
      while x < |buff|
        invariant EngQuote.CapitalsLoop(t, buff, xxx, x, wbuff, f)
          == EngQuote.CapitalsLoop(t, buff, xxx, x0, w0, CapsRun)
        decreases |buff| - x
      {
        var s := InnerStep(t, t.e01, xxx, x, wbuff);
        match s
        case Break(pass) =>
          return pass;
        case Read(c) =>
          x := c.next;
          wbuff := wbuff + c.text;
        f := NoCaps;
        x := x + 1;
      }
      return EngQuote.Continue(x, f, wbuff);
    }

    /**
     * eng_conv's inner loop for a single capital (f_oomoji 2), which breaks
     * after its first pass and so is written without a loop.
     */
    method EngCapital(t: Tables, xxx: string, x: nat, w0: string) returns (r: EngQuote.Pass)
      requires x < |buff| && EngQuote.IsCloser(xxx)
      ensures r == EngQuote.CapitalPass(t, buff, xxx, x, w0)
    {
      var s := InnerStep(t, t.e01, xxx, x, w0);
      match s
      case Break(pass) =>
        return pass;
      case Read(c) =>
        return EngQuote.Continue(c.next, NoCaps, w0 + c.text);
    }

    /**
     * The body the three inner loops of eng_conv share, at `x`: the closing
     * test, the two capital signs that break out, and otherwise one cell
     * read through `letters`.
     */
    method InnerStep(t: Tables, letters: Table, xxx: string, x: nat, w: string) returns (s: EngQuote.Step)
      requires x < |buff| && EngQuote.IsCloser(xxx)
      ensures s == EngQuote.InnerStep(t, letters, buff, xxx, x, w)
    {
      var closes := IsClosing(xxx, x);
      if closes {
        return EngQuote.Break(EngQuote.Closed(Conv(w + EngQuote.QuoteMark, x)));
      }
      var twoCaps := IsDoubleCap(x);
      if twoCaps {
        return EngQuote.Break(EngQuote.Continue(x + 1, CapsRun, w));
      } else if buff[x] == CapSign {
        return EngQuote.Break(EngQuote.Continue(x, CapNext, w));
      }
      var c := ReadCell(t, letters, x);
      return EngQuote.Read(c);
    }

    /**
     * info_conv(pos) at ⠠⠦. Where the source would spin for ever (its
     * capitals loop on a ⠼ that numeric2_conv hands back) this returns
     * `Hangs`.
     */
    method InfoConv(t: Tables, pos: nat) returns (r: Outcome<Conv>)
      ensures r == InfoNote.InfoConv(t, buff, pos)
    {
      var wbuff := "";
      var f := NoCaps;
      var p: nat := pos + 1;
      while p < |buff|
        invariant InfoNote.OuterLoop(t, buff, p, f, wbuff) == InfoNote.InfoConv(t, buff, pos)
        decreases |buff| - p
      {
        var e := InfoPass(t, p, f, wbuff);
        match e
        case Done(r0) =>
          return r0;
        case Resume(q, g, w) =>
          p, f, wbuff := q, g, w;
      }
      return Ok(Conv(wbuff, p));
    }

    /** One pass through the body of info_conv's outer loop at `p`, up to and including its `pos + 1`. */
    method InfoPass(t: Tables, p: nat, f: Oomoji, w: string) returns (e: InfoNote.Exit)
      requires p < |buff|
      ensures e == InfoNote.OuterPass(t, buff, p, f, w)
    {
      var ch := buff[p];
      if ch == CapSign {
        if p + 1 >= |buff| {
          return InfoNote.Done(Raised(IndexError));
        }
        if buff[p + 1] == CloseSign {
          return InfoNote.Done(Ok(Conv(w + ")", p + 1)));
        } else if buff[p + 1] == CapSign {
          e := InfoNote.Resume(p + 1, CapsRun, w);
        } else if f != CapsRun {
          e := InfoNote.Resume(p + 1, CapNext, w);
        } else if buff[p + 1] == InfoNote.KanaSign {
          e := InfoNote.Resume(p + 1, KanaMark, w);
        } else {
          e := InfoNote.Resume(p + 1, f, w);
        }
      } else if ch == NumSign {
        var c := Numeric2Conv(t, p);
        e := InfoNote.Resume(c.next + 1, f, w + c.text);
      } else if f == NoCaps {
        e := InfoPlain(t, p, w);
      } else if f == CapsRun {
        e := InfoCapitals(t, p, w);
      } else if f == CapNext {
        e := InfoCapital(t, p, w);
      } else {
        e := InfoNote.Resume(p + 1, NoCaps, w);
      }
    }

    /** info_conv's ⠠⠴ test at `x`: a one-cell slice compared with two cells. */
    method IsClosingPair(x: nat) returns (pair: bool)
      ensures pair == InfoNote.ClosingPair(buff, x)
    {
      pair := Slice(buff, x, x + 1) == "⠠⠴";
    }

    /** info_conv's inner loop of mode 0 (plain letters through i02) from `x0`. */
    method InfoPlain(t: Tables, x0: nat, w0: string) returns (e: InfoNote.Exit)
      ensures e == InfoNote.PlainLoop(t, buff, x0, w0)
    {
      var wbuff := w0;
      var x := x0;
      while x < |buff|
        invariant InfoNote.PlainLoop(t, buff, x, wbuff) == InfoNote.PlainLoop(t, buff, x0, w0)
        decreases |buff| - x
      {
        var s := PlainStep(t, x, wbuff);
        match s
        case Leave(e0) =>
          return e0;
        case Next(x1, w1) =>
          x, wbuff := x1, w1;
      }
      return InfoNote.Resume(x + 1, NoCaps, wbuff);
    }

    /** The body of info_conv's plain loop at `x`. */
    method PlainStep(t: Tables, x: nat, w: string) returns (s: InfoNote.Step)
      requires x < |buff|
      ensures s == InfoNote.PlainStep(t, buff, x, w)
    {
      var pair := IsClosingPair(x);
      if pair {
        // The source resumes at the same cell here and would never leave.
        return InfoNote.Leave(InfoNote.Done(Hangs));
      } else if buff[x] == CloseSign {
        if [CloseSign] !in t.i02 {
          return InfoNote.Leave(InfoNote.Done(Raised(KeyError)));
        }
        return InfoNote.Leave(InfoNote.Done(Ok(Conv(w + t.i02[[CloseSign]], x + 1))));
      } else if buff[x] == NumSign {
        var c := Numeric2Conv(t, x);
        s := InfoNote.Next(c.next + 1, w + c.text);
      } else if Slice(buff, x, x + 2) in t.i02 {
        s := InfoNote.Next(x + 2, w + t.i02[Slice(buff, x, x + 2)]);
      } else if Slice(buff, x, x + 1) in t.i02 {
        s := InfoNote.Next(x + 1, w + t.i02[Slice(buff, x, x + 1)]);
      } else if [buff[x]] in t.i02 {
        // As above: the source stays on this cell.
        return InfoNote.Leave(InfoNote.Done(Hangs));
      } else {
        s := InfoNote.Leave(InfoNote.Resume(x + 1, NoCaps, w));
      }
    }

    /** info_conv's inner loop of mode 1 (a capital run through i01) from `x0`. */
    method InfoCapitals(t: Tables, x0: nat, w0: string) returns (e: InfoNote.Exit)
      ensures e == InfoNote.CapsLoop(t, buff, x0, w0)
    {
      var wbuff := w0;
      var x := x0;
      while x < |buff|
        invariant InfoNote.CapsLoop(t, buff, x, wbuff) == InfoNote.CapsLoop(t, buff, x0, w0)
        decreases |buff| - x
      {
        var s := CapsStep(t, x, wbuff);
        match s
        case Leave(e0) =>
          return e0;
        case Next(x1, w1) =>
          x, wbuff := x1, w1;
      }
      return InfoNote.Resume(x + 1, CapsRun, wbuff);
    }

    /** The body of info_conv's capitals loop at `x`. */
    method CapsStep(t: Tables, x: nat, w: string) returns (s: InfoNote.Step)
      requires x < |buff|
      ensures s == InfoNote.CapsStep(t, buff, x, w)
    {
      var pair := IsClosingPair(x);
      if pair {
        return InfoNote.Leave(InfoNote.Resume(x, CapsRun, w));
      } else if buff[x] == NumSign {
        var c := Numeric2Conv(t, x);
        if c.next == x {
          // The source repeats this cell for ever.
          return InfoNote.Leave(InfoNote.Done(Hangs));
        }
        s := InfoNote.Next(c.next, w + c.text);
      } else if Slice(buff, x, x + 1) in t.i01 {
        s := InfoNote.Next(x + 1, w + t.i01[Slice(buff, x, x + 1)]);
      } else if [buff[x]] in t.i01 {
        // The source stays on this cell.
        return InfoNote.Leave(InfoNote.Done(Hangs));
      } else {
        s := InfoNote.Leave(InfoNote.Resume(x + 1, CapsRun, w));
      }
    }

    /**
     * info_conv's inner loop of mode 2 (one capital), which breaks after its
     * first pass and so is written without a loop.
     */
    method InfoCapital(t: Tables, x: nat, w: string) returns (e: InfoNote.Exit)
      ensures e == InfoNote.SingleLetter(t, buff, x, w)
    {
      if x >= |buff| {
        return InfoNote.Resume(x + 1, NoCaps, w);
      }
      var pair := IsClosingPair(x);
      if pair {
        e := InfoNote.Resume(x, NoCaps, w);
      } else if buff[x] == NumSign {
        var c := Numeric2Conv(t, x);
        e := InfoNote.Resume(c.next + 1, NoCaps, w + c.text);
      } else if Slice(buff, x, x + 1) in t.i01 {
        e := InfoNote.Resume(x + 2, NoCaps, w + t.i01[Slice(buff, x, x + 1)]);
      } else if [buff[x]] in t.i01 {
        e := InfoNote.Resume(x + 1, NoCaps, w + t.i01[[buff[x]]]);
      } else {
        e := InfoNote.Resume(x + 1, NoCaps, w);
      }
    }

    /** katakana_conv: the whole buffer to kana text. */
    method KatakanaConv(t: Tables) returns (r: Outcome<string>)
      ensures r == Kana.KatakanaConv(t, buff)
    {
      var pos: nat := 0;
      var wbuff := "";
      while pos < |buff|
        invariant Kana.KanaFrom(t, buff, pos, wbuff) == Kana.KatakanaConv(t, buff)
        decreases |buff| - pos
      {
        var s := KanaStep(t, pos);
        match s
        case Ok(c) =>
          wbuff := wbuff + c.text;
          pos := c.next + 1;
        case Raised(e) =>
          return Raised(e);
        case Hangs =>
          return Hangs;
      }
      return Ok(wbuff);
    }

    /** One pass through katakana_conv's loop body at `pos`, before its final `pos + 1`. */
    method KanaStep(t: Tables, pos: nat) returns (s: Outcome<Conv>)
      requires pos < |buff|
      ensures s == Kana.KanaStep(t, buff, pos)
    {
      var ch := buff[pos];
      if ch == NumSign {
        var c := NumericConv(t, pos);
        s := Ok(c);
      } else if ch == Kana.RomaSign {
        s := RomaSign(t, pos);
      } else if ch == Kana.QuoteSign {
        var sc := if pos == 0 then buff[|buff| - 1] else buff[pos - 1];
        s := EngConv(t, pos, sc);
      } else if ch == Kana.DashSign {
        if pos + 1 >= |buff| {
          return Raised(IndexError);
        }
        if buff[pos + 1] == '⠆' {
          s := Ok(Conv("』", pos + 1));
        } else if buff[pos + 1] == '⠂' {
          s := Ok(Conv("】", pos + 1));
        } else {
          s := Lookup(t.j01, pos);
        }
      } else if ch == Kana.LongSign {
        if Slice(buff, pos, pos + 1) == "⠂" {
          s := Ok(Conv("ー・", pos + 1));
        } else {
          s := Lookup(t.j01, pos);
        }
      } else if ch == CapSign {
        s := CapSignStep(t, pos);
      } else {
        s := OtherCell(t, pos);
      }
    }

    /** katakana_conv at ⠠: an info quote at ⠠⠦, "＞" at ⠠⠆, else a j03 lookup. */
    method CapSignStep(t: Tables, pos: nat) returns (s: Outcome<Conv>)
      requires pos < |buff| && buff[pos] == CapSign
      ensures s == Kana.KanaStep(t, buff, pos)
    {
      if pos + 1 >= |buff| {
        return Raised(IndexError);
      }
      if buff[pos + 1] == Kana.QuoteSign {
        s := InfoConv(t, pos);
      } else if buff[pos + 1] == '⠆' {
        s := Ok(Conv("＞", pos + 1));
      } else {
        s := Prefixed(t.j03, pos, "");
      }
    }

    /**
     * katakana_conv at a cell that is none of ⠼, ⠰, ⠦, ⠤, ⠒ and ⠠: a prefix
     * sign's two-cell lookup, else the cell through j01, else the cell itself.
     */
    method OtherCell(t: Tables, pos: nat) returns (s: Outcome<Conv>)
      requires pos < |buff|
      requires buff[pos] !in [NumSign, Kana.RomaSign, Kana.QuoteSign, Kana.DashSign, Kana.LongSign, CapSign]
      ensures s == Kana.KanaStep(t, buff, pos)
    {
      var ch := buff[pos];
      if ch == '⠲' {
        s := Prefixed(t.j09, pos, "。");
      } else if ch == '⠢' {
        s := Prefixed(t.j08, pos, "？");
      } else if ch == '⠸' {
        s := Prefixed(t.j07, pos, "");
      } else if ch == '⠨' {
        s := Prefixed(t.j06, pos, "");
      } else if ch == '⠘' {
        s := Prefixed(t.j05, pos, "");
      } else if ch == '⠈' {
        s := Prefixed(t.j04, pos, "");
      } else if ch == '⠐' {
        s := Prefixed(t.j02, pos, "ッ");
      } else if [ch] in t.j01 {
        s := Ok(Conv(t.j01[[ch]], pos));
      } else {
        s := Ok(Conv([ch], pos));
      }
    }

    /** katakana_conv at ⠰: the prefix text it emits, then roma_conv. */
    method RomaSign(t: Tables, pos: nat) returns (s: Outcome<Conv>)
      requires pos < |buff| && buff[pos] == Kana.RomaSign
      ensures s == Kana.KanaStep(t, buff, pos)
    {
      if pos + 1 >= |buff| {
        return Raised(IndexError);
      }
      var pre := "";
      var q := pos;
      if buff[pos + 1] == '⠄' {
        pre, q := "＜", pos + 1;
      } else if buff[pos + 1] in Kana.Separators {
        if buff[pos + 1] == Kana.DashSign {
          pre, q := "『", pos + 1;
        } else if [buff[pos]] in t.j01 {
          pre := t.j01[[buff[pos]]];
        }
      }
      assert (pre, q) == Kana.RomaPrefix(t, buff, pos);
      var r := RomaConv(t, q);
      match r
      case Ok(c) =>
        s := Ok(Conv(pre + c.text, c.next));
      case Raised(e) =>
        s := Raised(e);
      case Hangs =>
        s := Hangs;
    }

    /** `j01[buff[pos]]`, raising KeyError on a missing cell. */
    method Lookup(j01: Table, pos: nat) returns (s: Outcome<Conv>)
      requires pos < |buff|
      ensures s == Kana.Lookup(j01, buff[pos], pos)
    {
      if [buff[pos]] !in j01 {
        return Raised(KeyError);
      }
      s := Ok(Conv(j01[[buff[pos]]], pos));
    }

    /** A two-cell lookup at `pos`: a hit also consumes the next cell, a miss emits `miss`. */
    method Prefixed(table: Table, pos: nat, miss: string) returns (s: Outcome<Conv>)
      ensures s == Ok(Kana.Prefixed(table, buff, pos, miss))
    {
      var key := Slice(buff, pos, pos + 2);
      if key in table {
        s := Ok(Conv(table[key], pos + 1));
      } else {
        s := Ok(Conv(miss, pos));
      }
    }

    /** The character loop the four case shifters share. */
    method Shift(s: string, lo: int, hi: int, d: int) returns (ret: string)
      requires CharCodes.ShiftOk(lo, hi, d)
      ensures ret == CharCodes.ShiftText(s, lo, hi, d)
    {
      ret := "";
      var i := 0;
      while i < |s|
        invariant 0 <= i <= |s| && |ret| == i
        invariant forall k :: 0 <= k < i ==> ret[k] == CharCodes.ShiftChar(s[k], lo, hi, d)
      {
        if s[i] as int < lo || s[i] as int > hi {
          ret := ret + [s[i]];
        } else {
          ret := ret + [(s[i] as int + d) as char];
        }
        i := i + 1;
      }
    }

    method KatakanaToHiragana(katakana: string) returns (ret: string)
      ensures ret == CharCodes.KatakanaToHiragana(katakana)
    {
      ret := Shift(katakana, CharCodes.KataLo, CharCodes.KataHi, CharCodes.HiraLo - CharCodes.KataLo);
    }

    method HiraganaToKatakana(hiragana: string) returns (ret: string)
      ensures ret == CharCodes.HiraganaToKatakana(hiragana)
    {
      ret := Shift(hiragana, CharCodes.HiraLo, CharCodes.HiraHi, CharCodes.KataLo - CharCodes.HiraLo);
    }

    method LowerToUpper(al: string) returns (ret: string)
      ensures ret == CharCodes.LowerToUpper(al)
    {
      ret := Shift(al, 'a' as int, 'z' as int, 'A' as int - 'a' as int);
    }

    method UpperToLower(al: string) returns (ret: string)
      ensures ret == CharCodes.UpperToLower(al)
    {
      ret := Shift(al, 'A' as int, 'Z' as int, 'a' as int - 'A' as int);
    }

    /** `for i in range(lo, hi + 1): ret += chr(i)` */
    method CodeUp(lo: int, hi: int) returns (ret: string)
      requires CharCodes.ScalarRun(lo, hi)
      ensures ret == CharCodes.CodeRange(lo, hi)
    {
      ret := "";
      var i := lo;
      while i < hi + 1
        invariant lo <= i <= hi + 1 && |ret| == i - lo
        invariant forall k :: 0 <= k < |ret| ==> ret[k] as int == lo + k
      {
        ret := ret + [i as char];
        i := i + 1;
      }
    }

    /** `for i in range(hi, lo, -1): ret += chr(i)` */
    method CodeDown(hi: int, lo: int) returns (ret: string)
      requires CharCodes.ScalarRun(lo + 1, hi)
      ensures ret == CharCodes.CodeRangeDown(hi, lo)
    {
      ret := "";
      var i := hi;
      while i > lo
        invariant lo <= i <= hi && |ret| == hi - i
        invariant forall k :: 0 <= k < |ret| ==> ret[k] as int == hi - k
      {
        ret := ret + [i as char];
        i := i - 1;
      }
    }

    method BrailleCode() returns (ret: string)
      ensures ret == CharCodes.BrailleCode()
    {
      ret := CodeUp(CharCodes.BrailleLo, CharCodes.BrailleHi);
    }

    method BrailleCodeR() returns (ret: string)
      ensures ret == CharCodes.BrailleCodeR()
    {
      ret := CodeDown(CharCodes.BrailleHi, CharCodes.BrailleLo);
    }

    method WinbesCode() returns (ret: string)
      ensures ret == CharCodes.WinbesCode()
    {
      ret := CodeUp(' ' as int, '_' as int);
    }

    method WinbesCodeR() returns (ret: string)
      ensures ret == CharCodes.WinbesCodeR()
    {
      ret := CodeDown('_' as int, ' ' as int);
    }

    method KatakanaCode() returns (ret: string)
      ensures ret == CharCodes.KatakanaCode()
    {
      ret := CodeUp(0xFF71, 0xFF9D);
    }
  }
}
