/**
 * The three clean-up passes DocumentsViewer applies to kana text after
 * transcription (TenjiTexter/__init__.py, Cxx, Cxx2 and Cxx3). None of them
 * reads or writes the viewer's state, so they are functions here.
 */
module PostProcess {
  import opened Strings

  const SmallTsu: char := 'ッ'
  const Ellipsis: char := '…'
  const IdeoSpace: char := '　'

  /**
   * Cxx: a doubled sokuon "ッッ" becomes "……", then "…ッ" becomes "……".
   * Both replacements keep the length.
   */
  function Cxx(s: string): string
  {
    var t := ReplaceAll(s, [SmallTsu, SmallTsu], [Ellipsis, Ellipsis]);
    ReplaceAll(t, [Ellipsis, SmallTsu], [Ellipsis, Ellipsis])
  }

  /** Cxx2: every CR LF becomes a lone LF. */
  function Cxx2(s: string): string
  {
    ReplaceAll(s, "\r\n", "\n")
  }

  /** Cxx3: every empty line "\n\n" is padded with three ideographic spaces. */
  function Cxx3(s: string): string
  {
    ReplaceAll(s, "\n\n", PaddedLine)
  }

  const PaddedLine: string := ['\n', IdeoSpace, IdeoSpace, IdeoSpace, '\n']

  /** The passes in the order the BES extractor applies them to kana output. */
  function KanaCleanup(s: string): string
  {
    Cxx3(Cxx2(Cxx(s)))
  }

  /**
   * Replacing `x a` by `x x` with `x != a` creates no `a a` and, when the
   * input had no `a a`, leaves no `x a` behind.
   */
  lemma {:induction false} ShiftPairKeepsClear<T>(s: seq<T>, x: T, a: T)
    requires x != a && NoPair(s, a, a)
    ensures NoPair(ReplaceAll(s, [x, a], [x, x]), a, a)
    ensures NoPair(ReplaceAll(s, [x, a], [x, x]), x, a)
    decreases |s|
  {
    var r := ReplaceAll(s, [x, a], [x, x]);
    if |s| < 2 {
    } else if s[..2] == [x, a] {
      var rest := ReplaceAll(s[2..], [x, a], [x, x]);
      ShiftPairKeepsClear(s[2..], x, a);
      assert r == [x, x] + rest;
      forall i | 0 <= i < |r| - 1
        ensures !(r[i] == a && r[i + 1] == a) && !(r[i] == x && r[i + 1] == a)
      {
        if i >= 2 {
          assert r[i] == rest[i - 2] && r[i + 1] == rest[i - 1];
        } else if i == 1 {
          ReplaceAllHead(s[2..], [x, a], [x, x]);
          assert s[1] == a;
        }
      }
    } else {
      var rest := ReplaceAll(s[1..], [x, a], [x, x]);
      ShiftPairKeepsClear(s[1..], x, a);
      assert r == [s[0]] + rest;
      forall i | 0 <= i < |r| - 1
        ensures !(r[i] == a && r[i + 1] == a) && !(r[i] == x && r[i + 1] == a)
      {
        if i >= 1 {
          assert r[i] == rest[i - 1] && r[i + 1] == rest[i];
        } else {
          ReplaceAllHead(s[1..], [x, a], [x, x]);
          assert s[..2] == [s[0], s[1]];
        }
      }
    }
  }

  /** Cxx keeps the length and leaves no small tsu after a small tsu or an ellipsis. */
  lemma CxxClears(s: string)
    ensures |Cxx(s)| == |s|
    ensures NoPair(Cxx(s), SmallTsu, SmallTsu)
    ensures NoPair(Cxx(s), Ellipsis, SmallTsu)
  {
    var t := ReplaceAll(s, [SmallTsu, SmallTsu], [Ellipsis, Ellipsis]);
    ReplaceAllLength(s, [SmallTsu, SmallTsu], [Ellipsis, Ellipsis]);
    ReplaceAllLength(t, [Ellipsis, SmallTsu], [Ellipsis, Ellipsis]);
    ReplacePairClears(s, SmallTsu, SmallTsu, Ellipsis, Ellipsis);
    ShiftPairKeepsClear(t, Ellipsis, SmallTsu);
  }

  /** A second Cxx pass changes nothing. */
  lemma CxxIdempotent(s: string)
    ensures Cxx(Cxx(s)) == Cxx(s)
  {
    var c := Cxx(s);
    CxxClears(s);
    NoPairIffNotOccurs(c, SmallTsu, SmallTsu);
    MatchesIffOccurs(c, [SmallTsu, SmallTsu]);
    ReplaceAllNoMatch(c, [SmallTsu, SmallTsu], [Ellipsis, Ellipsis]);
    NoPairIffNotOccurs(c, Ellipsis, SmallTsu);
    MatchesIffOccurs(c, [Ellipsis, SmallTsu]);
    ReplaceAllNoMatch(c, [Ellipsis, SmallTsu], [Ellipsis, Ellipsis]);
  }

  /** Cxx never touches line breaks. */
  lemma CxxKeepsLines(s: string, c: char)
    requires c != SmallTsu && c != Ellipsis
    ensures Count(Cxx(s), c) == Count(s, c)
  {
    var t := ReplaceAll(s, [SmallTsu, SmallTsu], [Ellipsis, Ellipsis]);
    ReplaceAllCount(s, [SmallTsu, SmallTsu], [Ellipsis, Ellipsis], c);
    ReplaceAllCount(t, [Ellipsis, SmallTsu], [Ellipsis, Ellipsis], c);
  }

  /**
   * Cxx2 keeps every LF, drops one CR per CR LF it rewrites, and is the
   * identity exactly on text without CR LF.
   */
  lemma Cxx2Effect(s: string)
    ensures Count(Cxx2(s), '\n') == Count(s, '\n')
    ensures Count(Cxx2(s), '\r') == Count(s, '\r') - Matches(s, "\r\n")
    ensures |Cxx2(s)| == |s| - Matches(s, "\r\n")
    ensures Cxx2(s) == s <==> !Occurs(s, "\r\n")
  {
    ReplaceAllCount(s, "\r\n", "\n", '\n');
    ReplaceAllCount(s, "\r\n", "\n", '\r');
    ReplaceAllLength(s, "\r\n", "\n");
    MatchesIffOccurs(s, "\r\n");
    if !Occurs(s, "\r\n") {
      ReplaceAllNoMatch(s, "\r\n", "\n");
    }
  }

  lemma PaddedLineCounts()
    ensures Count(PaddedLine, '\n') == 2 && Count(PaddedLine, IdeoSpace) == 3
  {
    var p := PaddedLine;
    assert p[4..][1..] == [] && p[3..][1..] == p[4..];
    assert p[2..][1..] == p[3..] && p[1..][1..] == p[2..];
    assert Count(p[4..], '\n') == 1 && Count(p[4..], IdeoSpace) == 0;
    assert Count(p[3..], '\n') == 1 && Count(p[3..], IdeoSpace) == 1;
    assert Count(p[2..], '\n') == 1 && Count(p[2..], IdeoSpace) == 2;
    assert Count(p[1..], '\n') == 1 && Count(p[1..], IdeoSpace) == 3;
  }

  /** A CR LF can survive Cxx2 when CRs are doubled: Cxx2 is not idempotent. */
  lemma Cxx2LeavesCrLf()
    ensures Cxx2("\r\r\n") == "\r\n"
    ensures Cxx2(Cxx2("\r\r\n")) != Cxx2("\r\r\n")
  {
    assert "\r\r\n"[..2][1] == '\r';
    assert "\r\r\n"[1..] == "\r\n";
    assert "\r\n"[2..] == "";
  }

  /**
   * Cxx3 keeps every LF, adds three spaces per empty line it pads, and is
   * the identity exactly on text without "\n\n".
   */
  lemma Cxx3Effect(s: string)
    ensures Count(Cxx3(s), '\n') == Count(s, '\n')
    ensures Count(Cxx3(s), IdeoSpace) == Count(s, IdeoSpace) + 3 * Matches(s, "\n\n")
    ensures |Cxx3(s)| == |s| + 3 * Matches(s, "\n\n")
    ensures Cxx3(s) == s <==> !Occurs(s, "\n\n")
  {
    var rep := PaddedLine;
    PaddedLineCounts();
    ReplaceAllCount(s, "\n\n", rep, '\n');
    ReplaceAllCount(s, "\n\n", rep, IdeoSpace);
    ReplaceAllLength(s, "\n\n", rep);
    MatchesIffOccurs(s, "\n\n");
    if !Occurs(s, "\n\n") {
      ReplaceAllNoMatch(s, "\n\n", rep);
    }
  }

  /** Three LFs in a row are padded once: an empty line remains. */
  lemma Cxx3LeavesEmptyLine()
    ensures Cxx3("\n\n\n") == "\n　　　\n\n"
    ensures Occurs(Cxx3("\n\n\n"), "\n\n")
  {
    assert "\n\n\n"[2..] == "\n";
    assert OccursAt("\n　　　\n\n", "\n\n", 4);
  }

  /** The whole clean-up keeps the number of lines. */
  lemma KanaCleanupKeepsLines(s: string)
    ensures Count(KanaCleanup(s), '\n') == Count(s, '\n')
  {
    CxxKeepsLines(s, '\n');
    Cxx2Effect(Cxx(s));
    Cxx3Effect(Cxx2(Cxx(s)));
  }
}
