/**
 * sapieConverter: convert_bes_to_unicode, the module-level twin of
 * DocumentsViewer.op1, and extract_and_convert_bes, which decodes every .BES
 * member of a downloaded archive in archive order, picks the book title from
 * the member names and optionally transcribes the braille to kana.
 *
 * The archive is a sequence of entries whose names are already decoded;
 * opening the ZIP file, the cp437/cp932 name decoding and logging are not
 * part of this model.
 */
module SapieConverter {
  import opened Strings
  import opened Outcomes
  import opened TenjiTables
  import opened BesFormat
  import PostProcess
  import InfoNote
  import Kana
  import TenjiTexter

  /** An archive member: its (decoded) name and its bytes. */
  datatype Entry = Entry(name: string, content: seq<bv8>)

  /** What extract_and_convert_bes returns: the text and the book title. */
  datatype Book = Book(text: string, title: string)

  /**
   * convert_bes_to_unicode: the same three passes as op1 (skip the header,
   * rewrite the 0x0D 0xFE pairs and blank the two bytes before each 0xFD in
   * place, decode byte by byte), so it computes `DotPattern` as op1 does.
   */
  method ConvertBesToUnicode(content: seq<bv8>) returns (result: string)
    ensures result == DotPattern(content)
  {
    var i := TenjiTexter.SkipHeader(|content|, DotHeaderLimit);
    var body := ReplaceCrFe(content[i..]);
    var tenji := new bv8[|body|](k requires 0 <= k < |body| => body[k]);
    assert tenji[..] == body;
    TenjiTexter.BlankBeforeFdInPlace(tenji);
    result := TenjiTexter.DecodeDots(tenji);
  }

  /** A member whose extension upper-cases to ".BES". */
  predicate IsBesEntry(e: Entry)
  {
    AsciiUpper(Splitext(e.name).1) == ".BES"
  }

  /** The name of a member without its extension. */
  function EntryStem(e: Entry): string
  {
    Splitext(e.name).0
  }

  /** The archive's own name without directory and extension: the first title. */
  function ArchiveStem(filePath: string): string
  {
    Splitext(Basename(filePath)).0
  }

  /** The braille text of the first members: every .BES member decoded, in order. */
  function BesText(es: seq<Entry>): string
  {
    if es == [] then ""
    else
      var e := es[|es| - 1];
      BesText(es[..|es| - 1]) + (if IsBesEntry(e) then DotPattern(e.content) else "")
  }

  /**
   * The title after the first members: a .BES member's stem replaces it
   * while it is still empty or still the archive's stem.
   */
  function TitleFrom(stem: string, es: seq<Entry>): string
  {
    if es == [] then stem
    else
      var title := TitleFrom(stem, es[..|es| - 1]);
      var e := es[|es| - 1];
      if IsBesEntry(e) && (title == "" || title == stem) then EntryStem(e) else title
  }

  /** extract_and_convert_bes on an archive that opens. */
  function Extracted(t: Tables, filePath: string, entries: seq<Entry>, convertToKana: bool): Outcome<Book>
  {
    var text := BesText(entries);
    var title := TitleFrom(ArchiveStem(filePath), entries);
    if convertToKana && text != "" then
      match Kana.KatakanaConv(t, text)
      case Ok(kana) => Ok(Book(PostProcess.KanaCleanup(kana), title))
      case Raised(_) => Ok(Book(text, title))
      case Hangs => Hangs
    else Ok(Book(text, title))
  }

  /**
   * extract_and_convert_bes. A fault of katakana_conv is caught and the
   * braille text returned instead; where katakana_conv would not return,
   * this returns `Hangs`.
   */
  method ExtractAndConvertBes(t: Tables, filePath: string, entries: seq<Entry>, convertToKana: bool)
    returns (r: Outcome<Book>)
    ensures r == Extracted(t, filePath, entries, convertToKana)
  {
    var result := "";
    var stem := ArchiveStem(filePath);
    var bookTitle := stem;
    var k := 0;
    while k < |entries|
      invariant 0 <= k <= |entries|
      invariant result == BesText(entries[..k])
      invariant bookTitle == TitleFrom(stem, entries[..k])
    {
      var (name, ext) := Splitext(entries[k].name);
      if AsciiUpper(ext) == ".BES" {
        var brailleText := ConvertBesToUnicode(entries[k].content);
        result := result + brailleText;
        if bookTitle == "" || bookTitle == ArchiveStem(filePath) {
          bookTitle := name;
        }
      }
      assert entries[..k + 1][..k] == entries[..k];
      k := k + 1;
    }
    assert entries[..k] == entries;
    if convertToKana && result != "" {
      var dv := new TenjiTexter.DocumentsViewer();
      dv.buff := result;
      var kana := dv.KatakanaConv(t);
      match kana
      case Ok(s) =>
        result := PostProcess.Cxx(s);
        result := PostProcess.Cxx2(result);
        result := PostProcess.Cxx3(result);
      case Raised(_) =>
      case Hangs =>
        return Hangs;
    }
    return Ok(Book(result, bookTitle));
  }

  // ------------------------------------------------------------------ the text

  /** The members' texts are concatenated in archive order. */
  lemma {:induction false} BesTextConcat(a: seq<Entry>, b: seq<Entry>)
    ensures BesText(a + b) == BesText(a) + BesText(b)
    decreases |b|
  {
    if b == [] {
      assert a + b == a;
    } else {
      var e := b[|b| - 1];
      var d := if IsBesEntry(e) then DotPattern(e.content) else "";
      assert (a + b)[..|a + b| - 1] == a + b[..|b| - 1];
      BesTextConcat(a, b[..|b| - 1]);
      AppendAssoc(BesText(a), BesText(b[..|b| - 1]), d);
    }
  }

  /** Members other than .BES contribute nothing; a .BES member its decoding. */
  lemma BesTextSingle(e: Entry)
    ensures BesText([e]) == if IsBesEntry(e) then DotPattern(e.content) else ""
  {
    assert [e][..0] == [];
  }

  lemma AlphabetConcat(a: string, b: string)
    requires IsDecodedText(a) && IsDecodedText(b)
    ensures IsDecodedText(a + b)
  {
    forall i | 0 <= i < |a + b| ensures IsDecodedChar((a + b)[i]) {
      if i < |a| {
        assert (a + b)[i] == a[i];
      } else {
        assert (a + b)[i] == b[i - |a|];
      }
    }
  }

  /** The braille text holds only braille cells, CR and LF. */
  lemma {:induction false} BesTextAlphabet(es: seq<Entry>)
    ensures IsDecodedText(BesText(es))
  {
    if es != [] {
      var e := es[|es| - 1];
      BesTextAlphabet(es[..|es| - 1]);
      DotPatternAlphabet(e.content);
      assert IsDecodedText("");
      AlphabetConcat(BesText(es[..|es| - 1]), if IsBesEntry(e) then DotPattern(e.content) else "");
    }
  }

  // ----------------------------------------------------------------- the title

  /** The first .BES member whose stem is neither empty nor the archive's stem. */
  function FirstOwnTitle(stem: string, es: seq<Entry>): (r: Option<string>)
    ensures r.Some? ==> r.value != "" && r.value != stem
  {
    if es == [] then None
    else if IsBesEntry(es[0]) && EntryStem(es[0]) != "" && EntryStem(es[0]) != stem then
      Some(EntryStem(es[0]))
    else FirstOwnTitle(stem, es[1..])
  }

  lemma {:induction false} FirstOwnTitleSnoc(stem: string, es: seq<Entry>, e: Entry)
    ensures FirstOwnTitle(stem, es + [e])
      == if FirstOwnTitle(stem, es).Some? then FirstOwnTitle(stem, es)
         else FirstOwnTitle(stem, [e])
  {
    if es != [] {
      assert (es + [e])[1..] == es[1..] + [e];
      FirstOwnTitleSnoc(stem, es[1..], e);
    } else {
      assert es + [e] == [e];
    }
  }

  /** A single member's own title, if it has one. */
  lemma FirstOwnTitleSingle(stem: string, e: Entry)
    ensures FirstOwnTitle(stem, [e])
      == if IsBesEntry(e) && EntryStem(e) != "" && EntryStem(e) != stem then Some(EntryStem(e)) else None
  {
    assert [e][1..] == [];
  }

  /**
   * The title is the stem of the first .BES member that has a stem of its
   * own (neither empty nor the archive's); without one it is empty or the
   * archive's stem.
   */
  lemma {:induction false} TitleChoice(stem: string, es: seq<Entry>)
    ensures FirstOwnTitle(stem, es).Some? ==> TitleFrom(stem, es) == FirstOwnTitle(stem, es).value
    ensures FirstOwnTitle(stem, es).None? ==> TitleFrom(stem, es) == "" || TitleFrom(stem, es) == stem
  {
    if es != [] {
      var init, e := es[..|es| - 1], es[|es| - 1];
      assert es == init + [e];
      TitleChoice(stem, init);
      FirstOwnTitleSnoc(stem, init, e);
      FirstOwnTitleSingle(stem, e);
    }
  }

  /** Without a .BES member the title stays the archive's stem. */
  lemma {:induction false} TitleWithoutBes(stem: string, es: seq<Entry>)
    requires forall k :: 0 <= k < |es| ==> !IsBesEntry(es[k])
    ensures TitleFrom(stem, es) == stem
  {
    if es != [] {
      TitleWithoutBes(stem, es[..|es| - 1]);
    }
  }

  // ---------------------------------------------------------------- the result

  /**
   * Extraction never raises: a fault of katakana_conv falls back to the
   * braille text, which holds only cells, CR and LF, and so does the text
   * when kana conversion is off.
   */
  lemma ExtractedOutcomes(t: Tables, filePath: string, entries: seq<Entry>, convertToKana: bool)
    ensures var r := Extracted(t, filePath, entries, convertToKana);
      && !r.Raised?
      && (r.Ok? ==> r.value.title == TitleFrom(ArchiveStem(filePath), entries))
      && ((!convertToKana || Kana.KatakanaConv(t, BesText(entries)).Raised?) ==>
            r.Ok? && r.value.text == BesText(entries) && IsDecodedText(r.value.text))
  {
    BesTextAlphabet(entries);
  }

  /**
   * Extraction diverges only where katakana_conv does, at a ⠼ that
   * numeric2_conv hands back inside an info quote.
   */
  lemma ExtractedHangs(t: Tables, filePath: string, entries: seq<Entry>, convertToKana: bool)
    ensures Extracted(t, filePath, entries, convertToKana).Hangs? ==>
      convertToKana && exists k :: 0 < k < |BesText(entries)| && InfoNote.StallAt(t, BesText(entries), k)
  {
    var text := BesText(entries);
    if Extracted(t, filePath, entries, convertToKana).Hangs? {
      assert convertToKana && Kana.KatakanaConv(t, text).Hangs?;
      Kana.KanaHangs(t, text, 0, "");
    }
  }

  /**
   * With kana conversion on, a transcription that succeeds is cleaned up by
   * Cxx, Cxx2 and Cxx3 in that order, which keep its line feeds.
   */
  lemma ExtractedKana(t: Tables, filePath: string, entries: seq<Entry>)
    requires BesText(entries) != [] && Kana.KatakanaConv(t, BesText(entries)).Ok?
    ensures var r := Extracted(t, filePath, entries, true);
      var kana := Kana.KatakanaConv(t, BesText(entries)).value;
      r.Ok? && r.value.text == PostProcess.KanaCleanup(kana)
      && Count(r.value.text, '\n') == Count(kana, '\n')
  {
    PostProcess.KanaCleanupKeepsLines(Kana.KatakanaConv(t, BesText(entries)).value);
  }
}
