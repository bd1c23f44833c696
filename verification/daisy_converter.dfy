/**
 * daisyConverter: recognising a DAISY archive from its member names
 * (get_daisy_type, is_daisy_file) and serialising extracted DAISY content
 * as one navigable HTML page (generate_html).
 *
 * An archive is given by its member names, or `None` when it cannot be
 * opened; extracting the sections from the archive is not part of this model.
 */
module DaisyConverter {
  import opened Strings
  import PostProcess

  // ------------------------------------------------------------ classification

  /** A DAISY 2.02 navigation control centre: the name contains "ncc.html" or "ncc.htm". */
  predicate IsNccName(n: string)
  {
    Occurs(n, "ncc.html") || Occurs(n, "ncc.htm")
  }

  /** Some lower-cased name is a navigation control centre. */
  function AnyNcc(names: seq<string>): (b: bool)
    ensures b <==> exists k :: 0 <= k < |names| && IsNccName(AsciiLower(names[k]))
  {
    if names == [] then false
    else if IsNccName(AsciiLower(names[0])) then true
    else
      var b := AnyNcc(names[1..]);
      assert forall k :: 1 <= k < |names| ==> names[k] == names[1..][k - 1];
      b
  }

  /** Some lower-cased name ends with `suffix`. */
  function AnyEndsWith(names: seq<string>, suffix: string): (b: bool)
    ensures b <==> exists k :: 0 <= k < |names| && EndsWith(AsciiLower(names[k]), suffix)
  {
    if names == [] then false
    else if EndsWith(AsciiLower(names[0]), suffix) then true
    else
      var b := AnyEndsWith(names[1..], suffix);
      assert forall k :: 1 <= k < |names| ==> names[k] == names[1..][k - 1];
      b
  }

  /** get_daisy_type: "2.02" for an NCC, else "3" for a package file, else nothing. */
  function GetDaisyType(archive: Option<seq<string>>): Option<string>
  {
    match archive
    case None => None
    case Some(names) =>
      if AnyNcc(names) then Some("2.02")
      else if AnyEndsWith(names, ".opf") then Some("3")
      else None
  }

  /** is_daisy_file: an NCC, a package file or a SMIL file among the names. */
  predicate IsDaisyFile(archive: Option<seq<string>>)
  {
    match archive
    case None => false
    case Some(names) => AnyNcc(names) || AnyEndsWith(names, ".opf") || AnyEndsWith(names, ".smil")
  }

  /**
   * The type is "2.02" exactly when some name holds an NCC, "3" exactly when
   * none does and some name is a package file; an archive that cannot be
   * opened has no type.
   */
  lemma DaisyTypeCases(archive: Option<seq<string>>)
    ensures archive.None? ==> GetDaisyType(archive).None?
    ensures archive.Some? ==>
      var names := archive.value;
      var ncc := exists k :: 0 <= k < |names| && IsNccName(AsciiLower(names[k]));
      var opf := exists k :: 0 <= k < |names| && EndsWith(AsciiLower(names[k]), ".opf");
      && (GetDaisyType(archive) == Some("2.02") <==> ncc)
      && (GetDaisyType(archive) == Some("3") <==> !ncc && opf)
      && (GetDaisyType(archive).None? <==> !ncc && !opf)
  {
    if archive.Some? {
      var names := archive.value;
      var _ := AnyNcc(names);
      var _ := AnyEndsWith(names, ".opf");
    }
  }

  /** An archive is DAISY exactly when it has a type or holds a SMIL file. */
  lemma DaisyFileIffTyped(archive: Option<seq<string>>)
    ensures IsDaisyFile(archive) <==>
      GetDaisyType(archive).Some?
      || (archive.Some? && exists k :: 0 <= k < |archive.value| && EndsWith(AsciiLower(archive.value[k]), ".smil"))
  {
    if archive.Some? {
      var _ := AnyEndsWith(archive.value, ".smil");
    }
  }

  /** Every name containing "ncc.html" contains "ncc.htm": the second test decides alone. */
  lemma NccShortSuffices(n: string)
    ensures IsNccName(n) <==> Occurs(n, "ncc.htm")
  {
    if Occurs(n, "ncc.html") {
      var i :| 0 <= i <= |n| && OccursAt(n, "ncc.html", i);
      assert n[i..i + 7] == n[i..i + 8][..7];
      assert OccursAt(n, "ncc.htm", i);
    }
  }

  // ------------------------------------------------------------------ escaping

  /** Every `c` in `s` replaced by `rep`, character by character. */
  function Subst(s: string, c: char, rep: string): string
  {
    if s == [] then [] else (if s[0] == c then rep else [s[0]]) + Subst(s[1..], c, rep)
  }

  lemma {:induction false} SubstConcat(a: string, b: string, c: char, rep: string)
    ensures Subst(a + b, c, rep) == Subst(a, c, rep) + Subst(b, c, rep)
  {
    if a == [] {
      assert a + b == b;
    } else {
      assert (a + b)[1..] == a[1..] + b;
      SubstConcat(a[1..], b, c, rep);
      AppendAssoc(if a[0] == c then rep else [a[0]], Subst(a[1..], c, rep), Subst(b, c, rep));
    }
  }

  lemma {:induction false} SubstAbsent(s: string, c: char, rep: string)
    requires c !in s
    ensures Subst(s, c, rep) == s
  {
    if s != [] {
      assert s == [s[0]] + s[1..];
      SubstAbsent(s[1..], c, rep);
    }
  }

  /** Python's `s.replace(c, rep)` for a one-character pattern substitutes character by character. */
  lemma {:induction false} ReplaceOneChar(s: string, c: char, rep: string)
    ensures ReplaceAll(s, [c], rep) == Subst(s, c, rep)
  {
    if s != [] {
      assert s[..1] == [s[0]];
      ReplaceOneChar(s[1..], c, rep);
    }
  }

  /** The content escape generate_html applies: "&" first, then "<", then ">". */
  function EscapeContent(s: string): string
  {
    ReplaceAll(ReplaceAll(ReplaceAll(s, "&", "&amp;"), "<", "&lt;"), ">", "&gt;")
  }

  function EscapeChar(x: char): (r: string)
    ensures '<' !in r && '>' !in r
  {
    if x == '&' then "&amp;" else if x == '<' then "&lt;" else if x == '>' then "&gt;" else [x]
  }

  /** The escape written character by character; it leaves no raw angle bracket. */
  function Escape(s: string): (r: string)
    ensures '<' !in r && '>' !in r
  {
    if s == [] then [] else EscapeChar(s[0]) + Escape(s[1..])
  }

  /** The three chained replacements are the character-wise escape: "&amp;" is never escaped again. */
  lemma {:induction false} EscapeContentCharwise(s: string)
    ensures EscapeContent(s) == Escape(s)
  {
    ReplaceOneChar(s, '&', "&amp;");
    ReplaceOneChar(Subst(s, '&', "&amp;"), '<', "&lt;");
    ReplaceOneChar(Subst(Subst(s, '&', "&amp;"), '<', "&lt;"), '>', "&gt;");
    SubstChain(s);
  }

  lemma {:induction false} SubstChain(s: string)
    ensures Subst(Subst(Subst(s, '&', "&amp;"), '<', "&lt;"), '>', "&gt;") == Escape(s)
  {
    if s != [] {
      var x, rest := s[0], s[1..];
      var a := if x == '&' then "&amp;" else [x];
      var l := if a == ['<'] then "&lt;" else a;
      assert Subst(s, '&', "&amp;") == a + Subst(rest, '&', "&amp;");
      SubstConcat(a, Subst(rest, '&', "&amp;"), '<', "&lt;");
      if x == '<' {
        assert Subst(a, '<', "&lt;") == "&lt;" by { assert a[1..] == []; }
      } else {
        SubstAbsent(a, '<', "&lt;");
      }
      assert Subst(a, '<', "&lt;") == l;
      SubstConcat(l, Subst(Subst(rest, '&', "&amp;"), '<', "&lt;"), '>', "&gt;");
      if x == '>' {
        assert Subst(l, '>', "&gt;") == "&gt;" by { assert l[1..] == []; }
      } else {
        SubstAbsent(l, '>', "&gt;");
      }
      SubstChain(rest);
    }
  }

  /** Reading the three entities back. */
  function Unescape(t: string): string
    decreases |t|
  {
    if t == [] then []
    else if StartsWith(t, "&amp;") then "&" + Unescape(t[5..])
    else if StartsWith(t, "&lt;") then "<" + Unescape(t[4..])
    else if StartsWith(t, "&gt;") then ">" + Unescape(t[4..])
    else [t[0]] + Unescape(t[1..])
  }

  /** Unescaping the escaped content gives the content back. */
  lemma {:induction false} UnescapeEscape(s: string)
    ensures Unescape(EscapeContent(s)) == s
  {
    EscapeContentCharwise(s);
    UnescapeCharwise(s);
  }

  lemma {:induction false} UnescapeCharwise(s: string)
    ensures Unescape(Escape(s)) == s
  {
    if s != [] {
      UnescapeStep(s[0], Escape(s[1..]));
      UnescapeCharwise(s[1..]);
      assert s == [s[0]] + s[1..];
    }
  }

  /** One escaped character is read back before the rest. */
  lemma UnescapeStep(x: char, rest: string)
    ensures Unescape(EscapeChar(x) + rest) == [x] + Unescape(rest)
  {
    var e := EscapeChar(x);
    var t := e + rest;
    assert t[..|e|] == e && t[|e|..] == rest;
    if x == '&' {
      assert StartsWith(t, "&amp;");
      assert Unescape(t) == "&" + Unescape(t[5..]);
    } else if x == '<' {
      assert t[1] == 'l';
      assert StartsWith(t, "&lt;");
      assert Unescape(t) == "<" + Unescape(t[4..]);
    } else if x == '>' {
      assert t[1] == 'g';
      assert StartsWith(t, "&gt;");
      assert Unescape(t) == ">" + Unescape(t[4..]);
    } else {
      assert t[0] == x && t[1..] == rest;
      assert !StartsWith(t, "&amp;") && !StartsWith(t, "&lt;") && !StartsWith(t, "&gt;");
      assert Unescape(t) == [t[0]] + Unescape(t[1..]);
    }
  }

  // ---------------------------------------------------------------------- HTML

  /** A section of extracted content; `None` is a key the section does not have. */
  datatype Section = Section(level: Option<int>, title: Option<string>, content: Option<string>)

  /** Extracted content: its title, if any, and its sections. */
  datatype DaisyContent = DaisyContent(title: Option<string>, sections: seq<Section>)

  const DefaultTitle: string := "DAISY図書"

  function Title(c: DaisyContent): string
  {
    if c.title.Some? then c.title.value else DefaultTitle
  }

  function Level(s: Section): int
  {
    if s.level.Some? then s.level.value else 1
  }

  /** The section's title, or "セクション n" numbered from one. */
  function SectionTitle(i: nat, s: Section): string
  {
    if s.title.Some? then s.title.value else "セクション " + NatToString(i + 1)
  }

  function Content(s: Section): string
  {
    if s.content.Some? then s.content.value else ""
  }

  /** The fragment name of section `i`. */
  function Anchor(i: nat): string
  {
    "section" + NatToString(i)
  }

  /** The heading element of a section: its level capped at 6. */
  function HeadingTag(s: Section): string
  {
    "h" + IntToString(Min(Level(s), 6))
  }

  /** The opening line of section `i`, carrying its anchor as id. */
  function SectionDiv(i: nat): string
  {
    "<div class=\"section\" id=\"" + Anchor(i) + "\">"
  }

  /** The table-of-contents entry of section `i`, indented by level - 1 ideographic spaces. */
  function TocLine(i: nat, s: Section): string
  {
    "<li>" + Repeat([PostProcess.IdeoSpace], Level(s) - 1)
      + "<a href=\"#" + Anchor(i) + "\">" + SectionTitle(i, s) + "</a></li>"
  }

  /** The lines of section `i`: its div, its heading, its escaped content unless empty, the closing tag. */
  function SectionLines(i: nat, s: Section): seq<string>
  {
    var tag := HeadingTag(s);
    [SectionDiv(i)] + ["<" + tag + ">" + SectionTitle(i, s) + "</" + tag + ">"]
      + (if Content(s) != "" then ["<div class=\"content\">" + EscapeContent(Content(s)) + "</div>"] else [])
      + ["</div>"]
  }

  /** The lines before the title. */
  const Preamble: seq<string> := ["<!DOCTYPE html>", "<html lang=\"ja\">", "<head>", "<meta charset=\"UTF-8\">"]

  /** The embedded style sheet, its tags included. */
  const StyleSheet: seq<string> :=
    [ "<style>",
      "body { font-family: \"メイリオ\", \"Meiryo\", sans-serif; max-width: 800px; margin: 0 auto; padding: 20px; line-height: 1.8; }",
      "h1 { border-bottom: 2px solid #333; padding-bottom: 10px; }",
      "h2 { border-left: 4px solid #666; padding-left: 10px; margin-top: 2em; }",
      "h3 { margin-top: 1.5em; }",
      "nav { background: #f5f5f5; padding: 15px; margin-bottom: 20px; }",
      "nav h2 { margin-top: 0; }",
      "nav ul { list-style: none; padding-left: 0; }",
      "nav li { margin: 5px 0; }",
      "nav a { text-decoration: none; color: #0066cc; }",
      "nav a:hover { text-decoration: underline; }",
      ".section { margin-bottom: 2em; }",
      ".content { white-space: pre-wrap; }",
      "</style>" ]

  /** Document head, style sheet and the page heading. */
  function HeadLines(title: string): seq<string>
  {
    Preamble + ["<title>" + title + "</title>"] + StyleSheet + ["</head>", "<body>", "<h1>" + title + "</h1>"]
  }

  const TocOpen: seq<string> := ["<nav>", "<h2>目次</h2>", "<ul>"]
  const TocClose: seq<string> := ["</ul>", "</nav>"]
  const PageEnd: seq<string> := ["</body>", "</html>"]

  /** The entries of the first `n` sections. */
  function TocLines(ss: seq<Section>, n: nat): seq<string>
    requires n <= |ss|
  {
    if n == 0 then [] else TocLines(ss, n - 1) + [TocLine(n - 1, ss[n - 1])]
  }

  /** The table of contents: only when there are sections. */
  function TocBlock(ss: seq<Section>): seq<string>
  {
    if ss == [] then [] else TocOpen + TocLines(ss, |ss|) + TocClose
  }

  /** The lines of the first `n` sections. */
  function BodyLines(ss: seq<Section>, n: nat): seq<string>
    requires n <= |ss|
  {
    if n == 0 then [] else BodyLines(ss, n - 1) + SectionLines(n - 1, ss[n - 1])
  }

  /** All lines of the page, in order. */
  function HtmlParts(c: DaisyContent): seq<string>
  {
    HeadLines(Title(c)) + TocBlock(c.sections) + BodyLines(c.sections, |c.sections|) + PageEnd
  }

  /** The lines of one section, appended as generate_html appends them. */
  method SectionPart(i: nat, s: Section) returns (lines: seq<string>)
    ensures lines == SectionLines(i, s)
  {
    var level := Min(Level(s), 6);
    var sectionTitle := SectionTitle(i, s);
    var content := Content(s);
    var tag := "h" + IntToString(level);
    lines := ["<div class=\"section\" id=\"" + Anchor(i) + "\">"];
    lines := lines + ["<" + tag + ">" + sectionTitle + "</" + tag + ">"];
    ghost var opening := lines;
    if content != "" {
      content := ReplaceAll(content, "&", "&amp;");
      content := ReplaceAll(content, "<", "&lt;");
      content := ReplaceAll(content, ">", "&gt;");
      lines := lines + ["<div class=\"content\">" + content + "</div>"];
    } else {
      assert lines == opening + [];
    }
    lines := lines + ["</div>"];
  }

  /** The table-of-contents entries, one per section in order. */
  method TocPart(sections: seq<Section>) returns (lines: seq<string>)
    ensures lines == TocLines(sections, |sections|)
  {
    lines := [];
    var i := 0;
    while i < |sections|
      invariant 0 <= i <= |sections|
      invariant lines == TocLines(sections, i)
    {
      var indent := Repeat([PostProcess.IdeoSpace], Level(sections[i]) - 1);
      var sectionTitle := SectionTitle(i, sections[i]);
      lines := lines + ["<li>" + indent + "<a href=\"#" + Anchor(i) + "\">" + sectionTitle + "</a></li>"];
      i := i + 1;
    }
  }

  /** The section blocks, in order. */
  method BodyPart(sections: seq<Section>) returns (lines: seq<string>)
    ensures lines == BodyLines(sections, |sections|)
  {
    lines := [];
    var i := 0;
    while i < |sections|
      invariant 0 <= i <= |sections|
      invariant lines == BodyLines(sections, i)
    {
      var block := SectionPart(i, sections[i]);
      lines := lines + block;
      i := i + 1;
    }
  }

  /**
   * generate_html: the head, a table of contents when there are sections,
   * one block per section and the closing tags, joined by line feeds.
   */
  method GenerateHtml(c: DaisyContent) returns (html: string)
    ensures html == Join(HtmlParts(c), "\n")
  {
    var title := Title(c);
    var sections := c.sections;
    var parts := HeadLines(title);
    var toc: seq<string> := [];
    if |sections| > 0 {
      var entries := TocPart(sections);
      toc := TocOpen + entries + TocClose;
    }
    parts := parts + toc;
    var body := BodyPart(sections);
    parts := parts + body;
    parts := parts + PageEnd;
    html := Join(parts, "\n");
  }

  // ------------------------------------------------------------- page layout

  lemma {:induction false} JoinEndsWithLast(ps: seq<string>, sep: string)
    requires ps != []
    ensures EndsWith(Join(ps, sep), ps[|ps| - 1])
  {
    if |ps| > 1 {
      JoinEndsWithLast(ps[1..], sep);
      var j := Join(ps[1..], sep);
      var last := ps[|ps| - 1];
      assert ps[1..][|ps[1..]| - 1] == last;
      AppendAssoc(ps[0], sep, j);
      var pre := ps[0] + sep;
      assert (pre + j)[|pre + j| - |last|..] == j[|j| - |last|..];
    }
  }

  /** The head's shape: 22 lines, the document type first, the title in `title` and in `h1`. */
  lemma HeadShape(title: string)
    ensures |HeadLines(title)| == 22
    ensures HeadLines(title)[0] == "<!DOCTYPE html>"
    ensures HeadLines(title)[4] == "<title>" + title + "</title>"
    ensures HeadLines(title)[21] == "<h1>" + title + "</h1>"
  {
  }

  /** The page starts with the document type, ends with the closing html tag and carries the title twice. */
  lemma HtmlFraming(c: DaisyContent)
    ensures StartsWith(Join(HtmlParts(c), "\n"), "<!DOCTYPE html>")
    ensures EndsWith(Join(HtmlParts(c), "\n"), "</html>")
    ensures HtmlParts(c)[4] == "<title>" + Title(c) + "</title>"
    ensures HtmlParts(c)[21] == "<h1>" + Title(c) + "</h1>"
  {
    var head := HeadLines(Title(c));
    HeadShape(Title(c));
    var ps := HtmlParts(c);
    var rest := TocBlock(c.sections) + BodyLines(c.sections, |c.sections|) + PageEnd;
    AppendAssoc(head + TocBlock(c.sections), BodyLines(c.sections, |c.sections|), PageEnd);
    AppendAssoc(head, TocBlock(c.sections), BodyLines(c.sections, |c.sections|) + PageEnd);
    assert ps == head + rest;
    assert ps[0] == head[0] && ps[4] == head[4] && ps[21] == head[21];
    assert ps[|ps| - 1] == "</html>";
    JoinEndsWithLast(ps, "\n");
    var j := Join(ps, "\n");
    assert j[..|ps[0]|] == ps[0];
  }

  /** Without sections the page is the head and the closing tags: no table of contents. */
  lemma HtmlWithoutSections(c: DaisyContent)
    requires c.sections == []
    ensures HtmlParts(c) == HeadLines(Title(c)) + PageEnd
    ensures |HtmlParts(c)| == 24
  {
    HeadShape(Title(c));
    assert HeadLines(Title(c)) + [] + [] == HeadLines(Title(c));
  }

  lemma {:induction false} TocLinesLength(ss: seq<Section>, n: nat)
    requires n <= |ss|
    ensures |TocLines(ss, n)| == n
  {
    if n > 0 {
      TocLinesLength(ss, n - 1);
    }
  }

  lemma {:induction false} TocLineAt(ss: seq<Section>, n: nat, i: nat)
    requires i < n <= |ss|
    ensures |TocLines(ss, n)| == n && TocLines(ss, n)[i] == TocLine(i, ss[i])
  {
    TocLinesLength(ss, n - 1);
    if i < n - 1 {
      TocLineAt(ss, n - 1, i);
    }
  }

  /** The table of contents placed after a 22-line head, before any other lines. */
  lemma TocAfterHead(head: seq<string>, ss: seq<Section>, rest: seq<string>)
    requires |head| == 22 && ss != []
    ensures var n := |ss|; var ps := head + TocBlock(ss) + rest;
      && |ps| > 26 + n
      && ps[22] == "<nav>" && ps[24] == "<ul>"
      && (forall i :: 0 <= i < n ==> ps[25 + i] == TocLine(i, ss[i]))
      && ps[25 + n] == "</ul>" && ps[26 + n] == "</nav>"
  {
    var n := |ss|;
    var entries := TocLines(ss, n);
    TocLinesLength(ss, n);
    var front := head + TocOpen;
    var fe, tail := front + entries, TocClose + rest;
    assert |front| == 25 && |fe| == 25 + n;
    var ps := head + TocBlock(ss) + rest;
    assert ps == fe + tail by {
      AppendAssoc(head, TocOpen + entries, TocClose);
      AppendAssoc(head, TocOpen, entries);
      AppendAssoc(fe, TocClose, rest);
    }
    assert ps[22] == front[22] && ps[24] == front[24];
    assert ps[25 + n] == tail[0] && ps[26 + n] == tail[1];
    forall i | 0 <= i < n ensures ps[25 + i] == TocLine(i, ss[i]) {
      TocLineAt(ss, n, i);
      assert ps[25 + i] == fe[25 + i] == entries[i];
    }
  }

  /**
   * With sections, the table of contents follows the head: "<nav>", its
   * heading, "<ul>", then one entry per section in order, then "</ul>" and
   * "</nav>".
   */
  lemma HtmlToc(c: DaisyContent)
    requires c.sections != []
    ensures var n := |c.sections|;
      && |HtmlParts(c)| > 26 + n
      && HtmlParts(c)[22] == "<nav>"
      && HtmlParts(c)[24] == "<ul>"
      && (forall i :: 0 <= i < n ==> HtmlParts(c)[25 + i] == TocLine(i, c.sections[i]))
      && HtmlParts(c)[25 + n] == "</ul>"
      && HtmlParts(c)[26 + n] == "</nav>"
  {
    var ss := c.sections;
    var head, toc, body := HeadLines(Title(c)), TocBlock(ss), BodyLines(ss, |ss|);
    HeadShape(Title(c));
    AppendAssoc(head + toc, body, PageEnd);
    TocAfterHead(head, ss, body + PageEnd);
  }

  lemma StartsWithAppend(a: string, b: string)
    ensures StartsWith(a + b, a)
  {
    assert (a + b)[..|a|] == a;
  }

  /** Entry `i` opens with "<li>", the indent of level - 1 ideographic spaces and the link to "#section{i}". */
  lemma TocEntryLinks(i: nat, s: Section)
    ensures StartsWith(TocLine(i, s),
      "<li>" + Repeat([PostProcess.IdeoSpace], Level(s) - 1) + "<a href=\"#" + Anchor(i) + "\">")
  {
    var link := "<li>" + Repeat([PostProcess.IdeoSpace], Level(s) - 1) + "<a href=\"#" + Anchor(i) + "\">";
    StartsWithAppend(link + SectionTitle(i, s), "</a></li>");
    StartsWithAppend(link, SectionTitle(i, s));
  }

  /** The first `n` sections' lines hold the opening div of each. */
  lemma {:induction false} BodyHasDivs(ss: seq<Section>, n: nat, i: nat)
    requires i < n <= |ss|
    ensures SectionDiv(i) in BodyLines(ss, n)
  {
    var a, b := BodyLines(ss, n - 1), SectionLines(n - 1, ss[n - 1]);
    if i < n - 1 {
      BodyHasDivs(ss, n - 1, i);
      assert SectionDiv(i) in a + b;
    } else {
      assert (a + b)[|a|] == SectionDiv(i);
    }
  }

  lemma InMiddle(a: seq<string>, b: seq<string>, c: seq<string>, x: string)
    requires x in b
    ensures x in a + b + c
  {
    var k :| 0 <= k < |b| && b[k] == x;
    assert (a + b + c)[|a| + k] == x;
  }

  /** Every link of the table of contents resolves: the page holds the div with id "section{i}". */
  lemma TocLinksResolve(c: DaisyContent, i: nat)
    requires i < |c.sections|
    ensures SectionDiv(i) in HtmlParts(c)
  {
    var ss := c.sections;
    BodyHasDivs(ss, |ss|, i);
    InMiddle(HeadLines(Title(c)) + TocBlock(ss), BodyLines(ss, |ss|), PageEnd, SectionDiv(i));
  }

  /** Distinct sections carry distinct ids. */
  lemma SectionDivsDistinct(i: nat, j: nat)
    requires i != j
    ensures SectionDiv(i) != SectionDiv(j)
  {
    var p := "<div class=\"section\" id=\"section";
    var di, dj := NatToString(i), NatToString(j);
    assert SectionDiv(i) == p + di + "\">";
    assert SectionDiv(j) == p + dj + "\">";
    if SectionDiv(i) == SectionDiv(j) {
      assert |di| == |dj|;
      assert di == SectionDiv(i)[|p|..|p| + |di|];
      assert dj == SectionDiv(j)[|p|..|p| + |dj|];
      NatToStringInjective(i, j);
    }
  }

  /** A section's heading is h1 to h6 for a positive level, and h6 from level 6 on. */
  lemma HeadingLevels(s: Section)
    ensures Level(s) >= 1 ==>
      |HeadingTag(s)| == 2 && HeadingTag(s)[0] == 'h' && '1' <= HeadingTag(s)[1] <= '6'
    ensures Level(s) >= 6 ==> HeadingTag(s) == "h6"
  {
    var d := Min(Level(s), 6);
    if 1 <= d {
      assert NatToString(d) == [DigitChar(d)];
      assert HeadingTag(s) == ['h', DigitChar(d)];
    }
  }

  /**
   * The content line is present exactly when the content is non-empty, and
   * holds the escaped content, which has no raw angle bracket and unescapes
   * to the content.
   */
  lemma SectionContent(i: nat, s: Section)
    ensures |SectionLines(i, s)| == if Content(s) != "" then 4 else 3
    ensures Content(s) != "" ==>
      var e := EscapeContent(Content(s));
      SectionLines(i, s)[2] == "<div class=\"content\">" + e + "</div>"
      && '<' !in e && '>' !in e && Unescape(e) == Content(s)
  {
    EscapeContentCharwise(Content(s));
    UnescapeEscape(Content(s));
  }
}
