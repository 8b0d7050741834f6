/**
 * How the two study-guide generators turn the model's answer into document
 * paragraphs, line by line: `create_comprehensive_study_guide` (headings of
 * level 1 to 3, bullets, numbered items, empty paragraphs for blank lines)
 * and `create_study_guide_docx` (level-2 headings and plain paragraphs,
 * blank lines skipped). The `.docx` calls become values of `Output`.
 */
module GuideLines {
  import opened Wrappers
  import opened Text

  /** One `doc.add_heading` / `doc.add_paragraph` call. */
  datatype Output =
    | EmptyParagraph
    | Heading(text: string, level: nat)
    | BulletItem(text: string)
    | NumberedItem(text: string)
    | Paragraph(text: string)

  predicate IsBulletMark(c: char) {
    c == '-' || c == '•' || c == '*'
  }

  /** `re.match(r'^\d+\.', line)`: one or more digits, then a dot. */
  predicate NumberedStart(line: string) {
    exists k :: 1 <= k < |line| && line[k] == '.' && forall m :: 0 <= m < k ==> IsDigit(line[m])
  }

  /** `line.replace('**', '')` */
  function Unbold(line: string): string {
    ReplaceAll(line, "**", "")
  }

  /** `line.startswith('**') and line.endswith('**')` */
  predicate BoldLine(line: string) {
    StartsWith(line, "**") && EndsWith(line, "**")
  }

  /** `line.lstrip('#').strip()` */
  function HashHeadingText(line: string): string {
    Strip(TrimStartChar(line, '#'))
  }

  /** The classification of one line of `ai_analysis`, first matching rule first. */
  function AutoLine(raw: string): (r: Output)
    ensures r.EmptyParagraph? <==> Strip(raw) == ""
    ensures r.Heading? ==> 1 <= r.level <= 3
    ensures r.Heading? && r.level != 2 ==> Strip(raw)[0] == '#'
  {
    var line := Strip(raw);
    if line == "" then EmptyParagraph
    else if BoldLine(line) then Heading(Unbold(line), 2)
    else if line[0] == '#' then
      var hashes := Count(line, '#');
      Heading(HashHeadingText(line), if hashes < 3 then hashes else 3)
    else if IsBulletMark(line[0]) then BulletItem(Strip(line[1..]))
    else if NumberedStart(line) then NumberedItem(line)
    else Paragraph(line)
  }

  /** The classification of one line of `study_content`; `None` for a skipped blank line. */
  function CanvasLine(raw: string): (r: Option<Output>)
    ensures r.None? <==> Strip(raw) == ""
    ensures r.Some? ==> r.value.Heading? || r.value.Paragraph?
    ensures r.Some? && r.value.Heading? ==> r.value.level == 2
  {
    var line := Strip(raw);
    if line == "" then None
    else if BoldLine(line) then Some(Heading(Unbold(line), 2))
    else if line[0] == '#' then Some(Heading(HashHeadingText(line), 2))
    else Some(Paragraph(line))
  }

  /** The paragraphs written for `ai_analysis`, one per line. */
  function AutoDocument(analysis: string): seq<Output> {
    AutoLines(Split(analysis, '\n'))
  }

  function AutoLines(lines: seq<string>): seq<Output> {
    MapLines(AutoLine, lines)
  }

  /** One output per line, in line order. */
  function MapLines(f: string -> Output, lines: seq<string>): seq<Output> {
    if lines == [] then [] else MapLines(f, lines[..|lines| - 1]) + [f(lines[|lines| - 1])]
  }

  /** The outputs of the non-skipped lines, in line order. */
  function KeepLines(f: string -> Option<Output>, lines: seq<string>): seq<Output> {
    if lines == [] then []
    else
      var last := f(lines[|lines| - 1]);
      KeepLines(f, lines[..|lines| - 1]) + (if last.Some? then [last.value] else [])
  }

  /** One output per line, each the classification of its line. */
  lemma {:induction false} MapLinesEach(f: string -> Output, lines: seq<string>)
    ensures |MapLines(f, lines)| == |lines|
    ensures forall k :: 0 <= k < |lines| ==> MapLines(f, lines)[k] == f(lines[k])
  {
    if lines != [] {
      var init := lines[..|lines| - 1];
      MapLinesEach(f, init);
      forall k | 0 <= k < |lines| ensures MapLines(f, lines)[k] == f(lines[k]) {
        if k < |init| {
          assert init[k] == lines[k];
        }
      }
    }
  }

  /** The paragraphs written for `study_content`: the non-blank lines, in order. */
  function CanvasDocument(content: string): seq<Output> {
    CanvasLines(Split(content, '\n'))
  }

  function CanvasLines(lines: seq<string>): seq<Output> {
    KeepLines(CanvasLine, lines)
  }

  /** The loop of `create_comprehensive_study_guide` over the lines of the answer. */
  method RenderAuto(analysis: string) returns (out: seq<Output>)
    ensures out == AutoDocument(analysis)
  {
    var lines := Split(analysis, '\n');
    out := [];
    for i := 0 to |lines|
      invariant out == AutoLines(lines[..i])
    {
      assert lines[..i + 1][..i] == lines[..i];
      out := out + [AutoLine(lines[i])];
    }
    assert lines[..|lines|] == lines;
  }

  /** The loop of `create_study_guide_docx`, with its `continue` on blank lines. */
  method RenderCanvas(content: string) returns (out: seq<Output>)
    ensures out == CanvasDocument(content)
  {
    var lines := Split(content, '\n');
    out := [];
    for i := 0 to |lines|
      invariant out == CanvasLines(lines[..i])
    {
      assert lines[..i + 1][..i] == lines[..i];
      var o := CanvasLine(lines[i]);
      if o.None? {
        continue;
      }
      out := out + [o.value];
    }
    assert lines[..|lines|] == lines;
  }

  /** No two stars in a row. */
  predicate NoDoubleStar(s: string) {
    forall i :: 0 <= i < |s| - 1 ==> !(s[i] == '*' && s[i + 1] == '*')
  }

  lemma UnboldKeepsFirst(s: string)
    requires s != [] && s[0] != '*'
    ensures Unbold(s) != [] && Unbold(s)[0] == s[0]
  {
  }

  /** Removing every `**` leaves no `**` behind. */
  lemma {:induction false} UnboldNoDoubleStar(s: string)
    ensures NoDoubleStar(Unbold(s))
  {
    if |s| >= 2 {
      if s[..2] == "**" {
        UnboldNoDoubleStar(s[2..]);
      } else {
        UnboldNoDoubleStar(s[1..]);
        if s[0] == '*' {
          UnboldKeepsFirst(s[1..]);
        }
        var r := Unbold(s);
        assert r == [s[0]] + Unbold(s[1..]);
        forall i | 0 <= i < |r| - 1 ensures !(r[i] == '*' && r[i + 1] == '*') {
          if i > 0 {
            assert r[i] == Unbold(s[1..])[i - 1] && r[i + 1] == Unbold(s[1..])[i];
          }
        }
      }
    }
  }

  /** A bold heading's text has every `**` removed; it keeps only characters of the line. */
  lemma BoldHeadingText(raw: string)
    requires BoldLine(Strip(raw))
    ensures AutoLine(raw).Heading? && AutoLine(raw).level == 2
    ensures NoDoubleStar(AutoLine(raw).text)
    ensures forall c :: c in AutoLine(raw).text ==> c in Strip(raw)
  {
    UnboldNoDoubleStar(Strip(raw));
    RemoveSubset(Strip(raw), "**");
  }

  /**
   * A `#` heading's level counts every `#` of the line, not only the leading
   * ones, capped at 3.
   */
  lemma HashLevelCountsAll(raw: string)
    requires Strip(raw) != [] && Strip(raw)[0] == '#' && !BoldLine(Strip(raw))
    ensures AutoLine(raw).Heading?
    ensures AutoLine(raw).level == (if Count(Strip(raw), '#') < 3 then Count(Strip(raw), '#') else 3)
    ensures AutoLine(raw).level >= 1
  {
  }

  lemma StripKeeps(s: string)
    requires s != [] && !IsSpace(s[0]) && !IsSpace(s[|s| - 1])
    ensures Strip(s) == s
  {
  }

  lemma CountHashes()
    ensures Count("#A#", '#') == 2
  {
    assert "#A#"[..2] == "#A";
    assert "#A"[..1] == "#";
  }

  /** `#A#` is a level-2 heading, because its second `#` is counted too. */
  lemma HashLevelExample()
    ensures AutoLine("#A#") == Heading("A#", 2)
  {
    StripKeeps("#A#");
    HashText();
    CountHashes();
  }

  lemma HashText()
    ensures HashHeadingText("#A#") == "A#"
  {
    var line := "#A#";
    assert line[1..] == "A#";
    assert TrimStartChar(line, '#') == TrimStartChar(line[1..], '#');
    assert TrimStartChar("A#", '#') == "A#";
    StripKeeps("A#");
  }

  /**
   * The two generators agree on which lines are blank and on which are
   * headings and with what text; only the comprehensive guide uses levels
   * other than 2.
   */
  lemma GeneratorsAgree(raw: string)
    ensures CanvasLine(raw).None? <==> AutoLine(raw).EmptyParagraph?
    ensures forall t :: CanvasLine(raw) == Some(Heading(t, 2)) <==> AutoLine(raw).Heading? && AutoLine(raw).text == t
  {
  }

  /**
   * `str.count` read from the front, which is how `split` walks the text.
   */
  lemma {:induction false} CountFront(s: string, c: char)
    requires s != []
    ensures Count(s, c) == (if s[0] == c then 1 else 0) + Count(s[1..], c)
  {
    if |s| > 1 {
      CountFront(s[..|s| - 1], c);
      assert s[..|s| - 1][1..] == s[1..][..|s[1..]| - 1];
    } else {
      assert s[1..] == [];
    }
  }

  /** `split('\n')` gives one line more than there are line breaks. */
  lemma {:induction false} SplitCount(s: string, c: char)
    ensures |Split(s, c)| == Count(s, c) + 1
  {
    if s != [] {
      SplitCount(s[1..], c);
      CountFront(s, c);
    }
  }

  /** The comprehensive guide writes one paragraph per line of the answer: blank lines included. */
  lemma AutoDocumentLength(analysis: string)
    ensures |AutoDocument(analysis)| == Count(analysis, '\n') + 1
  {
    SplitCount(analysis, '\n');
    MapLinesEach(AutoLine, Split(analysis, '\n'));
  }

  /** Every kept output comes from a line; all lines are kept exactly when none is skipped. */
  lemma {:induction false} KeepLinesFrom(f: string -> Option<Output>, lines: seq<string>)
    ensures |KeepLines(f, lines)| <= |lines|
    ensures forall o :: o in KeepLines(f, lines) ==> exists k :: 0 <= k < |lines| && f(lines[k]) == Some(o)
    ensures |KeepLines(f, lines)| == |lines| <==> forall k :: 0 <= k < |lines| ==> f(lines[k]).Some?
  {
    if lines != [] {
      var init := lines[..|lines| - 1];
      KeepLinesFrom(f, init);
      forall o | o in KeepLines(f, lines) ensures exists k :: 0 <= k < |lines| && f(lines[k]) == Some(o) {
        if o in KeepLines(f, init) {
          var k :| 0 <= k < |init| && f(init[k]) == Some(o);
          assert lines[k] == init[k];
        }
      }
      if forall k :: 0 <= k < |lines| ==> f(lines[k]).Some? {
        forall k | 0 <= k < |init| ensures f(init[k]).Some? {
          assert init[k] == lines[k];
        }
      }
      if forall k :: 0 <= k < |init| ==> f(init[k]).Some? {
        if f(lines[|lines| - 1]).Some? {
          forall k | 0 <= k < |lines| ensures f(lines[k]).Some? {
            if k < |init| {
              assert lines[k] == init[k];
            }
          }
        }
      }
    }
  }

  /**
   * The other guide writes only headings and paragraphs, each from a
   * non-blank line, and as many as there are lines only when no line is blank.
   */
  lemma CanvasDocumentLines(content: string)
    ensures forall o :: o in CanvasDocument(content) ==> o.Paragraph? || (o.Heading? && o.level == 2)
    ensures |CanvasDocument(content)| <= Count(content, '\n') + 1
    ensures |CanvasDocument(content)| == Count(content, '\n') + 1 <==>
            forall k :: 0 <= k < |Split(content, '\n')| ==> Strip(Split(content, '\n')[k]) != ""
  {
    var lines := Split(content, '\n');
    SplitCount(content, '\n');
    KeepLinesFrom(CanvasLine, lines);
  }
}
