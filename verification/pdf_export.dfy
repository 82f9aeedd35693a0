/** The PDF export of a prompt, up to the drawing library: the story of
    flowables handed to the document builder. The title comes first, then
    one paragraph per metadata entry, then one code paragraph per prompt
    line, with the line's markup characters escaped. Directory creation,
    the library import and the rendering itself are not modelled. */
module PdfExport {
  import opened PyText

  /** The sample style sheet entries the export uses. */
  datatype Style = TitleStyle | BodyText | Code

  datatype Flowable = Paragraph(text: string, style: Style) | Spacer(height: nat)

  // ---------------------------------------------------------------------
  // Escaping one line
  // ---------------------------------------------------------------------

  /** `line.replace("&", "&amp;").replace("<", "&lt;").replace(">", "&gt;")`. */
  function EscapeLine(line: string): string {
    ReplaceChar(ReplaceChar(ReplaceChar(line, '&', "&amp;"), '<', "&lt;"), '>', "&gt;")
  }

  /** What each character becomes. */
  function EscapeChar(c: char): string {
    if c == '&' then "&amp;" else if c == '<' then "&lt;" else if c == '>' then "&gt;" else [c]
  }

  /** Reference definition: every character escaped on its own. */
  function EscapeEach(s: string): string {
    if |s| == 0 then "" else EscapeChar(s[0]) + EscapeEach(s[1..])
  }

  lemma ReplaceCharSingle(c: char, x: char, rep: string)
    ensures ReplaceChar([c], x, rep) == if c == x then rep else [c]
  {
    assert [c][1..] == "";
  }

  /** The three chained replacements, applied to one character. */
  lemma EscapeOneChar(c: char)
    ensures EscapeLine([c]) == EscapeChar(c)
  {
    var amp, lt, gt := "&amp;", "&lt;", "&gt;";
    var r1 := ReplaceChar([c], '&', amp);
    assert r1 == if c == '&' then amp else [c] by { ReplaceCharSingle(c, '&', amp); }
    var r2 := ReplaceChar(r1, '<', lt);
    assert r2 == if c == '&' then amp else if c == '<' then lt else [c] by {
      if c == '&' { ReplaceCharAbsent(amp, '<', lt); } else { ReplaceCharSingle(c, '<', lt); }
    }
    assert EscapeLine([c]) == ReplaceChar(r2, '>', gt);
    if c == '&' {
      ReplaceCharAbsent(amp, '>', gt);
    } else if c == '<' {
      ReplaceCharAbsent(lt, '>', gt);
    } else {
      ReplaceCharSingle(c, '>', gt);
    }
  }

  /** Because `&` is replaced first, the chain escapes each character
      exactly once: an entity introduced by a later step is never escaped again. */
  lemma {:induction false} EscapeLineIsPerChar(s: string)
    ensures EscapeLine(s) == EscapeEach(s)
    decreases |s|
  {
    if |s| > 0 {
      EscapeLineIsPerChar(s[1..]);
      EscapeLineAppend([s[0]], s[1..]);
      assert s == [s[0]] + s[1..];
      EscapeOneChar(s[0]);
    }
  }

  /** Escaping distributes over concatenation. */
  lemma EscapeLineAppend(a: string, b: string)
    ensures EscapeLine(a + b) == EscapeLine(a) + EscapeLine(b)
  {
    ReplaceCharAppend(a, b, '&', "&amp;");
    var a1, b1 := ReplaceChar(a, '&', "&amp;"), ReplaceChar(b, '&', "&amp;");
    ReplaceCharAppend(a1, b1, '<', "&lt;");
    var a2, b2 := ReplaceChar(a1, '<', "&lt;"), ReplaceChar(b1, '<', "&lt;");
    ReplaceCharAppend(a2, b2, '>', "&gt;");
  }

  /** Reading the entities back. */
  function Unescape(s: string): string
    decreases |s|
  {
    if |s| == 0 then ""
    else if StartsWith(s, "&amp;") then "&" + Unescape(s[5..])
    else if StartsWith(s, "&lt;") then "<" + Unescape(s[4..])
    else if StartsWith(s, "&gt;") then ">" + Unescape(s[4..])
    else [s[0]] + Unescape(s[1..])
  }

  lemma UnescapeAfterChar(c: char, rest: string)
    ensures Unescape(EscapeChar(c) + rest) == [c] + Unescape(rest)
  {
    var e := EscapeChar(c);
    var s := e + rest;
    assert s[..|e|] == e && s[|e|..] == rest;
    if c == '&' {
      assert Unescape(s) == [c] + Unescape(rest) by {
        assert StartsWith(s, "&amp;");
      }
    } else if c == '<' {
      assert Unescape(s) == [c] + Unescape(rest) by {
        assert e[1] == 'l';
        assert !StartsWith(s, "&amp;") && StartsWith(s, "&lt;");
      }
    } else if c == '>' {
      assert Unescape(s) == [c] + Unescape(rest) by {
        assert e[1] == 'g';
        assert !StartsWith(s, "&amp;") && !StartsWith(s, "&lt;") && StartsWith(s, "&gt;");
      }
    } else {
      assert Unescape(s) == [c] + Unescape(rest) by {
        assert s[0] == c;
      }
    }
  }

  /** Escaping loses nothing: the original line can always be read back. */
  lemma {:induction false} UnescapeEscape(s: string)
    ensures Unescape(EscapeLine(s)) == s
    decreases |s|
  {
    EscapeLineIsPerChar(s);
    if |s| > 0 {
      UnescapeEscape(s[1..]);
      EscapeLineIsPerChar(s[1..]);
      UnescapeAfterChar(s[0], EscapeEach(s[1..]));
      assert s == [s[0]] + s[1..];
    }
  }

  /** An escaped line holds no markup brackets, and is empty only when the line is. */
  lemma {:induction false} EscapedIsPlain(s: string)
    ensures '<' !in EscapeLine(s) && '>' !in EscapeLine(s)
    ensures EscapeLine(s) == "" <==> s == ""
    decreases |s|
  {
    EscapeLineIsPerChar(s);
    if |s| > 0 {
      EscapedIsPlain(s[1..]);
      EscapeLineIsPerChar(s[1..]);
      var head := EscapeChar(s[0]);
      assert '<' !in head && '>' !in head && |head| > 0;
      assert EscapeEach(s) == head + EscapeEach(s[1..]);
    }
  }

  // ---------------------------------------------------------------------
  // The story
  // ---------------------------------------------------------------------

  /** `f"<b>{key}:</b> {value}"`: metadata goes in as markup, unescaped. */
  function MetadataText(key: string, value: string): string {
    "<b>" + key + ":</b> " + value
  }

  /** A paragraph and a small spacer per metadata entry, in insertion order. */
  function MetadataStory(metadata: seq<(string, string)>): (r: seq<Flowable>)
    ensures |r| == 2 * |metadata|
  {
    seq(2 * |metadata|, i requires 0 <= i < 2 * |metadata| =>
      if i % 2 == 0 then Paragraph(MetadataText(metadata[i / 2].0, metadata[i / 2].1), BodyText) else Spacer(6))
  }

  /** A prompt line as a code paragraph; an empty line becomes a single space. */
  function CodeParagraph(line: string): Flowable {
    var safe := EscapeLine(line);
    Paragraph(if safe != "" then safe else " ", Code)
  }

  /** `export_prompt_to_pdf`'s story. */
  function Story(titulo: string, metadata: seq<(string, string)>, prompt: string): (r: seq<Flowable>)
    ensures |r| == 3 + 2 * |metadata| + |SplitLines(prompt)|
  {
    var lines := SplitLines(prompt);
    [Paragraph(titulo, TitleStyle), Spacer(12)]
      + MetadataStory(metadata)
      + [Spacer(12)]
      + seq(|lines|, j requires 0 <= j < |lines| => CodeParagraph(lines[j]))
  }

  /** The title opens the story, the metadata follows in order, and then
      come the prompt's lines in order, one code paragraph each. */
  lemma StoryOrder(titulo: string, metadata: seq<(string, string)>, prompt: string)
    ensures Story(titulo, metadata, prompt)[0] == Paragraph(titulo, TitleStyle)
    ensures forall k :: 0 <= k < |metadata| ==>
              Story(titulo, metadata, prompt)[2 + 2 * k] == Paragraph(MetadataText(metadata[k].0, metadata[k].1), BodyText)
    ensures forall j :: 0 <= j < |SplitLines(prompt)| ==>
              Story(titulo, metadata, prompt)[3 + 2 * |metadata| + j] == CodeParagraph(SplitLines(prompt)[j])
  {
    var s := Story(titulo, metadata, prompt);
    var m := MetadataStory(metadata);
    forall k | 0 <= k < |metadata|
      ensures s[2 + 2 * k] == Paragraph(MetadataText(metadata[k].0, metadata[k].1), BodyText)
    {
      assert (2 * k) % 2 == 0 && (2 * k) / 2 == k;
      assert s[2 + 2 * k] == m[2 * k];
    }
  }

  /** Every code paragraph is plain text that gives its line back: no
      markup brackets, never empty, and unescaping it yields the line
      (an empty line yields the single space that stands for it). */
  lemma CodeParagraphRecoversLine(line: string)
    ensures CodeParagraph(line).style == Code
    ensures '<' !in CodeParagraph(line).text && '>' !in CodeParagraph(line).text
    ensures CodeParagraph(line).text != ""
    ensures Unescape(CodeParagraph(line).text) == if line == "" then " " else line
  {
    EscapedIsPlain(line);
    UnescapeEscape(line);
    if line == "" {
      assert Unescape(" ") == [' '] + Unescape("");
    }
  }
}
