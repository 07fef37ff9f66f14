/**
 * The content document and the line handler of createOPFFile (create.mjs): the header
 * is written first, then one entry per usable line of the definitions file, in line
 * order, then the footer when the line reader closes.
 */
module Conversion {
  import opened Wrappers
  import opened Js
  import opened Sequences
  import opened DictionaryEntry

  /** The language codes whose records are converted. */
  const LangCodes: seq<string> := ["en", "es", "it", "de", "pt", "pl", "fr", "ca", "sv", "lv", "lt", "nl", "ro", "el", "hu", "cs", "ga", "la"]

  /** The list names 18 languages, each once, by a two-letter code. */
  lemma LangCodesDistinct()
    ensures |LangCodes| == 18 && NoDuplicates(LangCodes)
    ensures forall code :: code in LangCodes ==> |code| == 2
  {
  }

  /** `langCodes.includes(def.lang_code)`: only a string equal to a listed code is included. */
  predicate Listed(code: JsText)
    ensures Listed(code) ==> Truthy(code) && |code.s| == 2
  {
    code.Text? && code.s in LangCodes
  }

  /** What is written to content.html before the first line is read. */
  const ContentHeader: string := @"
    <html xmlns:math=""http://exslt.org/math"" xmlns:svg=""http://www.w3.org/2000/svg""
        xmlns:tl=""https://kindlegen.s3.amazonaws.com/AmazonKindlePublishingGuidelines.pdf""
        xmlns:saxon=""http://saxon.sf.net/"" xmlns:xs=""http://www.w3.org/2001/XMLSchema""
        xmlns:xsi=""http://www.w3.org/2001/XMLSchema-instance""
        xmlns:cx=""https://kindlegen.s3.amazonaws.com/AmazonKindlePublishingGuidelines.pdf""
        xmlns:dc=""http://purl.org/dc/elements/1.1/""
        xmlns:mbp=""https://kindlegen.s3.amazonaws.com/AmazonKindlePublishingGuidelines.pdf""
        xmlns:mmc=""https://kindlegen.s3.amazonaws.com/AmazonKindlePublishingGuidelines.pdf""
        xmlns:idx=""https://kindlegen.s3.amazonaws.com/AmazonKindlePublishingGuidelines.pdf"">
      <head>
        <meta http-equiv=""Content-Type"" content=""text/html; charset=utf-8"">
        <style>
          dt {
            font-weight: bold;
          }

          dd {
            padding: 0;
            margin: 0;
          }

          phonetic {
            font-weight: normal;
            color: gray;
          }

          ol, ul {
            padding: 0;
            padding-left: 20px;
          }
        </style>
      </head>
      <body>
        <mbp:frameset>
  "

  /** What is written to content.html when the line reader closes. */
  const ContentFooter: string := FramesetEnd + "\n        </body>" + DocumentEnd

  /** The first and last lines of the footer. */
  const FramesetEnd: string := "\n          </mbp:frameset>"
  const DocumentEnd: string := "\n      </html>\n    "

  /** The footer closes the `<mbp:frameset>`, the `<body>` and the `<html>` document. */
  lemma FooterClosesDocument()
    ensures StartsWith(ContentFooter, "\n          </mbp:frameset>")
    ensures EndsWith(ContentFooter, "\n      </html>\n    ")
  {
    assert ContentFooter[..|FramesetEnd|] == FramesetEnd;
    assert ContentFooter[|ContentFooter| - |DocumentEnd|..] == DocumentEnd;
  }

  /**
   * A line of the definitions file, after `JSON.parse`: `None` when parsing throws or
   * yields `null` (reading `lang_code` of `null` throws too); both are caught and the
   * line is skipped.
   */
  type Line = Option<Definition>

  /** The line yields an entry: it parses, its language is listed, and rendering does not throw. */
  predicate Contributes(line: Line)
    ensures Contributes(line) ==> line.Some? && Listed(line.value.langCode)
  {
    line.Some? && Listed(line.value.langCode) && CreateDictionaryEntry(line.value).Ok?
  }

  /** What the line handler writes for `line`. */
  function LineOutput(line: Line): string
  {
    if Contributes(line) then CreateDictionaryEntry(line.value).value else ""
  }

  /** The handler writes something for a line exactly when the line contributes. */
  lemma LineOutputEmpty(line: Line)
    ensures LineOutput(line) == "" <==> !Contributes(line)
  {
  }

  /** The entries written for `lines`, in line order. */
  function Entries(lines: seq<Line>): (entries: seq<string>)
    ensures |entries| <= |lines|
  {
    FilterMap(lines, Contributes, LineOutput)
  }

  /** The whole of content.html once every line has been handled and the reader has closed. */
  function Content(lines: seq<Line>): string
  {
    ContentHeader + Concat(Entries(lines)) + ContentFooter
  }

  /** Whatever the lines, content.html begins with the header and ends with the footer. */
  lemma ContentFrame(lines: seq<Line>)
    ensures StartsWith(Content(lines), ContentHeader) && EndsWith(Content(lines), ContentFooter)
  {
    var content := Content(lines);
    assert content[..|ContentHeader|] == ContentHeader;
    assert content[|content| - |ContentFooter|..] == ContentFooter;
  }

  /**
   * A line contributes exactly when it parses, its `lang_code` is one of the listed
   * codes, its `translations` is falsy or an array without `null`, and its first sense
   * is not an array; what it contributes is a whole `<idx:entry>`.
   */
  lemma LineContributes(line: Line)
    ensures Contributes(line) <==>
      && line.Some?
      && line.value.langCode.Text? && line.value.langCode.s in LangCodes
      && !TranslationsThrow(line.value.translations)
      && !FirstSenseIsArray(line.value.senses)
    ensures Contributes(line) ==> StartsWith(LineOutput(line), EntryStart) && EndsWith(LineOutput(line), EntryEnd)
    ensures !Contributes(line) ==> LineOutput(line) == ""
  {
  }

  /**
   * The document is the header, then the entry of every contributing line in the order
   * of the lines, then the footer.
   */
  lemma ContentLayout(lines: seq<Line>)
    ensures var ps := Positions(lines, Contributes);
      && (forall i :: 0 <= i < |lines| ==> (i in ps <==> Contributes(lines[i])))
      && (forall k, l :: 0 <= k < l < |ps| ==> ps[k] < ps[l])
      && Content(lines) == ContentHeader + Concat(seq(|ps|, k requires 0 <= k < |ps| => LineOutput(lines[ps[k]]))) + ContentFooter
  {
    var ps := Positions(lines, Contributes);
    FilterMapAtPositions(lines, Contributes, LineOutput);
    assert Entries(lines) == seq(|ps|, k requires 0 <= k < |ps| => LineOutput(lines[ps[k]]));
  }

  /** One more line adds that line's output, if any, after the entries of the lines before it. */
  lemma EntriesSnoc(lines: seq<Line>, i: nat)
    requires i < |lines|
    ensures Concat(Entries(lines[..i + 1])) == Concat(Entries(lines[..i])) + LineOutput(lines[i])
  {
    var all := lines[..i + 1];
    assert all[..i] == lines[..i];
    var e := Entries(lines[..i]);
    if Contributes(lines[i]) {
      assert Entries(all) == e + [LineOutput(lines[i])];
      assert (e + [LineOutput(lines[i])])[..|e|] == e;
    } else {
      assert Entries(all) == e;
    }
  }

  /** Handling one more line appends that line's output to what has been written so far. */
  lemma EntriesStep(written: string, lines: seq<Line>, i: nat)
    requires i < |lines|
    ensures written + Concat(Entries(lines[..i + 1])) == written + Concat(Entries(lines[..i])) + LineOutput(lines[i])
  {
    EntriesSnoc(lines, i);
  }

  /** The write stream of content.html. */
  class ContentStream {
    var text: string
    var ended: bool

    constructor ()
      ensures text == "" && !ended
    {
      text := "";
      ended := false;
    }

    method Write(chunk: string)
      requires !ended
      modifies this
      ensures text == old(text) + chunk && !ended
    {
      text := text + chunk;
    }

    method End()
      modifies this
      ensures text == old(text) && ended
    {
      ended := true;
    }
  }

  /** The `line` handler: writes the entry of `line` when it contributes, and nothing otherwise. */
  method OnLine(stream: ContentStream, line: Line)
    requires !stream.ended
    modifies stream
    ensures stream.text == old(stream.text) + LineOutput(line) && !stream.ended
  {
    match line
    case None =>
    case Some(def) =>
      if Listed(def.langCode) {
        var entry := CreateDictionaryEntry(def);
        if entry.Ok? {
          stream.Write(entry.value);
        }
      }
  }

  /** The `close` handler: writes the footer and ends the stream. */
  method OnClose(stream: ContentStream)
    requires !stream.ended
    modifies stream
    ensures stream.text == old(stream.text) + ContentFooter && stream.ended
  {
    stream.Write(ContentFooter);
    stream.End();
  }

  /** The `line` handler run on every line in order: appends the entries of the lines. */
  method OnLines(stream: ContentStream, lines: seq<Line>)
    requires !stream.ended
    modifies stream
    ensures stream.text == old(stream.text) + Concat(Entries(lines)) && !stream.ended
  {
    ghost var start := stream.text;
    for i := 0 to |lines|
      invariant !stream.ended
      invariant stream.text == start + Concat(Entries(lines[..i]))
    {
      OnLine(stream, lines[i]);
      EntriesStep(start, lines, i);
    }
    assert lines[..|lines|] == lines;
  }

  /**
   * The empty string is a left unit of concatenation; a hint for the solver in
   * CreateContent, which would otherwise compare the header character by character.
   */
  lemma EmptyPrefix(s: string)
    ensures "" + s == s
  {
  }

  /**
   * content.html as createOPFFile writes it: the header, the line handler on every line
   * in order, then the close handler.
   */
  method CreateContent(lines: seq<Line>) returns (content: string)
    ensures content == Content(lines)
  {
    var stream := new ContentStream();
    stream.Write(ContentHeader);
    EmptyPrefix(ContentHeader);
    OnLines(stream, lines);
    OnClose(stream);
    content := stream.text;
  }
}
