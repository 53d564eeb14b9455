/** The CSV parser of the reference-card import, against printing as section 2 of RFC 4180 allows it. */
module Csv {
  import LineReader

  /** parseCsvLine, from a suffix of the line on: the field so far, and whether it is inside quotes. */
  function ParseFrom(rest: string, field: string, inQuotes: bool): (fields: seq<string>)
    ensures |fields| >= 1
    decreases |rest|
  {
    if rest == "" then [field]
    else if inQuotes then
      if rest[0] == '"' then
        if |rest| >= 2 && rest[1] == '"' then ParseFrom(rest[2..], field + ['"'], true)
        else ParseFrom(rest[1..], field, false)
      else ParseFrom(rest[1..], field + [rest[0]], true)
    else if rest[0] == '"' then ParseFrom(rest[1..], field, true)
    else if rest[0] == ',' then [field] + ParseFrom(rest[1..], "", false)
    else ParseFrom(rest[1..], field + [rest[0]], false)
  }

  function Parse(line: string): seq<string> { ParseFrom(line, "", false) }

  method ParseCsvLine(line: string) returns (fields: seq<string>)
    ensures fields == Parse(line)
  {
    fields := [];
    var cur: string := "";
    var inQuotes := false;
    var i := 0;
    assert line[0..] == line;
    while i < |line|
      invariant 0 <= i <= |line|
      invariant fields + ParseFrom(line[i..], cur, inQuotes) == Parse(line)
    {
      var ch := line[i];
      ghost var rest := line[i..];
      assert rest[1..] == line[i + 1..];
      if inQuotes {
        if ch == '"' {
          if i + 1 < |line| && line[i + 1] == '"' {
            assert rest[2..] == line[i + 2..];
            cur := cur + ['"'];
            i := i + 1;
          } else {
            inQuotes := false;
          }
        } else {
          cur := cur + [ch];
        }
      } else if ch == '"' {
        inQuotes := true;
      } else if ch == ',' {
        assert fields + ParseFrom(rest, cur, false) == (fields + [cur]) + ParseFrom(line[i + 1..], "", false);
        fields := fields + [cur];
        cur := "";
      } else {
        cur := cur + [ch];
      }
      i := i + 1;
    }
    fields := fields + [cur];
  }

  // ---- Printing ----

  /** A field as written: bare, which takes neither commas nor quotes, or in quotes. */
  datatype Written = Bare(text: string) | Quoted(text: string)

  predicate Printable(w: Written) {
    w.Bare? ==> ',' !in w.text && '"' !in w.text
  }

  function Doubled(text: string): string {
    if text == "" then "" else (if text[0] == '"' then ['"', '"'] else [text[0]]) + Doubled(text[1..])
  }

  function PrintField(w: Written): string {
    match w
    case Bare(text) => text
    case Quoted(text) => ['"'] + Doubled(text) + ['"']
  }

  function PrintLine(ws: seq<Written>): string {
    if ws == [] then "" else if |ws| == 1 then PrintField(ws[0]) else PrintField(ws[0]) + [','] + PrintLine(ws[1..])
  }

  function Texts(ws: seq<Written>): seq<string> {
    if ws == [] then [] else [ws[0].text] + Texts(ws[1..])
  }

  ghost predicate AllPrintable(ws: seq<Written>) {
    ws != [] && forall i :: 0 <= i < |ws| ==> Printable(ws[i])
  }

  lemma {:induction false} ParseBare(text: string, rest: string, field: string)
    requires ',' !in text && '"' !in text
    ensures ParseFrom(text + rest, field, false) == ParseFrom(rest, field + text, false)
    decreases |text|
  {
    if text == "" {
      assert text + rest == rest && field + text == field;
    } else {
      assert text[0] in text && (text + rest)[1..] == text[1..] + rest;
      ParseBare(text[1..], rest, field + [text[0]]);
      assert (field + [text[0]]) + text[1..] == field + text;
    }
  }

  /** Inside quotes, doubled quotes come back single, and a quote not followed by another ends the field. */
  lemma {:induction false} ParseQuoted(text: string, rest: string, field: string)
    requires rest != "" ==> rest[0] != '"'
    ensures ParseFrom(Doubled(text) + ['"'] + rest, field, true) == ParseFrom(rest, field + text, false)
    decreases |text|
  {
    var all := Doubled(text) + ['"'] + rest;
    if text == "" {
      assert all[0] == '"' && all[1..] == rest && field + text == field;
    } else {
      var more := Doubled(text[1..]) + ['"'] + rest;
      ParseQuoted(text[1..], rest, field + [text[0]]);
      assert (field + [text[0]]) + text[1..] == field + text;
      if text[0] == '"' {
        assert all[0] == '"' && all[1] == '"' && all[2..] == more;
      } else {
        assert all[0] == text[0] && all[1..] == more;
      }
    }
  }

  lemma ParseField(w: Written, rest: string)
    requires Printable(w) && (rest != "" ==> rest[0] == ',')
    ensures ParseFrom(PrintField(w) + rest, "", false) == ParseFrom(rest, w.text, false)
  {
    assert "" + w.text == w.text;
    match w
    case Bare(text) => ParseBare(text, rest, "");
    case Quoted(text) =>
      var all := PrintField(w) + rest;
      assert all[0] == '"' && all[1..] == Doubled(text) + ['"'] + rest;
      ParseQuoted(text, rest, "");
  }

  /** Parsing undoes printing, whichever fields are quoted. */
  lemma {:induction false} ParseUndoesPrint(ws: seq<Written>)
    requires AllPrintable(ws)
    ensures Parse(PrintLine(ws)) == Texts(ws)
    decreases |ws|
  {
    var head := PrintField(ws[0]);
    if |ws| == 1 {
      assert head + "" == head;
      ParseField(ws[0], "");
    } else {
      var rest := [','] + PrintLine(ws[1..]);
      assert head + [','] + PrintLine(ws[1..]) == head + rest && rest[1..] == PrintLine(ws[1..]);
      ParseField(ws[0], rest);
      ParseUndoesPrint(ws[1..]);
    }
  }

  /** Two lists of fields with the same printed line are the same fields. */
  lemma PrintIsUnambiguous(a: seq<Written>, b: seq<Written>)
    requires AllPrintable(a) && AllPrintable(b) && PrintLine(a) == PrintLine(b)
    ensures Texts(a) == Texts(b)
  {
    ParseUndoesPrint(a);
    ParseUndoesPrint(b);
  }

  // ---- Files ----

  function Records(lines: seq<string>): seq<seq<string>> {
    if lines == [] then [] else (if lines[0] == "" then [] else [Parse(lines[0])]) + Records(lines[1..])
  }

  /** The lines of the file that are not empty, parsed. */
  function Load(raw: string): seq<seq<string>> { Records(LineReader.Scan(raw, "")) }

  /** Each line followed by a line feed, with a carriage return before it or not. */
  function PrintFile(records: seq<seq<Written>>, crlf: bool): string {
    if records == [] then ""
    else PrintLine(records[0]) + (if crlf then ['\r', '\n'] else ['\n']) + PrintFile(records[1..], crlf)
  }

  function AllTexts(records: seq<seq<Written>>): seq<seq<string>> {
    if records == [] then [] else [Texts(records[0])] + AllTexts(records[1..])
  }

  predicate NoBreaks(text: string) { '\r' !in text && '\n' !in text }

  lemma {:induction false} PrintedHasNoBreaks(ws: seq<Written>)
    requires forall i :: 0 <= i < |ws| ==> NoBreaks(ws[i].text)
    ensures NoBreaks(PrintLine(ws))
  {
    if ws != [] {
      if ws[0].Quoted? { DoubledHasNoBreaks(ws[0].text); }
      PrintedHasNoBreaks(ws[1..]);
    }
  }

  lemma {:induction false} DoubledHasNoBreaks(text: string)
    requires NoBreaks(text)
    ensures NoBreaks(Doubled(text))
  {
    if text != "" {
      assert text[0] in text && forall c :: c in text[1..] ==> c in text;
      DoubledHasNoBreaks(text[1..]);
    }
  }

  /** A line without breaks is cut off whole at the end of it. */
  lemma {:induction false} ScanLine(line: string, crlf: bool, rest: string, piece: string)
    requires NoBreaks(line)
    ensures LineReader.Scan(line + (if crlf then ['\r', '\n'] else ['\n']) + rest, piece) ==
            [piece + line] + LineReader.Scan(rest, "")
    decreases |line|
  {
    var eol := if crlf then ['\r', '\n'] else ['\n'];
    var all := line + eol + rest;
    if line == "" {
      assert piece + line == piece;
      if crlf {
        assert all[0] == '\r' && all[1] == '\n' && all[2..] == rest;
      } else {
        assert all[0] == '\n' && all[1..] == rest;
      }
    } else {
      assert line[0] in line && all[0] == line[0] && all[1..] == line[1..] + eol + rest;
      ScanLine(line[1..], crlf, rest, piece + [line[0]]);
      assert (piece + [line[0]]) + line[1..] == piece + line;
    }
  }

  /** The records that do not print as an empty line. */
  function Surviving(records: seq<seq<Written>>): seq<seq<Written>> {
    if records == [] then [] else (if records[0] == [Bare("")] then [] else [records[0]]) + Surviving(records[1..])
  }

  ghost predicate AllWithoutBreaks(records: seq<seq<Written>>) {
    forall r :: 0 <= r < |records| ==>
      AllPrintable(records[r]) && forall i :: 0 <= i < |records[r]| ==> NoBreaks(records[r][i].text)
  }

  /** A record prints as an empty line exactly when it is one empty bare field. */
  lemma EmptyLines(ws: seq<Written>)
    requires AllPrintable(ws)
    ensures PrintLine(ws) == "" <==> ws == [Bare("")]
  {
  }

  /** Loading a printed file gives back every record but those that print as an empty line. */
  lemma {:induction false} LoadGivesSurviving(records: seq<seq<Written>>, crlf: bool)
    requires AllWithoutBreaks(records)
    ensures Load(PrintFile(records, crlf)) == AllTexts(Surviving(records))
    decreases |records|
  {
    if records != [] {
      var line := PrintLine(records[0]);
      PrintedHasNoBreaks(records[0]);
      ScanLine(line, crlf, PrintFile(records[1..], crlf), "");
      assert "" + line == line;
      EmptyLines(records[0]);
      ParseUndoesPrint(records[0]);
      LoadGivesSurviving(records[1..], crlf);
      var rest := Surviving(records[1..]);
      assert [] + rest == rest && ([records[0]] + rest)[1..] == rest;
    }
  }

  lemma {:induction false} SurvivingCount(records: seq<seq<Written>>)
    ensures |AllTexts(records)| == |records| && |Surviving(records)| <= |records|
    ensures |Surviving(records)| == |records| <==> forall r :: 0 <= r < |records| ==> records[r] != [Bare("")]
    ensures |Surviving(records)| == |records| ==> Surviving(records) == records
  {
    if records != [] {
      SurvivingCount(records[1..]);
      assert forall r :: 1 <= r < |records| ==> records[r] == records[1..][r - 1];
      assert records == [records[0]] + records[1..];
    }
  }

  /** For fields without line breaks, loading undoes printing exactly when no record is one empty bare field. */
  lemma LoadUndoesPrint(records: seq<seq<Written>>, crlf: bool)
    requires AllWithoutBreaks(records)
    ensures Load(PrintFile(records, crlf)) == AllTexts(records) <==>
            forall r :: 0 <= r < |records| ==> records[r] != [Bare("")]
  {
    LoadGivesSurviving(records, crlf);
    SurvivingCount(records);
    SurvivingCount(Surviving(records));
  }
}
