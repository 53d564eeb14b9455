/** Cutting a process's output into lines as it arrives. */
module LineReader {
  import opened Common
  import opened Text

  // ---- Splitting a whole text ----

  /** split(/\r?\n/): scanning from the left, a line feed ends a piece, together with a carriage return before it. */
  function Scan(text: string, piece: string): seq<string>
    decreases |text|
  {
    if text == "" then [piece]
    else if text[0] == '\n' then [piece] + Scan(text[1..], "")
    else if |text| >= 2 && text[0] == '\r' && text[1] == '\n' then [piece] + Scan(text[2..], "")
    else Scan(text[1..], piece + [text[0]])
  }

  function DropReturn(line: string): string {
    if line != "" && line[|line| - 1] == '\r' then line[..|line| - 1] else line
  }

  /** Pieces that a line feed ended, each without one carriage return at its end. */
  function Ended(pieces: seq<string>): seq<string> {
    if pieces == [] then [] else Ended(pieces[..|pieces| - 1]) + [DropReturn(pieces[|pieces| - 1])]
  }

  /** The lines of a text that are ended, and what follows the last of them. */
  function LinesOf(text: string): seq<string> {
    var pieces := Split(text, '\n');
    Ended(pieces[..|pieces| - 1])
  }

  function RestOf(text: string): string {
    var pieces := Split(text, '\n');
    pieces[|pieces| - 1]
  }

  lemma AddCharAtEnd(front: seq<string>, pieces: seq<string>, c: char)
    requires |pieces| >= 1
    ensures AddChar(front + pieces, c, '\n') == front + AddChar(pieces, c, '\n')
  {
    assert (front + pieces)[..|front + pieces| - 1] == front + pieces[..|pieces| - 1];
  }

  lemma SplitSnoc(text: string, c: char)
    ensures Split(text + [c], '\n') == AddChar(Split(text, '\n'), c, '\n')
  {
    assert (text + [c])[..|text|] == text;
  }

  lemma {:induction false} SplitFront(line: string, rest: string)
    requires '\n' !in line
    ensures Split(line + ['\n'] + rest, '\n') == [line] + Split(rest, '\n')
    decreases |rest|
  {
    if rest == "" {
      assert line + ['\n'] + rest == line + ['\n'];
      SplitOne(line, '\n');
      SplitSnoc(line, '\n');
    } else {
      var init, c := rest[..|rest| - 1], rest[|rest| - 1];
      assert line + ['\n'] + rest == (line + ['\n'] + init) + [c] && rest == init + [c];
      SplitFront(line, init);
      SplitSnoc(line + ['\n'] + init, c);
      SplitSnoc(init, c);
      AddCharAtEnd([line], Split(init, '\n'), c);
    }
  }

  lemma {:induction false} EndedFront(line: string, pieces: seq<string>)
    ensures Ended([line] + pieces) == [DropReturn(line)] + Ended(pieces)
    decreases |pieces|
  {
    var all := [line] + pieces;
    if pieces == [] {
      assert all[..0] == [];
    } else {
      assert all[..|all| - 1] == [line] + pieces[..|pieces| - 1];
      EndedFront(line, pieces[..|pieces| - 1]);
    }
  }

  /** The ended lines and then the rest. */
  function PiecesOf(text: string): seq<string> { LinesOf(text) + [RestOf(text)] }

  lemma FrontLine(line: string, rest: string)
    requires '\n' !in line
    ensures LinesOf(line + ['\n'] + rest) == [DropReturn(line)] + LinesOf(rest)
            && RestOf(line + ['\n'] + rest) == RestOf(rest)
  {
    SplitFront(line, rest);
    FrontPieces(line, Split(rest, '\n'));
  }

  lemma FrontPieces(line: string, pieces: seq<string>)
    requires |pieces| >= 1
    ensures var all := [line] + pieces;
            && Ended(all[..|all| - 1]) == [DropReturn(line)] + Ended(pieces[..|pieces| - 1])
            && all[|all| - 1] == pieces[|pieces| - 1]
  {
    var all := [line] + pieces;
    assert all[..|all| - 1] == [line] + pieces[..|pieces| - 1];
    EndedFront(line, pieces[..|pieces| - 1]);
  }

  lemma OnePiece(piece: string)
    requires '\n' !in piece
    ensures PiecesOf(piece) == [piece]
  {
    SplitOne(piece, '\n');
    assert [piece][..0] == [];
  }

  /** A scan can go on with this piece: what it holds stays in it. */
  predicate GoesOn(piece: string, text: string) {
    '\n' !in piece && (piece != "" && piece[|piece| - 1] == '\r' && text != "" ==> text[0] != '\n')
  }

  /** Scanning from the left gives the ended lines and then the rest. */
  lemma {:induction false} ScanIsSplit(text: string, piece: string)
    requires GoesOn(piece, text)
    ensures Scan(text, piece) == PiecesOf(piece + text)
    decreases |text|
  {
    if text == "" {
      assert piece + text == piece;
      OnePiece(piece);
    } else if text[0] == '\n' {
      ScanIsSplit(text[1..], "");
      AtFeed(piece, text);
      PiecesAfterFeed(piece + text, piece, text[1..]);
    } else if |text| >= 2 && text[0] == '\r' && text[1] == '\n' {
      ScanIsSplit(text[2..], "");
      AtReturn(piece, text);
      PiecesAfterFeed(piece + text, piece + ['\r'], text[2..]);
    } else {
      assert (piece + [text[0]]) + text[1..] == piece + text;
      ScanIsSplit(text[1..], piece + [text[0]]);
    }
  }

  lemma AtFeed(piece: string, text: string)
    requires text != "" && text[0] == '\n'
    ensures piece + text == piece + ['\n'] + text[1..] && "" + text[1..] == text[1..]
  {
  }

  lemma AtReturn(piece: string, text: string)
    requires |text| >= 2 && text[0] == '\r' && text[1] == '\n'
    ensures piece + text == (piece + ['\r']) + ['\n'] + text[2..] && "" + text[2..] == text[2..]
    ensures DropReturn(piece + ['\r']) == piece
  {
  }

  lemma ScanAll(text: string)
    ensures Scan(text, "") == LinesOf(text) + [RestOf(text)]
  {
    ScanIsSplit(text, "");
    assert "" + text == text;
  }

  lemma PiecesAfterFeed(text: string, line: string, rest: string)
    requires '\n' !in line && text == line + ['\n'] + rest
    ensures PiecesOf(text) == [DropReturn(line)] + PiecesOf(rest)
  {
    FrontLine(line, rest);
    Regrouped(DropReturn(line), LinesOf(rest), RestOf(rest));
  }

  lemma Regrouped(a: string, b: seq<string>, c: string)
    ensures ([a] + b) + [c] == [a] + (b + [c])
  {
  }

  lemma {:induction false} EndedOfTwo(a: seq<string>, b: seq<string>)
    ensures Ended(a + b) == Ended(a) + Ended(b)
    decreases |b|
  {
    if b == [] {
      assert a + b == a;
    } else {
      assert (a + b)[..|a + b| - 1] == a + b[..|b| - 1];
      EndedOfTwo(a, b[..|b| - 1]);
    }
  }

  lemma {:induction false} SplitAppended(text: string, more: string)
    ensures var before := Split(text, '\n');
            Split(text + more, '\n') == before[..|before| - 1] + Split(before[|before| - 1] + more, '\n')
    decreases |more|
  {
    var before := Split(text, '\n');
    var rest := before[|before| - 1];
    if more == "" {
      assert text + more == text && rest + more == rest;
      RestHasNoFeed(text);
      SplitOne(rest, '\n');
    } else {
      var init, c := more[..|more| - 1], more[|more| - 1];
      assert text + more == (text + init) + [c] && rest + more == (rest + init) + [c];
      SplitAppended(text, init);
      SplitSnoc(text + init, c);
      SplitSnoc(rest + init, c);
      AddCharAtEnd(before[..|before| - 1], Split(rest + init, '\n'), c);
    }
  }

  lemma {:induction false} RestHasNoFeed(text: string)
    ensures '\n' !in RestOf(text)
  {
    if text != "" { RestHasNoFeed(text[..|text| - 1]); }
  }

  /** Going on from the rest of a text is the same as splitting the whole. */
  lemma RestGoesOn(text: string, more: string)
    ensures LinesOf(text + more) == LinesOf(text) + LinesOf(RestOf(text) + more)
            && RestOf(text + more) == RestOf(RestOf(text) + more)
  {
    SplitAppended(text, more);
    var before := Split(text, '\n');
    var tail := Split(RestOf(text) + more, '\n');
    var all := before[..|before| - 1] + tail;
    assert all[..|all| - 1] == before[..|before| - 1] + tail[..|tail| - 1];
    EndedOfTwo(before[..|before| - 1], tail[..|tail| - 1]);
  }

  // ---- Consuming chunks ----

  /** Nothing yet, an error, or the line waited for. */
  datatype Outcome = Pending | Failed | Completed

  datatype State = State(lines: seq<string>, buffer: string, outcome: Outcome)

  datatype Event = Chunk(text: string) | Failure

  function After(s: State, event: Event, isComplete: string -> bool): State {
    match event
    case Failure => s.(outcome := Failed)
    case Chunk(text) =>
      var lines := LinesOf(s.buffer + text);
      State(s.lines + lines, RestOf(s.buffer + text),
            if s.outcome.Pending? && AnyComplete(lines, isComplete) then Completed else s.outcome)
  }

  predicate AnyComplete(lines: seq<string>, isComplete: string -> bool) {
    exists line :: line in lines && isComplete(line)
  }

  class Reader {
    var lines: seq<string>
    var buffer: string
    var outcome: Outcome
    const isComplete: string -> bool

    ghost function Contents(): State reads this { State(lines, buffer, outcome) }

    constructor (isComplete: string -> bool)
      ensures Contents() == State([], "", Pending) && this.isComplete == isComplete
    {
      lines, buffer, outcome := [], "", Pending;
      this.isComplete := isComplete;
    }

    method Consume(text: string)
      modifies this
      ensures Contents() == After(old(Contents()), Chunk(text), isComplete)
    {
      var complete := Scan(buffer + text, "");
      ScanAll(buffer + text);
      buffer := complete[|complete| - 1];
      complete := complete[..|complete| - 1];
      for i := 0 to |complete|
        invariant lines == old(lines) + complete[..i] && buffer == RestOf(old(buffer) + text)
        invariant outcome == if old(outcome).Pending? && AnyComplete(complete[..i], isComplete) then Completed
                  else old(outcome)
      {
        var line := complete[i];
        assert complete[..i + 1] == complete[..i] + [line];
        assert AnyComplete(complete[..i + 1], isComplete) <==>
               AnyComplete(complete[..i], isComplete) || isComplete(line);
        lines := lines + [line];
        if outcome.Pending? && isComplete(line) { outcome := Completed; }
      }
      assert complete[..|complete|] == complete;
    }

    /** A signal, the timeout or an error of the process. */
    method Fail()
      modifies this`outcome
      ensures Contents() == After(old(Contents()), Failure, isComplete)
    {
      outcome := Failed;
    }

    /** The process has ended: what is left in the buffer is one more line. */
    method Close() returns (result: Option<seq<string>>)
      modifies this`lines
      ensures result == ResultOf(old(Contents())) && (result.Some? ==> lines == result.value)
    {
      assert lines + [] == lines;
      if buffer != "" { lines := lines + [buffer]; }
      return if outcome.Completed? then Some(lines) else None;
    }
  }

  function ResultOf(s: State): Option<seq<string>> {
    if s.outcome.Completed? then Some(s.lines + (if s.buffer != "" then [s.buffer] else [])) else None
  }

  // ---- Runs ----

  function Run(events: seq<Event>, isComplete: string -> bool): State {
    if events == [] then State([], "", Pending)
    else After(Run(events[..|events| - 1], isComplete), events[|events| - 1], isComplete)
  }

  /** All the text that arrives. */
  function TextOf(events: seq<Event>): string {
    if events == [] then ""
    else
      var before := TextOf(events[..|events| - 1]);
      if events[|events| - 1].Chunk? then before + events[|events| - 1].text else before
  }

  lemma AnyOfTwo(a: seq<string>, b: seq<string>, isComplete: string -> bool)
    ensures AnyComplete(a + b, isComplete) <==> AnyComplete(a, isComplete) || AnyComplete(b, isComplete)
  {
  }

  /** However the output is cut into chunks and whenever failures come in between, the lines and the buffer are
      those of splitting the whole text at once; a failure is final, and without one the run is complete exactly
      when some ended line is the one waited for. */
  lemma CutsDoNotMatter(events: seq<Event>, isComplete: string -> bool)
    ensures var s := Run(events, isComplete);
            && s.lines + [s.buffer] == Scan(TextOf(events), "")
            && s.outcome == if Failure in events then Failed else if AnyComplete(s.lines, isComplete) then Completed
            else Pending
  {
    RunIs(events, isComplete);
    ScanAll(TextOf(events));
  }

  lemma {:induction false} RunIs(events: seq<Event>, isComplete: string -> bool)
    ensures var s := Run(events, isComplete);
            && s.lines == LinesOf(TextOf(events)) && s.buffer == RestOf(TextOf(events))
            && s.outcome == if Failure in events then Failed else if AnyComplete(s.lines, isComplete) then Completed
            else Pending
  {
    if events != [] {
      var init, last := events[..|events| - 1], events[|events| - 1];
      RunIs(init, isComplete);
      assert events == init + [last];
      if last.Chunk? {
        RestGoesOn(TextOf(init), last.text);
        AnyOfTwo(LinesOf(TextOf(init)), LinesOf(RestOf(TextOf(init)) + last.text), isComplete);
      }
    }
  }

  /** A line waited for that no line feed ends does not complete the run. */
  lemma UnendedLineDoesNotComplete(line: string, isComplete: string -> bool)
    requires '\n' !in line
    ensures ResultOf(Run([Chunk(line)], isComplete)) == None
  {
    OneChunk(line, isComplete);
    OnePiece(line);
    assert LinesOf(line) == [];
  }

  /** Ended, it does. */
  lemma EndedLineCompletes(line: string, isComplete: string -> bool)
    requires '\n' !in line && isComplete(DropReturn(line))
    ensures ResultOf(Run([Chunk(line + ['\n'])], isComplete)) == Some([DropReturn(line)])
  {
    OneChunk(line + ['\n'], isComplete);
    EndedLine(line);
    var lines := [DropReturn(line)];
    assert lines[0] in lines && lines + [] == lines;
  }

  lemma EndedLine(line: string)
    requires '\n' !in line
    ensures LinesOf(line + ['\n']) == [DropReturn(line)] && RestOf(line + ['\n']) == ""
  {
    assert line + ['\n'] + "" == line + ['\n'];
    FrontLine(line, "");
    OnePiece("");
    assert LinesOf("") == [];
  }

  lemma OneChunk(text: string, isComplete: string -> bool)
    ensures var s := Run([Chunk(text)], isComplete);
            && s.lines == LinesOf(text) && s.buffer == RestOf(text)
            && s.outcome == if AnyComplete(s.lines, isComplete) then Completed else Pending
  {
    var events := [Chunk(text)];
    assert events[..0] == [] && TextOf([]) == "" && "" + text == text;
    assert TextOf(events) == TextOf(events[..0]) + text;
    RunIs(events, isComplete);
  }
}
