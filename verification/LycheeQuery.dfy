/** Lychee events, routing commands, and the query for a sender's latest command. */
module LycheeQuery {
  import opened Common
  import opened Text

  datatype Environment = Dev | Prod

  datatype Quote = NoQuote | BadQuote | Quote(id: string)

  datatype Stamp = NoStamp | Stamp(at: int, length: nat)

  /** A parsed webhook event. `None` stands for a value of another JavaScript type,
      `sender` is the normalised phone, `rest` is everything the router does not read. */
  datatype Event = Event(
    channel: string, eventId: string, messageId: Option<string>, whatsappId: Option<string>,
    text: Option<string>, hasMedia: Option<bool>, messageType: Option<string>,
    quote: Quote, stamp: Stamp, sender: string, rest: string)

  /** The event's time; only read of events whose time parses. */
  function Instant(e: Event): int {
    if e.stamp.Stamp? then e.stamp.at else 0
  }

  const START_TESTS := "בדיקות"
  const STOP := "סיום"

  /** Every run of white space becomes one blank. */
  function Collapse(s: string): string {
    if s == [] then []
    else if !IsSpace(s[0]) then [s[0]] + Collapse(s[1..])
    else if |s| > 1 && IsSpace(s[1]) then Collapse(s[1..])
    else [' '] + Collapse(s[1..])
  }

  function CommandText(text: string): Option<Environment> {
    var words := Collapse(TrimRight(TrimLeft(text)));
    if words == START_TESTS then Some(Dev)
    else if words == STOP + " " + START_TESTS then Some(Prod)
    else None
  }

  function RoutingCommand(e: Event): Option<Environment> {
    if e.hasMedia == Some(true) || e.messageType != Some("text") || !Unquoted(e) || e.text.None? then None
    else CommandText(e.text.value)
  }

  /** The reply field is absent, null or empty. */
  predicate Unquoted(e: Event) {
    e.quote.NoQuote? || (e.quote.Quote? && e.quote.id == "")
  }

  // ---- A command is recognised by its words alone ----

  /** The maximal runs of non-blank characters. */
  function Words(s: string): seq<string> {
    WordsFrom(s, "")
  }

  function WordsFrom(s: string, word: string): seq<string>
    decreases |s|
  {
    if s == [] then (if word == "" then [] else [word])
    else if !IsSpace(s[0]) then WordsFrom(s[1..], word + [s[0]])
    else (if word == "" then [] else [word]) + WordsFrom(s[1..], "")
  }

  function Join(words: seq<string>): string {
    if words == [] then "" else if |words| == 1 then words[0] else words[0] + " " + Join(words[1..])
  }

  lemma {:induction false} WordsIgnoreTrailingSpace(s: string, word: string, c: char)
    requires IsSpace(c)
    ensures WordsFrom(s + [c], word) == WordsFrom(s, word)
    decreases |s|
  {
    if s != [] {
      assert (s + [c])[1..] == s[1..] + [c];
      WordsIgnoreTrailingSpace(s[1..], if IsSpace(s[0]) then "" else word + [s[0]], c);
    } else {
      assert WordsFrom([c][1..], "") == [];
    }
  }

  lemma {:induction false} TrimKeepsWords(s: string)
    ensures Words(TrimLeft(s)) == Words(s)
    ensures Words(TrimRight(s)) == Words(s)
    decreases |s|
  {
    if s != [] && IsSpace(s[0]) {
      TrimKeepsWords(s[1..]);
    }
    if s != [] && IsSpace(s[|s| - 1]) {
      assert s == s[..|s| - 1] + [s[|s| - 1]];
      WordsIgnoreTrailingSpace(s[..|s| - 1], "", s[|s| - 1]);
      TrimKeepsWords(s[..|s| - 1]);
    }
  }

  lemma {:induction false} CollapseKeepsWords(s: string, word: string)
    ensures WordsFrom(Collapse(s), word) == WordsFrom(s, word)
    decreases |s|
  {
    if s == [] {
    } else if !IsSpace(s[0]) {
      assert Collapse(s)[1..] == Collapse(s[1..]);
      CollapseKeepsWords(s[1..], word + [s[0]]);
    } else if |s| > 1 && IsSpace(s[1]) {
      CollapseKeepsWords(s[1..], word);
      assert WordsFrom(s[1..], "") == WordsFrom(s[1..][1..], "");
    } else {
      assert Collapse(s)[1..] == Collapse(s[1..]);
      CollapseKeepsWords(s[1..], "");
    }
  }

  lemma {:induction false} CollapsedIsJoined(s: string, word: string)
    requires s != [] ==> !IsSpace(s[|s| - 1])
    requires word != "" || (s != [] && !IsSpace(s[0]))
    ensures WordsFrom(s, word) != []
    ensures Join(WordsFrom(s, word)) == word + Collapse(s)
    decreases |s|
  {
    if s == [] {
    } else {
      assert s[|s| - 1] == if |s| > 1 then s[1..][|s| - 2] else s[0];
      if !IsSpace(s[0]) {
        LetterJoinsWord(s, word);
        CollapsedIsJoined(s[1..], word + [s[0]]);
      } else if IsSpace(s[1]) {
        BlanksEndOneWord(s, word);
        CollapsedIsJoined(s[1..], word);
      } else {
        BlankEndsWord(s, word);
        CollapsedIsJoined(s[1..], "");
        JoinOneMore(word, WordsFrom(s[1..], ""));
      }
    }
  }

  lemma LetterJoinsWord(s: string, word: string)
    requires s != [] && !IsSpace(s[0])
    ensures WordsFrom(s, word) == WordsFrom(s[1..], word + [s[0]])
    ensures word + Collapse(s) == word + [s[0]] + Collapse(s[1..])
  {
    assert word + [s[0]] + Collapse(s[1..]) == word + ([s[0]] + Collapse(s[1..]));
  }

  lemma BlankEndsWord(s: string, word: string)
    requires |s| > 1 && IsSpace(s[0]) && !IsSpace(s[1]) && word != ""
    ensures WordsFrom(s, word) == [word] + WordsFrom(s[1..], "")
    ensures word + Collapse(s) == word + " " + ("" + Collapse(s[1..]))
  {
    assert "" + Collapse(s[1..]) == Collapse(s[1..]);
    assert word + " " + Collapse(s[1..]) == word + ([' '] + Collapse(s[1..]));
  }

  lemma BlanksEndOneWord(s: string, word: string)
    requires |s| > 1 && IsSpace(s[0]) && IsSpace(s[1]) && word != ""
    ensures WordsFrom(s, word) == WordsFrom(s[1..], word) && Collapse(s) == Collapse(s[1..])
  {
    assert s[1..][0] == s[1];
    assert WordsFrom(s[1..], "") == WordsFrom(s[1..][1..], "");
  }

  lemma JoinOneMore(word: string, rest: seq<string>)
    requires rest != []
    ensures Join([word] + rest) == word + " " + Join(rest)
  {
    assert ([word] + rest)[1..] == rest;
  }

  /** Trimming and collapsing leaves exactly the words, one blank apart. */
  lemma NormalisedIsJoinedWords(text: string)
    ensures Collapse(TrimRight(TrimLeft(text))) == Join(Words(text))
    ensures Words(Collapse(TrimRight(TrimLeft(text)))) == Words(text)
  {
    var t := TrimRight(TrimLeft(text));
    TrimKeepsWords(text);
    TrimKeepsWords(TrimLeft(text));
    TrimTrims(text);
    CollapseKeepsWords(t, "");
    if t != [] {
      CollapsedIsJoined(t, "");
    }
  }

  /** A text is a command exactly when its words are the command's words, however they are spaced. */
  lemma CommandByWords(text: string)
    ensures CommandText(text) == Some(Dev) <==> Words(text) == [START_TESTS]
    ensures CommandText(text) == Some(Prod) <==> Words(text) == [STOP, START_TESTS]
  {
    NormalisedIsJoinedWords(text);
    WordThen(START_TESTS, "", "");
    WordThen(STOP, "", START_TESTS);
    assert START_TESTS + "" == START_TESTS && "" + START_TESTS == START_TESTS && "" + STOP == STOP;
  }

  /** One word, and what follows it after a blank. */
  lemma {:induction false} WordThen(s: string, word: string, rest: string)
    requires word + s != "" && forall c :: c in s ==> !IsSpace(c)
    ensures WordsFrom(s, word) == [word + s]
    ensures WordsFrom(s + " " + rest, word) == [word + s] + WordsFrom(rest, "")
    decreases |s|
  {
    var text := s + " " + rest;
    if s == [] {
      assert word + s == word && text[1..] == rest;
    } else {
      assert word + [s[0]] + s[1..] == word + s;
      assert text[1..] == s[1..] + " " + rest;
      WordThen(s[1..], word + [s[0]], rest);
    }
  }

  // ---- The latest-command query ----

  datatype Command = Command(at: int, environment: Environment)

  /** ORDER BY occurred_at DESC, status DESC: of two commands at one instant
      ROUTE_COMMAND_PROD sorts before ROUTE_COMMAND_DEV. */
  predicate Before(a: Command, b: Command) {
    a.at > b.at || (a.at == b.at && a.environment == Prod && b.environment == Dev)
  }

  /** What SELECT DISTINCT ... ORDER BY ... LIMIT 2 may answer about the rows `all`. */
  ghost predicate TopTwo(rows: seq<Command>, all: set<Command>) {
    && |rows| == (if |all| < 2 then |all| else 2)
    && (forall r :: r in rows ==> r in all)
    && (|rows| == 2 ==> Before(rows[0], rows[1]))
    && (forall c, r :: c in all && c !in rows && r in rows ==> Before(r, c))
  }

  /** What the router makes of the query's rows; None is the ambiguity error. */
  function Answer(rows: seq<Command>): Option<Environment> {
    if |rows| > 1 && rows[0].at == rows[1].at && rows[0].environment != rows[1].environment then None
    else if rows == [] then Some(Prod)
    else Some(rows[0].environment)
  }

  ghost predicate IsLatest(all: set<Command>, t: int) {
    (exists c :: c in all && c.at == t) && forall c :: c in all ==> c.at <= t
  }

  lemma {:induction false} LatestExists(all: set<Command>)
    requires all != {}
    ensures exists t :: IsLatest(all, t)
    decreases |all|
  {
    var c :| c in all;
    if all == {c} {
      assert IsLatest(all, c.at);
    } else {
      var rest := all - {c};
      LatestExists(rest);
      var t :| IsLatest(rest, t);
      assert forall d :: d in all ==> d in rest || d == c;
      if c.at <= t {
        var w :| w in rest && w.at == t;
        assert w in all;
        assert IsLatest(all, t);
      } else {
        assert IsLatest(all, c.at);
      }
    }
  }

  /** The status of the latest commands, prod if there is none, None if both share the latest instant. */
  ghost function Decide(all: set<Command>): Option<Environment> {
    if all == {} then Some(Prod)
    else
      LatestExists(all);
      var t :| IsLatest(all, t);
      if Command(t, Dev) in all && Command(t, Prod) in all then None
      else if Command(t, Dev) in all then Some(Dev) else Some(Prod)
  }

  /** If all the latest commands are of one environment, that is the decision. */
  lemma LatestDecides(all: set<Command>, t: int, environment: Environment)
    requires IsLatest(all, t) && forall c :: c in all && c.at == t ==> c.environment == environment
    ensures Decide(all) == Some(environment)
  {
    forall u | IsLatest(all, u) ensures u == t { AtMostOneIsLatest(all, t, u); }
    var c :| c in all && c.at == t;
    assert c == Command(t, environment);
    assert Command(t, if environment == Dev then Prod else Dev) !in all;
  }

  lemma AtMostOneIsLatest(all: set<Command>, t: int, u: int)
    requires IsLatest(all, t) && IsLatest(all, u)
    ensures t == u
  {
  }

  lemma TwoMembers(all: set<Command>, a: Command, b: Command)
    requires a in all && b in all && a != b
    ensures |all| >= 2
  {
    SubsetSize({a, b}, all);
  }

  lemma {:induction false} SubsetSize<T>(a: set<T>, b: set<T>)
    requires a <= b
    ensures |a| <= |b|
    decreases |a|
  {
    if a != {} {
      var x :| x in a;
      SubsetSize(a - {x}, b - {x});
    }
  }

  lemma FirstIsLatest(rows: seq<Command>, all: set<Command>)
    requires TopTwo(rows, all) && all != {}
    ensures rows != [] && rows[0] in all && IsLatest(all, rows[0].at)
  {
    var top := rows[0];
    assert top in rows;
    forall c | c in all ensures c.at <= top.at {
      if c !in rows { assert Before(top, c); }
    }
  }

  lemma SecondIsTie(rows: seq<Command>, all: set<Command>, tie: Command)
    requires TopTwo(rows, all) && |rows| >= 1 && tie != rows[0] && tie.at == rows[0].at
    ensures tie in all <==> |rows| > 1 && rows[1] == tie
  {
    assert rows[0] in rows;
    if tie in all {
      TwoMembers(all, rows[0], tie);
      assert rows[1] in rows;
      if tie !in rows {
        assert Before(rows[1], tie);
      }
    } else if |rows| > 1 {
      assert rows[1] in rows;
    }
  }

  /** Every legal answer of the query makes the router decide what Decide says. */
  lemma QueryDecides(rows: seq<Command>, all: set<Command>)
    requires TopTwo(rows, all)
    ensures Answer(rows) == Decide(all)
  {
    if all != {} {
      FirstIsLatest(rows, all);
      LatestExists(all);
      var t :| IsLatest(all, t);
      forall u | IsLatest(all, u) ensures u == rows[0].at { AtMostOneIsLatest(all, u, rows[0].at); }
      SecondIsTie(rows, all, Command(rows[0].at, if rows[0].environment == Dev then Prod else Dev));
      if |rows| > 1 { assert rows[1] in rows; }
    }
  }

  /** The query always has an answer. */
  lemma {:induction false} TopTwoExists(all: set<Command>)
    ensures exists rows :: TopTwo(rows, all)
  {
    if all == {} {
      assert TopTwo([], all);
    } else {
      var top := TopExists(all);
      var rest := all - {top};
      if rest == {} {
        assert all == {top};
        assert TopTwo([top], all);
      } else {
        var second := TopExists(rest);
        assert |rest| == |all| - 1;
        assert TopTwo([top, second], all);
      }
    }
  }

  lemma {:induction false} TopExists(all: set<Command>) returns (top: Command)
    requires all != {}
    ensures top in all && forall c :: c in all && c != top ==> Before(top, c)
    decreases |all|
  {
    top :| top in all;
    if all != {top} {
      var best := TopExists(all - {top});
      var first := if Before(best, top) then best else top;
      forall c | c in all && c != first ensures Before(first, c) {
        if c != top && c != best { assert Before(best, c); }
      }
      top := first;
    }
  }
}
