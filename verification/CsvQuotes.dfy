/** What any line means to the parser, well formed or not: the parity of the quotes before a character decides. */
module CsvQuotes {
  import opened Csv

  function Quotes(text: string): nat { multiset(text)['"'] }

  /** An even number of quotes comes before. */
  predicate Outside(line: string, i: nat) requires i <= |line| { Quotes(line[..i]) % 2 == 0 }

  /** A comma outside quotes ends a field. */
  predicate Separates(line: string, i: nat) requires i < |line| { line[i] == ',' && Outside(line, i) }

  /** A quote is text exactly if it is inside quotes and another one follows; any other character is, unless it
      separates. */
  predicate IsText(line: string, i: nat) requires i < |line| {
    if line[i] == '"' then !Outside(line, i) && i + 1 < |line| && line[i + 1] == '"' else !Separates(line, i)
  }

  /** The fields of the first n characters. */
  function Fields(line: string, n: nat): (fields: seq<string>)
    requires n <= |line|
    ensures |fields| >= 1
  {
    if n == 0 then [""]
    else
      var before := Fields(line, n - 1);
      var last := |before| - 1;
      if Separates(line, n - 1) then before + [""]
      else if IsText(line, n - 1) then before[last := before[last] + [line[n - 1]]]
      else before
  }

  lemma QuotesGrow(line: string, i: nat)
    requires i < |line|
    ensures Outside(line, i + 1) <==> if line[i] == '"' then !Outside(line, i) else Outside(line, i)
  {
    assert line[..i + 1] == line[..i] + [line[i]];
  }

  /** The fields read so far are these and the one begun. */
  ghost predicate ReadSoFar(line: string, i: nat, done: seq<string>, field: string) {
    i <= |line| && Fields(line, i) == done + [field]
  }

  lemma OneMoreCharacter(line: string, i: nat, done: seq<string>, field: string)
    requires i < |line| && ReadSoFar(line, i, done, field)
    ensures if Separates(line, i) then ReadSoFar(line, i + 1, done + [field], "")
            else ReadSoFar(line, i + 1, done, if IsText(line, i) then field + [line[i]] else field)
  {
  }

  /** What the parser makes of the next character, or of a doubled quote. */
  lemma ParseStep(line: string, i: nat, field: string)
    requires i < |line|
    ensures var rest := ParseFrom(line[i..], field, !Outside(line, i));
            if Separates(line, i) then rest == [field] + ParseFrom(line[i + 1..], "", false)
            else if line[i] != '"' then rest == ParseFrom(line[i + 1..], field + [line[i]], !Outside(line, i))
            else if IsText(line, i) then rest == ParseFrom(line[i + 2..], field + ['"'], true)
            else rest == ParseFrom(line[i + 1..], field, Outside(line, i))
  {
    var rest := line[i..];
    assert rest[0] == line[i] && rest[1..] == line[i + 1..];
    if i + 1 < |line| {
      assert rest[1] == line[i + 1] && rest[2..] == line[i + 2..];
    }
  }

  lemma Regroup(done: seq<string>, field: string, more: seq<string>)
    ensures done + ([field] + more) == (done + [field]) + more
  {
  }

  /** Parsing goes on from any point as the fields read so far say. */
  lemma {:induction false} ParseGoesOn(line: string, i: nat, done: seq<string>, field: string, all: seq<string>)
    requires i <= |line| && ReadSoFar(line, i, done, field) && all == Fields(line, |line|)
    ensures done + ParseFrom(line[i..], field, !Outside(line, i)) == all
    decreases |line| - i
  {
    if i == |line| {
      assert line[i..] == "";
    } else {
      ParseStep(line, i, field);
      QuotesGrow(line, i);
      OneMoreCharacter(line, i, done, field);
      if Separates(line, i) {
        ParseGoesOn(line, i + 1, done + [field], "", all);
        Regroup(done, field, ParseFrom(line[i + 1..], "", false));
      } else if line[i] != '"' {
        ParseGoesOn(line, i + 1, done, field + [line[i]], all);
      } else if IsText(line, i) {
        QuotesGrow(line, i + 1);
        OneMoreCharacter(line, i + 1, done, field + ['"']);
        ParseGoesOn(line, i + 2, done, field + ['"'], all);
      } else {
        ParseGoesOn(line, i + 1, done, field, all);
      }
    }
  }

  /** Any line has the fields that the parity of its quotes gives. */
  lemma ParsedByParity(line: string)
    ensures Parse(line) == Fields(line, |line|)
  {
    FromStart(line, Fields(line, |line|));
  }

  lemma FromStart(line: string, all: seq<string>)
    requires all == Fields(line, |line|)
    ensures Parse(line) == all
  {
    assert line[0..] == line && line[..0] == "" && Outside(line, 0);
    assert Fields(line, 0) == [] + [""];
    ParseGoesOn(line, 0, [], "", all);
    assert [] + Parse(line) == Parse(line);
  }
}
