/** Value types shared by every component. */
module Common {
  datatype Option<+T> = None | Some(value: T)

  datatype Result<+T, +E> = Ok(value: T) | Err(error: E)

  ghost predicate NoRepeats<T(!new)>(xs: seq<T>) {
    forall i, j :: 0 <= i < j < |xs| ==> xs[i] != xs[j]
  }
}

/** Charts of accounts by owner. */
module Charts {
  const SYSTEM := "SYSTEM"

  function ClientChart(business: string): string { "CLIENT_" + business }

  function AccountantChart(id: string): string { "ACCOUNTANT_" + id }

  /** Charts of different owners are different. */
  lemma ChartsDiffer(a: string, b: string)
    ensures ClientChart(a) != SYSTEM && ClientChart(a) != AccountantChart(b)
    ensures ClientChart(a) == ClientChart(b) ==> a == b
  {
    assert ClientChart(a)[0] == 'C' && SYSTEM[0] == 'S' && AccountantChart(b)[0] == 'A';
    assert ClientChart(a)[7..] == a && ClientChart(b)[7..] == b;
  }
}

/** White space as JavaScript's trim and \s see it. */
module Text {
  predicate IsSpace(c: char) {
    c == ' ' || '\t' <= c <= '\r' || c == '\U{00A0}' || c == '\U{1680}' || '\U{2000}' <= c <= '\U{200A}'
    || c == '\U{2028}' || c == '\U{2029}' || c == '\U{202F}' || c == '\U{205F}' || c == '\U{3000}' || c == '\U{FEFF}'
  }

  predicate IsDigit(c: char) { '0' <= c <= '9' }

  function TrimLeft(s: string): string {
    if s != [] && IsSpace(s[0]) then TrimLeft(s[1..]) else s
  }

  function TrimRight(s: string): string {
    if s != [] && IsSpace(s[|s| - 1]) then TrimRight(s[..|s| - 1]) else s
  }

  function Trim(s: string): string { TrimRight(TrimLeft(s)) }

  predicate Trimmed(s: string) {
    s != [] ==> !IsSpace(s[0]) && !IsSpace(s[|s| - 1])
  }

  lemma {:induction false} TrimTrims(s: string)
    ensures Trimmed(TrimRight(TrimLeft(s)))
    decreases |s|
  {
    if s != [] && IsSpace(s[0]) {
      TrimTrims(s[1..]);
    } else {
      TrimRightKeepsHead(s);
    }
  }

  lemma {:induction false} TrimRightKeepsHead(s: string)
    ensures var t := TrimRight(s); t <= s && (t != [] ==> !IsSpace(t[|t| - 1]))
    decreases |s|
  {
    if s != [] && IsSpace(s[|s| - 1]) {
      TrimRightKeepsHead(s[..|s| - 1]);
    }
  }

  /** split at a separator: always one piece more than there are separators. */
  function Split(s: string, at: char): (pieces: seq<string>)
    ensures |pieces| >= 1
  {
    if s == [] then [""] else AddChar(Split(s[..|s| - 1], at), s[|s| - 1], at)
  }

  /** The pieces after one more character. */
  function AddChar(pieces: seq<string>, c: char, at: char): (more: seq<string>)
    requires |pieces| >= 1
    ensures |more| >= 1
  {
    if c == at then pieces + [""] else pieces[..|pieces| - 1] + [pieces[|pieces| - 1] + [c]]
  }

  lemma {:induction false} SplitGrows(s: string, t: string, at: char)
    requires at !in t
    ensures var before := Split(s, at); Split(s + t, at) == before[..|before| - 1] + [before[|before| - 1] + t]
    decreases |t|
  {
    var before := Split(s, at);
    if t == [] {
      assert s + t == s && before[|before| - 1] + t == before[|before| - 1];
    } else {
      var init := t[..|t| - 1];
      assert (s + t)[..|s + t| - 1] == s + init && (s + t)[|s + t| - 1] == t[|t| - 1];
      SplitGrows(s, init, at);
      assert t[|t| - 1] in t;
      assert (before[|before| - 1] + init) + [t[|t| - 1]] == before[|before| - 1] + t;
    }
  }

  lemma SplitOne(s: string, at: char)
    requires at !in s
    ensures Split(s, at) == [s]
  {
    SplitGrows("", s, at);
    assert "" + s == s;
  }

  lemma SplitTwo(a: string, b: string, at: char)
    requires at !in a && at !in b
    ensures Split(a + [at] + b, at) == [a, b]
  {
    SplitOne(a, at);
    var t := a + [at];
    assert t[..|t| - 1] == a;
    assert Split(t, at) == [a, ""];
    SplitGrows(t, b, at);
    assert [a, ""][..1] == [a] && "" + b == b;
  }
}
