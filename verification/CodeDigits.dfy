/** How allocated account codes look: five digits, the first by owner and kind. */
module CodeDigits {
  import opened Common
  import opened Text
  import opened AccountCodes

  /** The first digit of the codes of an owner and kind. */
  function Digit(owner: Owner, kind: Kind): nat {
    match (owner, kind)
    case (System, Income) => 4
    case (System, Expense) => 6
    case (Accountant, Expense) => 7
    case (Client, Expense) => 8
    case (_, Income) => 5
  }

  function Char(digit: nat): char requires digit < 10 { ('0' as int + digit) as char }

  lemma OneMoreDigit(n: nat)
    requires n >= 10
    ensures Decimal(n) == Decimal(n / 10) + [Char(n % 10)]
  {
  }

  /** The five digits of a number. */
  lemma FiveDigits(n: nat, digit: nat)
    requires 0 < digit < 10 && digit * 10000 <= n <= digit * 10000 + 9999
    ensures |Decimal(n)| == 5 && Decimal(n)[0] == Char(digit)
    ensures n == digit * 10000 ==> Decimal(n) == [Char(digit)] + "0000"
  {
    OneMoreDigit(n);
    OneMoreDigit(n / 10);
    OneMoreDigit(n / 10 / 10);
    OneMoreDigit(n / 10 / 10 / 10);
    assert n / 10 / 10 / 10 / 10 == digit;
    assert Decimal(digit) == [Char(digit)];
  }

  lemma RangeIs(owner: Owner, kind: Kind)
    ensures Range(owner, kind) == (Digit(owner, kind) * 10000, Digit(owner, kind) * 10000 + 9999)
  {
  }

  lemma NextIs(codes: seq<string>, owner: Owner, kind: Kind)
    ensures var (floor, ceiling) := Range(owner, kind);
            var next := NextCode(codes, owner, kind);
            && (next.Some? ==> exists n: nat :: floor <= n <= ceiling && next.value == Decimal(n))
            && ((forall c, n: nat :: c in codes && Number(c) == Some(n) ==> !(floor <= n <= ceiling)) ==>
                next == Some(Decimal(floor)))
  {
    var (floor, ceiling) := Range(owner, kind);
    InRangeIs(codes, floor, ceiling);
    var used := InRange(codes, floor, ceiling);
    if used != [] {
      MaxIs(used[0], used);
      assert used[0] in used;
    }
  }

  /** A number of the owner and kind: five digits, the first of them theirs. */
  predicate Bears(code: string, owner: Owner, kind: Kind) {
    Number(code).Some? && Digit(owner, kind) * 10000 <= Number(code).value < Digit(owner, kind) * 10000 + 10000
  }

  /** An allocated code has five digits, the first of them by owner and kind; a chart without such a code gets that digit
      and four zeros. */
  lemma CodesByOwner(codes: seq<string>, owner: Owner, kind: Kind)
    ensures var next := NextCode(codes, owner, kind);
            && (next.Some? ==> |next.value| == 5 && next.value[0] == Char(Digit(owner, kind)))
            && ((forall c :: c in codes ==> !Bears(c, owner, kind)) ==>
                next == Some([Char(Digit(owner, kind))] + "0000"))
  {
    RangeIs(owner, kind);
    NextIs(codes, owner, kind);
    var next := NextCode(codes, owner, kind);
    if next.Some? {
      var n: nat :| Digit(owner, kind) * 10000 <= n <= Digit(owner, kind) * 10000 + 9999 && next.value == Decimal(n);
      FiveDigits(n, Digit(owner, kind));
    }
    FiveDigits(Digit(owner, kind) * 10000, Digit(owner, kind));
  }

  /** Income and expense codes of one owner are never the same, nor are SYSTEM's and anyone else's. */
  lemma KindsApart(codes: seq<string>, owner: Owner, kind: Kind, others: seq<string>, other: Owner, otherKind: Kind)
    requires (owner == other && kind != otherKind) || (owner == System && other != System)
    requires NextCode(codes, owner, kind).Some? && NextCode(others, other, otherKind).Some?
    ensures NextCode(codes, owner, kind) != NextCode(others, other, otherKind)
  {
    CodesByOwner(codes, owner, kind);
    CodesByOwner(others, other, otherKind);
    assert Char(Digit(owner, kind)) != Char(Digit(other, otherKind));
  }

  // ---- Section blocks ----

  /** Some code has a number among the hundred from this one on. */
  ghost predicate HundredTaken(codes: seq<string>, from: int) {
    exists c, n: nat :: c in codes && Number(c) == Some(n) && from <= n < from + 100
  }

  /** A whole hundred of SYSTEM's expense codes is occupied exactly if some code lies in it. */
  lemma BlockTakenIff(codes: seq<string>, a: int)
    requires IsAnchor(a)
    ensures a in Blocks(codes) <==> HundredTaken(codes, a)
  {
    InRangeIs(codes, 60000, 69999);
    if a in Blocks(codes) {
      var n :| n in InRange(codes, 60000, 69999) && Block(n) == a;
      var c :| c in codes && Number(c) == Some(n);
      assert HundredTaken(codes, a);
    }
    if c, n: nat :| c in codes && Number(c) == Some(n) && a <= n < a + 100 {
      assert n as int in InRange(codes, 60000, 69999) && Block(n) == a;
    }
  }

  /** A section is created exactly under a code of 6, two digits and two zeros whose hundred is free. */
  lemma CreatedIff(sections: seq<string>, cards: seq<string>, code: string)
    ensures CreateSection(sections, cards, code).Some? <==>
            && |code| == 5 && code[0] == '6' && '0' <= code[1] <= '9' && '0' <= code[2] <= '9' && code[3] == '0'
            && code[4] == '0'
            && Number(code).Some? && !HundredTaken(sections, Number(code).value)
            && !HundredTaken(cards, Number(code).value)
    ensures CreateSection(sections, cards, code).Some? ==>
            CreateSection(sections, cards, code).value == sections + [code]
  {
    assert |code| == 5 ==> code[3..] == [code[3], code[4]];
    if IsBlockCode(code) {
      DigitsOfBlockCode(code);
      BlockTakenIff(sections + cards, Number(code).value);
      TakenByEither(sections, cards, Number(code).value);
    }
  }

  lemma TakenByEither(a: seq<string>, b: seq<string>, from: int)
    ensures HundredTaken(a + b, from) <==> HundredTaken(a, from) || HundredTaken(b, from)
  {
    assert forall c :: c in a + b <==> c in a || c in b;
  }
}
