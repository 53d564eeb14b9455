/** Account codes: allocation per owner range and per section, and the 100-code blocks of sections. */
module AccountCodes {
  import opened Common
  import opened Text

  datatype Owner = System | Accountant | Client
  datatype Kind = Income | Expense

  const JUMP := 10

  function Range(owner: Owner, kind: Kind): (int, int) {
    match (owner, kind)
    case (System, Income) => (40000, 49999)
    case (System, Expense) => (60000, 69999)
    case (Accountant, Income) => (50000, 59999)
    case (Accountant, Expense) => (70000, 79999)
    case (Client, Income) => (50000, 59999)
    case (Client, Expense) => (80000, 89999)
  }

  /** Number(code) for a code of decimal digits; None stands for NaN. */
  function Number(code: string): Option<nat> {
    if code == "" || exists c :: c in code && !IsDigit(c) then None else Some(Value(code))
  }

  function Value(digits: string): nat
    requires forall c :: c in digits ==> IsDigit(c)
  {
    if digits == "" then 0
    else
      var last := digits[|digits| - 1];
      assert last in digits && IsDigit(last);
      Value(digits[..|digits| - 1]) * 10 + (last as int - '0' as int)
  }

  /** String(n). */
  function Decimal(n: nat): string {
    if n < 10 then [('0' as int + n) as char] else Decimal(n / 10) + [('0' as int + n % 10) as char]
  }

  lemma {:induction false} NumberOfDecimal(n: nat)
    ensures Decimal(n) != "" && (forall c :: c in Decimal(n) ==> IsDigit(c))
    ensures Value(Decimal(n)) == n && Number(Decimal(n)) == Some(n)
  {
    if n < 10 {
      assert Decimal(n)[..0] == "";
    } else {
      NumberOfDecimal(n / 10);
      assert Decimal(n)[..|Decimal(n)| - 1] == Decimal(n / 10);
    }
  }

  /** The numbers of the codes that lie in a range. */
  function InRange(codes: seq<string>, floor: int, ceiling: int): seq<int> {
    if codes == [] then []
    else
      var n := Number(codes[|codes| - 1]);
      InRange(codes[..|codes| - 1], floor, ceiling)
      + (if n.Some? && floor <= n.value <= ceiling then [n.value as int] else [])
  }

  function Max(first: int, numbers: seq<int>): int {
    if numbers == [] then first
    else
      var m := Max(first, numbers[..|numbers| - 1]);
      if numbers[|numbers| - 1] > m then numbers[|numbers| - 1] else m
  }

  lemma {:induction false} MaxIs(first: int, numbers: seq<int>)
    ensures Max(first, numbers) == first || Max(first, numbers) in numbers
    ensures first <= Max(first, numbers) && forall n :: n in numbers ==> n <= Max(first, numbers)
  {
    if numbers != [] {
      MaxIs(first, numbers[..|numbers| - 1]);
      assert numbers == numbers[..|numbers| - 1] + [numbers[|numbers| - 1]];
    }
  }

  lemma {:induction false} InRangeIs(codes: seq<string>, floor: int, ceiling: int)
    ensures forall n :: n in InRange(codes, floor, ceiling) <==>
              floor <= n <= ceiling && exists c :: c in codes && Number(c) == Some(n)
  {
    if codes != [] {
      InRangeIs(codes[..|codes| - 1], floor, ceiling);
      assert codes == codes[..|codes| - 1] + [codes[|codes| - 1]];
    }
  }

  /** getNextAccountCode over the codes of one chart. */
  function NextCode(codes: seq<string>, owner: Owner, kind: Kind): Option<string> {
    var (floor, ceiling) := Range(owner, kind);
    var used := InRange(codes, floor, ceiling);
    var next := if used != [] then Max(used[0], used) + JUMP else floor;
    assert next >= floor by {
      InRangeIs(codes, floor, ceiling);
      if used != [] {
        MaxIs(used[0], used);
        assert used[0] in used;
      }
    }
    if next > ceiling then None else Some(Decimal(next))
  }

  /** An allocated code is new to its chart, in range, above every in-range code; allocation fails exactly
      when some code is within a jump of the ceiling. */
  lemma NextCodeIsFresh(codes: seq<string>, owner: Owner, kind: Kind)
    ensures var (floor, ceiling) := Range(owner, kind);
            var next := NextCode(codes, owner, kind);
            && (next.Some? ==>
                  && next.value !in codes
                  && (exists n: nat :: Number(next.value) == Some(n) && floor <= n <= ceiling
                        && (n == floor || exists c :: c in codes && Number(c) == Some(n - JUMP))
                        && forall c, m :: c in codes && Number(c) == Some(m) && floor <= m <= ceiling ==> m + JUMP <= n))
            && (next.None? <==> exists c, m :: c in codes && Number(c) == Some(m) && ceiling - JUMP < m <= ceiling)
  {
    var (floor, ceiling) := Range(owner, kind);
    var used := InRange(codes, floor, ceiling);
    InRangeIs(codes, floor, ceiling);
    var n := if used != [] then Max(used[0], used) + JUMP else floor;
    if used != [] {
      MaxIs(used[0], used);
      assert used[0] in used;
    }
    NumberOfDecimal(n);
    forall c, m | c in codes && Number(c) == Some(m) && floor <= m <= ceiling ensures m + JUMP <= n {
      assert m as int in used;
    }
    if n > ceiling {
      var m := Max(used[0], used);
      assert m in used;
      var c :| c in codes && Number(c) == Some(m);
    }
  }

  // ---- Runs of manual and automatic codes in one chart ----

  datatype CodeOp = Manual(code: string) | Automatic(owner: Owner, kind: Kind)

  /** A manual code is refused when taken; the added code, if any, is reported. */
  function AddCode(codes: seq<string>, op: CodeOp): (seq<string>, Option<string>) {
    match op
    case Manual(code) => if code == "" || code in codes then (codes, None) else (codes + [code], Some(code))
    case Automatic(owner, kind) =>
      var next := NextCode(codes, owner, kind);
      if next.None? then (codes, None) else (codes + [next.value], next)
  }

  function CodesAfter(ops: seq<CodeOp>): seq<string> {
    if ops == [] then [] else AddCode(CodesAfter(ops[..|ops| - 1]), ops[|ops| - 1]).0
  }

  /** Over any run no code is ever taken twice, and each automatic code lies in its range a jump or more
      above every in-range code taken before it, manual or automatic. */
  lemma {:induction false} CodesStayDistinct(ops: seq<CodeOp>)
    ensures forall i, j :: 0 <= i < j < |CodesAfter(ops)| ==> CodesAfter(ops)[i] != CodesAfter(ops)[j]
    ensures ops != [] && ops[|ops| - 1].Automatic? ==>
              var before := CodesAfter(ops[..|ops| - 1]);
              var op := ops[|ops| - 1];
              var (floor, ceiling) := Range(op.owner, op.kind);
              var added := AddCode(before, op).1;
              added.Some? ==>
                && CodesAfter(ops) == before + [added.value]
                && (exists n: nat :: Number(added.value) == Some(n) && floor <= n <= ceiling
                      && forall c, m :: c in before && Number(c) == Some(m) && floor <= m <= ceiling ==> m + JUMP <= n)
  {
    if ops != [] {
      var op := ops[|ops| - 1];
      var before := CodesAfter(ops[..|ops| - 1]);
      CodesStayDistinct(ops[..|ops| - 1]);
      if op.Automatic? {
        NextCodeIsFresh(before, op.owner, op.kind);
      }
    }
  }

  // ---- Section blocks ----

  /** The block anchor a SYSTEM expense code falls in. */
  function Block(n: int): int { n / 100 * 100 }

  /** systemExpenseBlockCodes. */
  function Blocks(codes: seq<string>): set<int> {
    set n | n in InRange(codes, 60000, 69999) :: Block(n)
  }

  predicate IsAnchor(n: int) { 60000 <= n <= 69900 && n % 100 == 0 }

  /** The preview finds a free block exactly when one of the 100 is free. It lies past every block; a gap
      below some block is only offered when no room is left past them, and then it is the lowest. */
  method PreviewSection(codes: seq<string>) returns (code: Option<int>)
    ensures code.Some? ==> IsAnchor(code.value) && code.value !in Blocks(codes)
    ensures code.None? ==> forall a :: IsAnchor(a) ==> a in Blocks(codes)
    ensures code.Some? && (exists b :: b in Blocks(codes) && b > code.value) ==>
              forall a :: IsAnchor(a) && (a < code.value || forall b :: b in Blocks(codes) ==> a > b) ==>
                a in Blocks(codes)
  {
    var numbers := InRange(codes, 60000, 69999);
    var occupied := Blocks(codes);
    var highest := 59900;
    for i := 0 to |numbers|
      invariant highest % 100 == 0 && 59900 <= highest <= 69900
      invariant forall k :: 0 <= k < i ==> Block(numbers[k]) <= highest
      invariant highest == 59900 || highest in occupied
    {
      InRangeIs(codes, 60000, 69999);
      assert numbers[i] in numbers;
      assert Block(numbers[i]) in occupied;
      if Block(numbers[i]) > highest { highest := Block(numbers[i]); }
    }
    assert forall b :: b in occupied ==> b <= highest;
    code := FirstFree(occupied, highest + 100, 69900);
    if code.None? {
      code := FirstFree(occupied, 60000, if highest < 69900 then highest else 69900);
    }
  }

  /** The first free block anchor from `first` up to `last`, in steps of 100. */
  method FirstFree(occupied: set<int>, first: int, last: int) returns (code: Option<int>)
    requires first % 100 == 0 && last % 100 == 0
    ensures code.Some? ==> first <= code.value <= last && code.value % 100 == 0 && code.value !in occupied
    ensures forall a :: first <= a <= last && a % 100 == 0 && (code.Some? ==> a < code.value) ==> a in occupied
  {
    var candidate := first;
    while candidate <= last
      invariant candidate % 100 == 0 && first <= candidate
      invariant forall a :: first <= a < candidate && a % 100 == 0 ==> a in occupied
      decreases last + 100 - candidate
    {
      if candidate !in occupied { return Some(candidate); }
      candidate := candidate + 100;
    }
    return None;
  }

  /** The regular expression on the code: 6, two digits, 00. */
  predicate IsBlockCode(code: string) {
    |code| == 5 && code[0] == '6' && IsDigit(code[1]) && IsDigit(code[2]) && code[3..] == "00"
  }

  /** createSystemExpenseSection over the SYSTEM sections' and cards' codes. */
  function CreateSection(sections: seq<string>, cards: seq<string>, code: string): Option<seq<string>> {
    if !IsBlockCode(code) || Number(code).None? || Number(code).value in Blocks(sections + cards) then None
    else Some(sections + [code])
  }

  lemma DigitsOfBlockCode(code: string)
    requires IsBlockCode(code)
    ensures Number(code).Some? && IsAnchor(Number(code).value)
  {
    assert code[3] == code[3..][0] && code[4] == code[3..][1];
    var c4, c3, c2, c1 := code[..4], code[..3], code[..2], code[..1];
    assert c4[..3] == c3 && c3[..2] == c2 && c2[..1] == c1 && c1[..0] == "";
    assert Value(c1) == 6 && Value(c2) == 60 + (code[1] as int - '0' as int);
    assert Value(code) == Value(c3) * 100;
  }

  /** Only a code of a whole free block is accepted: afterwards no other section or card shares the block. */
  lemma CreatedSectionOwnsItsBlock(sections: seq<string>, cards: seq<string>, code: string, other: string)
    requires CreateSection(sections, cards, code).Some?
    requires other in sections || other in cards
    ensures CreateSection(sections, cards, code).value == sections + [code] && IsAnchor(Number(code).value)
    ensures Number(other).Some? && 60000 <= Number(other).value <= 69999 ==>
            Block(Number(other).value) != Number(code).value
  {
    DigitsOfBlockCode(code);
    InRangeIs(sections + cards, 60000, 69999);
    assert other in sections + cards;
    if Number(other).Some? && 60000 <= Number(other).value <= 69999 {
      assert Number(other).value as int in InRange(sections + cards, 60000, 69999);
    }
  }

  lemma {:induction false} BlockCodesByAnchor(a: int)
    requires IsAnchor(a)
    ensures IsBlockCode(Decimal(a)) && Number(Decimal(a)) == Some(a)
  {
    NumberOfDecimal(a);
    var h := a / 100;
    assert Decimal(a) == Decimal(a / 10) + "0" && Decimal(a / 10) == Decimal(h) + "0";
    assert 600 <= h <= 699;
    assert h / 10 >= 60 && h / 10 / 10 == 6;
    assert Decimal(h) == Decimal(h / 10) + [('0' as int + h % 10) as char];
    assert Decimal(h / 10) == Decimal(6) + [('0' as int + h / 10 % 10) as char];
    assert Decimal(6) == "6";
  }

  /** The previewed block is accepted by creation, as long as nobody took it in between. */
  method PreviewThenCreate(sections: seq<string>, cards: seq<string>) returns (created: Option<seq<string>>)
    ensures created.Some? <==> exists a :: IsAnchor(a) && a !in Blocks(sections + cards)
    ensures created.Some? ==> |created.value| == |sections| + 1 && sections <= created.value
  {
    var code := PreviewSection(sections + cards);
    if code.None? { return None; }
    BlockCodesByAnchor(code.value);
    created := CreateSection(sections, cards, Decimal(code.value));
  }
}
