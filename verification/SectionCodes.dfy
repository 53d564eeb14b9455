/** Automatic codes for the cards of SYSTEM sections: allocated within a section, unique within the chart. */
module SectionCodes {
  import opened Common
  import opened AccountCodes

  /** The greatest of the section's own code and the in-range numbers of its cards. */
  function Top(sectionCodes: seq<string>, anchor: nat, kind: Kind): int {
    Max(anchor, InRange(sectionCodes, Range(System, kind).0, Range(System, kind).1))
  }

  /** getNextSystemAccountCodeForSection: only the section's own codes are looked at. */
  function NextSectionCode(sectionCodes: seq<string>, anchor: string, kind: Kind): Option<string> {
    var (floor, ceiling) := Range(System, kind);
    var a := Number(anchor);
    if a.None? || a.value < floor || a.value > ceiling then None
    else
      var next := Top(sectionCodes, a.value, kind) + JUMP;
      assert next >= floor by { MaxIs(a.value, InRange(sectionCodes, floor, ceiling)); }
      if next > ceiling then None else Some(Decimal(next))
  }

  lemma TopIs(sectionCodes: seq<string>, anchor: nat, kind: Kind)
    ensures var top := Top(sectionCodes, anchor, kind);
            && anchor <= top
            && (forall c, n ::
                  c in sectionCodes && Number(c) == Some(n) && Range(System, kind).0 <= n <= Range(System, kind).1 ==>
                    n <= top)
            && (top == anchor
                || exists c ::
                     c in sectionCodes && Number(c) == Some(top)
                     && Range(System, kind).0 <= top <= Range(System, kind).1)
  {
    var (floor, ceiling) := Range(System, kind);
    var used := InRange(sectionCodes, floor, ceiling);
    InRangeIs(sectionCodes, floor, ceiling);
    MaxIs(anchor, used);
    forall c, n | c in sectionCodes && Number(c) == Some(n) && floor <= n <= ceiling
      ensures n <= Top(sectionCodes, anchor, kind)
    {
      assert n as int in used;
    }
  }

  /** No card of another section has a number in the section's block of 100. */
  ghost predicate OwnsBlock(chart: seq<string>, section: seq<string>, anchor: nat) {
    forall c :: c in chart && c !in section && Number(c).Some? ==> !(anchor <= Number(c).value < anchor + 100)
  }

  /** The next code is the one a jump above the top, and none of the section's own. */
  lemma NextIs(section: seq<string>, anchor: string, kind: Kind)
    requires Number(anchor).Some? && Range(System, kind).0 <= Number(anchor).value <= Range(System, kind).1
    ensures var top := Top(section, Number(anchor).value, kind);
            var next := NextSectionCode(section, anchor, kind);
            && top >= 0 && Number(Decimal(top + JUMP)) == Some(top + JUMP)
            && (next.Some? <==> top + JUMP <= Range(System, kind).1)
            && (next.Some? ==> next.value == Decimal(top + JUMP) && next.value !in section)
  {
    TopIs(section, Number(anchor).value, kind);
    NumberOfDecimal(Top(section, Number(anchor).value, kind) + JUMP);
  }

  /** A section whose own code is no number of the kind's range gets no codes; any other gets them up to a jump below the
      ceiling. */
  lemma SectionCodeExistsIff(section: seq<string>, anchor: string, kind: Kind)
    ensures NextSectionCode(section, anchor, kind).Some? <==>
            && Number(anchor).Some? && Range(System, kind).0 <= Number(anchor).value <= Range(System, kind).1
            && Top(section, Number(anchor).value, kind) + JUMP <= Range(System, kind).1
  {
    if Number(anchor).Some? && Range(System, kind).0 <= Number(anchor).value <= Range(System, kind).1 {
      NextIs(section, anchor, kind);
    }
  }

  /** A code for the section exists exactly up to a jump below the ceiling. It is taken in the chart exactly when a
      card outside the section bears the number a jump above the section's top; a section that owns its block is
      safe from that as long as its top is at most 89 past its own code. */
  lemma SectionCodeTakenIff(chart: seq<string>, section: seq<string>, anchor: string, kind: Kind)
    requires forall c :: c in section ==> c in chart
    requires Number(anchor).Some? && Range(System, kind).0 <= Number(anchor).value <= Range(System, kind).1
    ensures var top := Top(section, Number(anchor).value, kind);
            var next := NextSectionCode(section, anchor, kind);
            && top >= 0
            && (next.Some? <==> top + JUMP <= Range(System, kind).1)
            && (next.Some? ==> (next.value in chart <==>
                                exists c :: c in chart && c !in section && c == Decimal(top + JUMP)))
            && (next.Some? && OwnsBlock(chart, section, Number(anchor).value) && top <= Number(anchor).value + 89 ==>
                next.value !in chart)
  {
    TopIs(section, Number(anchor).value, kind);
    NextIs(section, anchor, kind);
  }

  /** A manual card 60010 of another section is on the first code of section 60000. */
  lemma SectionCodesCanCollide()
    ensures NextSectionCode([], "60000", Expense).Some? && NextSectionCode([], "60000", Expense).value in ["60010"]
  {
    assert Decimal(60) == "60" && Decimal(600) == "600" && Decimal(6000) == "6000" && Decimal(60000) == "60000";
    assert Decimal(6001) == "6001" && Decimal(60010) == "60010";
    NumberOfDecimal(60000);
    assert InRange([], 60000, 69999) == [];
  }

  // ---- Runs of manual and automatic cards ----

  datatype Card = Card(code: string, section: nat)

  /** A card is created with the section's next code, with a typed one, or, as a variant of a card of the section, with
      the next code of the whole range; or a card is given another code and section. */
  datatype CardOp =
    | AutoCard(section: nat, kind: Kind)
    | ManualCard(section: nat, code: string)
    | RangeCard(section: nat, kind: Kind)
    | EditCard(i: nat, section: nat, code: string)

  function Codes(cards: seq<Card>): seq<string> {
    if cards == [] then [] else Codes(cards[..|cards| - 1]) + [cards[|cards| - 1].code]
  }

  function CodesOf(cards: seq<Card>, section: nat): seq<string> {
    if cards == [] then []
    else
      var before := CodesOf(cards[..|cards| - 1], section);
      if cards[|cards| - 1].section == section then before + [cards[|cards| - 1].code] else before
  }

  /** The new card's code, if any: a manual code must be free, and so must an automatic one, by the unique index on
      chart and code. */
  function NewCode(cards: seq<Card>, sections: map<nat, string>, op: CardOp): Option<string> {
    match op
    case ManualCard(_, code) => if code == "" || code in Codes(cards) then None else Some(code)
    case AutoCard(section, kind) =>
      if section !in sections then None
      else
        var next := NextSectionCode(CodesOf(cards, section), sections[section], kind);
        if next.None? || next.value in Codes(cards) then None else next
    case RangeCard(_, kind) => NextCode(Codes(cards), System, kind)
    case EditCard(_, _, _) => None
  }

  function AddCard(cards: seq<Card>, sections: map<nat, string>, op: CardOp): seq<Card> {
    if op.EditCard? then
      if op.i >= |cards| || (op.code != cards[op.i].code && op.code in Codes(cards)) then cards
      else cards[op.i := Card(op.code, op.section)]
    else
      var code := NewCode(cards, sections, op);
      if code.None? then cards else cards + [Card(code.value, op.section)]
  }

  function CardsAfter(cards: seq<Card>, sections: map<nat, string>, ops: seq<CardOp>): seq<Card> {
    if ops == [] then cards else AddCard(CardsAfter(cards, sections, ops[..|ops| - 1]), sections, ops[|ops| - 1])
  }

  lemma {:induction false} CodesOfAreCodes(cards: seq<Card>, section: nat)
    ensures forall c :: c in CodesOf(cards, section) ==> c in Codes(cards)
  {
    if cards != [] { CodesOfAreCodes(cards[..|cards| - 1], section); }
  }

  lemma CodesGrow(cards: seq<Card>, card: Card, section: nat)
    ensures Codes(cards + [card]) == Codes(cards) + [card.code]
    ensures CodesOf(cards + [card], section) == if card.section == section then CodesOf(cards, section) + [card.code]
            else CodesOf(cards, section)
  {
    assert (cards + [card])[..|cards|] == cards;
  }

  /** One more code raises the top to its number, if that is in range and above it. */
  lemma TopGrows(codes: seq<string>, code: string, anchor: nat, kind: Kind)
    ensures var top := Top(codes, anchor, kind);
            var (floor, ceiling) := Range(System, kind);
            Top(codes + [code], anchor, kind)
            == if Number(code).Some? && floor <= Number(code).value <= ceiling && Number(code).value > top
               then Number(code).value else top
  {
    var (floor, ceiling) := Range(System, kind);
    assert (codes + [code])[..|codes|] == codes;
    var used := InRange(codes, floor, ceiling);
    if Number(code).Some? && floor <= Number(code).value <= ceiling {
      assert (used + [Number(code).value as int])[..|used|] == used;
    } else {
      assert used + [] == used;
    }
  }

  /** Whether a manual card moves the section's top. */
  predicate MovesTop(op: CardOp, section: nat, kind: Kind, top: int) {
    op.ManualCard? && op.section == section && Number(op.code).Some?
    && Range(System, kind).0 <= Number(op.code).value <= Range(System, kind).1 && Number(op.code).value > top
  }

  /** The section is valid for the kind, and a card elsewhere bears the number of its next code. */
  ghost predicate Stuck(cards: seq<Card>, sections: map<nat, string>, section: nat, kind: Kind, top: nat) {
    && section in sections && Number(sections[section]).Some?
    && Range(System, kind).0 <= Number(sections[section]).value <= Range(System, kind).1
    && Top(CodesOf(cards, section), Number(sections[section]).value, kind) == top
    && Decimal(top + JUMP) in Codes(cards)
  }

  lemma StuckRefuses(cards: seq<Card>, sections: map<nat, string>, section: nat, kind: Kind, top: nat, other: Kind)
    requires Stuck(cards, sections, section, kind, top)
    ensures NewCode(cards, sections, AutoCard(section, other)).None?
  {
  }

  lemma NewCardKeepsStuck(cards: seq<Card>, sections: map<nat, string>, section: nat, kind: Kind, top: nat, card: Card)
    requires Stuck(cards, sections, section, kind, top)
    requires !MovesTop(ManualCard(card.section, card.code), section, kind, top)
    ensures Stuck(cards + [card], sections, section, kind, top)
  {
    CodesGrow(cards, card, section);
    if card.section == section {
      TopGrows(CodesOf(cards, section), card.code, Number(sections[section]).value, kind);
    }
  }

  /** The operation leaves the section's top and the card that bears its next code alone: it creates no card of the
      section's kind in it, neither by the range nor with a typed code above the top, and edits no card of the section,
      into the section, or with that code. */
  predicate LeavesAlone(cards: seq<Card>, section: nat, kind: Kind, top: nat, op: CardOp) {
    match op
    case AutoCard(_, _) => true
    case ManualCard(_, _) => !MovesTop(op, section, kind, top)
    case RangeCard(s, k) => s != section || k != kind
    case EditCard(i, s, _) =>
      i < |cards| ==> cards[i].section != section && s != section && cards[i].code != Decimal(top + JUMP)
  }

  /** A card with a code of the other kind's range does not move the top. */
  lemma OtherKindLeaves(cards: seq<Card>, section: nat, kind: Kind, top: nat, s: nat, k: Kind)
    requires k != kind && NextCode(Codes(cards), System, k).Some?
    ensures !MovesTop(ManualCard(s, NextCode(Codes(cards), System, k).value), section, kind, top)
  {
    NextCodeIsFresh(Codes(cards), System, k);
  }

  lemma {:induction false} EditKeepsCodes(cards: seq<Card>, i: nat, card: Card, section: nat)
    requires i < |cards|
    ensures forall c :: c in Codes(cards) && c != cards[i].code ==> c in Codes(cards[i := card])
    ensures cards[i].section != section && card.section != section ==>
            CodesOf(cards[i := card], section) == CodesOf(cards, section)
  {
    var init, edited := cards[..|cards| - 1], cards[i := card];
    if i < |init| {
      EditKeepsCodes(init, i, card, section);
      assert edited[..|edited| - 1] == init[i := card];
    } else {
      assert edited[..|edited| - 1] == init;
    }
  }

  lemma OpKeepsStuck(cards: seq<Card>, sections: map<nat, string>, section: nat, kind: Kind, top: nat, op: CardOp)
    requires Stuck(cards, sections, section, kind, top) && LeavesAlone(cards, section, kind, top, op)
    ensures Stuck(AddCard(cards, sections, op), sections, section, kind, top)
  {
    if op.EditCard? {
      if op.i < |cards| { EditKeepsCodes(cards, op.i, Card(op.code, op.section), section); }
    } else if op.AutoCard? && op.section == section {
      StuckRefuses(cards, sections, section, kind, top, op.kind);
    } else if NewCode(cards, sections, op).Some? {
      var card := Card(NewCode(cards, sections, op).value, op.section);
      if op.RangeCard? && op.section == section { OtherKindLeaves(cards, section, kind, top, section, op.kind); }
      NewCardKeepsStuck(cards, sections, section, kind, top, card);
    }
  }

  /** Every operation, when its turn comes, leaves the section's top and the card in its way alone. */
  ghost predicate AllLeaveAlone(cards: seq<Card>, sections: map<nat, string>, section: nat, kind: Kind, top: nat,
                                ops: seq<CardOp>) {
    ops != [] ==>
      && AllLeaveAlone(cards, sections, section, kind, top, ops[..|ops| - 1])
      && LeavesAlone(CardsAfter(cards, sections, ops[..|ops| - 1]), section, kind, top, ops[|ops| - 1])
  }

  /** Once the next code of a section is taken, no automatic card can be created in it, whatever else is created or
      edited, as long as its top and the card in its way are left alone. */
  lemma {:induction false} StuckUntilMoved(cards: seq<Card>, sections: map<nat, string>, section: nat, kind: Kind,
                                           top: nat, ops: seq<CardOp>)
    requires Stuck(cards, sections, section, kind, top) && AllLeaveAlone(cards, sections, section, kind, top, ops)
    ensures var after := CardsAfter(cards, sections, ops);
            Stuck(after, sections, section, kind, top) && AddCard(after, sections, AutoCard(section, kind)) == after
  {
    if ops != [] {
      var init := ops[..|ops| - 1];
      StuckUntilMoved(cards, sections, section, kind, top, init);
      OpKeepsStuck(CardsAfter(cards, sections, init), sections, section, kind, top, ops[|ops| - 1]);
    }
    StuckRefuses(CardsAfter(cards, sections, ops), sections, section, kind, top, kind);
  }

  /** A variant card with a code of the range gets a stuck section out: its number is the new top. */
  lemma RangeCardMovesTop(cards: seq<Card>, sections: map<nat, string>, section: nat, kind: Kind, top: nat)
    requires Stuck(cards, sections, section, kind, top) && top + JUMP <= Range(System, kind).1
    requires NewCode(cards, sections, RangeCard(section, kind)).Some?
    ensures var after := AddCard(cards, sections, RangeCard(section, kind));
            var now := Top(CodesOf(after, section), Number(sections[section]).value, kind);
            now >= top + 2 * JUMP && NewCode(cards, sections, RangeCard(section, kind)) == Some(Decimal(now))
  {
    var code := NewCode(cards, sections, RangeCard(section, kind)).value;
    TopIs(CodesOf(cards, section), Number(sections[section]).value, kind);
    NextPastTaken(Codes(cards), kind, top + JUMP);
    CodesGrow(cards, Card(code, section), section);
    TopGrows(CodesOf(cards, section), code, Number(sections[section]).value, kind);
  }

  /** The range's next code lies a jump or more past any taken code of the range. */
  lemma NextPastTaken(codes: seq<string>, kind: Kind, taken: nat)
    requires Decimal(taken) in codes && Range(System, kind).0 <= taken <= Range(System, kind).1
    requires NextCode(codes, System, kind).Some?
    ensures var n := Number(NextCode(codes, System, kind).value);
            && n.Some? && taken + JUMP <= n.value <= Range(System, kind).1
            && NextCode(codes, System, kind).value == Decimal(n.value)
  {
    NextCodeIsFresh(codes, System, kind);
    NextCodeIsDecimal(codes, System, kind);
    NumberOfDecimal(taken);
  }

  lemma NextCodeIsDecimal(codes: seq<string>, owner: Owner, kind: Kind)
    requires NextCode(codes, owner, kind).Some?
    ensures Number(NextCode(codes, owner, kind).value).Some?
    ensures NextCode(codes, owner, kind).value == Decimal(Number(NextCode(codes, owner, kind).value).value)
  {
    var (floor, ceiling) := Range(owner, kind);
    var used := InRange(codes, floor, ceiling);
    var next := if used != [] then Max(used[0], used) + JUMP else floor;
    if used != [] {
      InRangeIs(codes, floor, ceiling);
      MaxIs(used[0], used);
      assert used[0] in used;
    }
    NumberOfDecimal(next);
  }

  /** A manual card that moves the top makes its own number the one that counts. */
  lemma ManualCardMovesTop(cards: seq<Card>, sections: map<nat, string>, op: CardOp, kind: Kind, top: nat)
    requires Stuck(cards, sections, op.section, kind, top) && MovesTop(op, op.section, kind, top)
             && op.code !in Codes(cards)
    ensures var after := AddCard(cards, sections, op);
            Top(CodesOf(after, op.section), Number(sections[op.section]).value, kind) == Number(op.code).value
  {
    CodesGrow(cards, Card(op.code, op.section), op.section);
    TopGrows(CodesOf(cards, op.section), op.code, Number(sections[op.section]).value, kind);
  }

  // ---- Ten automatic cards ----

  function Repeat(section: nat, kind: Kind, n: nat): seq<CardOp> {
    if n == 0 then [] else Repeat(section, kind, n - 1) + [AutoCard(section, kind)]
  }

  /** The codes anchor + 10, anchor + 20, ..., anchor + 10 n. */
  function TenApart(anchor: nat, n: nat): seq<string> {
    if n == 0 then [] else TenApart(anchor, n - 1) + [Decimal(anchor + 10 * n)]
  }

  lemma {:induction false} TenApartIs(anchor: nat, n: nat)
    ensures forall c :: c in TenApart(anchor, n) ==> Number(c).Some? && anchor < Number(c).value <= anchor + 10 * n
  {
    if n > 0 {
      TenApartIs(anchor, n - 1);
      NumberOfDecimal(anchor + 10 * n);
      LastApart(anchor, n);
    }
  }

  /** The section has a valid code and no cards, and its first n codes are free. */
  ghost predicate Fresh(cards: seq<Card>, sections: map<nat, string>, section: nat, kind: Kind, n: nat) {
    && section in sections && Number(sections[section]).Some?
    && Range(System, kind).0 <= Number(sections[section]).value
    && Number(sections[section]).value + 10 * n <= Range(System, kind).1
    && CodesOf(cards, section) == []
    && (forall c :: c in TenApart(Number(sections[section]).value, n) ==> c !in Codes(cards))
  }

  /** The section's cards so far are n automatic ones. */
  ghost predicate Ran(cards: seq<Card>, after: seq<Card>, section: nat, anchor: nat, kind: Kind, n: nat) {
    && Codes(after) == Codes(cards) + TenApart(anchor, n)
    && CodesOf(after, section) == TenApart(anchor, n)
    && Top(TenApart(anchor, n), anchor, kind) == anchor + 10 * n
  }

  lemma FreshBefore(cards: seq<Card>, sections: map<nat, string>, section: nat, kind: Kind, n: nat)
    requires n > 0 && Fresh(cards, sections, section, kind, n)
    ensures Fresh(cards, sections, section, kind, n - 1)
  {
  }

  /** The next automatic code is the next multiple of ten past the section's own code, and it is free. */
  lemma NextInRun(cards: seq<Card>, before: seq<Card>, sections: map<nat, string>, section: nat, kind: Kind, n: nat)
    requires n > 0 && Fresh(cards, sections, section, kind, n)
    requires Ran(cards, before, section, Number(sections[section]).value, kind, n - 1)
    ensures NewCode(before, sections, AutoCard(section, kind)) == Some(Decimal(Number(sections[section]).value + 10 * n))
  {
    var a := Number(sections[section]).value;
    NumberOfDecimal(a + 10 * n);
    TenApartIs(a, n - 1);
    LastApart(a, n);
    assert Decimal(a + 10 * n) in TenApart(a, n);
    assert Decimal(a + 10 * n) !in Codes(before);
  }

  lemma RunGrows(cards: seq<Card>, before: seq<Card>, section: nat, a: nat, kind: Kind, n: nat)
    requires n > 0 && Range(System, kind).0 <= a && a + 10 * n <= Range(System, kind).1
    requires Ran(cards, before, section, a, kind, n - 1)
    ensures Ran(cards, before + [Card(Decimal(a + 10 * n), section)], section, a, kind, n)
  {
    var code := Decimal(a + 10 * n);
    NumberOfDecimal(a + 10 * n);
    CodesGrow(before, Card(code, section), section);
    TopGrows(TenApart(a, n - 1), code, a, kind);
    assert (Codes(cards) + TenApart(a, n - 1)) + [code] == Codes(cards) + TenApart(a, n);
  }

  lemma OneMoreCard(cards: seq<Card>, before: seq<Card>, sections: map<nat, string>, section: nat, kind: Kind, n: nat)
    requires n > 0 && Fresh(cards, sections, section, kind, n)
    requires Ran(cards, before, section, Number(sections[section]).value, kind, n - 1)
    ensures Ran(cards, AddCard(before, sections, AutoCard(section, kind)), section, Number(sections[section]).value,
                kind, n)
  {
    NextInRun(cards, before, sections, section, kind, n);
    RunGrows(cards, before, section, Number(sections[section]).value, kind, n);
  }

  lemma LastRepeated(cards: seq<Card>, sections: map<nat, string>, section: nat, kind: Kind, n: nat)
    requires n > 0
    ensures CardsAfter(cards, sections, Repeat(section, kind, n))
            == AddCard(CardsAfter(cards, sections, Repeat(section, kind, n - 1)), sections, AutoCard(section, kind))
  {
    var ops := Repeat(section, kind, n);
    assert ops[..|ops| - 1] == Repeat(section, kind, n - 1);
  }

  lemma NothingRan(cards: seq<Card>, section: nat, anchor: nat, kind: Kind)
    requires CodesOf(cards, section) == []
    ensures Ran(cards, cards, section, anchor, kind, 0)
  {
    assert Codes(cards) + [] == Codes(cards) && InRange([], Range(System, kind).0, Range(System, kind).1) == [];
  }

  /** n automatic cards in a fresh section get the codes ten apart from its own code on. */
  lemma {:induction false} AutomaticRun(cards: seq<Card>, sections: map<nat, string>, section: nat, kind: Kind, n: nat)
    requires Fresh(cards, sections, section, kind, n)
    ensures Ran(cards, CardsAfter(cards, sections, Repeat(section, kind, n)), section, Number(sections[section]).value,
                kind, n)
  {
    if n == 0 {
      NothingRan(cards, section, Number(sections[section]).value, kind);
    } else {
      FreshBefore(cards, sections, section, kind, n);
      AutomaticRun(cards, sections, section, kind, n - 1);
      OneMoreCard(cards, CardsAfter(cards, sections, Repeat(section, kind, n - 1)), sections, section, kind, n);
      LastRepeated(cards, sections, section, kind, n);
    }
  }

  /** The first nine automatic cards stay in the section's block of 100, the tenth has the code of the next section,
      and the eleventh would have that section's first automatic code: if a card bears it already, the section is
      stuck after ten cards. */
  ghost predicate FullAfterTen(cards: seq<Card>, after: seq<Card>, sections: map<nat, string>, section: nat,
                               kind: Kind, a: nat) {
    && CodesOf(after, section) == TenApart(a, 9) + [Decimal(a + 100)]
    && (forall c :: c in TenApart(a, 9) ==> Number(c).Some? && a < Number(c).value < a + 100)
    && section in sections
    && NextSectionCode(CodesOf(after, section), sections[section], kind) == Some(Decimal(a + 110))
    && NextSectionCode([], Decimal(a + 100), kind) == Some(Decimal(a + 110))
    && (Decimal(a + 110) in Codes(cards) ==> Stuck(after, sections, section, kind, a + 100))
  }

  lemma TenMakeFull(cards: seq<Card>, after: seq<Card>, sections: map<nat, string>, section: nat, kind: Kind)
    requires Fresh(cards, sections, section, kind, 10) && Number(sections[section]).value + 110 <= Range(System, kind).1
    requires Ran(cards, after, section, Number(sections[section]).value, kind, 10)
    ensures FullAfterTen(cards, after, sections, section, kind, Number(sections[section]).value)
  {
    var a := Number(sections[section]).value;
    TenApartIs(a, 9);
    FirstOfNext(a + 100, kind);
    LastApart(a, 10);
    NextPastTop(TenApart(a, 10), sections[section], kind, a + 100);
    assert Decimal(a + 110) in Codes(cards) ==> Decimal(a + 110) in Codes(after);
  }

  lemma LastApart(anchor: nat, n: nat)
    requires n > 0
    ensures TenApart(anchor, n) == TenApart(anchor, n - 1) + [Decimal(anchor + 10 * n)]
  {
  }

  lemma NextPastTop(sectionCodes: seq<string>, anchor: string, kind: Kind, top: nat)
    requires Number(anchor).Some? && Range(System, kind).0 <= Number(anchor).value <= Range(System, kind).1
    requires Top(sectionCodes, Number(anchor).value, kind) == top && top + 10 <= Range(System, kind).1
    ensures NextSectionCode(sectionCodes, anchor, kind) == Some(Decimal(top + 10))
  {
  }

  lemma TenCardsThenTheNeighbours(cards: seq<Card>, sections: map<nat, string>, section: nat, kind: Kind)
    requires Fresh(cards, sections, section, kind, 10) && Number(sections[section]).value + 110 <= Range(System, kind).1
    ensures FullAfterTen(cards, CardsAfter(cards, sections, Repeat(section, kind, 10)), sections, section, kind,
                         Number(sections[section]).value)
  {
    AutomaticRun(cards, sections, section, kind, 10);
    TenMakeFull(cards, CardsAfter(cards, sections, Repeat(section, kind, 10)), sections, section, kind);
  }

  lemma FirstOfNext(anchor: nat, kind: Kind)
    requires Range(System, kind).0 <= anchor && anchor + 10 <= Range(System, kind).1
    ensures NextSectionCode([], Decimal(anchor), kind) == Some(Decimal(anchor + 10))
  {
    NumberOfDecimal(anchor);
    assert InRange([], Range(System, kind).0, Range(System, kind).1) == [];
  }
}
