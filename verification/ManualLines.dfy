/** What a typed entry posts, line by line and column by column, and which entries are accepted. */
module ManualLines {
  import opened Common
  import opened Text
  import opened JournalTypes
  import opened ManualEntry

  /** A typed line that is not skipped. */
  predicate Counts(kind: Kind, line: TypedLine) {
    line.amount != 0.0 && (kind == Expense ==> line.accountCode != "")
  }

  function Counted(kind: Kind, typed: seq<TypedLine>): seq<TypedLine> {
    if typed == [] then []
    else Counted(kind, typed[..|typed| - 1]) + (if Counts(kind, typed[|typed| - 1]) then [typed[|typed| - 1]] else [])
  }

  lemma {:induction false} CountedAre(kind: Kind, typed: seq<TypedLine>)
    ensures forall line :: line in Counted(kind, typed) <==> line in typed && Counts(kind, line)
  {
    if typed != [] {
      CountedAre(kind, typed[..|typed| - 1]);
      assert typed == typed[..|typed| - 1] + [typed[|typed| - 1]];
    }
  }

  function Flatten(groups: seq<seq<LineInput>>): seq<LineInput> {
    if groups == [] then [] else Flatten(groups[..|groups| - 1]) + groups[|groups| - 1]
  }

  /** 100 percent unless typed. */
  function Percent(typed: Option<real>): real { if typed == None then 100.0 else typed.value }

  predicate IsOn(l: LineInput, code: string, debit: real, credit: real) {
    l.accountCode == code && l.debit == Some(debit) && l.credit == Some(credit)
  }

  /** The columns beside the amounts: the net, the VAT, the part of the net that counts for tax, and the percents. */
  predicate Columns(l: LineInput, net: real, vat: real, share: real, tax: real, recognised: real, equipment: bool) {
    && l.amountBeforeVat == Some(net) && l.vatAmount == Some(vat) && l.amountForTax == Some(share)
    && l.taxPercent == Some(tax) && l.vatPercent == Some(recognised) && l.isEquipment == Some(equipment)
  }

  /** An expense debits its own card with the net, and account 2410 with the VAT if that is positive. */
  predicate Debited(line: TypedLine, net: real, vat: int, share: int, group: seq<LineInput>) {
    var (recognised, tax) := (Percent(line.vatPercent), Percent(line.taxPercent));
    && |group| == (if vat > 0 then 2 else 1)
    && IsOn(group[0], line.accountCode, net, 0.0)
    && Columns(group[0], net, 0.0, share as real, tax, recognised, line.isEquipment)
    && (vat > 0 ==> && IsOn(group[1], "2410", vat as real, 0.0)
                    && Columns(group[1], 0.0, vat as real, 0.0, 0.0, recognised, line.isEquipment))
  }

  /** Income credits account 40000 with the net, and account 2400 with the VAT if that is positive. */
  predicate Credited(net: real, vat: int, share: int, recognised: real, group: seq<LineInput>) {
    && |group| == (if vat > 0 then 2 else 1)
    && IsOn(group[0], "40000", 0.0, net)
    && Columns(group[0], net, 0.0, share as real, 100.0, recognised, false)
    && (vat > 0 ==> && IsOn(group[1], "2400", 0.0, vat as real)
                    && Columns(group[1], 0.0, vat as real, 0.0, 0.0, recognised, false))
  }

  /** Half an agora below zero, which rounds away from zero. */
  predicate HalfBelowZero(x: real) { x < 0.0 && x == x.Floor as real + 0.5 }

  /** What a typed line posts: an expense the net and VAT extracted from the gross at the recognised percent; liable
      income the typed net and the VAT on top; exempt income the rounded gross without VAT, unless the typed amount is
      half an agora below zero, whose rounding error passes for a VAT of one. */
  predicate Posts(kind: Kind, rate: real, books: Books, line: TypedLine, group: seq<LineInput>) {
    match kind
    case Expense =>
      && group != [] && Factor(rate, Percent(line.vatPercent)) != 0.0
      && group[0].subCategoryName == (if line.subCategoryId != None && line.subCategoryId.value in books.subCategories
                                      then Some(books.subCategories[line.subCategoryId.value].name) else None)
      && var (net, vat) := Extract(line.amount, rate, Percent(line.vatPercent));
         Debited(line, net as real, vat, TaxShare(net as real, Percent(line.taxPercent)), group)
    case Income => Credited(line.amount, AddOn(line.amount, rate), Round(line.amount), 100.0, group)
    case IncomeExempt =>
      var gross := Round(line.amount);
      Credited(gross as real, if HalfBelowZero(line.amount) then 1 else 0, gross, 0.0, group)
  }

  /** VAT on top and the tax share are the whole numbers nearest to the products they stand for. */
  lemma SharesAreNearest(amount: real, rate: real, percent: real)
    ensures -0.5 <= AddOn(amount, rate) as real - amount * rate <= 0.5
    ensures -0.5 <= TaxShare(amount, percent) as real - amount * percent / 100.0 <= 0.5
  {
    RoundError(amount * rate);
    RoundError(amount * percent / 100.0);
  }

  /** The net is the whole number nearest to the gross over 1 + rate * percent / 100. */
  lemma NetIsNearest(gross: real, rate: real, percent: real)
    requires Factor(rate, percent) != 0.0
    ensures Factor(rate, percent) == 1.0 + rate * (percent / 100.0)
    ensures -0.5 <= Extract(gross, rate, percent).0 as real - gross / Factor(rate, percent) <= 0.5
  {
    RoundError(gross / Factor(rate, percent));
  }

  lemma ExemptAmounts(amount: real, rate: real)
    ensures Factor(rate, 0.0) == 1.0
    ensures var (net, vat) := Extract(amount, rate, 0.0);
            net == Round(amount) && (vat > 0 <==> HalfBelowZero(amount)) && (vat > 0 ==> vat == 1)
  {
    assert rate * (0.0 / 100.0) == 0.0;
    assert amount / 1.0 == amount;
    RoundError(amount);
    RoundErrorIsHalf(amount);
  }

  /** How far rounding moves a number, by its distance from the whole number below it. */
  lemma RoundByFraction(x: real, n: int, f: real)
    requires x == n as real + f && 0.0 <= f < 1.0
    ensures x >= 0.0 ==> Round(x) == if f < 0.5 then n else n + 1
    ensures x < 0.0 ==> Round(x) == if f <= 0.5 then n else n + 1
  {
    if x >= 0.0 {
      var up := if f < 0.5 then n else n + 1;
      assert up as real <= x + 0.5 < up as real + 1.0;
      assert (x + 0.5).Floor == up;
    } else {
      var down := if f <= 0.5 then -n else -n - 1;
      assert down as real <= -x + 0.5 < down as real + 1.0;
      assert (-x + 0.5).Floor == down;
    }
  }

  lemma RoundErrorIsHalf(x: real)
    ensures x - Round(x) as real == 0.5 <==> HalfBelowZero(x)
    ensures x - Round(x) as real <= 0.5
  {
    RoundByFraction(x, x.Floor, x - x.Floor as real);
  }

  lemma WholeShare(net: real)
    ensures TaxShare(net, 100.0) == Round(net)
  {
    assert net * 100.0 / 100.0 == net;
  }

  lemma IsDebited(books: Books, line: TypedLine, net: real, vat: int, share: int)
    ensures Debited(line, net, vat, share, LinesWith(Expense, books, line, net, vat, share))
  {
  }

  lemma IsCredited(kind: Kind, books: Books, line: TypedLine, net: real, vat: int, share: int)
    requires kind != Expense
    ensures Credited(net, vat, share, if kind == Income then 100.0 else 0.0,
                     LinesWith(kind, books, line, net, vat, share))
  {
  }

  lemma OnlyPositiveVat(kind: Kind, books: Books, line: TypedLine, net: real, vat: int, other: int, share: int)
    requires vat == other || (vat <= 0 && other <= 0)
    ensures LinesWith(kind, books, line, net, vat, share) == LinesWith(kind, books, line, net, other, share)
  {
  }

  lemma OneLinePosts(kind: Kind, rate: real, books: Books, line: TypedLine)
    requires !Infinite(kind, rate, line)
    ensures Posts(kind, rate, books, line, LinesOf(kind, rate, books, line))
  {
    var (net, vat) := Amounts(kind, rate, line);
    var share := TaxShare(net, TaxPercent(kind, line));
    match kind
    case Expense => IsDebited(books, line, net, vat, share);
    case Income =>
      WholeShare(line.amount);
      IsCredited(kind, books, line, net, vat, share);
    case IncomeExempt =>
      ExemptAmounts(line.amount, rate);
      WholeShare(net);
      RoundWhole(Round(line.amount));
      var shown := if HalfBelowZero(line.amount) then 1 else 0;
      IsCredited(kind, books, line, net, shown, share);
      OnlyPositiveVat(kind, books, line, net, vat, shown, share);
  }

  lemma {:induction false} LinesPost(kind: Kind, rate: real, books: Books, typed: seq<TypedLine>)
    returns (groups: seq<seq<LineInput>>)
    requires PostedLines(kind, rate, books, typed).Ok? && !AnyInfinite(kind, rate, typed)
    ensures |groups| == |Counted(kind, typed)| && PostedLines(kind, rate, books, typed).value == Flatten(groups)
    ensures forall k :: 0 <= k < |groups| ==> Posts(kind, rate, books, Counted(kind, typed)[k], groups[k])
  {
    if typed == [] {
      groups := [];
    } else {
      var line, init := typed[|typed| - 1], typed[..|typed| - 1];
      assert typed == init + [line] && line in typed;
      groups := LinesPost(kind, rate, books, init);
      if Counts(kind, line) {
        OneLinePosts(kind, rate, books, line);
        var group := LinesOf(kind, rate, books, line);
        assert (groups + [group])[..|groups|] == groups;
        groups := groups + [group];
      }
    }
  }

  /** The lines of an accepted entry: for each typed line that counts, in order, what its kind of entry posts, and then
      the bank with the total on the other side. */
  lemma AcceptedLines(owner: string, business: string, books: Books, entry: TypedEntry)
    returns (groups: seq<seq<LineInput>>, bank: LineInput)
    requires ManualInput(owner, business, books, entry).Ok?
    ensures books.rate != None && |groups| == |Counted(entry.kind, entry.lines)|
    ensures ManualInput(owner, business, books, entry).value.lines == Flatten(groups) + [bank]
    ensures forall k :: 0 <= k < |groups| ==>
              Posts(entry.kind, books.rate.value, books, Counted(entry.kind, entry.lines)[k], groups[k])
    ensures exists total :: && ManualInput(owner, business, books, entry).value.documentTotal == Some(total)
                            && IsOn(bank, "1100", if entry.kind == Expense then 0.0 else total,
                                    if entry.kind == Expense then total else 0.0)
  {
    groups := LinesPost(entry.kind, books.rate.value, books, entry.lines);
    bank := BankLine(entry.kind, GrossTotal(Flatten(groups)));
  }

  // ---- Which entries are accepted ----

  /** The card of a typed line may be posted to, and its sub-category is one the caller sees. */
  predicate MayPost(kind: Kind, books: Books, line: TypedLine) {
    var code := if kind == Expense then line.accountCode else "40000";
    && code in books.accounts && books.accounts[code].hasSection
    && books.accounts[code].kind == (if kind == Expense then "expense" else "income")
    && (kind == Expense && line.subCategoryId != None ==> line.subCategoryId.value in books.subCategories)
  }

  /** The typed line has a positive VAT. */
  predicate HasVat(kind: Kind, rate: real, line: TypedLine) {
    match kind
    case Expense =>
      Factor(rate, Percent(line.vatPercent)) != 0.0 && Extract(line.amount, rate, Percent(line.vatPercent)).1 > 0
    case Income => AddOn(line.amount, rate) > 0
    case IncomeExempt => HalfBelowZero(line.amount)
  }

  lemma LineHasVat(kind: Kind, rate: real, books: Books, line: TypedLine)
    requires !Infinite(kind, rate, line)
    ensures HasVatLine(LinesOf(kind, rate, books, line)) <==> HasVat(kind, rate, line)
  {
    var group := LinesOf(kind, rate, books, line);
    OneLinePosts(kind, rate, books, line);
    assert group[0] in group && group[0].vatAmount == Some(0.0);
    if HasVat(kind, rate, line) {
      assert group[1] in group;
    }
  }

  lemma {:induction false} PostedIff(kind: Kind, rate: real, books: Books, typed: seq<TypedLine>)
    requires !AnyInfinite(kind, rate, typed)
    ensures PostedLines(kind, rate, books, typed).Ok? <==>
              forall line :: line in typed && Counts(kind, line) ==> MayPost(kind, books, line)
    ensures PostedLines(kind, rate, books, typed).Ok? ==>
              var posted := PostedLines(kind, rate, books, typed).value;
              && (posted == [] <==> forall line :: line in typed ==> !Counts(kind, line))
              && (HasVatLine(posted) <==> exists line :: line in typed && Counts(kind, line) && HasVat(kind, rate, line))
  {
    if typed != [] {
      var line, init := typed[|typed| - 1], typed[..|typed| - 1];
      assert typed == init + [line] && line in typed;
      PostedIff(kind, rate, books, init);
      assert forall l :: l in typed <==> l in init || l == line;
      if Counts(kind, line) && PostedLines(kind, rate, books, typed).Ok? {
        LineHasVat(kind, rate, books, line);
        VatOfTwo(PostedLines(kind, rate, books, init).value, LinesOf(kind, rate, books, line));
      }
    }
  }

  /** An entry is accepted exactly when the caller owns the business, the year's rate is known, some line counts, all
      that count may be posted and divide by no zero, and a reporting period is typed if there is VAT on an entry that
      is not exempt. */
  lemma AcceptedIff(owner: string, business: string, books: Books, entry: TypedEntry)
    ensures ManualInput(owner, business, books, entry).Ok? <==>
              && books.owner && books.rate != None
              && (exists line :: line in entry.lines && Counts(entry.kind, line))
              && (forall line :: line in entry.lines && Counts(entry.kind, line) ==>
                    && MayPost(entry.kind, books, line)
                    && (entry.kind == Expense ==> Factor(books.rate.value, Percent(line.vatPercent)) != 0.0))
              && ((exists line ::
                     line in entry.lines && Counts(entry.kind, line) && HasVat(entry.kind, books.rate.value, line)) ==>
                    entry.kind == IncomeExempt || Trim(entry.vatReportingPeriod) != "")
  {
    if books.rate.Some? && !AnyInfinite(entry.kind, books.rate.value, entry.lines) {
      PostedIff(entry.kind, books.rate.value, books, entry.lines);
    }
  }

  /** The typed text, or what stands in for it. */
  predicate TextOr(text: string, typed: string, otherwise: string) {
    if typed == "" then text == otherwise else text == typed
  }

  /** The header of an accepted entry: the typed dates, with the entry's own for absent ones; the trimmed period, none for
      exempt income; the trimmed description, else the first picked sub-category, else the trimmed reference. */
  lemma AcceptedHeader(owner: string, business: string, books: Books, entry: TypedEntry)
    requires ManualInput(owner, business, books, entry).Ok?
    ensures var input := ManualInput(owner, business, books, entry).value;
            && input.owner == owner && input.business == business && input.date == entry.date
            && input.notes == entry.notes
            && (exists d :: input.valueDate == Some(d) && TextOr(d, entry.valueDate, entry.date))
            && (exists d :: input.vatDate == Some(d) && TextOr(d, entry.vatDate, entry.date))
            && input.vatReportingPeriod ==
            (if entry.kind == IncomeExempt || Trim(entry.vatReportingPeriod) == "" then None
                                            else Some(Trim(entry.vatReportingPeriod)))
            && input.referenceType == "MANUAL" && input.referenceId == None && input.counterAccountCode == Some("1100")
            && (exists text, pair :: && input.description == Some(text) && IsPair(pair, entry.kind, books, entry.lines)
                                     && TextOr(text, Trim(entry.description),
                                               if pair != "" then pair else Trim(entry.reference)))
  {
    PairIs(entry.kind, books, entry.lines);
    var input := ManualInput(owner, business, books, entry).value;
    assert TextOr(input.valueDate.value, entry.valueDate, entry.date);
    assert TextOr(input.vatDate.value, entry.vatDate, entry.date);
    var pair := Pair(entry.kind, books, entry.lines);
    assert TextOr(input.description.value, Trim(entry.description), if pair != "" then pair else Trim(entry.reference));
  }

  /** A typed line that picks a named sub-category. */
  predicate Picks(kind: Kind, books: Books, line: TypedLine) {
    && kind == Expense && Counts(kind, line) && line.subCategoryId != None
    && line.subCategoryId.value in books.subCategories && books.subCategories[line.subCategoryId.value].name != ""
  }

  /** Category and name of the first picked sub-category, or its name alone if it has no category. */
  predicate IsPair(pair: string, kind: Kind, books: Books, typed: seq<TypedLine>) {
    || (pair == "" && forall k :: 0 <= k < |typed| ==> !Picks(kind, books, typed[k]))
    || exists k :: && 0 <= k < |typed| && Picks(kind, books, typed[k])
                   && (forall j :: 0 <= j < k ==> !Picks(kind, books, typed[j]))
                   && var sub := books.subCategories[typed[k].subCategoryId.value];
                      pair == if sub.category == None || sub.category.value == "" then sub.name
                              else sub.category.value + "/" + sub.name
  }

  lemma {:induction false} PairIs(kind: Kind, books: Books, typed: seq<TypedLine>)
    ensures IsPair(Pair(kind, books, typed), kind, books, typed)
    ensures Pair(kind, books, typed) == "" <==> forall k :: 0 <= k < |typed| ==> !Picks(kind, books, typed[k])
  {
    if typed != [] {
      var n := |typed| - 1;
      var init := typed[..n];
      PairIs(kind, books, init);
      assert forall k :: 0 <= k < n ==> init[k] == typed[k];
      if Pair(kind, books, init) != "" {
        var k :| && 0 <= k < n && Picks(kind, books, init[k])
                 && (forall j :: 0 <= j < k ==> !Picks(kind, books, init[j]))
                 && var sub := books.subCategories[init[k].subCategoryId.value];
                    Pair(kind, books, init) == if sub.category == None || sub.category.value == "" then sub.name
                                               else sub.category.value + "/" + sub.name;
        assert Picks(kind, books, typed[k]);
      } else if Picks(kind, books, typed[n]) {
        assert forall j :: 0 <= j < n ==> !Picks(kind, books, typed[j]);
      }
    }
  }
}
