/** Manual journal entries: VAT arithmetic and the lines built from what the user typed.
    Amounts are in agorot; `Round` is toFixed(2), exact and half away from zero. */
module ManualEntry {
  import opened Common
  import opened Text
  import opened JournalTypes

  function Round(x: real): int {
    if x >= 0.0 then (x + 0.5).Floor else -((-x + 0.5).Floor)
  }

  /** 1 + rate * percent / 100. */
  function Factor(rate: real, percent: real): real { 1.0 + rate * (percent / 100.0) }

  /** The net part of a gross amount, and its VAT. */
  function Extract(gross: real, rate: real, percent: real): (int, int)
    requires Factor(rate, percent) != 0.0
  {
    var net := Round(gross / Factor(rate, percent));
    (net, Round(gross - net as real))
  }

  /** VAT added on top of a net amount. */
  function AddOn(net: real, rate: real): int { Round(net * rate) }

  /** The part of a net amount that counts for tax. */
  function TaxShare(net: real, percent: real): int { Round(net * percent / 100.0) }

  lemma RoundWhole(n: int)
    ensures Round(n as real) == n
  {
  }

  /** Round is nearest: anything closer than a half to n rounds to n. */
  lemma RoundNear(x: real, n: int)
    requires n as real - 0.5 < x < n as real + 0.5
    ensures Round(x) == n
  {
  }

  lemma RoundMonotone(x: real, y: real)
    requires x <= y
    ensures Round(x) <= Round(y)
  {
  }

  lemma RoundError(x: real)
    ensures x - 0.5 <= Round(x) as real <= x + 0.5
  {
  }

  lemma ByProduct(a: real, b: real, f: real)
    requires f > 0.0
    ensures a * f < b * f ==> a < b
    ensures a * f <= b * f ==> a <= b
  {
    assert (b - a) * f == b * f - a * f;
  }

  lemma DivideShrinks(d: real, f: real)
    requires f > 1.0 && -0.5 <= d <= 0.5
    ensures -0.5 < d / f < 0.5
  {
    var q := d / f;
    assert q * f == d;
    assert -0.5 * f < d < 0.5 * f;
    ByProduct(q, 0.5, f);
    ByProduct(-0.5, q, f);
  }

  lemma Quotient(n: real, d: real, f: real)
    requires f != 0.0
    ensures (n * f + d) / f == n + d / f
  {
    var q := d / f;
    assert q * f == d;
    assert (n + q) * f == n * f + d;
    var p := (n * f + d) / f;
    assert p * f == n * f + d;
    assert (p - (n + q)) * f == 0.0;
  }

  /** Extracting at 100 percent undoes adding on top, to the agora. */
  lemma ExtractUndoesAddOn(net: int, rate: real)
    requires rate > 0.0
    ensures Factor(rate, 100.0) > 1.0
    ensures Extract((net + AddOn(net as real, rate)) as real, rate, 100.0) == (net, AddOn(net as real, rate))
  {
    var vat := AddOn(net as real, rate);
    var f := Factor(rate, 100.0);
    assert f == 1.0 + rate;
    var n := net as real;
    var d := vat as real - n * rate;
    RoundError(n * rate);
    assert (net + vat) as real == n * f + d;
    Quotient(n, d, f);
    DivideShrinks(d, f);
    RoundNear((net + vat) as real / f, net);
    RoundWhole(vat);
    assert (net + vat) as real - net as real == vat as real;
  }

  lemma DivideMonotone(x: real, y: real, f: real)
    requires x <= y && f > 0.0
    ensures x / f <= y / f
  {
    var a, b := x / f, y / f;
    assert a * f == x && b * f == y;
    ByProduct(a, b, f);
  }

  lemma DivideAntitone(x: real, f: real, g: real)
    requires x >= 0.0 && 0.0 < f <= g
    ensures 0.0 <= x / g <= x / f
  {
    var a, b := x / f, x / g;
    assert a * f == x && b * g == x;
    ByProduct(0.0, b, g);
    assert b * f <= b * g by {
      assert b * (g - f) >= 0.0;
    }
    ByProduct(b, a, f);
  }

  /** Extraction splits a whole gross exactly, with 0 <= net <= gross. */
  lemma ExtractSplits(gross: nat, rate: real, percent: real)
    requires rate >= 0.0 && percent >= 0.0
    ensures Factor(rate, percent) >= 1.0
    ensures var (net, vat) := Extract(gross as real, rate, percent);
            0 <= net <= gross && 0 <= vat && net + vat == gross
  {
    assert rate * (percent / 100.0) >= 0.0;
    var f := Factor(rate, percent);
    DivideAntitone(gross as real, 1.0, f);
    assert gross as real / 1.0 == gross as real;
    RoundMonotone(0.0, gross as real / f);
    RoundMonotone(gross as real / f, gross as real);
    RoundWhole(gross);
    RoundWhole(gross - Round(gross as real / f));
  }

  /** The net rises with the gross and falls with the recognised percent. */
  lemma ExtractIsMonotone(gross: nat, more: nat, rate: real, percent: real, higher: real)
    requires rate >= 0.0 && 0.0 <= percent <= higher && gross <= more
    ensures Factor(rate, percent) >= 1.0 && Factor(rate, higher) >= 1.0
    ensures Extract(gross as real, rate, percent).0 <= Extract(more as real, rate, percent).0
    ensures Extract(gross as real, rate, higher).0 <= Extract(gross as real, rate, percent).0
  {
    ExtractSplits(gross, rate, percent);
    ExtractSplits(gross, rate, higher);
    assert rate * (percent / 100.0) <= rate * (higher / 100.0) by {
      assert rate * ((higher - percent) / 100.0) >= 0.0;
      assert higher / 100.0 == percent / 100.0 + (higher - percent) / 100.0;
    }
    DivideMonotone(gross as real, more as real, Factor(rate, percent));
    RoundMonotone(gross as real / Factor(rate, percent), more as real / Factor(rate, percent));
    DivideAntitone(gross as real, Factor(rate, percent), Factor(rate, higher));
    RoundMonotone(gross as real / Factor(rate, higher), gross as real / Factor(rate, percent));
  }

  // ---- From the typed entry to journal lines ----

  datatype Kind = Expense | Income | IncomeExempt

  /** One typed line; an absent account code is "". */
  datatype TypedLine = TypedLine(accountCode: string, amount: real, subCategoryId: Option<nat>, isEquipment: bool,
                                 vatPercent: Option<real>, taxPercent: Option<real>)

  datatype TypedEntry = TypedEntry(kind: Kind, date: string, valueDate: string, vatDate: string, reference: string,
                                   description: string, notes: Option<string>, vatReportingPeriod: string,
                                   lines: seq<TypedLine>)

  /** What the books say: posting accounts, visible sub-categories, the year's VAT rate if known, and
      whether the caller owns the business. */
  datatype Books = Books(accounts: map<string, Account>, subCategories: map<nat, SubCategory>, rate: Option<real>,
                         owner: bool)

  datatype SubCategory = SubCategory(name: string, category: Option<string>)

  const INCOME_ACCOUNT := "40000"
  const BANK := "1100"

  /** The percent a line's VAT is extracted at. */
  function VatPercent(kind: Kind, line: TypedLine): real {
    match kind
    case Expense => if line.vatPercent.Some? then line.vatPercent.value else 100.0
    case Income => 100.0
    case IncomeExempt => 0.0
  }

  function TaxPercent(kind: Kind, line: TypedLine): real {
    if kind.Expense? && line.taxPercent.Some? then line.taxPercent.value else 100.0
  }

  /** A recognised percent that makes the extraction divide by zero. */
  predicate Infinite(kind: Kind, rate: real, line: TypedLine) {
    kind.Expense? && Factor(rate, VatPercent(kind, line)) == 0.0
  }

  /** Net and VAT of one line. Of the infinities that a division by zero gives only the signs are kept: net has the
      amount's sign and VAT the opposite one; such a line is never stored. */
  function Amounts(kind: Kind, rate: real, line: TypedLine): (real, int) {
    if kind.Income? then (line.amount, AddOn(line.amount, rate))
    else if Infinite(kind, rate, line) then (line.amount, if line.amount < 0.0 then 1 else -1)
    else
      var (net, vat) := Extract(line.amount, rate, VatPercent(kind, line));
      (net as real, vat)
  }

  predicate Skipped(kind: Kind, line: TypedLine) {
    line.amount == 0.0 || (kind.Expense? && line.accountCode == "")
  }

  function PostingCode(kind: Kind, line: TypedLine): string {
    if kind.Expense? then line.accountCode else INCOME_ACCOUNT
  }

  function CheckLine(kind: Kind, books: Books, line: TypedLine): Option<Error> {
    var code := PostingCode(kind, line);
    if code !in books.accounts then Some(NotFound)
    else if !books.accounts[code].hasSection
      || books.accounts[code].kind != (if kind.Expense? then "expense" else "income") then
      Some(BadRequest)
    else if kind.Expense? && line.subCategoryId.Some? && line.subCategoryId.value !in books.subCategories then
      Some(NotFound)
    else None
  }

  function SubCategoryOf(kind: Kind, books: Books, line: TypedLine): Option<SubCategory> {
    if kind.Expense? && line.subCategoryId.Some? && line.subCategoryId.value in books.subCategories then
      Some(books.subCategories[line.subCategoryId.value])
    else None
  }

  function On(expense: bool, side: bool, amount: real): Option<real> {
    Some(if expense == side then amount else 0.0)
  }

  /** The one or two journal lines of a typed line with these amounts. */
  function LinesWith(kind: Kind, books: Books, line: TypedLine, net: real, vat: int, share: int): seq<LineInput> {
    var sub := SubCategoryOf(kind, books, line);
    var equipment := kind.Expense? && line.isEquipment;
    [LineInput(PostingCode(kind, line), On(kind.Expense?, true, net), On(kind.Expense?, false, net),
               Some(net), Some(0.0), Some(equipment), Some(TaxPercent(kind, line)), Some(VatPercent(kind, line)),
               Some(share as real), if sub.Some? then Some(sub.value.name) else None)]
    + (if vat > 0 then
         [LineInput(if kind.Expense? then "2410" else "2400", On(kind.Expense?, true, vat as real),
                    On(kind.Expense?, false, vat as real), Some(0.0), Some(vat as real), Some(equipment), Some(0.0),
                    Some(VatPercent(kind, line)), Some(0.0), None)]
       else [])
  }

  function LinesOf(kind: Kind, rate: real, books: Books, line: TypedLine): seq<LineInput> {
    var (net, vat) := Amounts(kind, rate, line);
    LinesWith(kind, books, line, net, vat, TaxShare(net, TaxPercent(kind, line)))
  }

  /** The posted lines of a list of typed lines, or the first line's error. */
  function PostedLines(kind: Kind, rate: real, books: Books, typed: seq<TypedLine>): Result<seq<LineInput>, Error> {
    if typed == [] then Ok([])
    else
      var line := typed[|typed| - 1];
      var before := PostedLines(kind, rate, books, typed[..|typed| - 1]);
      if before.Err? || Skipped(kind, line) then before
      else if CheckLine(kind, books, line).Some? then Err(CheckLine(kind, books, line).value)
      else Ok(before.value + LinesOf(kind, rate, books, line))
  }

  /** reduce over (debit || credit || 0). */
  function GrossTotal(lines: seq<LineInput>): real {
    if lines == [] then 0.0
    else
      var l := lines[|lines| - 1];
      GrossTotal(lines[..|lines| - 1]) + (if Debit(l) != 0.0 then Debit(l) else Credit(l))
  }

  function BankLine(kind: Kind, total: real): LineInput {
    LineInput(BANK, On(kind.Expense?, false, total), On(kind.Expense?, true, total), Some(0.0), Some(0.0), Some(false),
              Some(0.0), Some(0.0), Some(0.0), None)
  }

  /** The first picked sub-category names the entry when no description was typed. */
  function Pair(kind: Kind, books: Books, typed: seq<TypedLine>): string {
    if typed == [] then ""
    else
      var before := Pair(kind, books, typed[..|typed| - 1]);
      var line := typed[|typed| - 1];
      var sub := SubCategoryOf(kind, books, line);
      if before != "" || Skipped(kind, line) || sub.None? || sub.value.name == "" then before
      else if sub.value.category.Some? && sub.value.category.value != "" then
        sub.value.category.value + "/" + sub.value.name
      else sub.value.name
  }

  function Fallback(a: string, b: string): string { if a != "" then a else b }

  predicate AnyInfinite(kind: Kind, rate: real, typed: seq<TypedLine>) {
    exists line :: line in typed && !Skipped(kind, line) && Infinite(kind, rate, line)
  }

  /** The whole of createManualJournalEntry up to the write, which refuses numbers that are not finite. */
  function ManualInput(owner: string, business: string, books: Books, entry: TypedEntry): Result<EntryInput, Error> {
    if !books.owner then Err(Forbidden)
    else if entry.lines == [] then Err(BadRequest)
    else if books.rate.None? then Err(ServerError)
    else
      var posted := PostedLines(entry.kind, books.rate.value, books, entry.lines);
      if posted.Err? then Err(posted.error)
      else if posted.value == [] then Err(BadRequest)
      else
        var total := GrossTotal(posted.value);
        var period := if entry.kind.IncomeExempt? then "" else Trim(entry.vatReportingPeriod);
        if !entry.kind.IncomeExempt? && period == "" && HasVatLine(posted.value) then Err(BadRequest)
        else if AnyInfinite(entry.kind, books.rate.value, entry.lines) then Err(DatabaseError)
        else Ok(EntryInput(owner, business, None, Some(BANK), None, Some(total), entry.date,
                           Some(Fallback(entry.valueDate, entry.date)), Some(Fallback(entry.vatDate, entry.date)),
                           entry.notes, if period == "" then None else Some(period), "MANUAL", None,
                           Some(Fallback(Trim(entry.description),
                                         Fallback(Pair(entry.kind, books, entry.lines), Trim(entry.reference)))),
                           posted.value + [BankLine(entry.kind, total)]))
  }

  predicate HasVatLine(lines: seq<LineInput>) {
    exists l :: l in lines && l.vatAmount.Some? && l.vatAmount.value > 0.0
  }

  method DocumentTotal(lines: seq<LineInput>) returns (total: real)
    ensures total == GrossTotal(lines)
  {
    total := 0.0;
    for i := 0 to |lines|
      invariant total == GrossTotal(lines[..i])
    {
      assert lines[..i + 1][..i] == lines[..i];
      total := total + (if Debit(lines[i]) != 0.0 then Debit(lines[i]) else Credit(lines[i]));
    }
    assert lines[..|lines|] == lines;
  }

  /** What the loop over the typed lines gathers. */
  datatype Gathered = Gathered(lines: seq<LineInput>, anyVatLine: bool, infinite: bool, pair: string)

  ghost predicate IsGathered(g: Gathered, kind: Kind, rate: real, books: Books, typed: seq<TypedLine>) {
    && PostedLines(kind, rate, books, typed) == Ok(g.lines) && g.anyVatLine == HasVatLine(g.lines)
    && g.infinite == AnyInfinite(kind, rate, typed) && g.pair == Pair(kind, books, typed)
  }

  /** The source's loop over the typed lines, pushing lines as it goes. */
  method GatherLines(kind: Kind, rate: real, books: Books, typed: seq<TypedLine>) returns (r: Result<Gathered, Error>)
    ensures r.Err? ==> PostedLines(kind, rate, books, typed) == Err(r.error)
    ensures r.Ok? ==> IsGathered(r.value, kind, rate, books, typed)
  {
    var lines: seq<LineInput> := [];
    var anyVatLine, infinite := false, false;
    var pair := "";
    for i := 0 to |typed|
      invariant IsGathered(Gathered(lines, anyVatLine, infinite, pair), kind, rate, books, typed[..i])
    {
      var line := typed[i];
      assert typed[..i + 1][..i] == typed[..i] && typed[..i + 1][i] == line;
      OneMoreLine(kind, rate, books, typed, i);
      if !Skipped(kind, line) {
        var check := CheckLine(kind, books, line);
        if check.Some? {
          ErrorsStay(kind, rate, books, typed, i + 1);
          return Err(check.value);
        }
        var sub := SubCategoryOf(kind, books, line);
        if sub.Some? && sub.value.name != "" && pair == "" {
          pair := if sub.value.category.Some? && sub.value.category.value != ""
                  then sub.value.category.value + "/" + sub.value.name
                  else sub.value.name;
        }
        var more := LinesOf(kind, rate, books, line);
        VatOfLine(kind, rate, books, line);
        VatOfTwo(lines, more);
        anyVatLine := anyVatLine || |more| > 1;
        infinite := infinite || Infinite(kind, rate, line);
        lines := lines + more;
      }
    }
    assert typed[..|typed|] == typed;
    return Ok(Gathered(lines, anyVatLine, infinite, pair));
  }

  method BuildManualEntry(owner: string, business: string, books: Books, entry: TypedEntry)
    returns (r: Result<EntryInput, Error>)
    ensures r == ManualInput(owner, business, books, entry)
  {
    if !books.owner { return Err(Forbidden); }
    if entry.lines == [] { return Err(BadRequest); }
    if books.rate.None? { return Err(ServerError); }
    var gathered := GatherLines(entry.kind, books.rate.value, books, entry.lines);
    if gathered.Err? { return Err(gathered.error); }
    var Gathered(lines, anyVatLine, infinite, pair) := gathered.value;
    if lines == [] { return Err(BadRequest); }
    var total := DocumentTotal(lines);
    var period := if entry.kind.IncomeExempt? then "" else Trim(entry.vatReportingPeriod);
    if !entry.kind.IncomeExempt? && anyVatLine && period == "" { return Err(BadRequest); }
    if infinite { return Err(DatabaseError); }
    return Ok(EntryInput(owner, business, None, Some(BANK), None, Some(total), entry.date,
                         Some(Fallback(entry.valueDate, entry.date)), Some(Fallback(entry.vatDate, entry.date)),
                         entry.notes, if period == "" then None else Some(period), "MANUAL", None,
                         Some(Fallback(Trim(entry.description), Fallback(pair, Trim(entry.reference)))),
                         lines + [BankLine(entry.kind, total)]));
  }

  lemma VatOfLine(kind: Kind, rate: real, books: Books, line: TypedLine)
    ensures var group := LinesOf(kind, rate, books, line); HasVatLine(group) <==> |group| > 1
  {
    var group := LinesOf(kind, rate, books, line);
    if |group| > 1 { assert group[1] in group; }
  }

  lemma VatOfTwo(a: seq<LineInput>, b: seq<LineInput>)
    ensures HasVatLine(a + b) <==> HasVatLine(a) || HasVatLine(b)
  {
    assert forall l :: l in a + b <==> l in a || l in b;
  }

  /** One step of the loop. */
  lemma OneMoreLine(kind: Kind, rate: real, books: Books, typed: seq<TypedLine>, i: nat)
    requires i < |typed|
    ensures AnyInfinite(kind, rate, typed[..i + 1]) <==>
            AnyInfinite(kind, rate, typed[..i]) || (!Skipped(kind, typed[i]) && Infinite(kind, rate, typed[i]))
    ensures PostedLines(kind, rate, books, typed[..i]).Ok? ==>
              PostedLines(kind, rate, books, typed[..i + 1]) ==
                if Skipped(kind, typed[i]) then PostedLines(kind, rate, books, typed[..i])
                else if CheckLine(kind, books, typed[i]).Some? then Err(CheckLine(kind, books, typed[i]).value)
                else Ok(PostedLines(kind, rate, books, typed[..i]).value + LinesOf(kind, rate, books, typed[i]))
  {
    assert typed[..i + 1] == typed[..i] + [typed[i]];
    assert typed[..i + 1][..i] == typed[..i];
  }

  lemma {:induction false} ErrorsStay(kind: Kind, rate: real, books: Books, typed: seq<TypedLine>, i: nat)
    requires i <= |typed| && PostedLines(kind, rate, books, typed[..i]).Err?
    ensures PostedLines(kind, rate, books, typed) == PostedLines(kind, rate, books, typed[..i])
    decreases |typed|
  {
    if i == |typed| {
      assert typed[..i] == typed;
    } else {
      assert typed[..|typed| - 1][..i] == typed[..i];
      ErrorsStay(kind, rate, books, typed[..|typed| - 1], i);
    }
  }

  // ---- What an accepted entry guarantees ----

  /** The side the posted lines are on. */
  predicate OneSided(expense: bool, lines: seq<LineInput>) {
    forall l :: l in lines ==> (if expense then Credit(l) == 0.0 else Debit(l) == 0.0)
  }

  lemma {:induction false} SidesOfTotal(expense: bool, lines: seq<LineInput>)
    requires OneSided(expense, lines)
    ensures Debits(lines) == (if expense then GrossTotal(lines) else 0.0)
    ensures Credits(lines) == (if expense then 0.0 else GrossTotal(lines))
  {
    if lines != [] {
      assert lines[|lines| - 1] in lines;
      SidesOfTotal(expense, lines[..|lines| - 1]);
    }
  }

  lemma {:induction false} PostedAreOneSided(kind: Kind, rate: real, books: Books, typed: seq<TypedLine>)
    requires PostedLines(kind, rate, books, typed).Ok?
    ensures OneSided(kind.Expense?, PostedLines(kind, rate, books, typed).value)
  {
    if typed != [] {
      PostedAreOneSided(kind, rate, books, typed[..|typed| - 1]);
    }
  }

  /** Every accepted manual entry balances: total debits, total credits and documentTotal agree. */
  lemma AcceptedEntryBalances(owner: string, business: string, books: Books, entry: TypedEntry)
    requires ManualInput(owner, business, books, entry).Ok?
    ensures var input := ManualInput(owner, business, books, entry).value;
            input.documentTotal == Some(Debits(input.lines)) && Debits(input.lines) == Credits(input.lines)
  {
    var posted := PostedLines(entry.kind, books.rate.value, books, entry.lines).value;
    var bank := BankLine(entry.kind, GrossTotal(posted));
    PostedAreOneSided(entry.kind, books.rate.value, books, entry.lines);
    SidesOfTotal(entry.kind.Expense?, posted);
    assert (posted + [bank])[..|posted|] == posted;
  }

  /** What the user typed, line by line: the gross for expenses and exempt income, net plus rounded VAT
      for liable income; skipped lines count nothing. */
  function Typed(kind: Kind, rate: real, typed: seq<TypedLine>): real {
    if typed == [] then 0.0
    else
      var line := typed[|typed| - 1];
      Typed(kind, rate, typed[..|typed| - 1]) + (if Skipped(kind, line) then 0.0 else TypedAmount(kind, rate, line))
  }

  function TypedAmount(kind: Kind, rate: real, line: TypedLine): real {
    if kind.Income? then line.amount + AddOn(line.amount, rate) as real else line.amount
  }

  predicate WholePositive(x: real) { x > 0.0 && x.Floor as real == x }

  lemma {:induction false} GrossAppends(a: seq<LineInput>, b: seq<LineInput>)
    ensures GrossTotal(a + b) == GrossTotal(a) + GrossTotal(b)
    decreases |b|
  {
    if b == [] {
      assert a + b == a;
    } else {
      assert (a + b)[..|a + b| - 1] == a + b[..|b| - 1];
      GrossAppends(a, b[..|b| - 1]);
    }
  }

  lemma GrossOfOne(l: LineInput)
    ensures GrossTotal([l]) == if Debit(l) != 0.0 then Debit(l) else Credit(l)
  {
    assert [l][..0] == [];
  }

  lemma PercentsDivide(kind: Kind, rate: real, typed: seq<TypedLine>)
    requires rate >= 0.0
    requires forall line :: line in typed ==> WholePositive(line.amount) && VatPercent(kind, line) >= 0.0
    ensures forall line :: line in typed ==> Factor(rate, VatPercent(kind, line)) >= 1.0
  {
    forall line | line in typed ensures Factor(rate, VatPercent(kind, line)) >= 1.0 {
      ExtractSplits(0, rate, VatPercent(kind, line));
    }
  }

  /** The net and VAT of one positive whole line are not negative and add up to what was typed. */
  lemma AmountsAddUp(kind: Kind, rate: real, line: TypedLine)
    requires rate >= 0.0 && WholePositive(line.amount) && VatPercent(kind, line) >= 0.0
    ensures Factor(rate, VatPercent(kind, line)) >= 1.0
    ensures var (net, vat) := Amounts(kind, rate, line);
            && vat >= 0
            && net + vat as real == TypedAmount(kind, rate, line)
  {
    ExtractSplits(line.amount.Floor, rate, VatPercent(kind, line));
    if kind.Income? {
      assert line.amount * rate >= 0.0;
      RoundMonotone(0.0, line.amount * rate);
    }
  }

  lemma LineTotal(kind: Kind, rate: real, books: Books, line: TypedLine)
    requires Amounts(kind, rate, line).1 >= 0
    ensures GrossTotal(LinesOf(kind, rate, books, line)) ==
            Amounts(kind, rate, line).0 + Amounts(kind, rate, line).1 as real
  {
    var two := LinesOf(kind, rate, books, line);
    GrossAppends([two[0]], two[1..]);
    assert two == [two[0]] + two[1..];
    GrossOfOne(two[0]);
    if |two| > 1 {
      GrossOfOne(two[1]);
      assert two[1..] == [two[1]];
    }
  }

  lemma LineIsTyped(kind: Kind, rate: real, books: Books, line: TypedLine)
    requires rate >= 0.0 && WholePositive(line.amount) && VatPercent(kind, line) >= 0.0
    ensures GrossTotal(LinesOf(kind, rate, books, line)) == TypedAmount(kind, rate, line)
  {
    AmountsAddUp(kind, rate, line);
    LineTotal(kind, rate, books, line);
  }

  /** The document total is the sum of what was typed. */
  lemma {:induction false} TotalIsTyped(kind: Kind, rate: real, books: Books, typed: seq<TypedLine>)
    requires rate >= 0.0
    requires forall line :: line in typed ==> WholePositive(line.amount) && VatPercent(kind, line) >= 0.0
    ensures forall line :: line in typed ==> Factor(rate, VatPercent(kind, line)) >= 1.0
    ensures PostedLines(kind, rate, books, typed).Ok? ==>
              GrossTotal(PostedLines(kind, rate, books, typed).value) == Typed(kind, rate, typed)
  {
    PercentsDivide(kind, rate, typed);
    if typed != [] {
      var line := typed[|typed| - 1];
      var rest := typed[..|typed| - 1];
      TotalIsTyped(kind, rate, books, rest);
      LineIsTyped(kind, rate, books, line);
      if PostedLines(kind, rate, books, typed).Ok? && !Skipped(kind, line) {
        GrossAppends(PostedLines(kind, rate, books, rest).value, LinesOf(kind, rate, books, line));
      }
    }
  }

  /** For positive whole amounts and recognised percents of at least 0, the stored documentTotal is what
      was typed. */
  lemma DocumentTotalIsTyped(owner: string, business: string, books: Books, entry: TypedEntry)
    requires books.rate.Some? && books.rate.value >= 0.0
    requires forall line :: line in entry.lines ==> WholePositive(line.amount) && VatPercent(entry.kind, line) >= 0.0
    ensures ManualInput(owner, business, books, entry).Ok? ==>
              ManualInput(owner, business, books, entry).value.documentTotal ==
                Some(Typed(entry.kind, books.rate.value, entry.lines))
  {
    TotalIsTyped(entry.kind, books.rate.value, books, entry.lines);
  }
}
