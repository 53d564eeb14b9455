/** The double-entry journal as a value: what create, batch create, replace, full update and delete
    do to headers, lines and the running counters, and what every run of them keeps. */
module JournalSpec {
  import opened Common
  import opened JournalTypes

  datatype Header = Header(
    id: nat, entryNumber: int, owner: string, business: string, subCategory: Option<string>,
    counterAccountCode: Option<string>, counterPartyName: Option<string>, documentTotal: Option<real>, date: string,
    valueDate: Option<string>, vatDate: Option<string>, notes: Option<string>, vatReportingPeriod: Option<string>,
    referenceType: string, referenceId: Option<int>, description: string)

  /** What a line records apart from whose it is. */
  datatype Values = Values(
    accountCode: string, lineInEntry: nat, debit: real, credit: real, amountBeforeVat: real, vatAmount: real,
    isEquipment: bool, taxPercent: real, vatPercent: real, amountForTax: real, subCategoryName: Option<string>)

  datatype Line = Line(entryId: nat, owner: string, business: string, values: Values)

  datatype CounterKey = CounterKey(owner: string, business: string)

  datatype Db = Db(headers: seq<Header>, lines: seq<Line>, counters: map<CounterKey, int>, nextId: nat)

  const FIRST_NUMBER := 10000000

  const NO_ENTRIES := Db([], [], map[], 1)

  datatype Posted = Posted(entryNumber: int, id: nat)

  function ValuesOf(line: LineInput, position: nat): Values {
    Values(line.accountCode, position, Or(line.debit, 0.0), Or(line.credit, 0.0), Or(line.amountBeforeVat, 0.0),
           Or(line.vatAmount, 0.0), Or(line.isEquipment, false), Or(line.taxPercent, 100.0), Or(line.vatPercent, 100.0),
           Or(line.amountForTax, 0.0), line.subCategoryName)
  }

  /** replaceJournalEntryLines leaves the percents and amountForTax to the column defaults. */
  function WithoutPercents(lines: seq<LineInput>): seq<LineInput> {
    seq(|lines|, (k: nat) requires k < |lines| =>
        lines[k].(taxPercent := None, vatPercent := None, amountForTax := None))
  }

  function LinesFor(id: nat, owner: string, business: string, lines: seq<LineInput>): (r: seq<Line>) {
    seq(|lines|, (k: nat) requires k < |lines| => Line(id, owner, business, ValuesOf(lines[k], k + 1)))
  }

  predicate AccountsKnown(chart: set<string>, lines: seq<LineInput>) {
    forall l :: l in lines ==> l.accountCode in chart
  }

  function Counter(db: Db, key: CounterKey): int {
    if key in db.counters then db.counters[key] else FIRST_NUMBER
  }

  function HeaderFor(input: EntryInput, id: nat, entryNumber: int): Header {
    Header(id, entryNumber, input.owner, input.business, input.subCategory, input.counterAccountCode,
           input.counterPartyName,
           input.documentTotal, input.date, input.valueDate, input.vatDate, input.notes, input.vatReportingPeriod,
           input.referenceType, input.referenceId, Or(input.description, ""))
  }

  function Post(db: Db, chart: set<string>, input: EntryInput): Result<(Db, Posted), Error> {
    if !AccountsKnown(chart, input.lines) then Err(NotFound)
    else
      var key := CounterKey(input.owner, input.business);
      var n := Counter(db, key);
      Ok((Db(db.headers + [HeaderFor(input, db.nextId, n)],
             db.lines + LinesFor(db.nextId, input.owner, input.business, input.lines),
             db.counters[key := n + 1], db.nextId + 1), Posted(n, db.nextId)))
  }

  /** Single creates one after the other, stopping at the first failure. */
  function PostAll(db: Db, chart: set<string>, inputs: seq<EntryInput>): Result<(Db, seq<Posted>), Error> {
    if inputs == [] then Ok((db, []))
    else
      var before := PostAll(db, chart, inputs[..|inputs| - 1]);
      if before.Err? then before
      else
        var last := Post(before.value.0, chart, inputs[|inputs| - 1]);
        if last.Err? then Err(last.error) else Ok((last.value.0, before.value.1 + [last.value.1]))
  }

  /** findOne: the first matching header. */
  function ByNumber(headers: seq<Header>, entryNumber: int, business: string): Option<nat>
    ensures var i := ByNumber(headers, entryNumber, business);
            if i.Some? then i.value < |headers| && headers[i.value].entryNumber == entryNumber
               && headers[i.value].business == business
            else forall h :: h in headers ==> !(h.entryNumber == entryNumber && h.business == business)
  {
    if headers == [] then None
    else if headers[0].entryNumber == entryNumber && headers[0].business == business then Some(0)
    else
      var i := ByNumber(headers[1..], entryNumber, business);
      if i.Some? then Some(i.value + 1) else None
  }

  function ByReference(headers: seq<Header>, referenceType: string, referenceId: int, business: string): Option<nat>
    ensures var i := ByReference(headers, referenceType, referenceId, business);
            if i.Some? then
              i.value < |headers| && headers[i.value].business == business
              && headers[i.value].referenceType == referenceType && headers[i.value].referenceId == Some(referenceId)
            else forall h :: h in headers ==>
                   !(h.business == business && h.referenceType == referenceType && h.referenceId == Some(referenceId))
  {
    if headers == [] then None
    else if headers[0].referenceType == referenceType && headers[0].referenceId == Some(referenceId)
      && headers[0].business == business
      then Some(0)
    else
      var i := ByReference(headers[1..], referenceType, referenceId, business);
      if i.Some? then Some(i.value + 1) else None
  }

  function ByEntry(id: nat): Line -> bool { (l: Line) => l.entryId == id }
  function NotEntry(id: nat): Line -> bool { (l: Line) => l.entryId != id }
  function ByBusiness(business: string): Line -> bool { (l: Line) => l.business == business }

  function Keep(lines: seq<Line>, p: Line -> bool): seq<Line> {
    if lines == [] then []
    else Keep(lines[..|lines| - 1], p) + (if p(lines[|lines| - 1]) then [lines[|lines| - 1]] else [])
  }

  function Replace(db: Db, chart: set<string>, referenceType: string, referenceId: int, business: string,
                   lines: seq<LineInput>)
    : Result<(Db, bool), Error>
  {
    var i := ByReference(db.headers, referenceType, referenceId, business);
    if i.None? then Ok((db, false))
    else if !AccountsKnown(chart, lines) then Err(NotFound)
    else
      var h := db.headers[i.value];
      Ok((db.(lines := Keep(db.lines, NotEntry(h.id)) + LinesFor(h.id, h.owner, business, WithoutPercents(lines))),
          true))
  }

  function UpdatedHeader(h: Header, input: EntryInput): Header {
    h.(date := input.date, valueDate := input.valueDate, vatDate := input.vatDate,
       description := Or(input.description, h.description),
       counterPartyName := input.counterPartyName, documentTotal := input.documentTotal,
       vatReportingPeriod := input.vatReportingPeriod, subCategory := input.subCategory,
       referenceId := if input.referenceId.Some? then input.referenceId else h.referenceId, notes := input.notes)
  }

  function Update(db: Db, chart: set<string>, entryNumber: int, business: string, input: EntryInput)
    : Result<(Db, bool), Error>
  {
    var i := ByNumber(db.headers, entryNumber, business);
    if i.None? then Ok((db, false))
    else if !AccountsKnown(chart, input.lines) then Err(NotFound)
    else
      var h := db.headers[i.value];
      Ok((db.(headers := db.headers[i.value := UpdatedHeader(h, input)],
              lines := Keep(db.lines, NotEntry(h.id)) + LinesFor(h.id, h.owner, business, input.lines)), true))
  }

  function Delete(db: Db, entryNumber: int, business: string): (Db, bool) {
    var i := ByNumber(db.headers, entryNumber, business);
    if i.None? then (db, false)
    else
      (db.(headers := db.headers[..i.value] + db.headers[i.value + 1..],
           lines := Keep(db.lines, NotEntry(db.headers[i.value].id))), true)
  }

  // ---- Sums over lines ----

  /** Debits minus credits of the lines satisfying p. */
  function Sum(lines: seq<Line>, p: Line -> bool): real {
    if lines == [] then 0.0
    else
      var l := lines[|lines| - 1];
      Sum(lines[..|lines| - 1], p) + (if p(l) then l.values.debit - l.values.credit else 0.0)
  }

  lemma {:induction false} SumAppends(a: seq<Line>, b: seq<Line>, p: Line -> bool)
    ensures Sum(a + b, p) == Sum(a, p) + Sum(b, p)
    ensures Keep(a + b, p) == Keep(a, p) + Keep(b, p)
    decreases |b|
  {
    if b == [] {
      assert a + b == a;
    } else {
      assert (a + b)[..|a + b| - 1] == a + b[..|b| - 1];
      SumAppends(a, b[..|b| - 1], p);
    }
  }

  /** Removing an entry's lines takes exactly its share out of any total. */
  lemma {:induction false} SumWithout(lines: seq<Line>, id: nat, p: Line -> bool)
    ensures Sum(Keep(lines, NotEntry(id)), p) == Sum(lines, p) - Sum(Keep(lines, ByEntry(id)), p)
  {
    if lines != [] {
      var last := lines[|lines| - 1];
      var rest := lines[..|lines| - 1];
      SumWithout(rest, id, p);
      SumAppends(Keep(rest, NotEntry(id)), [last], p);
      SumAppends(Keep(rest, ByEntry(id)), [last], p);
      assert [last][..0] == [];
      assert Sum([last], p) == if p(last) then last.values.debit - last.values.credit else 0.0;
      if last.entryId == id {
        assert Keep(lines, NotEntry(id)) == Keep(rest, NotEntry(id));
      } else {
        assert Keep(lines, ByEntry(id)) == Keep(rest, ByEntry(id));
      }
    }
  }

  lemma {:induction false} KeepSelects(lines: seq<Line>, p: Line -> bool)
    ensures forall l :: l in Keep(lines, p) <==> l in lines && p(l)
  {
    if lines != [] {
      var last := lines[|lines| - 1];
      KeepSelects(lines[..|lines| - 1], p);
      assert lines == lines[..|lines| - 1] + [last];
    }
  }

  lemma {:induction false} KeepAllOrNone(lines: seq<Line>, p: Line -> bool)
    ensures (forall l :: l in lines ==> p(l)) ==> Keep(lines, p) == lines
    ensures (forall l :: l in lines ==> !p(l)) ==> Keep(lines, p) == [] && Sum(lines, p) == 0.0
  {
    if lines != [] {
      KeepAllOrNone(lines[..|lines| - 1], p);
      assert lines[|lines| - 1] in lines;
    }
  }

  lemma {:induction false} KeepOther(lines: seq<Line>, id: nat, other: nat)
    requires id != other
    ensures Keep(Keep(lines, NotEntry(id)), ByEntry(other)) == Keep(lines, ByEntry(other))
  {
    if lines != [] {
      var last := lines[|lines| - 1];
      var rest := lines[..|lines| - 1];
      KeepOther(rest, id, other);
      SumAppends(Keep(rest, NotEntry(id)), if last.entryId != id then [last] else [], ByEntry(other));
      assert [last][..0] == [] && Keep([last], ByEntry(other)) == if last.entryId == other then [last] else [];
    }
  }

  lemma {:induction false} FreshLinesSum(id: nat, owner: string, business: string, lines: seq<LineInput>,
                                         p: Line -> bool)
    requires forall l :: l in LinesFor(id, owner, business, lines) ==> p(l)
    ensures Sum(LinesFor(id, owner, business, lines), p) == Debits(lines) - Credits(lines)
    decreases |lines|
  {
    var added := LinesFor(id, owner, business, lines);
    if lines != [] {
      var shorter := LinesFor(id, owner, business, lines[..|lines| - 1]);
      assert added[..|added| - 1] == shorter;
      assert added[|added| - 1] in added;
      FreshLinesSum(id, owner, business, lines[..|lines| - 1], p);
    }
  }

  lemma {:induction false} WithoutPercentsSum(lines: seq<LineInput>)
    ensures Debits(WithoutPercents(lines)) == Debits(lines) && Credits(WithoutPercents(lines)) == Credits(lines)
  {
    if lines != [] {
      WithoutPercentsSum(lines[..|lines| - 1]);
      assert WithoutPercents(lines)[..|lines| - 1] == WithoutPercents(lines[..|lines| - 1]);
    }
  }
}
