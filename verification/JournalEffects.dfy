/** What each journal operation leaves behind, said of the rows and columns it writes. */
module JournalEffects {
  import opened Common
  import opened JournalTypes
  import opened JournalSpec
  import opened JournalRuns

  // ---- Reading entries ----

  predicate IsNumbered(h: Header, entryNumber: int, business: string) {
    h.entryNumber == entryNumber && h.business == business
  }

  /** The lines of an entry, in order. */
  function EntryLines(lines: seq<Line>, id: nat): seq<Line> {
    if lines == [] then [] else (if lines[0].entryId == id then [lines[0]] else []) + EntryLines(lines[1..], id)
  }

  /** All lines but those of an entry, in order. */
  function OtherLines(lines: seq<Line>, id: nat): seq<Line> {
    if lines == [] then [] else (if lines[0].entryId == id then [] else [lines[0]]) + OtherLines(lines[1..], id)
  }

  lemma {:induction false} ReadsAreKeeps(lines: seq<Line>, id: nat)
    ensures EntryLines(lines, id) == Keep(lines, ByEntry(id)) && OtherLines(lines, id) == Keep(lines, NotEntry(id))
    decreases |lines|
  {
    if lines != [] {
      ReadsAreKeeps(lines[1..], id);
      assert lines == [lines[0]] + lines[1..];
      SumAppends([lines[0]], lines[1..], ByEntry(id));
      SumAppends([lines[0]], lines[1..], NotEntry(id));
      assert [lines[0]][..0] == [];
      assert Keep([lines[0]], ByEntry(id)) == if lines[0].entryId == id then [lines[0]] else [];
      assert Keep([lines[0]], NotEntry(id)) == if lines[0].entryId == id then [] else [lines[0]];
    }
  }

  /** The value of a column, or its default. */
  predicate Holds<T(==)>(value: T, given: Option<T>, default: T) {
    (given == None && value == default) || given == Some(value)
  }

  /** A line of an entry holds its input, amounts at 0 and percents at 100 where nothing was given. */
  predicate Records(line: Line, input: LineInput, owner: string, business: string, position: nat) {
    && line.owner == owner && line.business == business && line.values.lineInEntry == position
    && line.values.accountCode == input.accountCode && line.values.subCategoryName == input.subCategoryName
    && Holds(line.values.debit, input.debit, 0.0) && Holds(line.values.credit, input.credit, 0.0)
    && Holds(line.values.amountBeforeVat, input.amountBeforeVat, 0.0)
    && Holds(line.values.vatAmount, input.vatAmount, 0.0)
    && Holds(line.values.isEquipment, input.isEquipment, false) && Holds(line.values.taxPercent, input.taxPercent, 100.0)
    && Holds(line.values.vatPercent, input.vatPercent, 100.0) && Holds(line.values.amountForTax, input.amountForTax, 0.0)
  }

  predicate RecordsAll(lines: seq<Line>, inputs: seq<LineInput>, owner: string, business: string) {
    |lines| == |inputs| && forall k :: 0 <= k < |lines| ==> Records(lines[k], inputs[k], owner, business, k + 1)
  }

  lemma NewLinesRecord(id: nat, owner: string, business: string, inputs: seq<LineInput>)
    ensures RecordsAll(LinesFor(id, owner, business, inputs), inputs, owner, business)
  {
  }

  // ---- Create ----

  /** The next number of a counter. */
  predicate NextNumber(db: Db, owner: string, business: string, n: int) {
    var key := CounterKey(owner, business);
    if key in db.counters then n == db.counters[key] else n == 10000000
  }

  /** Every column of a new entry's header. */
  predicate HeaderRecords(h: Header, input: EntryInput) {
    && h.owner == input.owner && h.business == input.business && h.subCategory == input.subCategory
    && h.counterAccountCode == input.counterAccountCode && h.counterPartyName == input.counterPartyName
    && h.documentTotal == input.documentTotal && h.date == input.date && h.valueDate == input.valueDate
    && h.vatDate == input.vatDate && h.notes == input.notes && h.vatReportingPeriod == input.vatReportingPeriod
    && h.referenceType == input.referenceType && h.referenceId == input.referenceId
    && Holds(h.description, input.description, "")
  }

  /** A create succeeds exactly when every account is known. It adds one entry under the counter's next number, which can
      be read back column by column; every other entry keeps its header and lines, every other counter its number. */
  lemma PostedIsRead(db: Db, issued: seq<Issue>, chart: set<string>, input: EntryInput)
    requires Inv(db, issued)
    ensures Post(db, chart, input).Ok? <==> forall l :: l in input.lines ==> l.accountCode in chart
    ensures Post(db, chart, input).Ok? ==>
              var (after, posted) := Post(db, chart, input).value;
              var key := CounterKey(input.owner, input.business);
              && NextNumber(db, input.owner, input.business, posted.entryNumber)
              && NextNumber(after, input.owner, input.business, posted.entryNumber + 1)
              && (forall other :: other != key ==> (other in after.counters <==> other in db.counters))
              && (forall other :: other in db.counters && other != key ==> after.counters[other] == db.counters[other])
              && (forall h :: h in db.headers ==> h.id != posted.id)
              && |after.headers| == |db.headers| + 1 && after.headers[..|db.headers|] == db.headers
              && IsNumbered(after.headers[|db.headers|], posted.entryNumber, input.business)
              && after.headers[|db.headers|].id == posted.id && HeaderRecords(after.headers[|db.headers|], input)
              && RecordsAll(EntryLines(after.lines, posted.id), input.lines, input.owner, input.business)
              && (forall other: nat :: other != posted.id ==>
                    EntryLines(after.lines, other) == EntryLines(db.lines, other))
  {
    if Post(db, chart, input).Ok? {
      var (after, posted) := Post(db, chart, input).value;
      OwnedHaveLiveIds(db);
      NewLinesRecord(posted.id, input.owner, input.business, input.lines);
      forall other: nat
        ensures EntryLines(after.lines, other) == if other == posted.id then
                LinesFor(posted.id, input.owner, input.business, input.lines)
                else EntryLines(db.lines, other)
      {
        ReadsAreKeeps(after.lines, other);
        ReadsAreKeeps(db.lines, other);
        NewLinesGoToTheirEntry(db.lines, posted.id, input.owner, input.business, input.lines, other);
      }
    }
  }

  /** A batch fails exactly on an unknown account of one of its entries. */
  lemma {:induction false} BatchSucceedsIff(db: Db, chart: set<string>, inputs: seq<EntryInput>)
    ensures PostAll(db, chart, inputs).Ok? <==>
              forall input, l :: input in inputs && l in input.lines ==> l.accountCode in chart
  {
    if inputs != [] {
      var init, last := inputs[..|inputs| - 1], inputs[|inputs| - 1];
      assert inputs == init + [last];
      BatchSucceedsIff(db, chart, init);
    }
  }

  // ---- Replace, update ----

  /** The lines of one entry hold the inputs; all other lines stay. */
  ghost predicate Rewritten(db: Db, after: Db, id: nat, owner: string, business: string, inputs: seq<LineInput>) {
    && RecordsAll(EntryLines(after.lines, id), inputs, owner, business)
    && forall other: nat :: other != id ==> EntryLines(after.lines, other) == EntryLines(db.lines, other)
  }

  lemma RewrittenIsRead(db: Db, after: Db, id: nat, owner: string, business: string, inputs: seq<LineInput>)
    requires after.lines == Keep(db.lines, NotEntry(id)) + LinesFor(id, owner, business, inputs)
    ensures Rewritten(db, after, id, owner, business, inputs)
  {
    RewrittenLines(db.lines, id, owner, business, inputs, ByEntry(id));
    NewLinesRecord(id, owner, business, inputs);
    ReadsAreKeeps(after.lines, id);
    forall other: nat | other != id ensures EntryLines(after.lines, other) == EntryLines(db.lines, other) {
      ReadsAreKeeps(after.lines, other);
      ReadsAreKeeps(db.lines, other);
    }
  }

  predicate FirstWith(headers: seq<Header>, i: nat, p: Header -> bool) {
    i < |headers| && p(headers[i]) && forall j :: 0 <= j < i ==> !p(headers[j])
  }

  function Numbered(entryNumber: int, business: string): Header -> bool {
    (h: Header) => IsNumbered(h, entryNumber, business)
  }

  function Referenced(referenceType: string, referenceId: int, business: string): Header -> bool {
    (h: Header) => h.referenceType == referenceType && h.referenceId == Some(referenceId) && h.business == business
  }

  lemma {:induction false} ByNumberIsFirst(headers: seq<Header>, entryNumber: int, business: string)
    ensures var i := ByNumber(headers, entryNumber, business);
            i.Some? ==> FirstWith(headers, i.value, Numbered(entryNumber, business))
  {
    if headers != [] && !IsNumbered(headers[0], entryNumber, business) {
      ByNumberIsFirst(headers[1..], entryNumber, business);
      assert forall j :: 0 < j < |headers| ==> headers[j] == headers[1..][j - 1];
    }
  }

  lemma {:induction false} ByReferenceIsFirst(headers: seq<Header>, referenceType: string, referenceId: int,
                                              business: string)
    ensures var i := ByReference(headers, referenceType, referenceId, business);
            i.Some? ==> FirstWith(headers, i.value, Referenced(referenceType, referenceId, business))
  {
    if headers != [] && !Referenced(referenceType, referenceId, business)(headers[0]) {
      ByReferenceIsFirst(headers[1..], referenceType, referenceId, business);
      assert forall j :: 0 < j < |headers| ==> headers[j] == headers[1..][j - 1];
    }
  }

  /** A replace fails exactly on an unknown account of an entry that is there. It rewrites the lines of the first entry of
      the reference, with percents at 100 and amountForTax at 0, and leaves headers and counters alone. */
  lemma ReplacedIsRead(db: Db, chart: set<string>, referenceType: string, referenceId: int, business: string,
                       inputs: seq<LineInput>)
    ensures var p := Referenced(referenceType, referenceId, business);
            var r := Replace(db, chart, referenceType, referenceId, business, inputs);
            && (r.Ok? <==> (forall h :: h in db.headers ==> !p(h)) || forall l :: l in inputs ==> l.accountCode in chart)
            && (r.Ok? ==>
                  && r.value.0.headers == db.headers && r.value.0.counters == db.counters
                  && (r.value.1 <==> exists h :: h in db.headers && p(h))
                  && (!r.value.1 ==> r.value.0 == db))
    ensures var p := Referenced(referenceType, referenceId, business);
            var r := Replace(db, chart, referenceType, referenceId, business, inputs);
            r.Ok? && r.value.1 ==>
              exists i: nat :: FirstWith(db.headers, i, p)
                          && Rewritten(db, r.value.0, db.headers[i].id, db.headers[i].owner, business, Plain(inputs))
  {
    ByReferenceIsFirst(db.headers, referenceType, referenceId, business);
    var i := ByReference(db.headers, referenceType, referenceId, business);
    var r := Replace(db, chart, referenceType, referenceId, business, inputs);
    if i.Some? {
      assert db.headers[i.value] in db.headers;
      if r.Ok? {
        var h := db.headers[i.value];
        assert WithoutPercents(inputs) == Plain(inputs);
        RewrittenIsRead(db, r.value.0, h.id, h.owner, business, Plain(inputs));
      }
    }
  }

  /** The inputs without percents and amountForTax. */
  function Plain(inputs: seq<LineInput>): seq<LineInput> {
    seq(|inputs|, (k: nat) requires k < |inputs| =>
        var l := inputs[k];
        LineInput(l.accountCode, l.debit, l.credit, l.amountBeforeVat, l.vatAmount, l.isEquipment, None, None, None,
                  l.subCategoryName))
  }

  /** What a full update does to each column of the header. */
  predicate HeaderUpdated(g: Header, h: Header, input: EntryInput) {
    && g.id == h.id && g.entryNumber == h.entryNumber && g.owner == h.owner && g.business == h.business
    && g.counterAccountCode == h.counterAccountCode && g.referenceType == h.referenceType
    && g.date == input.date && g.valueDate == input.valueDate && g.vatDate == input.vatDate
    && g.counterPartyName == input.counterPartyName && g.documentTotal == input.documentTotal
    && g.vatReportingPeriod == input.vatReportingPeriod && g.subCategory == input.subCategory && g.notes == input.notes
    && Holds(g.description, input.description, h.description)
    && g.referenceId == (if input.referenceId != None then input.referenceId else h.referenceId)
  }

  /** A full update fails exactly on an unknown account of an entry that is there. It updates the header of the first
      entry of the number column by column and rewrites its lines; other headers and the counters stay. */
  lemma UpdatedIsRead(db: Db, chart: set<string>, entryNumber: int, business: string, input: EntryInput)
    ensures var p := Numbered(entryNumber, business);
            var r := Update(db, chart, entryNumber, business, input);
            && (r.Ok? <==> (forall h :: h in db.headers ==> !p(h)) || forall l :: l in input.lines ==>
                l.accountCode in chart)
            && (r.Ok? ==>
                  && r.value.0.counters == db.counters && |r.value.0.headers| == |db.headers|
                  && (r.value.1 <==> exists h :: h in db.headers && p(h))
                  && (!r.value.1 ==> r.value.0 == db))
    ensures var p := Numbered(entryNumber, business);
            var r := Update(db, chart, entryNumber, business, input);
            r.Ok? && r.value.1 ==>
              exists i: nat :: FirstWith(db.headers, i, p)
                          && HeaderUpdated(r.value.0.headers[i], db.headers[i], input)
                          && (forall j :: 0 <= j < |db.headers| && j != i ==> r.value.0.headers[j] == db.headers[j])
                          && Rewritten(db, r.value.0, db.headers[i].id, db.headers[i].owner, business, input.lines)
  {
    ByNumberIsFirst(db.headers, entryNumber, business);
    var i := ByNumber(db.headers, entryNumber, business);
    var r := Update(db, chart, entryNumber, business, input);
    if i.Some? {
      assert db.headers[i.value] in db.headers;
      if r.Ok? {
        var h := db.headers[i.value];
        RewrittenIsRead(db, r.value.0, h.id, h.owner, business, input.lines);
        assert HeaderUpdated(r.value.0.headers[i.value], h, input);
      }
    }
  }

  // ---- Delete ----

  /** The header at i and its lines are gone; all others are there, in order. */
  ghost predicate Removed(db: Db, after: Db, i: nat)
    requires i < |db.headers|
  {
    && |after.headers| == |db.headers| - 1
    && (forall j :: 0 <= j < i ==> after.headers[j] == db.headers[j])
    && (forall j :: i < j < |db.headers| ==> after.headers[j - 1] == db.headers[j])
    && (forall l :: l in after.lines ==> l.entryId != db.headers[i].id)
    && after.lines == OtherLines(db.lines, db.headers[i].id)
  }

  /** A delete: whether it found the entry, and what it leaves. */
  ghost predicate Deletes(db: Db, after: Db, entryNumber: int, business: string, found: bool) {
    && after.counters == db.counters && after.nextId == db.nextId
    && (found <==> exists h :: h in db.headers && IsNumbered(h, entryNumber, business))
    && (!found ==> after == db)
    && (found ==> exists i: nat :: FirstWith(db.headers, i, Numbered(entryNumber, business)) && Removed(db, after, i))
  }

  lemma DeleteDeletes(db: Db, entryNumber: int, business: string)
    ensures var (after, found) := Delete(db, entryNumber, business); Deletes(db, after, entryNumber, business, found)
  {
    var i := ByNumber(db.headers, entryNumber, business);
    ByNumberIsFirst(db.headers, entryNumber, business);
    if i.Some? {
      assert db.headers[i.value] in db.headers;
      ReadsAreKeeps(db.lines, db.headers[i.value].id);
      KeepSelects(db.lines, NotEntry(db.headers[i.value].id));
      assert Removed(db, Delete(db, entryNumber, business).0, i.value);
    }
  }

  /** The entry is neither in the headers nor in the lines nor found by its number, and all others are there. */
  ghost predicate EntryGone(db: Db, after: Db, entryNumber: int, business: string, gone: Header) {
    && after.counters == db.counters
    && (forall h :: h in after.headers <==> h in db.headers && h != gone)
    && (forall h :: h in after.headers ==> h.id != gone.id && !IsNumbered(h, entryNumber, business))
    && (forall l :: l in after.lines ==> l.entryId != gone.id)
    && (forall other: nat :: other != gone.id ==> EntryLines(after.lines, other) == EntryLines(db.lines, other))
  }

  /** After any run a delete leaves no header and no line with the id of the deleted entry, every other entry with its
      lines, and, if the business has one owner, no entry under the number. */
  lemma DeletedIsGone(chart: set<string>, ops: seq<Op>, entryNumber: int, business: string, gone: Header)
    requires gone in Run(chart, ops).0.headers && IsNumbered(gone, entryNumber, business)
    requires forall h :: h in Run(chart, ops).0.headers && h.business == business ==> h.owner == gone.owner
    ensures var db := Run(chart, ops).0;
            var after := Run(chart, ops + [DeleteEntry(entryNumber, business)]).0;
            EntryGone(db, after, entryNumber, business, gone)
  {
    RunKeepsInv(chart, ops);
    RunOneMore(chart, ops, DeleteEntry(entryNumber, business));
    var (db, issued) := Run(chart, ops);
    OnlyEntryIsGone(db, issued, entryNumber, business, gone);
  }

  lemma OnlyEntryIsGone(db: Db, issued: seq<Issue>, entryNumber: int, business: string, gone: Header)
    requires Inv(db, issued) && gone in db.headers && IsNumbered(gone, entryNumber, business)
    requires forall h :: h in db.headers && h.business == business ==> h.owner == gone.owner
    ensures EntryGone(db, Delete(db, entryNumber, business).0, entryNumber, business, gone)
  {
    DeleteDeletes(db, entryNumber, business);
    var after := Delete(db, entryNumber, business).0;
    var i: nat :| FirstWith(db.headers, i, Numbered(entryNumber, business)) && Removed(db, after, i);
    OnlyOne(db, issued, entryNumber, business, gone, i);
    RemovedRows(db, after, i);
    OthersRead(db, after, gone.id);
    forall h | h in after.headers ensures !IsNumbered(h, entryNumber, business) {
      SameNumberSameEntry(db, issued, entryNumber, business, gone, h);
    }
  }

  lemma SameNumberSameEntry(db: Db, issued: seq<Issue>, entryNumber: int, business: string, gone: Header, h: Header)
    requires NumbersOk(db, issued) && gone in db.headers && IsNumbered(gone, entryNumber, business) && h in db.headers
    requires h.business == business ==> h.owner == gone.owner
    ensures IsNumbered(h, entryNumber, business) ==> h == gone
  {
    var g :| 0 <= g < |db.headers| && db.headers[g] == gone;
    var j :| 0 <= j < |db.headers| && db.headers[j] == h;
  }

  lemma OnlyOne(db: Db, issued: seq<Issue>, entryNumber: int, business: string, gone: Header, i: nat)
    requires NumbersOk(db, issued) && gone in db.headers && IsNumbered(gone, entryNumber, business)
    requires forall h :: h in db.headers && h.business == business ==> h.owner == gone.owner
    requires FirstWith(db.headers, i, Numbered(entryNumber, business))
    ensures db.headers[i] == gone
  {
    assert db.headers[i] in db.headers;
    SameNumberSameEntry(db, issued, entryNumber, business, gone, db.headers[i]);
  }

  lemma OthersRead(db: Db, after: Db, id: nat)
    requires after.lines == OtherLines(db.lines, id)
    ensures forall other: nat :: other != id ==> EntryLines(after.lines, other) == EntryLines(db.lines, other)
  {
    ReadsAreKeeps(db.lines, id);
    forall other: nat | other != id ensures EntryLines(after.lines, other) == EntryLines(db.lines, other) {
      ReadsAreKeeps(after.lines, other);
      ReadsAreKeeps(db.lines, other);
      KeepOther(db.lines, id, other);
    }
  }

  lemma RemovedRows(db: Db, after: Db, i: nat)
    requires HeadersOk(db) && i < |db.headers| && Removed(db, after, i)
    ensures forall h :: h in after.headers <==> h in db.headers && h != db.headers[i]
    ensures forall h :: h in after.headers ==> h.id != db.headers[i].id
  {
    forall h | h in after.headers ensures h in db.headers && h.id != db.headers[i].id {
      var j :| 0 <= j < |after.headers| && after.headers[j] == h;
      assert h == db.headers[if j < i then j else j + 1];
    }
    forall h | h in db.headers && h != db.headers[i] ensures h in after.headers {
      var j :| 0 <= j < |db.headers| && db.headers[j] == h;
      assert h == after.headers[if j < i then j else j - 1];
    }
  }
}
