/** The bookkeeping service over its tables, changed in place inside transactions. Any database
    step may fail; a failed transaction is rolled back, except for the primary keys it used up. */
module Ledger {
  import opened Common
  import opened JournalTypes
  import opened JournalSpec
  import opened ManualEntry
  import JournalRuns
  import JournalEffects

  /** The database steps that can fail. */
  datatype Stage = ReadCounter | FindHeader | WriteHeader | DeleteLines | WriteLines | WriteCounter

  /** The inputs of a list of typed entries, or the first entry's error. */
  function ManualInputs(owner: string, business: string, books: Books, entries: seq<TypedEntry>)
    : Result<seq<EntryInput>, Error>
  {
    if entries == [] then Ok([])
    else
      var before := ManualInputs(owner, business, books, entries[..|entries| - 1]);
      var last := ManualInput(owner, business, books, entries[|entries| - 1]);
      if before.Err? then before else if last.Err? then Err(last.error) else Ok(before.value + [last.value])
  }

  /** A list of typed entries is accepted exactly if each of them is, with the inputs each gives, in order. */
  lemma {:induction false} AllAccepted(owner: string, business: string, books: Books, entries: seq<TypedEntry>)
    ensures var r := ManualInputs(owner, business, books, entries);
            && (r.Ok? <==> forall entry :: entry in entries ==> ManualInput(owner, business, books, entry).Ok?)
            && (r.Ok? ==> |r.value| == |entries|
                          && forall k :: 0 <= k < |entries| ==>
                            ManualInput(owner, business, books, entries[k]) == Ok(r.value[k]))
  {
    if entries != [] {
      var init, last := entries[..|entries| - 1], entries[|entries| - 1];
      assert entries == init + [last];
      AllAccepted(owner, business, books, init);
    }
  }

  /** Whatever is typed, an accepted batch of manual entries balances, so it keeps every trial balance. */
  lemma {:induction false} ManualBatchBalances(owner: string, business: string, books: Books, entries: seq<TypedEntry>)
    requires ManualInputs(owner, business, books, entries).Ok?
    ensures JournalRuns.OpBalanced(JournalRuns.CreateBatch(ManualInputs(owner, business, books, entries).value))
  {
    if entries != [] {
      var last := entries[|entries| - 1];
      ManualBatchBalances(owner, business, books, entries[..|entries| - 1]);
      AcceptedEntryBalances(owner, business, books, last);
    }
  }

  /** Every typed entry is accepted and can be posted after the ones before it. */
  predicate Postable(db: Db, chart: set<string>, owner: string, business: string, books: Books,
                     entries: seq<TypedEntry>) {
    var inputs := ManualInputs(owner, business, books, entries);
    inputs.Ok? && PostAll(db, chart, inputs.value).Ok?
  }

  /** A batch that is stuck after some of its entries is stuck. */
  lemma {:induction false} StuckBatch(db: Db, chart: set<string>, owner: string, business: string, books: Books,
                                      entries: seq<TypedEntry>, i: nat)
    requires i <= |entries| && !Postable(db, chart, owner, business, books, entries[..i])
    ensures !Postable(db, chart, owner, business, books, entries)
    decreases |entries|
  {
    if i == |entries| {
      assert entries[..i] == entries;
    } else {
      var init := entries[..|entries| - 1];
      assert init[..i] == entries[..i];
      StuckBatch(db, chart, owner, business, books, init, i);
      var inputs := ManualInputs(owner, business, books, entries);
      if inputs.Ok? {
        assert inputs.value[..|inputs.value| - 1] == ManualInputs(owner, business, books, init).value;
      }
    }
  }

  class BookkeepingService {
    const accounts: map<string, Account>
    var headers: seq<Header>
    var lines: seq<Line>
    var counters: map<CounterKey, int>
    var nextId: nat

    constructor (accounts: map<string, Account>)
      ensures this.accounts == accounts && Tables() == NO_ENTRIES
    {
      this.accounts := accounts;
      headers, lines, counters, nextId := [], [], map[], 1;
    }

    function Tables(): Db
      reads this
    {
      Db(headers, lines, counters, nextId)
    }

    /** What a failed transaction may leave behind. */
    twostate predicate RolledBack()
      reads this
    {
      Tables() == old(Tables()).(nextId := nextId) && nextId >= old(nextId)
    }

    method ResolveLines(id: nat, owner: string, business: string, inputs: seq<LineInput>)
      returns (r: Result<seq<Line>, Error>)
      ensures r == if AccountsKnown(accounts.Keys, inputs) then Ok(LinesFor(id, owner, business, inputs))
              else Err(NotFound)
    {
      var resolved: seq<Line> := [];
      for i := 0 to |inputs|
        invariant AccountsKnown(accounts.Keys, inputs[..i])
        invariant resolved == LinesFor(id, owner, business, inputs[..i])
      {
        if inputs[i].accountCode !in accounts {
          assert inputs[i] in inputs;
          return Err(NotFound);
        }
        resolved := resolved + [Line(id, owner, business, ValuesOf(inputs[i], i + 1))];
      }
      assert inputs[..|inputs|] == inputs;
      return Ok(resolved);
    }

    /** Runs inside a transaction: on failure the tables may be half written. */
    method PersistJournalEntry(input: EntryInput, faults: set<Stage>) returns (r: Result<Posted, Error>)
      modifies this
      ensures r.Ok? ==> Post(old(Tables()), accounts.Keys, input) == Ok((Tables(), r.value))
      ensures faults == {} ==> r.Ok? == Post(old(Tables()), accounts.Keys, input).Ok?
      ensures nextId >= old(nextId)
    {
      var resolved := ResolveLines(nextId, input.owner, input.business, input.lines);
      if resolved.Err? { return Err(resolved.error); }

      if ReadCounter in faults { return Err(DatabaseError); }
      var key := CounterKey(input.owner, input.business);
      if key !in counters {
        counters := counters[key := FIRST_NUMBER];
      }
      var entryNumber := counters[key];

      if WriteHeader in faults { return Err(DatabaseError); }
      var id := nextId;
      nextId := nextId + 1;
      headers := headers + [HeaderFor(input, id, entryNumber)];

      if WriteLines in faults { return Err(DatabaseError); }
      lines := lines + resolved.value;

      if WriteCounter in faults { return Err(DatabaseError); }
      counters := counters[key := counters[key] + 1];
      assert counters == old(counters)[key := entryNumber + 1];
      return Ok(Posted(entryNumber, id));
    }

    method CreateJournalEntry(input: EntryInput, faults: set<Stage>) returns (r: Result<Posted, Error>)
      modifies this
      ensures r.Ok? ==> Post(old(Tables()), accounts.Keys, input) == Ok((Tables(), r.value))
      ensures r.Err? ==> RolledBack()
      ensures faults == {} ==> r.Ok? == Post(old(Tables()), accounts.Keys, input).Ok?
    {
      var snapshot := (headers, lines, counters);
      r := PersistJournalEntry(input, faults);
      if r.Err? {
        headers, lines, counters := snapshot.0, snapshot.1, snapshot.2;
      }
    }

    /** All of the typed entries are posted in order, with the results of single creates, or none is. */
    method CreateManualJournalEntries(entries: seq<TypedEntry>, owner: string, business: string, books: Books,
                                      faults: seq<set<Stage>>)
      returns (r: Result<seq<Posted>, Error>)
      requires books.accounts == accounts && |faults| == |entries|
      modifies this
      ensures r.Ok? ==>
                var inputs := ManualInputs(owner, business, books, entries);
                inputs.Ok? && PostAll(old(Tables()), accounts.Keys, inputs.value) == Ok((Tables(), r.value))
                && entries != []
      ensures r.Err? ==> RolledBack()
      ensures (forall f :: f in faults ==> f == {}) ==>
                (r.Ok? <==> entries != [] && Postable(old(Tables()), accounts.Keys, owner, business, books, entries))
    {
      if entries == [] { return Err(BadRequest); }
      var snapshot := (headers, lines, counters);
      var results: seq<Posted> := [];
      ghost var inputs: seq<EntryInput> := [];
      for i := 0 to |entries|
        invariant nextId >= old(nextId)
        invariant ManualInputs(owner, business, books, entries[..i]) == Ok(inputs)
        invariant PostAll(old(Tables()), accounts.Keys, inputs) == Ok((Tables(), results))
      {
        assert entries[..i + 1][..i] == entries[..i];
        var input := BuildManualEntry(owner, business, books, entries[i]);
        if input.Err? {
          StuckBatch(old(Tables()), accounts.Keys, owner, business, books, entries, i + 1);
          headers, lines, counters := snapshot.0, snapshot.1, snapshot.2;
          return Err(input.error);
        }
        assert (inputs + [input.value])[..|inputs|] == inputs;
        var posted := PersistJournalEntry(input.value, faults[i]);
        if posted.Err? {
          if faults[i] == {} { StuckBatch(old(Tables()), accounts.Keys, owner, business, books, entries, i + 1); }
          assert faults[i] in faults;
          headers, lines, counters := snapshot.0, snapshot.1, snapshot.2;
          return Err(posted.error);
        }
        inputs := inputs + [input.value];
        results := results + [posted.value];
      }
      assert entries[..|entries|] == entries;
      return Ok(results);
    }

    method ReplaceJournalEntryLines(referenceType: string, referenceId: int, business: string, inputs: seq<LineInput>,
                                    faults: set<Stage>)
      returns (r: Result<bool, Error>)
      modifies this
      ensures r.Ok? ==>
              Replace(old(Tables()), accounts.Keys, referenceType, referenceId, business, inputs)
              == Ok((Tables(), r.value))
      ensures r.Err? ==> RolledBack()
      ensures faults == {} ==>
              r.Ok? == Replace(old(Tables()), accounts.Keys, referenceType, referenceId, business, inputs).Ok?
    {
      if FindHeader in faults { return Err(DatabaseError); }
      var found := ByReference(headers, referenceType, referenceId, business);
      if found.None? { return Ok(false); }
      var entry := headers[found.value];
      var resolved := ResolveLines(entry.id, entry.owner, business, WithoutPercents(inputs));
      assert AccountsKnown(accounts.Keys, WithoutPercents(inputs)) == AccountsKnown(accounts.Keys, inputs) by {
        SameCodes(inputs);
      }
      if resolved.Err? { return Err(resolved.error); }
      var snapshot := lines;
      if DeleteLines in faults { return Err(DatabaseError); }
      lines := Keep(lines, NotEntry(entry.id));
      if WriteLines in faults {
        lines := snapshot;
        return Err(DatabaseError);
      }
      lines := lines + resolved.value;
      return Ok(true);
    }

    lemma SameCodes(inputs: seq<LineInput>)
      ensures AccountsKnown(accounts.Keys, WithoutPercents(inputs)) == AccountsKnown(accounts.Keys, inputs)
    {
      var w := WithoutPercents(inputs);
      if AccountsKnown(accounts.Keys, w) {
        forall l | l in inputs ensures l.accountCode in accounts {
          var k :| 0 <= k < |inputs| && inputs[k] == l;
          assert w[k] in w;
        }
      }
    }

    method UpdateJournalEntryFull(entryNumber: int, business: string, input: EntryInput, faults: set<Stage>)
      returns (r: Result<bool, Error>)
      modifies this
      ensures r.Ok? ==> Update(old(Tables()), accounts.Keys, entryNumber, business, input) == Ok((Tables(), r.value))
      ensures r.Err? ==> RolledBack()
      ensures faults == {} ==> r.Ok? == Update(old(Tables()), accounts.Keys, entryNumber, business, input).Ok?
    {
      if FindHeader in faults { return Err(DatabaseError); }
      var found := ByNumber(headers, entryNumber, business);
      if found.None? { return Ok(false); }
      var entry := headers[found.value];
      var resolved := ResolveLines(entry.id, entry.owner, business, input.lines);
      if resolved.Err? { return Err(resolved.error); }
      var snapshot := (headers, lines);
      if WriteHeader in faults { return Err(DatabaseError); }
      headers := headers[found.value := UpdatedHeader(entry, input)];
      if DeleteLines in faults {
        headers := snapshot.0;
        return Err(DatabaseError);
      }
      lines := Keep(lines, NotEntry(entry.id));
      if WriteLines in faults {
        headers, lines := snapshot.0, snapshot.1;
        return Err(DatabaseError);
      }
      lines := lines + resolved.value;
      return Ok(true);
    }

    method DeleteJournalEntry(entryNumber: int, business: string, faults: set<Stage>) returns (r: Result<bool, Error>)
      modifies this
      ensures r.Ok? ==> Delete(old(Tables()), entryNumber, business) == (Tables(), r.value)
      ensures r.Ok? ==> JournalEffects.Deletes(old(Tables()), Tables(), entryNumber, business, r.value)
      ensures r.Err? ==> RolledBack()
      ensures faults == {} ==> r.Ok?
    {
      JournalEffects.DeleteDeletes(Tables(), entryNumber, business);
      if FindHeader in faults { return Err(DatabaseError); }
      var found := ByNumber(headers, entryNumber, business);
      if found.None? { return Ok(false); }
      var snapshot := lines;
      if DeleteLines in faults { return Err(DatabaseError); }
      lines := Keep(lines, NotEntry(headers[found.value].id));
      if WriteHeader in faults {
        lines := snapshot;
        return Err(DatabaseError);
      }
      headers := headers[..found.value] + headers[found.value + 1..];
      return Ok(true);
    }
  }
}
