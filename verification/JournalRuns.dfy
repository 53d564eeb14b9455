/** What every run of journal operations keeps. */
module JournalRuns {
  import opened Common
  import opened JournalTypes
  import opened JournalSpec

  /** One committed operation, made after the one before it has ended; a rolled-back one may still have used up
      primary keys. */
  datatype Op =
    | Create(input: EntryInput)
    | CreateBatch(inputs: seq<EntryInput>)
    | ReplaceLines(referenceType: string, referenceId: int, business: string, lines: seq<LineInput>)
    | UpdateFull(entryNumber: int, business: string, input: EntryInput)
    | DeleteEntry(entryNumber: int, business: string)
    | RolledBack(burnt: nat)

  /** The entry numbers an operation hands out, with their counter. */
  datatype Issue = Issue(key: CounterKey, entryNumber: int)

  function KeyOf(input: EntryInput): CounterKey { CounterKey(input.owner, input.business) }

  function Issues(inputs: seq<EntryInput>, posted: seq<Posted>): seq<Issue>
    requires |inputs| == |posted|
  {
    seq(|inputs|, (k: nat) requires k < |inputs| => Issue(KeyOf(inputs[k]), posted[k].entryNumber))
  }

  lemma {:induction false} OnePostedPerInput(db: Db, chart: set<string>, inputs: seq<EntryInput>)
    requires PostAll(db, chart, inputs).Ok?
    ensures |PostAll(db, chart, inputs).value.1| == |inputs|
  {
    if inputs != [] { OnePostedPerInput(db, chart, inputs[..|inputs| - 1]); }
  }

  /** State and issued numbers after one operation; a failing one changes nothing. */
  function Apply(db: Db, chart: set<string>, op: Op): (Db, seq<Issue>) {
    match op
    case Create(input) =>
      var r := Post(db, chart, input);
      if r.Ok? then (r.value.0, [Issue(KeyOf(input), r.value.1.entryNumber)]) else (db, [])
    case CreateBatch(inputs) =>
      var r := PostAll(db, chart, inputs);
      if r.Ok? then
        OnePostedPerInput(db, chart, inputs);
        (r.value.0, Issues(inputs, r.value.1))
      else (db, [])
    case ReplaceLines(referenceType, referenceId, business, lines) =>
      var r := Replace(db, chart, referenceType, referenceId, business, lines);
      (if r.Ok? then r.value.0 else db, [])
    case UpdateFull(entryNumber, business, input) =>
      var r := Update(db, chart, entryNumber, business, input);
      (if r.Ok? then r.value.0 else db, [])
    case DeleteEntry(entryNumber, business) => (Delete(db, entryNumber, business).0, [])
    case RolledBack(burnt) => (db.(nextId := db.nextId + burnt), [])
  }

  function Run(chart: set<string>, ops: seq<Op>): (Db, seq<Issue>) {
    if ops == [] then (NO_ENTRIES, [])
    else
      var (db, issued) := Run(chart, ops[..|ops| - 1]);
      var (after, more) := Apply(db, chart, ops[|ops| - 1]);
      (after, issued + more)
  }

  // ---- Invariants ----

  ghost predicate HeadersOk(db: Db) {
    && (forall i, j :: 0 <= i < j < |db.headers| ==> db.headers[i].id != db.headers[j].id)
    && (forall h :: h in db.headers ==> h.id < db.nextId)
  }

  /** Each line belongs to a live entry of the same owner and business. */
  ghost predicate LinesOwned(db: Db) {
    forall l :: l in db.lines ==>
      exists h :: h in db.headers && h.id == l.entryId && h.owner == l.owner && h.business == l.business
  }

  /** The lines of each entry are numbered 1, 2, ... in order. */
  ghost predicate LinesNumbered(db: Db) {
    forall id: nat, k :: 0 <= k < |Keep(db.lines, ByEntry(id))| ==>
      Keep(db.lines, ByEntry(id))[k].values.lineInEntry == k + 1
  }

  /** Numbers were all issued by their counter, once each, below its present value. */
  ghost predicate NumbersOk(db: Db, issued: seq<Issue>) {
    && (forall i :: 0 <= i < |issued| ==> issued[i].entryNumber < Counter(db, issued[i].key))
    && (forall i, j :: 0 <= i < j < |issued| ==> issued[i] != issued[j])
    && (forall h :: h in db.headers ==> Issue(CounterKey(h.owner, h.business), h.entryNumber) in issued)
    && (forall i, j :: 0 <= i < j < |db.headers| ==>
          !(db.headers[i].owner == db.headers[j].owner && db.headers[i].business == db.headers[j].business
            && db.headers[i].entryNumber == db.headers[j].entryNumber))
  }

  ghost predicate Balanced(db: Db) {
    forall id: nat :: Sum(db.lines, ByEntry(id)) == 0.0
  }

  ghost predicate Inv(db: Db, issued: seq<Issue>) {
    HeadersOk(db) && LinesOwned(db) && LinesNumbered(db) && NumbersOk(db, issued)
  }

  lemma NewLinesOwned(db: Db, h: Header, lines: seq<LineInput>)
    requires LinesOwned(db) && h in db.headers
    ensures LinesOwned(db.(lines := db.lines + LinesFor(h.id, h.owner, h.business, lines)))
  {
  }

  lemma NewLinesNumbered(lines: seq<Line>, id: nat, owner: string, business: string, added: seq<LineInput>)
    requires forall other: nat, k :: 0 <= k < |Keep(lines, ByEntry(other))| ==>
               Keep(lines, ByEntry(other))[k].values.lineInEntry == k + 1
    requires Keep(lines, ByEntry(id)) == []
    ensures forall other: nat, k :: 0 <= k < |Keep(lines + LinesFor(id, owner, business, added), ByEntry(other))| ==>
              Keep(lines + LinesFor(id, owner, business, added), ByEntry(other))[k].values.lineInEntry == k + 1
    ensures Keep(lines + LinesFor(id, owner, business, added), ByEntry(id)) == LinesFor(id, owner, business, added)
  {
    forall other: nat
      ensures Keep(lines + LinesFor(id, owner, business, added), ByEntry(other)) ==
              if other == id then LinesFor(id, owner, business, added) else Keep(lines, ByEntry(other))
    {
      NewLinesGoToTheirEntry(lines, id, owner, business, added, other);
    }
  }

  lemma NewLinesGoToTheirEntry(lines: seq<Line>, id: nat, owner: string, business: string, added: seq<LineInput>,
                               other: nat)
    requires Keep(lines, ByEntry(id)) == []
    ensures Keep(lines + LinesFor(id, owner, business, added), ByEntry(other)) ==
            if other == id then LinesFor(id, owner, business, added) else Keep(lines, ByEntry(other))
  {
    SumAppends(lines, LinesFor(id, owner, business, added), ByEntry(other));
    KeepAllOrNone(LinesFor(id, owner, business, added), ByEntry(other));
  }

  /** Rewriting an entry's lines puts the new ones in, leaves every other entry's, and moves sums by new minus old. */
  lemma RewrittenLines(lines: seq<Line>, id: nat, owner: string, business: string, added: seq<LineInput>,
                       p: Line -> bool)
    ensures var after := Keep(lines, NotEntry(id)) + LinesFor(id, owner, business, added);
            && Keep(after, ByEntry(id)) == LinesFor(id, owner, business, added)
            && (forall other: nat :: other != id ==> Keep(after, ByEntry(other)) == Keep(lines, ByEntry(other)))
            && Sum(after, p) == Sum(lines, p) - Sum(Keep(lines, ByEntry(id)), p)
            + Sum(LinesFor(id, owner, business, added), p)
  {
    var kept := Keep(lines, NotEntry(id));
    KeepSelects(lines, NotEntry(id));
    KeepAllOrNone(kept, ByEntry(id));
    NewLinesGoToTheirEntry(kept, id, owner, business, added, id);
    forall other: nat | other != id
      ensures Keep(kept + LinesFor(id, owner, business, added), ByEntry(other)) == Keep(lines, ByEntry(other))
    {
      NewLinesGoToTheirEntry(kept, id, owner, business, added, other);
      KeepOther(lines, id, other);
    }
    SumWithout(lines, id, p);
    SumAppends(kept, LinesFor(id, owner, business, added), p);
  }

  lemma OwnedHaveLiveIds(db: Db)
    requires HeadersOk(db) && LinesOwned(db)
    ensures Keep(db.lines, ByEntry(db.nextId)) == [] && Sum(db.lines, ByEntry(db.nextId)) == 0.0
  {
    KeepAllOrNone(db.lines, ByEntry(db.nextId));
  }

  lemma PostKeepsInv(db: Db, issued: seq<Issue>, chart: set<string>, input: EntryInput)
    requires Inv(db, issued) && Post(db, chart, input).Ok?
    ensures var r := Post(db, chart, input).value;
            Inv(r.0, issued + [Issue(KeyOf(input), r.1.entryNumber)])
  {
    var r := Post(db, chart, input).value;
    var h := HeaderFor(input, db.nextId, r.1.entryNumber);
    OwnedHaveLiveIds(db);
    NewLinesNumbered(db.lines, db.nextId, input.owner, input.business, input.lines);
    NewLinesOwned(db.(headers := db.headers + [h]), h, input.lines);
    PostKeepsNumbers(db, issued, chart, input);
  }

  lemma PostKeepsNumbers(db: Db, issued: seq<Issue>, chart: set<string>, input: EntryInput)
    requires NumbersOk(db, issued) && Post(db, chart, input).Ok?
    ensures var r := Post(db, chart, input).value;
            NumbersOk(r.0, issued + [Issue(KeyOf(input), r.1.entryNumber)])
  {
    var r := Post(db, chart, input).value;
    var key := KeyOf(input);
    var mine := Issue(key, r.1.entryNumber);
    assert mine !in issued;
    assert forall k :: k != key ==> Counter(r.0, k) == Counter(db, k);
    forall i | 0 <= i < |db.headers|
      ensures !(db.headers[i].owner == input.owner && db.headers[i].business == input.business
                && db.headers[i].entryNumber == r.1.entryNumber)
    {
      assert Issue(CounterKey(db.headers[i].owner, db.headers[i].business), db.headers[i].entryNumber) in issued;
    }
    assert mine in issued + [mine];
  }

  lemma {:induction false} BatchKeepsInv(db: Db, issued: seq<Issue>, chart: set<string>, inputs: seq<EntryInput>)
    requires Inv(db, issued) && PostAll(db, chart, inputs).Ok?
    ensures |PostAll(db, chart, inputs).value.1| == |inputs|
    ensures var r := PostAll(db, chart, inputs).value; Inv(r.0, issued + Issues(inputs, r.1))
  {
    OnePostedPerInput(db, chart, inputs);
    var r := PostAll(db, chart, inputs).value;
    if inputs == [] {
      assert issued + Issues(inputs, r.1) == issued;
    } else {
      var n := |inputs| - 1;
      BatchKeepsInv(db, issued, chart, inputs[..n]);
      var before := PostAll(db, chart, inputs[..n]).value;
      PostKeepsInv(before.0, issued + Issues(inputs[..n], before.1), chart, inputs[n]);
      assert issued + Issues(inputs, r.1) ==
             issued + Issues(inputs[..n], before.1) + [Issue(KeyOf(inputs[n]), r.1[n].entryNumber)];
    }
  }

  predicate SameIdentity(g: Header, h: Header) {
    g.id == h.id && g.owner == h.owner && g.business == h.business && g.entryNumber == h.entryNumber
  }

  lemma HeaderChangeKeeps(db: Db, issued: seq<Issue>, i: nat, h: Header)
    requires Inv(db, issued) && i < |db.headers| && SameIdentity(h, db.headers[i])
    ensures Inv(db.(headers := db.headers[i := h]), issued)
  {
    var after := db.(headers := db.headers[i := h]);
    forall l | l in after.lines
      ensures exists g :: g in after.headers && g.id == l.entryId && g.owner == l.owner && g.business == l.business
    {
      var g :| g in db.headers && g.id == l.entryId && g.owner == l.owner && g.business == l.business;
      var j :| 0 <= j < |db.headers| && db.headers[j] == g;
      assert after.headers[j] in after.headers;
    }
    forall g | g in after.headers ensures exists k :: k in db.headers && SameIdentity(g, k) {
      var j :| 0 <= j < |after.headers| && after.headers[j] == g;
      assert SameIdentity(g, db.headers[j]);
    }
    forall j, k | 0 <= j < k < |after.headers|
      ensures after.headers[j].id != after.headers[k].id
    {
      assert SameIdentity(after.headers[j], db.headers[j]) && SameIdentity(after.headers[k], db.headers[k]);
    }
  }

  /** Swapping an entry's lines, its header at most changed in other fields. */
  lemma SwapKeepsInv(db: Db, issued: seq<Issue>, i: nat, h: Header, lines: seq<LineInput>)
    requires Inv(db, issued) && i < |db.headers| && SameIdentity(h, db.headers[i])
    ensures Inv(db.(headers := db.headers[i := h],
                    lines := Keep(db.lines, NotEntry(h.id)) + LinesFor(h.id, h.owner, h.business, lines)), issued)
  {
    HeaderChangeKeeps(db, issued, i, h);
    var changed := db.(headers := db.headers[i := h]);
    var middle := changed.(lines := Keep(db.lines, NotEntry(h.id)));
    KeepSelects(db.lines, NotEntry(h.id));
    assert LinesOwned(middle);
    assert middle.headers[i] == h;
    NewLinesOwned(middle, h, lines);
    KeptLinesNumbered(changed, h.id);
    NewLinesNumbered(middle.lines, h.id, h.owner, h.business, lines);
  }

  lemma KeptLinesNumbered(db: Db, id: nat)
    requires LinesNumbered(db)
    ensures Keep(Keep(db.lines, NotEntry(id)), ByEntry(id)) == []
    ensures LinesNumbered(db.(lines := Keep(db.lines, NotEntry(id))))
  {
    var kept := Keep(db.lines, NotEntry(id));
    KeepSelects(db.lines, NotEntry(id));
    KeepAllOrNone(kept, ByEntry(id));
    forall other: nat | other != id ensures Keep(kept, ByEntry(other)) == Keep(db.lines, ByEntry(other)) {
      KeepOther(db.lines, id, other);
    }
  }

  lemma RemovedHeader(db: Db, issued: seq<Issue>, i: nat)
    requires HeadersOk(db) && NumbersOk(db, issued) && i < |db.headers|
    ensures var rest := db.headers[..i] + db.headers[i + 1..];
            && HeadersOk(db.(headers := rest)) && NumbersOk(db.(headers := rest), issued)
            && forall h :: h in db.headers && h != db.headers[i] ==> h in rest
  {
    var rest := db.headers[..i] + db.headers[i + 1..];
    forall j | 0 <= j < |rest| ensures rest[j] == db.headers[if j < i then j else j + 1] {
    }
    forall h | h in db.headers && h != db.headers[i] ensures h in rest {
      var j :| 0 <= j < |db.headers| && db.headers[j] == h;
      assert rest[if j < i then j else j - 1] == h;
    }
  }

  lemma DeleteKeepsInv(db: Db, issued: seq<Issue>, entryNumber: int, business: string)
    requires Inv(db, issued)
    ensures Inv(Delete(db, entryNumber, business).0, issued)
  {
    var i := ByNumber(db.headers, entryNumber, business);
    if i.Some? {
      var gone := db.headers[i.value];
      RemovedHeader(db, issued, i.value);
      KeepSelects(db.lines, NotEntry(gone.id));
      KeptLinesNumbered(db, gone.id);
    }
  }

  lemma {:induction false} RunKeepsInv(chart: set<string>, ops: seq<Op>)
    ensures var (db, issued) := Run(chart, ops); Inv(db, issued)
  {
    if ops == [] {
    } else {
      RunKeepsInv(chart, ops[..|ops| - 1]);
      var (db, issued) := Run(chart, ops[..|ops| - 1]);
      ApplyKeepsInv(db, issued, chart, ops[|ops| - 1]);
    }
  }

  lemma ApplyKeepsInv(db: Db, issued: seq<Issue>, chart: set<string>, op: Op)
    requires Inv(db, issued)
    ensures var (after, more) := Apply(db, chart, op); Inv(after, issued + more)
  {
    assert issued + [] == issued;
    match op
    case Create(input) =>
      if Post(db, chart, input).Ok? { PostKeepsInv(db, issued, chart, input); }
    case CreateBatch(inputs) =>
      if PostAll(db, chart, inputs).Ok? { BatchKeepsInv(db, issued, chart, inputs); }
    case ReplaceLines(referenceType, referenceId, business, lines) =>
      var i := ByReference(db.headers, referenceType, referenceId, business);
      if i.Some? {
        SwapKeepsInv(db, issued, i.value, db.headers[i.value], WithoutPercents(lines));
        assert db.headers[i.value := db.headers[i.value]] == db.headers;
      }
    case UpdateFull(entryNumber, business, input) =>
      var i := ByNumber(db.headers, entryNumber, business);
      if i.Some? { SwapKeepsInv(db, issued, i.value, UpdatedHeader(db.headers[i.value], input), input.lines); }
    case DeleteEntry(entryNumber, business) => DeleteKeepsInv(db, issued, entryNumber, business);
    case RolledBack(burnt) =>
  }

  // ---- What every run guarantees ----

  /** After any run: each line belongs to a live entry of the same owner and business, and the lines of
      every entry are numbered 1, 2, ..., n. */
  lemma LinesBelong(chart: set<string>, ops: seq<Op>)
    ensures var db := Run(chart, ops).0; LinesOwned(db) && LinesNumbered(db)
  {
    RunKeepsInv(chart, ops);
  }

  /** Over a whole run of operations made one after another, no counter hands out a number twice, deleted entries
      included; live entries of one counter have different numbers; every number handed out lies below its counter.
      JournalCounter says what becomes of this when creates overlap. */
  lemma NumbersNeverReused(chart: set<string>, ops: seq<Op>)
    ensures var (db, issued) := Run(chart, ops);
            && (forall i, j :: 0 <= i < j < |issued| ==> issued[i] != issued[j])
            && (forall k :: k in issued ==> k.entryNumber < Counter(db, k.key))
            && (forall i, j :: 0 <= i < j < |db.headers| && db.headers[i].owner == db.headers[j].owner
                               && db.headers[i].business == db.headers[j].business ==>
                  db.headers[i].entryNumber != db.headers[j].entryNumber)
            && (forall h :: h in db.headers ==> Issue(CounterKey(h.owner, h.business), h.entryNumber) in issued)
  {
    RunKeepsInv(chart, ops);
  }

  /** Under one owner per business, the entry found by number is the only one with it. */
  lemma FoundIsUnique(chart: set<string>, ops: seq<Op>, entryNumber: int, business: string, owner: string)
    requires forall h :: h in Run(chart, ops).0.headers && h.business == business ==> h.owner == owner
    ensures var headers := Run(chart, ops).0.headers;
            var i := ByNumber(headers, entryNumber, business);
            forall j ::
              0 <= j < |headers| && headers[j].entryNumber == entryNumber && headers[j].business == business ==>
                i == Some(j)
  {
    RunKeepsInv(chart, ops);
    var headers := Run(chart, ops).0.headers;
    var i := ByNumber(headers, entryNumber, business);
    forall j | 0 <= j < |headers| && headers[j].entryNumber == entryNumber && headers[j].business == business
      ensures i == Some(j)
    {
      assert headers[j] in headers;
      assert headers[i.value] in headers;
    }
  }

  predicate InputBalanced(lines: seq<LineInput>) { Debits(lines) == Credits(lines) }

  predicate OpBalanced(op: Op) {
    match op
    case Create(input) => InputBalanced(input.lines)
    case CreateBatch(inputs) => forall input :: input in inputs ==> InputBalanced(input.lines)
    case ReplaceLines(_, _, _, lines) => InputBalanced(lines)
    case UpdateFull(_, _, input) => InputBalanced(input.lines)
    case DeleteEntry(_, _) => true
    case RolledBack(_) => true
  }

  ghost predicate TrialBalanced(db: Db) {
    Balanced(db) && forall business :: Sum(db.lines, ByBusiness(business)) == 0.0
  }

  lemma AllOrNothing(id: nat, owner: string, business: string, lines: seq<LineInput>, p: Line -> bool)
    requires InputBalanced(lines)
    requires (forall l :: l in LinesFor(id, owner, business, lines) ==> p(l))
             || (forall l :: l in LinesFor(id, owner, business, lines) ==> !p(l))
    ensures Sum(LinesFor(id, owner, business, lines), p) == 0.0
  {
    if forall l :: l in LinesFor(id, owner, business, lines) ==> p(l) {
      FreshLinesSum(id, owner, business, lines, p);
    } else {
      KeepAllOrNone(LinesFor(id, owner, business, lines), p);
    }
  }

  lemma AddedKeepsBalance(db: Db, id: nat, owner: string, business: string, lines: seq<LineInput>)
    requires TrialBalanced(db) && InputBalanced(lines)
    ensures TrialBalanced(db.(lines := db.lines + LinesFor(id, owner, business, lines)))
  {
    var added := LinesFor(id, owner, business, lines);
    forall other: nat ensures Sum(db.lines + added, ByEntry(other)) == 0.0 {
      SumAppends(db.lines, added, ByEntry(other));
      AllOrNothing(id, owner, business, lines, ByEntry(other));
    }
    forall b ensures Sum(db.lines + added, ByBusiness(b)) == 0.0 {
      SumAppends(db.lines, added, ByBusiness(b));
      AllOrNothing(id, owner, business, lines, ByBusiness(b));
    }
  }

  lemma {:induction false} SameSelectionSameSum(lines: seq<Line>, p: Line -> bool, q: Line -> bool)
    requires forall l :: l in lines ==> p(l) == q(l)
    ensures Sum(lines, p) == Sum(lines, q)
  {
    if lines != [] {
      assert lines[|lines| - 1] in lines;
      SameSelectionSameSum(lines[..|lines| - 1], p, q);
    }
  }

  lemma {:induction false} KeptSum(lines: seq<Line>, p: Line -> bool)
    ensures Sum(Keep(lines, p), p) == Sum(lines, p)
  {
    if lines != [] {
      var last := lines[|lines| - 1];
      KeptSum(lines[..|lines| - 1], p);
      SumAppends(Keep(lines[..|lines| - 1], p), if p(last) then [last] else [], p);
      assert [last][..0] == [] && Sum([last], p) == if p(last) then last.values.debit - last.values.credit else 0.0;
    }
  }

  lemma RemovedSums(db: Db, h: Header, p: Line -> bool)
    requires TrialBalanced(db) && LinesOwned(db) && HeadersOk(db) && h in db.headers
    requires (forall l :: l in db.lines && l.entryId == h.id ==> p(l))
             || (forall l :: l in db.lines && l.entryId == h.id ==> !p(l))
    ensures Sum(Keep(db.lines, NotEntry(h.id)), p) == Sum(db.lines, p)
  {
    var mine := Keep(db.lines, ByEntry(h.id));
    KeepSelects(db.lines, ByEntry(h.id));
    SumWithout(db.lines, h.id, p);
    if forall l :: l in mine ==> p(l) {
      KeptSum(db.lines, ByEntry(h.id));
      SameSelectionSameSum(mine, p, ByEntry(h.id));
    } else {
      KeepAllOrNone(mine, p);
    }
  }

  lemma RemovedKeepsBalance(db: Db, h: Header)
    requires TrialBalanced(db) && HeadersOk(db) && LinesOwned(db) && h in db.headers
    ensures TrialBalanced(db.(lines := Keep(db.lines, NotEntry(h.id))))
  {
    forall other: nat ensures Sum(Keep(db.lines, NotEntry(h.id)), ByEntry(other)) == 0.0 {
      RemovedSums(db, h, ByEntry(other));
    }
    assert forall l :: l in db.lines && l.entryId == h.id ==> l.business == h.business;
    forall b ensures Sum(Keep(db.lines, NotEntry(h.id)), ByBusiness(b)) == 0.0 {
      RemovedSums(db, h, ByBusiness(b));
    }
  }

  lemma {:induction false} BatchKeepsBalance(db: Db, issued: seq<Issue>, chart: set<string>, inputs: seq<EntryInput>)
    requires TrialBalanced(db) && PostAll(db, chart, inputs).Ok?
    requires forall input :: input in inputs ==> InputBalanced(input.lines)
    ensures TrialBalanced(PostAll(db, chart, inputs).value.0)
  {
    if inputs != [] {
      var n := |inputs| - 1;
      BatchKeepsBalance(db, issued, chart, inputs[..n]);
      var before := PostAll(db, chart, inputs[..n]).value.0;
      AddedKeepsBalance(before, before.nextId, inputs[n].owner, inputs[n].business, inputs[n].lines);
    }
  }

  lemma SwappedKeepsBalance(db: Db, h: Header, lines: seq<LineInput>)
    requires TrialBalanced(db) && HeadersOk(db) && LinesOwned(db) && h in db.headers && InputBalanced(lines)
    ensures TrialBalanced(db.(lines := Keep(db.lines, NotEntry(h.id)) + LinesFor(h.id, h.owner, h.business, lines)))
  {
    RemovedKeepsBalance(db, h);
    AddedKeepsBalance(db.(lines := Keep(db.lines, NotEntry(h.id))), h.id, h.owner, h.business, lines);
  }

  lemma ApplyKeepsBalance(db: Db, issued: seq<Issue>, chart: set<string>, op: Op)
    requires Inv(db, issued) && TrialBalanced(db) && OpBalanced(op)
    ensures TrialBalanced(Apply(db, chart, op).0)
  {
    match op
    case Create(input) =>
      if Post(db, chart, input).Ok? { AddedKeepsBalance(db, db.nextId, input.owner, input.business, input.lines); }
    case CreateBatch(inputs) =>
      if PostAll(db, chart, inputs).Ok? { BatchKeepsBalance(db, issued, chart, inputs); }
    case ReplaceLines(referenceType, referenceId, business, lines) =>
      var i := ByReference(db.headers, referenceType, referenceId, business);
      if i.Some? {
        WithoutPercentsSum(lines);
        SwappedKeepsBalance(db, db.headers[i.value], WithoutPercents(lines));
      }
    case UpdateFull(entryNumber, business, input) =>
      var i := ByNumber(db.headers, entryNumber, business);
      if i.Some? { SwappedKeepsBalance(db, db.headers[i.value], input.lines); }
    case DeleteEntry(entryNumber, business) =>
      var i := ByNumber(db.headers, entryNumber, business);
      if i.Some? { RemovedKeepsBalance(db, db.headers[i.value]); }
    case RolledBack(burnt) =>
  }

  /** If every posted input balances, every entry and every business balances in every reachable state. */
  lemma {:induction false} TrialBalanceIsZero(chart: set<string>, ops: seq<Op>)
    requires forall op :: op in ops ==> OpBalanced(op)
    ensures TrialBalanced(Run(chart, ops).0)
  {
    if ops != [] {
      var before := ops[..|ops| - 1];
      TrialBalanceIsZero(chart, before);
      RunKeepsInv(chart, before);
      var (db, issued) := Run(chart, before);
      assert ops[|ops| - 1] in ops;
      ApplyKeepsBalance(db, issued, chart, ops[|ops| - 1]);
    }
  }

  /** A full update keeps id, number and owner, stores exactly the values a fresh create of the same input
      would store, leaves every other entry and its lines alone, and moves any selection of lines, such as
      one account of the business, by the new lines minus the old ones. */
  lemma UpdateStoresWhatCreateWould(db: Db, issued: seq<Issue>, chart: set<string>, entryNumber: int, business: string,
                                    input: EntryInput, p: Line -> bool)
    requires Inv(db, issued)
    requires Update(db, chart, entryNumber, business, input).Ok?
             && Update(db, chart, entryNumber, business, input).value.1
    ensures Post(db, chart, input).Ok?
    ensures var i := ByNumber(db.headers, entryNumber, business).value;
            var h := db.headers[i];
            var after := Update(db, chart, entryNumber, business, input).value.0;
            var (created, posted) := Post(db, chart, input).value;
            var mine := Keep(after.lines, ByEntry(h.id));
            var theirs := Keep(created.lines, ByEntry(posted.id));
            && |after.headers| == |db.headers| && SameIdentity(after.headers[i], h)
            && after.counters == db.counters
            && (forall j :: 0 <= j < |db.headers| && j != i ==> after.headers[j] == db.headers[j])
            && (forall other: nat :: other != h.id ==>
                  Keep(after.lines, ByEntry(other)) == Keep(db.lines, ByEntry(other)))
            && |mine| == |theirs| && (forall k :: 0 <= k < |mine| ==> mine[k].values == theirs[k].values)
            && Sum(after.lines, p) == Sum(db.lines, p) - Sum(Keep(db.lines, ByEntry(h.id)), p) + Sum(mine, p)
  {
    var h := db.headers[ByNumber(db.headers, entryNumber, business).value];
    OwnedHaveLiveIds(db);
    NewLinesGoToTheirEntry(db.lines, db.nextId, input.owner, input.business, input.lines, db.nextId);
    RewrittenLines(db.lines, h.id, h.owner, business, input.lines, p);
  }

  /** replaceJournalEntryLines stores what a create would exactly when every line leaves the percents at
      100 and amountForTax at 0; otherwise it drops them. */
  lemma ReplaceMatchesCreateIff(id: nat, owner: string, business: string, lines: seq<LineInput>)
    ensures LinesFor(id, owner, business, WithoutPercents(lines)) == LinesFor(id, owner, business, lines)
            <==> forall k :: 0 <= k < |lines| ==>
                   Or(lines[k].taxPercent, 100.0) == 100.0 && Or(lines[k].vatPercent, 100.0) == 100.0
                   && Or(lines[k].amountForTax, 0.0) == 0.0
  {
    var a, b := LinesFor(id, owner, business, WithoutPercents(lines)), LinesFor(id, owner, business, lines);
    if a == b {
      forall k | 0 <= k < |lines|
        ensures Or(lines[k].taxPercent, 100.0) == 100.0 && Or(lines[k].vatPercent, 100.0) == 100.0
                && Or(lines[k].amountForTax, 0.0) == 0.0
      {
        assert a[k].values == b[k].values;
      }
    }
  }

  function Creates(inputs: seq<EntryInput>): seq<Op> {
    seq(|inputs|, (k: nat) requires k < |inputs| => Create(inputs[k]))
  }

  /** A batch is its single creates in sequence, or nothing. */
  lemma {:induction false} BatchIsItsSingles(chart: set<string>, ops: seq<Op>, inputs: seq<EntryInput>)
    ensures var r := PostAll(Run(chart, ops).0, chart, inputs);
            if r.Ok? then Run(chart, ops + [CreateBatch(inputs)]) == Run(chart, ops + Creates(inputs))
            else Run(chart, ops + [CreateBatch(inputs)]) == Run(chart, ops)
    decreases |inputs|
  {
    var (db, issued) := Run(chart, ops);
    assert (ops + [CreateBatch(inputs)])[..|ops|] == ops;
    assert issued + [] == issued;
    if PostAll(db, chart, inputs).Ok? {
      SinglesRun(chart, ops, inputs);
    }
  }

  lemma IssuesOfLast(inputs: seq<EntryInput>, posted: seq<Posted>)
    requires |inputs| == |posted| > 0
    ensures var n := |inputs| - 1;
            Issues(inputs, posted) == Issues(inputs[..n], posted[..n]) + [Issue(KeyOf(inputs[n]), posted[n].entryNumber)]
  {
  }

  lemma RunOneMore(chart: set<string>, ops: seq<Op>, op: Op)
    ensures var (db, issued) := Run(chart, ops);
            var (after, more) := Apply(db, chart, op);
            Run(chart, ops + [op]) == (after, issued + more)
  {
    assert (ops + [op])[..|ops|] == ops;
  }

  lemma PostOneMore(db: Db, chart: set<string>, inputs: seq<EntryInput>)
    requires inputs != [] && PostAll(db, chart, inputs).Ok?
    ensures var n := |inputs| - 1;
            && PostAll(db, chart, inputs[..n]).Ok?
            && var (before, posted) := PostAll(db, chart, inputs[..n]).value;
            && Post(before, chart, inputs[n]).Ok?
            && PostAll(db, chart, inputs).value ==
               (Post(before, chart, inputs[n]).value.0, posted + [Post(before, chart, inputs[n]).value.1])
  {
  }

  lemma {:induction false} SinglesRun(chart: set<string>, ops: seq<Op>, inputs: seq<EntryInput>)
    requires PostAll(Run(chart, ops).0, chart, inputs).Ok?
    ensures |PostAll(Run(chart, ops).0, chart, inputs).value.1| == |inputs|
    ensures var r := PostAll(Run(chart, ops).0, chart, inputs).value;
            Run(chart, ops + Creates(inputs)) == (r.0, Run(chart, ops).1 + Issues(inputs, r.1))
    decreases |inputs|
  {
    var (db, issued) := Run(chart, ops);
    OnePostedPerInput(db, chart, inputs);
    var r := PostAll(db, chart, inputs).value;
    if inputs == [] {
      assert ops + Creates(inputs) == ops && issued + Issues(inputs, r.1) == issued;
    } else {
      var n := |inputs| - 1;
      PostOneMore(db, chart, inputs);
      SinglesRun(chart, ops, inputs[..n]);
      assert r.1[..n] == PostAll(db, chart, inputs[..n]).value.1;
      LastSingle(chart, ops, inputs, issued, r.1, PostAll(db, chart, inputs[..n]).value.0, r.0);
    }
  }

  lemma LastSingle(chart: set<string>, ops: seq<Op>, inputs: seq<EntryInput>, issued: seq<Issue>, posted: seq<Posted>,
                   before: Db, after: Db)
    requires |inputs| == |posted| > 0
    requires var n := |inputs| - 1;
             && Run(chart, ops + Creates(inputs[..n])) == (before, issued + Issues(inputs[..n], posted[..n]))
             && Post(before, chart, inputs[n]) == Ok((after, posted[n]))
    ensures Run(chart, ops + Creates(inputs)) == (after, issued + Issues(inputs, posted))
  {
    var n := |inputs| - 1;
    RunOneMore(chart, ops + Creates(inputs[..n]), Create(inputs[n]));
    assert ops + Creates(inputs) == ops + Creates(inputs[..n]) + [Create(inputs[n])];
    IssuesOfLast(inputs, posted);
    var last := [Issue(KeyOf(inputs[n]), posted[n].entryNumber)];
    assert issued + Issues(inputs[..n], posted[..n]) + last == issued + (Issues(inputs[..n], posted[..n]) + last);
  }

  /** The entries of a batch for one business get consecutive numbers. */
  lemma {:induction false} BatchNumbersAreConsecutive(db: Db, chart: set<string>, inputs: seq<EntryInput>,
                                                      key: CounterKey)
    requires PostAll(db, chart, inputs).Ok?
    requires forall input :: input in inputs ==> KeyOf(input) == key
    ensures var r := PostAll(db, chart, inputs).value;
            && |r.1| == |inputs| && Counter(r.0, key) == Counter(db, key) + |inputs|
            && forall k :: 0 <= k < |r.1| ==> r.1[k] == Posted(Counter(db, key) + k, db.nextId + k)
    ensures PostAll(db, chart, inputs).value.0.nextId == db.nextId + |inputs|
  {
    if inputs != [] {
      var n := |inputs| - 1;
      BatchNumbersAreConsecutive(db, chart, inputs[..n], key);
      assert inputs[n] in inputs;
    }
  }
}
