/** What repeated, interrupted and reordered runs of the task generator end with. */
module TaskRuns {
  import opened Common
  import opened Calendar
  import opened TaskPeriods
  import opened TaskRows

  // ---- Which rows a run tries ----

  lemma {:induction false} InWorkflows(b: Business, kind: Kind, waiting: bool, ps: seq<Period>)
    ensures forall row :: row in Workflows(b, kind, waiting, ps) <==>
              exists p :: p in ps && row == WorkflowFor(b, kind, waiting, p)
  {
    if ps != [] {
      InWorkflows(b, kind, waiting, ps[..|ps| - 1]);
      assert ps == ps[..|ps| - 1] + [ps[|ps| - 1]];
    }
  }

  lemma {:induction false} InTasks(d: Delegation, b: Business, kind: Kind, paired: bool, ps: seq<Period>)
    ensures forall row :: row in Tasks(d, b, kind, paired, ps) <==>
                          exists p :: p in ps && (row == TaskFor(d, b, kind, p)
                                                  || (paired && row == PairedWorkflow(d, b, kind, p)))
  {
    if ps != [] {
      InTasks(d, b, kind, paired, ps[..|ps| - 1]);
      assert ps == ps[..|ps| - 1] + [ps[|ps| - 1]];
    }
  }

  lemma {:induction false} InAnnualTasks(d: Delegation, b: Business, annual: seq<AnnualPeriod>)
    ensures forall row :: row in AnnualTasks(d, b, annual) <==> exists a :: a in annual && row == AnnualTask(d, b, a)
  {
    if annual != [] {
      InAnnualTasks(d, b, annual[..|annual| - 1]);
      assert annual == annual[..|annual| - 1] + [annual[|annual| - 1]];
    }
  }

  lemma {:induction false} InAllWorkflows(ds: seq<Delegation>, bs: seq<Business>, user: Option<string>, today: int)
    requires Modern(today)
    ensures forall row :: row in AllWorkflows(ds, bs, user, today) <==>
                          exists b ::
                            b in bs && (user.None? || user.value == b.owner) && row in BusinessRows(ds, b, today)
  {
    if bs != [] {
      InAllWorkflows(ds, bs[..|bs| - 1], user, today);
      assert bs == bs[..|bs| - 1] + [bs[|bs| - 1]];
    }
  }

  lemma {:induction false} InClientRows(d: Delegation, bs: seq<Business>, paired: bool, today: int)
    requires Modern(today)
    ensures forall row :: row in ClientRows(d, bs, paired, today) <==>
                          exists b :: b in bs && b.owner == d.user && row in DelegatedRows(d, b, paired, today)
  {
    if bs != [] {
      InClientRows(d, bs[..|bs| - 1], paired, today);
      assert bs == bs[..|bs| - 1] + [bs[|bs| - 1]];
    }
  }

  lemma {:induction false} InAgentRows(ds: seq<Delegation>, bs: seq<Business>, agent: Option<string>, paired: bool,
                                       today: int)
    requires Modern(today)
    ensures forall row :: row in AgentRows(ds, bs, agent, paired, today) <==>
                          exists d ::
                            d in ds && d.active && (agent.None? || agent.value == d.agent)
                            && row in ClientRows(d, bs, paired, today)
  {
    if ds != [] {
      InAgentRows(ds[..|ds| - 1], bs, agent, paired, today);
      assert ds == ds[..|ds| - 1] + [ds[|ds| - 1]];
    }
  }

  lemma {:induction false} InRowsOfAll(w: World, calls: seq<Call>, today: int)
    requires Modern(today)
    ensures forall row :: row in RowsOfAll(w, calls, today) <==>
              exists call :: call in calls && row in RowsOf(w, call, today)
  {
    if calls != [] {
      InRowsOfAll(w, calls[..|calls| - 1], today);
      assert calls == calls[..|calls| - 1] + [calls[|calls| - 1]];
    }
  }

  // ---- What a row says follows from its key ----

  /** A business number has one owner. */
  ghost predicate OwnersUnique(bs: seq<Business>) {
    forall b, c :: b in bs && c in bs && b.number != "" && b.number == c.number ==> b.owner == c.owner
  }

  function OwnerOf(bs: seq<Business>, number: string): string {
    if bs == [] then "" else if bs[0].number == number then bs[0].owner else OwnerOf(bs[1..], number)
  }

  lemma {:induction false} OwnerIs(bs: seq<Business>, b: Business)
    requires OwnersUnique(bs) && b in bs && b.number != ""
    ensures OwnerOf(bs, b.number) == b.owner
  {
    if bs[0].number == b.number {
      assert bs[0] in bs;
    } else {
      OwnerIs(bs[1..], b);
    }
  }

  function WorkflowOf(w: World, key: Key): Workflow {
    var owner := OwnerOf(w.businesses, key.number);
    Workflow(owner, HasAccountant(w.delegations, owner))
  }

  /** All of a task but its accountant. */
  function TaskOf(w: World, key: Key): Task {
    Task("", OwnerOf(w.businesses, key.number),
         if key.kind.AnnualReport? then Utc(Year(key.end) + 1, 4, 31) else key.end + 15, key.end + 1)
  }

  ghost predicate Sound(w: World, row: Row) {
    if row.WorkflowRow? then row.workflow == WorkflowOf(w, row.key) else row.task.(agent := "") == TaskOf(w, row.key)
  }

  ghost predicate AllSound(w: World, rows: seq<Row>) {
    forall row :: row in rows ==> Sound(w, row)
  }

  predicate Shaped(p: Period) { p.due == p.end + 15 && p.visible == p.end + 1 }

  lemma {:induction false} ListIsShaped(c: Cadence, first: nat, n: nat)
    ensures forall p :: p in PeriodList(c, first, n) ==> Shaped(p)
  {
    if n > 0 { ListIsShaped(c, first, n - 1); }
  }

  lemma PeriodsAreShaped(b: Business, kind: Kind, today: int)
    requires Modern(today)
    ensures forall p :: p in Periods(b, kind, today) ==> Shaped(p) && b.number != "" && !kind.AnnualReport?
  {
    if b.number != "" && Required(b, kind).Some? {
      var c := Required(b, kind).value;
      var lower := LowerBound(b.createdAt, today);
      LowerIsModern(b.createdAt, today);
      ListIsShaped(c, PeriodOf(c, lower), Steps(PeriodOf(c, lower), PeriodOf(c, today)));
    }
  }

  lemma AnnualIsShaped(y: int)
    ensures AnnualAt(y).due == Utc(Year(AnnualAt(y).end) + 1, 4, 31) && AnnualAt(y).visible == AnnualAt(y).end + 1
  {
    DecemberEnds(y);
    YearOfDay(y, AnnualAt(y).end);
  }

  lemma DecemberEnds(y: int)
    ensures MonthStart(12 * y + 11) <= Utc(y, 11, 31) < MonthStart(12 * y + 12) && Utc(y, 11, 31) + 1 == Utc(y + 1, 0, 1)
  {
    NextMonth(12 * y + 11);
    YearOfMonths(y);
  }

  lemma YearOfDay(y: int, day: int)
    requires MonthStart(12 * y + 11) <= day < MonthStart(12 * y + 12)
    ensures Year(day) == y
  {
    MonthIs(day, 12 * y + 11);
  }

  lemma AnnualIs(b: Business, today: int)
    ensures forall a :: a in AnnualPeriods(b, today) ==> b.number != "" && a == AnnualAt(Year(today) - 1)
  {
    OnlyLastYear(b.createdAt, today);
  }

  lemma BusinessRowsSound(w: World, b: Business, today: int)
    requires Modern(today) && OwnersUnique(w.businesses) && b in w.businesses
    ensures AllSound(w, BusinessRows(w.delegations, b, today))
  {
    WorkflowsSound(w, b, VatReport, today);
    WorkflowsSound(w, b, AdvanceTax, today);
  }

  lemma WorkflowsSound(w: World, b: Business, kind: Kind, today: int)
    requires Modern(today) && OwnersUnique(w.businesses) && b in w.businesses
    ensures AllSound(w, Workflows(b, kind, HasAccountant(w.delegations, b.owner), Periods(b, kind, today)))
  {
    var waiting := HasAccountant(w.delegations, b.owner);
    var ps := Periods(b, kind, today);
    InWorkflows(b, kind, waiting, ps);
    PeriodsAreShaped(b, kind, today);
    forall row | row in Workflows(b, kind, waiting, ps) ensures Sound(w, row) {
      var p :| p in ps && row == WorkflowFor(b, kind, waiting, p);
      OwnerIs(w.businesses, b);
    }
  }

  lemma TasksSound(w: World, d: Delegation, b: Business, kind: Kind, paired: bool, today: int)
    requires Modern(today) && OwnersUnique(w.businesses) && b in w.businesses && d in w.delegations && d.active
             && d.user == b.owner
    ensures AllSound(w, Tasks(d, b, kind, paired, Periods(b, kind, today)))
  {
    var ps := Periods(b, kind, today);
    InTasks(d, b, kind, paired, ps);
    PeriodsAreShaped(b, kind, today);
    forall row | row in Tasks(d, b, kind, paired, ps) ensures Sound(w, row) {
      var p :| p in ps && (row == TaskFor(d, b, kind, p) || (paired && row == PairedWorkflow(d, b, kind, p)));
      OwnerIs(w.businesses, b);
    }
  }

  lemma AnnualTasksSound(w: World, d: Delegation, b: Business, today: int)
    requires OwnersUnique(w.businesses) && b in w.businesses && d.user == b.owner
    ensures AllSound(w, AnnualTasks(d, b, AnnualPeriods(b, today)))
  {
    InAnnualTasks(d, b, AnnualPeriods(b, today));
    AnnualIs(b, today);
    forall row | row in AnnualTasks(d, b, AnnualPeriods(b, today)) ensures Sound(w, row) {
      AnnualTaskSound(w, d, b, Year(today) - 1);
    }
  }

  lemma AnnualTaskSound(w: World, d: Delegation, b: Business, y: int)
    requires OwnersUnique(w.businesses) && b in w.businesses && d.user == b.owner && b.number != ""
    ensures Sound(w, AnnualTask(d, b, AnnualAt(y)))
  {
    AnnualIsShaped(y);
    OwnerIs(w.businesses, b);
  }

  lemma DelegatedRowsSound(w: World, d: Delegation, b: Business, paired: bool, today: int)
    requires Modern(today) && OwnersUnique(w.businesses) && b in w.businesses && d in w.delegations && d.active
             && d.user == b.owner
    ensures AllSound(w, DelegatedRows(d, b, paired, today))
  {
    TasksSound(w, d, b, VatReport, paired, today);
    TasksSound(w, d, b, AdvanceTax, paired, today);
    AnnualTasksSound(w, d, b, today);
  }

  lemma WorkflowPhaseSound(w: World, user: Option<string>, today: int)
    requires Modern(today) && OwnersUnique(w.businesses)
    ensures AllSound(w, AllWorkflows(w.delegations, w.businesses, user, today))
  {
    InAllWorkflows(w.delegations, w.businesses, user, today);
    forall b | b in w.businesses ensures AllSound(w, BusinessRows(w.delegations, b, today)) {
      BusinessRowsSound(w, b, today);
    }
  }

  lemma AgentPhaseSound(w: World, agent: Option<string>, paired: bool, today: int)
    requires Modern(today) && OwnersUnique(w.businesses)
    ensures AllSound(w, AgentRows(w.delegations, w.businesses, agent, paired, today))
  {
    InAgentRows(w.delegations, w.businesses, agent, paired, today);
    forall d | d in w.delegations && d.active ensures AllSound(w, ClientRows(d, w.businesses, paired, today)) {
      InClientRows(d, w.businesses, paired, today);
      forall b | b in w.businesses && b.owner == d.user ensures AllSound(w, DelegatedRows(d, b, paired, today)) {
        DelegatedRowsSound(w, d, b, paired, today);
      }
    }
  }

  lemma RowsAreSound(w: World, call: Call, today: int)
    requires Modern(today) && OwnersUnique(w.businesses)
    ensures AllSound(w, RowsOf(w, call, today))
  {
    match call
    case ForUser(user) => WorkflowPhaseSound(w, Some(user), today);
    case ForAccountant(agent) => AgentPhaseSound(w, Some(agent), true, today);
    case ForToday =>
      WorkflowPhaseSound(w, None, today);
      AgentPhaseSound(w, None, false, today);
  }

  // ---- Runs ----

  /** The tables after a list of calls, all on one day and with the same businesses and delegations. */
  function Run(t: Tables, w: World, calls: seq<Call>, today: int): Tables
    requires Modern(today)
  {
    PutAll(t, RowsOfAll(w, calls, today))
  }

  ghost predicate NewOnesSound(w: World, t: Tables, u: Tables) {
    && (forall k :: k in u.workflows && k !in t.workflows ==> u.workflows[k] == WorkflowOf(w, k))
    && (forall k :: k in u.tasks && k !in t.tasks ==> u.tasks[k].(agent := "") == TaskOf(w, k))
  }

  lemma {:induction false} PutAllSound(w: World, t: Tables, rows: seq<Row>)
    requires AllSound(w, rows)
    ensures NewOnesSound(w, t, PutAll(t, rows))
  {
    if rows != [] {
      var init, last := rows[..|rows| - 1], rows[|rows| - 1];
      assert AllSound(w, init) && last in rows;
      PutAllSound(w, t, init);
    }
  }

  lemma RunIsSound(t: Tables, w: World, calls: seq<Call>, today: int)
    requires Modern(today) && OwnersUnique(w.businesses)
    ensures NewOnesSound(w, t, Run(t, w, calls, today))
  {
    InRowsOfAll(w, calls, today);
    forall call | call in calls ensures AllSound(w, RowsOf(w, call, today)) {
      RowsAreSound(w, call, today);
    }
    PutAllSound(w, t, RowsOfAll(w, calls, today));
  }

  /** No run changes or removes a row that is there. */
  lemma RunsOnlyAdd(t: Tables, w: World, calls: seq<Call>, today: int)
    requires Modern(today)
    ensures Keeps(t, Run(t, w, calls, today))
  {
    PutAllIs(t, RowsOfAll(w, calls, today));
  }

  /** The same up to which accountant a task went to. */
  ghost predicate SameButAgents(t: Tables, u: Tables) {
    && t.workflows == u.workflows
    && (forall k :: k in t.tasks <==> k in u.tasks)
    && (forall k :: k in t.tasks ==> t.tasks[k].(agent := "") == u.tasks[k].(agent := ""))
  }

  /** Any two lists of calls with the same calls in them, in whatever order and however often, end with the same
      workflows and the same tasks, up to which of several accountants a task went to. */
  lemma AnyOrderEndsAlike(t: Tables, w: World, calls: seq<Call>, others: seq<Call>, today: int)
    requires Modern(today) && OwnersUnique(w.businesses)
    requires forall call :: call in calls <==> call in others
    ensures SameButAgents(Run(t, w, calls, today), Run(t, w, others, today))
  {
    var rows, more := RowsOfAll(w, calls, today), RowsOfAll(w, others, today);
    InRowsOfAll(w, calls, today);
    InRowsOfAll(w, others, today);
    assert forall row :: row in rows <==> row in more;
    forall call | call in calls ensures AllSound(w, RowsOf(w, call, today)) {
      RowsAreSound(w, call, today);
    }
    SameRowsSameTables(w, t, rows, more);
  }

  lemma SameRowsSameTables(w: World, t: Tables, rows: seq<Row>, more: seq<Row>)
    requires forall row :: row in rows <==> row in more
    requires AllSound(w, rows)
    ensures SameButAgents(PutAll(t, rows), PutAll(t, more))
  {
    PutAllIs(t, rows);
    PutAllIs(t, more);
    PutAllSound(w, t, rows);
    PutAllSound(w, t, more);
    SameNewOnes(w, t, PutAll(t, rows), PutAll(t, more));
  }

  lemma SameNewOnes(w: World, t: Tables, u: Tables, v: Tables)
    requires Keeps(t, u) && Keeps(t, v) && NewOnesSound(w, t, u) && NewOnesSound(w, t, v)
    requires (forall k :: k in u.workflows <==> k in v.workflows) && (forall k :: k in u.tasks <==> k in v.tasks)
    ensures SameButAgents(u, v)
  {
  }

  /** Once a call has been made, making it again the same day creates nothing, whatever else was called. */
  lemma RerunCreatesNothing(t: Tables, w: World, calls: seq<Call>, call: Call, today: int)
    requires Modern(today) && call in calls
    ensures var u := Run(t, w, calls, today);
            PutAll(u, RowsOf(w, call, today)) == u && Tally(u, RowsOf(w, call, today)) == 0
  {
    InRowsOfAll(w, calls, today);
    PutAllIs(t, RowsOfAll(w, calls, today));
    PutKnown(Run(t, w, calls, today), RowsOf(w, call, today));
  }

  /** A run that breaks off and is started again ends as an undisturbed one. */
  lemma InterruptedRunRecovers(t: Tables, rows: seq<Row>, k: nat)
    requires k <= |rows|
    ensures PutAll(PutAll(t, rows[..k]), rows) == PutAll(t, rows)
  {
    var u := PutAll(t, rows[..k]);
    assert rows == rows[..k] + rows[k..];
    PutAppended(u, rows[..k], rows[k..]);
    PutAppended(t, rows[..k], rows[k..]);
    PutAllIs(t, rows[..k]);
    PutKnown(u, rows[..k]);
  }

  // ---- Completeness ----

  /** The business has to report this period. */
  ghost predicate Needs(b: Business, today: int, key: Key)
    requires Modern(today)
  {
    exists p :: p in Periods(b, key.kind, today) && key == KeyOf(b, key.kind, p)
  }

  ghost predicate NeedsAnnual(b: Business, today: int, key: Key) {
    exists a :: a in AnnualPeriods(b, today) && key == AnnualKey(b, a)
  }

  function AnnualKey(b: Business, a: AnnualPeriod): Key { Key(b.number, AnnualReport, a.start, a.end) }

  ghost predicate NeedsWorkflow(w: World, today: int, key: Key)
    requires Modern(today)
  {
    exists b :: b in w.businesses && Needs(b, today, key)
  }

  ghost predicate NeedsTask(w: World, today: int, key: Key)
    requires Modern(today)
  {
    exists b ::
      b in w.businesses && HasAccountant(w.delegations, b.owner) && (Needs(b, today, key) || NeedsAnnual(b, today, key))
  }

  /** VAT is reported at the business's VAT cadence, advances at its tax cadence. */
  predicate Reports(b: Business, kind: Kind, c: Cadence) {
    (kind == VatReport && b.vat == Some(c)) || (kind == AdvanceTax && b.tax == Some(c))
  }

  /** A report is needed for exactly the periods of its cadence that end between the lower bound and yesterday. */
  lemma NeedMeans(b: Business, today: int, key: Key)
    requires Modern(today)
    ensures Needs(b, today, key) <==>
              && b.number != "" && key.number == b.number
              && exists c, k: nat ::
                   && Reports(b, key.kind, c) && key.start == Start(c, k) && key.end == End(c, k)
                   && LowerBound(b.createdAt, today) <= key.end < today
  {
    assert forall c :: Reports(b, key.kind, c) <==> Required(b, key.kind) == Some(c);
    if b.number != "" && Required(b, key.kind).Some? {
      var c := Required(b, key.kind).value;
      var lower := LowerBound(b.createdAt, today);
      LowerIsModern(b.createdAt, today);
      LowerBoundMonth(b.createdAt, today);
      NeedInList(b, today, key, c, lower);
    }
  }

  /** An annual report is needed for last year alone, by a numbered business known to be older. */
  lemma AnnualNeedMeans(b: Business, today: int, key: Key)
    ensures NeedsAnnual(b, today, key) <==>
              && b.number != "" && key.number == b.number && key.kind == AnnualReport
              && b.createdAt != None && Year(b.createdAt.value) < Year(today)
              && key.start == Utc(Year(today) - 1, 0, 1) && key.end == Utc(Year(today) - 1, 11, 31)
  {
    OnlyLastYear(b.createdAt, today);
    var last := AnnualAt(Year(today) - 1);
    assert b.number != "" && b.createdAt != None && Year(b.createdAt.value) < Year(today) ==>
           last in AnnualPeriods(b, today);
  }

  lemma NeedInList(b: Business, today: int, key: Key, c: Cadence, lower: int)
    requires Modern(today) && PeriodOf(c, lower) >= 0 && MonthOf(lower) >= MonthOf(today) - LOOKBACK_MONTHS
    requires Periods(b, key.kind, today) == PeriodsBetween(c, lower, today)
    ensures Needs(b, today, key) <==>
              key.number == b.number
              && exists k: nat :: key.start == Start(c, k) && key.end == End(c, k) && lower <= key.end < today
  {
    if Needs(b, today, key) {
      var p :| p in PeriodsBetween(c, lower, today) && key == KeyOf(b, key.kind, p);
      ListedPeriod(c, lower, today, p);
    }
    if k: nat :| key.start == Start(c, k) && key.end == End(c, k) && lower <= key.end < today {
      ExactlyTheEndedPeriods(c, lower, today, k);
      assert key.number == b.number ==> key == KeyOf(b, key.kind, PeriodAt(c, k));
    }
  }

  lemma ListedPeriod(c: Cadence, lower: int, today: int, p: Period)
    requires PeriodOf(c, lower) >= 0 && MonthOf(lower) >= MonthOf(today) - LOOKBACK_MONTHS
    requires p in PeriodsBetween(c, lower, today)
    ensures exists k: nat :: p == PeriodAt(c, k) && lower <= End(c, k) < today
  {
    var ps := PeriodsBetween(c, lower, today);
    var i :| 0 <= i < |ps| && ps[i] == p;
    ExactlyTheEndedPeriods(c, lower, today, i);
    ExactlyTheEndedPeriods(c, lower, today, PeriodOf(c, lower) + i);
  }

  lemma KeysOfTwo(a: seq<Row>, b: seq<Row>, key: Key)
    ensures WorkflowKeyIn(a + b, key) <==> WorkflowKeyIn(a, key) || WorkflowKeyIn(b, key)
    ensures TaskKeyIn(a + b, key) <==> TaskKeyIn(a, key) || TaskKeyIn(b, key)
  {
  }

  lemma WorkflowKeys(b: Business, kind: Kind, waiting: bool, today: int, key: Key)
    requires Modern(today)
    ensures var rows := Workflows(b, kind, waiting, Periods(b, kind, today));
            && (WorkflowKeyIn(rows, key) <==> key.kind == kind && Needs(b, today, key))
            && !TaskKeyIn(rows, key)
  {
    var ps := Periods(b, kind, today);
    InWorkflows(b, kind, waiting, ps);
    if key.kind == kind && Needs(b, today, key) {
      var p :| p in ps && key == KeyOf(b, kind, p);
      assert WorkflowFor(b, kind, waiting, p) in Workflows(b, kind, waiting, ps);
    }
  }

  lemma TaskKeys(d: Delegation, b: Business, kind: Kind, paired: bool, today: int, key: Key)
    requires Modern(today)
    ensures var rows := Tasks(d, b, kind, paired, Periods(b, kind, today));
            && (TaskKeyIn(rows, key) <==> key.kind == kind && Needs(b, today, key))
            && (WorkflowKeyIn(rows, key) <==> paired && key.kind == kind && Needs(b, today, key))
  {
    var ps := Periods(b, kind, today);
    InTasks(d, b, kind, paired, ps);
    if key.kind == kind && Needs(b, today, key) {
      var p :| p in ps && key == KeyOf(b, kind, p);
      assert TaskFor(d, b, kind, p) in Tasks(d, b, kind, paired, ps);
      assert paired ==> PairedWorkflow(d, b, kind, p) in Tasks(d, b, kind, paired, ps);
    }
  }

  lemma AnnualKeys(d: Delegation, b: Business, today: int, key: Key)
    ensures var rows := AnnualTasks(d, b, AnnualPeriods(b, today));
            (TaskKeyIn(rows, key) <==> NeedsAnnual(b, today, key)) && !WorkflowKeyIn(rows, key)
  {
    var annual := AnnualPeriods(b, today);
    InAnnualTasks(d, b, annual);
    if NeedsAnnual(b, today, key) {
      var a :| a in annual && key == AnnualKey(b, a);
      assert AnnualTask(d, b, a) in AnnualTasks(d, b, annual);
    }
  }

  lemma NoAnnualPeriods(b: Business, today: int, key: Key)
    requires Modern(today)
    ensures Needs(b, today, key) ==> key.kind != AnnualReport
  {
  }

  lemma BusinessKeys(ds: seq<Delegation>, b: Business, today: int, key: Key)
    requires Modern(today)
    ensures WorkflowKeyIn(BusinessRows(ds, b, today), key) <==> Needs(b, today, key)
    ensures !TaskKeyIn(BusinessRows(ds, b, today), key)
  {
    var waiting := HasAccountant(ds, b.owner);
    WorkflowKeys(b, VatReport, waiting, today, key);
    WorkflowKeys(b, AdvanceTax, waiting, today, key);
    NoAnnualPeriods(b, today, key);
    KeysOfTwo(Workflows(b, VatReport, waiting, Periods(b, VatReport, today)),
              Workflows(b, AdvanceTax, waiting, Periods(b, AdvanceTax, today)), key);
  }

  /** The tasks a delegation asks for, and the workflows if paired. */
  lemma DelegatedKeys(d: Delegation, b: Business, paired: bool, today: int, key: Key)
    requires Modern(today)
    ensures TaskKeyIn(DelegatedRows(d, b, paired, today), key) <==> Needs(b, today, key) || NeedsAnnual(b, today, key)
    ensures WorkflowKeyIn(DelegatedRows(d, b, paired, today), key) <==> paired && Needs(b, today, key)
  {
    TaskKeys(d, b, VatReport, paired, today, key);
    TaskKeys(d, b, AdvanceTax, paired, today, key);
    AnnualKeys(d, b, today, key);
    NoAnnualPeriods(b, today, key);
    var vat, tax := Tasks(d, b, VatReport, paired, Periods(b, VatReport, today)),
      Tasks(d, b, AdvanceTax, paired, Periods(b, AdvanceTax, today));
    KeysOfTwo(vat, tax, key);
    KeysOfTwo(vat + tax, AnnualTasks(d, b, AnnualPeriods(b, today)), key);
  }

  /** A business of the user, or any, needs the report. */
  ghost predicate UserNeeds(w: World, user: Option<string>, today: int, key: Key)
    requires Modern(today)
  {
    exists b :: b in w.businesses && (user == None || user == Some(b.owner)) && Needs(b, today, key)
  }

  lemma WorkflowPhaseKeys(w: World, user: Option<string>, today: int, key: Key)
    requires Modern(today)
    ensures var rows := AllWorkflows(w.delegations, w.businesses, user, today);
            !TaskKeyIn(rows, key) && (WorkflowKeyIn(rows, key) <==> UserNeeds(w, user, today, key))
  {
    var rows := AllWorkflows(w.delegations, w.businesses, user, today);
    if row :| row in rows && row.key == key && row.TaskRow? {
      var b := BusinessOf(w, user, today, row);
      BusinessKeys(w.delegations, b, today, key);
      assert TaskKeyIn(BusinessRows(w.delegations, b, today), key);
    }
    if row :| row in rows && row.key == key && row.WorkflowRow? {
      var b := BusinessOf(w, user, today, row);
      BusinessKeys(w.delegations, b, today, key);
      assert WorkflowKeyIn(BusinessRows(w.delegations, b, today), key);
    }
    if UserNeeds(w, user, today, key) {
      NeededWorkflowIn(w, user, today, key);
    }
  }

  /** The business a workflow row comes from. */
  lemma BusinessOf(w: World, user: Option<string>, today: int, row: Row) returns (b: Business)
    requires Modern(today) && row in AllWorkflows(w.delegations, w.businesses, user, today)
    ensures b in w.businesses && (user == None || user == Some(b.owner)) && row in BusinessRows(w.delegations, b, today)
  {
    InAllWorkflows(w.delegations, w.businesses, user, today);
    b :| b in w.businesses && (user.None? || user.value == b.owner) && row in BusinessRows(w.delegations, b, today);
  }

  lemma NeededWorkflowIn(w: World, user: Option<string>, today: int, key: Key)
    requires Modern(today) && UserNeeds(w, user, today, key)
    ensures WorkflowKeyIn(AllWorkflows(w.delegations, w.businesses, user, today), key)
  {
    InAllWorkflows(w.delegations, w.businesses, user, today);
    var b :| b in w.businesses && (user == None || user == Some(b.owner)) && Needs(b, today, key);
    BusinessKeys(w.delegations, b, today, key);
    var row :| row in BusinessRows(w.delegations, b, today) && row.WorkflowRow? && row.key == key;
    assert row in AllWorkflows(w.delegations, w.businesses, user, today);
  }

  /** The agent, or anyone, has an active delegation of the business's owner. */
  predicate Serves(w: World, agent: Option<string>, b: Business) {
    exists d :: d in w.delegations && d.active && (agent == None || agent == Some(d.agent)) && d.user == b.owner
  }

  ghost predicate AgentNeeds(w: World, agent: Option<string>, today: int, key: Key)
    requires Modern(today)
  {
    exists b :: b in w.businesses && Serves(w, agent, b) && (Needs(b, today, key) || NeedsAnnual(b, today, key))
  }

  ghost predicate AgentNeedsWorkflow(w: World, agent: Option<string>, today: int, key: Key)
    requires Modern(today)
  {
    exists b :: b in w.businesses && Serves(w, agent, b) && Needs(b, today, key)
  }

  lemma AgentPhaseKeys(w: World, agent: Option<string>, paired: bool, today: int, key: Key)
    requires Modern(today)
    ensures var rows := AgentRows(w.delegations, w.businesses, agent, paired, today);
            && (TaskKeyIn(rows, key) <==> AgentNeeds(w, agent, today, key))
            && (WorkflowKeyIn(rows, key) <==> paired && AgentNeedsWorkflow(w, agent, today, key))
  {
    var rows := AgentRows(w.delegations, w.businesses, agent, paired, today);
    if row :| row in rows && row.key == key && row.TaskRow? {
      var d, b := OriginOf(w, agent, paired, today, row);
      DelegatedKeys(d, b, paired, today, key);
      assert TaskKeyIn(DelegatedRows(d, b, paired, today), key);
    }
    if row :| row in rows && row.key == key && row.WorkflowRow? {
      var d, b := OriginOf(w, agent, paired, today, row);
      DelegatedKeys(d, b, paired, today, key);
      assert WorkflowKeyIn(DelegatedRows(d, b, paired, today), key);
    }
    if AgentNeeds(w, agent, today, key) {
      var b :| b in w.businesses && Serves(w, agent, b) && (Needs(b, today, key) || NeedsAnnual(b, today, key));
      ServedRowsIn(w, agent, paired, today, key, b);
    }
    if AgentNeedsWorkflow(w, agent, today, key) {
      var b :| b in w.businesses && Serves(w, agent, b) && Needs(b, today, key);
      ServedRowsIn(w, agent, paired, today, key, b);
    }
  }

  lemma ServedRowsIn(w: World, agent: Option<string>, paired: bool, today: int, key: Key, b: Business)
    requires Modern(today) && b in w.businesses && Serves(w, agent, b)
    ensures var rows := AgentRows(w.delegations, w.businesses, agent, paired, today);
            && (Needs(b, today, key) || NeedsAnnual(b, today, key) ==> TaskKeyIn(rows, key))
            && (paired && Needs(b, today, key) ==> WorkflowKeyIn(rows, key))
  {
    InAgentRows(w.delegations, w.businesses, agent, paired, today);
    var d :| d in w.delegations && d.active && (agent == None || agent == Some(d.agent)) && d.user == b.owner;
    DelegatedKeys(d, b, paired, today, key);
    InClientRows(d, w.businesses, paired, today);
    assert forall row :: row in DelegatedRows(d, b, paired, today) ==>
             row in ClientRows(d, w.businesses, paired, today)
             && row in AgentRows(w.delegations, w.businesses, agent, paired, today);
  }

  /** The delegation and business a row comes from. */
  lemma OriginOf(w: World, agent: Option<string>, paired: bool, today: int, row: Row)
    returns (d: Delegation, b: Business)
    requires Modern(today) && row in AgentRows(w.delegations, w.businesses, agent, paired, today)
    ensures d in w.delegations && d.active && b in w.businesses && b.owner == d.user
            && (agent == None || agent == Some(d.agent)) && row in DelegatedRows(d, b, paired, today)
  {
    InAgentRows(w.delegations, w.businesses, agent, paired, today);
    d :| d in w.delegations && d.active && (agent.None? || agent.value == d.agent)
         && row in ClientRows(d, w.businesses, paired, today);
    InClientRows(d, w.businesses, paired, today);
    b :| b in w.businesses && b.owner == d.user && row in DelegatedRows(d, b, paired, today);
  }

  lemma DelegatedToAgent(d: Delegation, b: Business, paired: bool, today: int, row: Row)
    requires Modern(today) && row in DelegatedRows(d, b, paired, today) && row.TaskRow?
    ensures row.task.agent == d.agent && row.task.client == d.user
  {
    InTasks(d, b, VatReport, paired, Periods(b, VatReport, today));
    InTasks(d, b, AdvanceTax, paired, Periods(b, AdvanceTax, today));
    InAnnualTasks(d, b, AnnualPeriods(b, today));
  }

  lemma {:induction false} NewTaskIsRow(t: Tables, rows: seq<Row>, key: Key)
    requires key in PutAll(t, rows).tasks && key !in t.tasks
    ensures TaskRow(key, PutAll(t, rows).tasks[key]) in rows
  {
    if rows != [] {
      var init, last := rows[..|rows| - 1], rows[|rows| - 1];
      assert rows == init + [last];
      if key in PutAll(t, init).tasks { NewTaskIsRow(t, init, key); }
    }
  }

  /** A delegation that this call creates tasks for. */
  predicate Asks(w: World, call: Call, d: Delegation) {
    d in w.delegations && d.active && (call == ForToday || call == ForAccountant(d.agent))
  }

  /** Over any run a new task goes to an accountant with an active delegation of the task's client: the one whose page was
      opened, or any in the full run. */
  lemma TasksGoToAccountants(t: Tables, w: World, calls: seq<Call>, today: int, key: Key)
    requires Modern(today) && key in Run(t, w, calls, today).tasks && key !in t.tasks
    ensures var task := Run(t, w, calls, today).tasks[key];
            exists call, d :: call in calls && Asks(w, call, d) && task.agent == d.agent && task.client == d.user
  {
    var row := TaskRow(key, Run(t, w, calls, today).tasks[key]);
    NewTaskIsRow(t, RowsOfAll(w, calls, today), key);
    InRowsOfAll(w, calls, today);
    var call :| call in calls && row in RowsOf(w, call, today);
    var d := AskedBy(w, call, today, row);
  }

  lemma AskedBy(w: World, call: Call, today: int, row: Row) returns (d: Delegation)
    requires Modern(today) && row in RowsOf(w, call, today) && row.TaskRow?
    ensures Asks(w, call, d) && row.task.agent == d.agent && row.task.client == d.user
  {
    WorkflowPhaseKeys(w, if call.ForUser? then Some(call.user) else None, today, row.key);
    var agent := if call.ForAccountant? then Some(call.agent) else None;
    assert row in AgentRows(w.delegations, w.businesses, agent, call.ForAccountant?, today);
    var b;
    d, b := OriginOf(w, agent, call.ForAccountant?, today, row);
    DelegatedToAgent(d, b, call.ForAccountant?, today, row);
  }

  /** Every workflow among these rows is tallied, or none is. */
  predicate AllTallied(rows: seq<Row>, tallied: bool) {
    forall row :: row in rows && row.WorkflowRow? ==> row.tallied == tallied
  }

  lemma {:induction false} TallyCounts(t: Tables, rows: seq<Row>, tallied: bool)
    requires AllTallied(rows, tallied)
    ensures var u := PutAll(t, rows);
            Tally(t, rows) == |u.tasks| - |t.tasks| + (if tallied then |u.workflows| - |t.workflows| else 0)
  {
    if rows != [] {
      var init, last := rows[..|rows| - 1], rows[|rows| - 1];
      assert rows == init + [last] && last in rows;
      TallyCounts(t, init, tallied);
    }
  }

  lemma WorkflowsAreTallied(w: World, user: Option<string>, today: int)
    requires Modern(today)
    ensures AllTallied(AllWorkflows(w.delegations, w.businesses, user, today), true)
  {
    forall row | row in AllWorkflows(w.delegations, w.businesses, user, today) && row.WorkflowRow? ensures row.tallied {
      var b := BusinessOf(w, user, today, row);
      var waiting := HasAccountant(w.delegations, b.owner);
      InWorkflows(b, VatReport, waiting, Periods(b, VatReport, today));
      InWorkflows(b, AdvanceTax, waiting, Periods(b, AdvanceTax, today));
    }
  }

  lemma PairedAreNotTallied(w: World, agent: Option<string>, paired: bool, today: int)
    requires Modern(today)
    ensures forall row :: row in AgentRows(w.delegations, w.businesses, agent, paired, today) && row.WorkflowRow? ==>
              paired && !row.tallied
  {
    forall row | row in AgentRows(w.delegations, w.businesses, agent, paired, today) && row.WorkflowRow?
      ensures paired && !row.tallied
    {
      var d, b := OriginOf(w, agent, paired, today, row);
      InTasks(d, b, VatReport, paired, Periods(b, VatReport, today));
      InTasks(d, b, AdvanceTax, paired, Periods(b, AdvanceTax, today));
      InAnnualTasks(d, b, AnnualPeriods(b, today));
    }
  }

  /** The created count: the new workflows of a user's run, the new tasks of an accountant's, both of the full run. */
  lemma CreatedCounts(t: Tables, w: World, call: Call, today: int)
    requires Modern(today)
    ensures var u := PutAll(t, RowsOf(w, call, today));
            Tally(t, RowsOf(w, call, today)) ==
            |u.tasks| - |t.tasks| + (if call.ForAccountant? then 0 else |u.workflows| - |t.workflows|)
  {
    match call
    case ForUser(user) =>
      WorkflowsAreTallied(w, Some(user), today);
      TallyCounts(t, RowsOf(w, call, today), true);
    case ForAccountant(agent) =>
      PairedAreNotTallied(w, Some(agent), true, today);
      TallyCounts(t, RowsOf(w, call, today), false);
    case ForToday =>
      WorkflowsAreTallied(w, None, today);
      PairedAreNotTallied(w, None, false, today);
      TallyCounts(t, RowsOf(w, call, today), true);
  }

  /** After the run for a user a workflow is there exactly if it was before or a business of the user needs it; tasks stay
      as they were. */
  lemma UserRunIsComplete(t: Tables, w: World, user: string, today: int, key: Key)
    requires Modern(today)
    ensures var u := PutAll(t, RowsOf(w, ForUser(user), today));
            && (key in u.workflows <==>
                key in t.workflows || exists b :: b in w.businesses && b.owner == user && Needs(b, today, key))
            && (key in u.tasks <==> key in t.tasks)
  {
    PutAllIs(t, RowsOf(w, ForUser(user), today));
    WorkflowPhaseKeys(w, Some(user), today, key);
    assert UserNeeds(w, Some(user), today, key) <==>
           exists b :: b in w.businesses && b.owner == user && Needs(b, today, key);
  }

  /** After the run for an accountant a task or workflow is there exactly if it was before or is needed by a business
      whose owner has an active delegation to the accountant. */
  lemma AccountantRunIsComplete(t: Tables, w: World, agent: string, today: int, key: Key)
    requires Modern(today)
    ensures var u := PutAll(t, RowsOf(w, ForAccountant(agent), today));
            && (key in u.tasks <==>
                key in t.tasks || exists b, d :: && b in w.businesses && d in w.delegations && d.active
                                                 && d.agent == agent && d.user == b.owner
                                                 && (Needs(b, today, key) || NeedsAnnual(b, today, key)))
            && (key in u.workflows <==>
                key in t.workflows || exists b, d :: && b in w.businesses && d in w.delegations && d.active
                                                     && d.agent == agent && d.user == b.owner && Needs(b, today, key))
  {
    PutAllIs(t, RowsOf(w, ForAccountant(agent), today));
    AgentPhaseKeys(w, Some(agent), true, today, key);
    AgentServes(w, agent, today, key);
  }

  lemma AgentServes(w: World, agent: string, today: int, key: Key)
    requires Modern(today)
    ensures AgentNeeds(w, Some(agent), today, key) <==>
            exists b, d :: && b in w.businesses && d in w.delegations
                           && d.active && d.agent == agent && d.user == b.owner
                           && (Needs(b, today, key) || NeedsAnnual(b, today, key))
    ensures AgentNeedsWorkflow(w, Some(agent), today, key) <==>
            exists b, d :: && b in w.businesses && d in w.delegations
                           && d.active && d.agent == agent && d.user == b.owner && Needs(b, today, key)
  {
    assert forall b :: Serves(w, Some(agent), b) <==>
                       exists d :: d in w.delegations && d.active && d.agent == agent && d.user == b.owner;
  }

  lemma AnyoneNeeds(w: World, today: int, key: Key)
    requires Modern(today)
    ensures NeedsWorkflow(w, today, key) <==> UserNeeds(w, None, today, key)
    ensures NeedsTask(w, today, key) <==> AgentNeeds(w, None, today, key)
  {
    assert forall b: Business :: HasAccountant(w.delegations, b.owner) <==> Serves(w, None, b);
  }

  /** After the full run a workflow is there exactly if it was before or its business needs it, and a task exactly
      if it was before or its business needs it and has an accountant. */
  lemma FullRunIsComplete(t: Tables, w: World, today: int, key: Key)
    requires Modern(today)
    ensures var u := PutAll(t, RowsOf(w, ForToday, today));
            && (key in u.workflows <==> key in t.workflows || NeedsWorkflow(w, today, key))
            && (key in u.tasks <==> key in t.tasks || NeedsTask(w, today, key))
  {
    PutAllIs(t, RowsOf(w, ForToday, today));
    WorkflowPhaseKeys(w, None, today, key);
    AgentPhaseKeys(w, None, false, today, key);
    AnyoneNeeds(w, today, key);
    KeysOfTwo(AllWorkflows(w.delegations, w.businesses, None, today),
              AgentRows(w.delegations, w.businesses, None, false, today), key);
  }

  /** After the full run no page opened the same day creates anything more. */
  lemma FullRunCoversAll(t: Tables, w: World, call: Call, today: int)
    requires Modern(today)
    ensures var u := PutAll(t, RowsOf(w, ForToday, today));
            PutAll(u, RowsOf(w, call, today)) == u && Tally(u, RowsOf(w, call, today)) == 0
  {
    var u := PutAll(t, RowsOf(w, ForToday, today));
    var rows := RowsOf(w, call, today);
    forall row | row in rows ensures Has(u, row) {
      FullRunIsComplete(t, w, today, row.key);
      assert row.TaskRow? ==> TaskKeyIn(rows, row.key);
      assert row.WorkflowRow? ==> WorkflowKeyIn(rows, row.key);
      CallNeeds(w, call, today, row.key);
    }
    PutKnown(u, rows);
  }

  lemma CallNeeds(w: World, call: Call, today: int, key: Key)
    requires Modern(today)
    ensures WorkflowKeyIn(RowsOf(w, call, today), key) ==> NeedsWorkflow(w, today, key)
    ensures TaskKeyIn(RowsOf(w, call, today), key) ==> NeedsTask(w, today, key)
  {
    match call
    case ForUser(user) => WorkflowPhaseKeys(w, Some(user), today, key);
    case ForAccountant(agent) => AgentPhaseKeys(w, Some(agent), true, today, key);
    case ForToday =>
      WorkflowPhaseKeys(w, None, today, key);
      AgentPhaseKeys(w, None, false, today, key);
      KeysOfTwo(AllWorkflows(w.delegations, w.businesses, None, today),
                AgentRows(w.delegations, w.businesses, None, false, today), key);
  }
}
