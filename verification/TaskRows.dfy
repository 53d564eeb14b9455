/** The rows that the task generator tries to insert, and what inserting them in any order amounts to. */
module TaskRows {
  import opened Common
  import opened Calendar
  import opened TaskPeriods

  /** An empty number stands for a business without one; a cadence of None for a report not required. */
  datatype Business = Business(owner: string, number: string, vat: Option<Cadence>, tax: Option<Cadence>,
                               createdAt: Option<int>)

  datatype Delegation = Delegation(agent: string, user: string, active: bool)

  datatype World = World(businesses: seq<Business>, delegations: seq<Delegation>)

  datatype Kind = VatReport | AdvanceTax | AnnualReport

  /** The unique key of workflows, and of automatic tasks. */
  datatype Key = Key(number: string, kind: Kind, start: int, end: int)

  datatype Workflow = Workflow(client: string, waitingForClient: bool)
  datatype Task = Task(agent: string, client: string, due: int, visible: int)

  datatype Tables = Tables(workflows: map<Key, Workflow>, tasks: map<Key, Task>)

  /** One attempted insert; the outcome of a workflow's is not always tallied. */
  datatype Row = WorkflowRow(key: Key, workflow: Workflow, tallied: bool) | TaskRow(key: Key, task: Task)

  // ---- Inserts ----

  /** A row whose key is taken is skipped. */
  function Put(t: Tables, row: Row): Tables {
    match row
    case WorkflowRow(key, workflow, _) => if key in t.workflows then t else t.(workflows := t.workflows[key := workflow])
    case TaskRow(key, task) => if key in t.tasks then t else t.(tasks := t.tasks[key := task])
  }

  predicate Has(t: Tables, row: Row) {
    if row.WorkflowRow? then row.key in t.workflows else row.key in t.tasks
  }

  function Created(t: Tables, row: Row): nat {
    if Has(t, row) || (row.WorkflowRow? && !row.tallied) then 0 else 1
  }

  function PutAll(t: Tables, rows: seq<Row>): Tables {
    if rows == [] then t else Put(PutAll(t, rows[..|rows| - 1]), rows[|rows| - 1])
  }

  /** The created count of a run. */
  function Tally(t: Tables, rows: seq<Row>): nat {
    if rows == [] then 0
    else Tally(t, rows[..|rows| - 1]) + Created(PutAll(t, rows[..|rows| - 1]), rows[|rows| - 1])
  }

  lemma {:induction false} PutAppended(t: Tables, a: seq<Row>, b: seq<Row>)
    ensures PutAll(t, a + b) == PutAll(PutAll(t, a), b)
    ensures Tally(t, a + b) == Tally(t, a) + Tally(PutAll(t, a), b)
    decreases |b|
  {
    if b == [] {
      assert a + b == a;
    } else {
      assert (a + b)[..|a + b| - 1] == a + b[..|b| - 1];
      PutAppended(t, a, b[..|b| - 1]);
    }
  }

  /** These rows were tried, and so many created. */
  ghost predicate Did(t: Tables, u: Tables, created: nat, rows: seq<Row>) {
    u == PutAll(t, rows) && created == Tally(t, rows)
  }

  lemma DidMore(t: Tables, u: Tables, v: Tables, m: nat, n: nat, a: seq<Row>, b: seq<Row>)
    requires Did(t, u, m, a) && Did(u, v, n, b)
    ensures Did(t, v, m + n, a + b)
  {
    PutAppended(t, a, b);
  }

  lemma DidOne(t: Tables, row: Row)
    ensures Did(t, Put(t, row), Created(t, row), [row])
  {
    assert [row][..0] == [];
    assert PutAll(t, [row][..0]) == t;
  }

  lemma {:induction false} PutKnown(t: Tables, rows: seq<Row>)
    requires forall row :: row in rows ==> Has(t, row)
    ensures PutAll(t, rows) == t && Tally(t, rows) == 0
  {
    if rows != [] {
      PutKnown(t, rows[..|rows| - 1]);
      assert rows[|rows| - 1] in rows;
    }
  }

  /** Every row present keeps its place and its contents. */
  ghost predicate Keeps(t: Tables, u: Tables) {
    && (forall k :: k in t.workflows ==> k in u.workflows && u.workflows[k] == t.workflows[k])
    && (forall k :: k in t.tasks ==> k in u.tasks && u.tasks[k] == t.tasks[k])
  }

  /** Inserting keeps all rows and adds exactly the keys inserted. */
  lemma {:induction false} PutAllIs(t: Tables, rows: seq<Row>)
    ensures var u := PutAll(t, rows);
            && Keeps(t, u)
            && (forall k :: k in u.workflows <==> k in t.workflows || WorkflowKeyIn(rows, k))
            && (forall k :: k in u.tasks <==> k in t.tasks || TaskKeyIn(rows, k))
  {
    if rows != [] {
      var init, last := rows[..|rows| - 1], rows[|rows| - 1];
      PutAllIs(t, init);
      assert rows == init + [last];
      assert forall k :: WorkflowKeyIn(rows, k) <==> WorkflowKeyIn(init, k) || (last.WorkflowRow? && last.key == k);
      assert forall k :: TaskKeyIn(rows, k) <==> TaskKeyIn(init, k) || (last.TaskRow? && last.key == k);
    }
  }

  ghost predicate WorkflowKeyIn(rows: seq<Row>, key: Key) {
    exists row :: row in rows && row.WorkflowRow? && row.key == key
  }

  ghost predicate TaskKeyIn(rows: seq<Row>, key: Key) {
    exists row :: row in rows && row.TaskRow? && row.key == key
  }

  // ---- The rows of a run ----

  /** No year before 1001, so that twelve months back is a four-digit year too. */
  predicate Modern(today: int) { Year(today) > 1000 }

  lemma LowerIsModern(createdAt: Option<int>, today: int)
    requires Modern(today)
    ensures var lower := LowerBound(createdAt, today);
            Year(lower) >= 0 && PeriodOf(Monthly, lower) >= 0 && PeriodOf(DualMonth, lower) >= 0
  {
    LowerBoundMonth(createdAt, today);
  }

  function Required(b: Business, kind: Kind): Option<Cadence> {
    match kind
    case VatReport => b.vat
    case AdvanceTax => b.tax
    case AnnualReport => None
  }

  function Periods(b: Business, kind: Kind, today: int): seq<Period>
    requires Modern(today)
  {
    LowerIsModern(b.createdAt, today);
    if b.number == "" || Required(b, kind).None? then []
    else PeriodsBetween(Required(b, kind).value, LowerBound(b.createdAt, today), today)
  }

  function AnnualPeriods(b: Business, today: int): seq<AnnualPeriod> {
    if b.number == "" then [] else AnnualFrom(FirstAnnualYear(LowerBound(b.createdAt, today), today), Year(today))
  }

  predicate HasAccountant(ds: seq<Delegation>, user: string) {
    exists d :: d in ds && d.active && d.user == user
  }

  function KeyOf(b: Business, kind: Kind, p: Period): Key { Key(b.number, kind, p.start, p.end) }

  function WorkflowFor(b: Business, kind: Kind, waiting: bool, p: Period): Row {
    WorkflowRow(KeyOf(b, kind, p), Workflow(b.owner, waiting), true)
  }

  function TaskFor(d: Delegation, b: Business, kind: Kind, p: Period): Row {
    TaskRow(KeyOf(b, kind, p), Task(d.agent, d.user, p.due, p.visible))
  }

  function PairedWorkflow(d: Delegation, b: Business, kind: Kind, p: Period): Row {
    WorkflowRow(KeyOf(b, kind, p), Workflow(d.user, true), false)
  }

  function AnnualTask(d: Delegation, b: Business, a: AnnualPeriod): Row {
    TaskRow(Key(b.number, AnnualReport, a.start, a.end), Task(d.agent, d.user, a.due, a.visible))
  }

  function Workflows(b: Business, kind: Kind, waiting: bool, ps: seq<Period>): seq<Row> {
    if ps == [] then [] else Workflows(b, kind, waiting, ps[..|ps| - 1]) + [WorkflowFor(b, kind, waiting, ps[|ps| - 1])]
  }

  /** createPeriodicPair, or createPeriodicTaskOnly, of each period. */
  function Tasks(d: Delegation, b: Business, kind: Kind, paired: bool, ps: seq<Period>): seq<Row> {
    if ps == [] then []
    else
      var p := ps[|ps| - 1];
      Tasks(d, b, kind, paired, ps[..|ps| - 1])
      + (if paired then [TaskFor(d, b, kind, p), PairedWorkflow(d, b, kind, p)] else [TaskFor(d, b, kind, p)])
  }

  function AnnualTasks(d: Delegation, b: Business, annual: seq<AnnualPeriod>): seq<Row> {
    if annual == [] then [] else AnnualTasks(d, b, annual[..|annual| - 1]) + [AnnualTask(d, b, annual[|annual| - 1])]
  }

  /** processBusinessWorkflows. */
  function BusinessRows(ds: seq<Delegation>, b: Business, today: int): seq<Row>
    requires Modern(today)
  {
    Workflows(b, VatReport, HasAccountant(ds, b.owner), Periods(b, VatReport, today))
    + Workflows(b, AdvanceTax, HasAccountant(ds, b.owner), Periods(b, AdvanceTax, today))
  }

  /** processBusinessForDelegation, or its tasks-only variant. */
  function DelegatedRows(d: Delegation, b: Business, paired: bool, today: int): seq<Row>
    requires Modern(today)
  {
    Tasks(d, b, VatReport, paired, Periods(b, VatReport, today))
    + Tasks(d, b, AdvanceTax, paired, Periods(b, AdvanceTax, today))
    + AnnualTasks(d, b, AnnualPeriods(b, today))
  }

  /** Workflows of the businesses of a user, or of all businesses. */
  function AllWorkflows(ds: seq<Delegation>, bs: seq<Business>, user: Option<string>, today: int): seq<Row>
    requires Modern(today)
  {
    if bs == [] then []
    else
      var b := bs[|bs| - 1];
      var before := AllWorkflows(ds, bs[..|bs| - 1], user, today);
      if user.None? || user.value == b.owner then before + BusinessRows(ds, b, today) else before
  }

  function ClientRows(d: Delegation, bs: seq<Business>, paired: bool, today: int): seq<Row>
    requires Modern(today)
  {
    if bs == [] then []
    else
      var b := bs[|bs| - 1];
      var before := ClientRows(d, bs[..|bs| - 1], paired, today);
      if b.owner == d.user then before + DelegatedRows(d, b, paired, today) else before
  }

  /** Rows of the active delegations of an agent, or of all agents. */
  function AgentRows(ds: seq<Delegation>, bs: seq<Business>, agent: Option<string>, paired: bool, today: int): seq<Row>
    requires Modern(today)
  {
    if ds == [] then []
    else
      var d := ds[|ds| - 1];
      var before := AgentRows(ds[..|ds| - 1], bs, agent, paired, today);
      if d.active && (agent.None? || agent.value == d.agent) then before + ClientRows(d, bs, paired, today) else before
  }

  /** The three entry points. */
  datatype Call = ForUser(user: string) | ForAccountant(agent: string) | ForToday

  function RowsOf(w: World, call: Call, today: int): seq<Row>
    requires Modern(today)
  {
    match call
    case ForUser(user) => AllWorkflows(w.delegations, w.businesses, Some(user), today)
    case ForAccountant(agent) => AgentRows(w.delegations, w.businesses, Some(agent), true, today)
    case ForToday =>
      AllWorkflows(w.delegations, w.businesses, None, today) + AgentRows(w.delegations, w.businesses, None, false, today)
  }

  function RowsOfAll(w: World, calls: seq<Call>, today: int): seq<Row>
    requires Modern(today)
  {
    if calls == [] then [] else RowsOfAll(w, calls[..|calls| - 1], today) + RowsOf(w, calls[|calls| - 1], today)
  }
}
