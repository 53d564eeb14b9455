/** The task generator over its two tables. Businesses, delegations and the day are what it reads. */
module TaskGenerator {
  import opened Common
  import opened TaskPeriods
  import opened TaskRows

  // ---- Grouping businesses by owner ----

  function Owned(bs: seq<Business>, user: string): seq<Business> {
    if bs == [] then []
    else
      var b := bs[|bs| - 1];
      var before := Owned(bs[..|bs| - 1], user);
      if b.number != "" && b.owner == user then before + [b] else before
  }

  function GroupOf(byUser: map<string, seq<Business>>, user: string): seq<Business> {
    if user in byUser then byUser[user] else []
  }

  /** groupBusinessesByUser. */
  method GroupBusinessesByUser(bs: seq<Business>) returns (byUser: map<string, seq<Business>>)
    ensures forall user :: GroupOf(byUser, user) == Owned(bs, user)
  {
    byUser := map[];
    for i := 0 to |bs|
      invariant forall user :: GroupOf(byUser, user) == Owned(bs[..i], user)
    {
      var b := bs[i];
      assert bs[..i + 1][..i] == bs[..i] && bs[..i + 1][i] == b;
      if b.number != "" {
        byUser := byUser[b.owner := GroupOf(byUser, b.owner) + [b]];
      }
    }
    assert bs[..|bs|] == bs;
  }

  /** Businesses without a number, and those of others, add no rows for a delegation. */
  lemma {:induction false} OwnedRows(d: Delegation, bs: seq<Business>, paired: bool, today: int)
    requires Modern(today)
    ensures ClientRows(d, Owned(bs, d.user), paired, today) == ClientRows(d, bs, paired, today)
  {
    if bs != [] {
      var init, b := bs[..|bs| - 1], bs[|bs| - 1];
      OwnedRows(d, init, paired, today);
      assert init + [b] == bs;
      ClientRowsStep(d, init, b, paired, today);
      NoNumberNoRows(d, b, paired, today);
      ClientRowsStep(d, Owned(init, d.user), b, paired, today);
    }
  }

  lemma ClientRowsStep(d: Delegation, bs: seq<Business>, b: Business, paired: bool, today: int)
    requires Modern(today)
    ensures ClientRows(d, bs + [b], paired, today)
            == var before := ClientRows(d, bs, paired, today);
               if b.owner == d.user then before + DelegatedRows(d, b, paired, today) else before
  {
    assert (bs + [b])[..|bs|] == bs;
  }

  lemma AllWorkflowsStep(ds: seq<Delegation>, bs: seq<Business>, b: Business, user: Option<string>, today: int)
    requires Modern(today)
    ensures AllWorkflows(ds, bs + [b], user, today)
            == var before := AllWorkflows(ds, bs, user, today);
               if user.None? || user.value == b.owner then before + BusinessRows(ds, b, today) else before
  {
    assert (bs + [b])[..|bs|] == bs;
  }

  lemma AgentRowsStep(ds: seq<Delegation>, d: Delegation, bs: seq<Business>, agent: Option<string>, paired: bool,
                      today: int)
    requires Modern(today)
    ensures AgentRows(ds + [d], bs, agent, paired, today)
            == var before := AgentRows(ds, bs, agent, paired, today);
               if d.active && (agent.None? || agent.value == d.agent) then before + ClientRows(d, bs, paired, today)
               else before
  {
    assert (ds + [d])[..|ds|] == ds;
  }

  lemma DidBusiness(t: Tables, u: Tables, v: Tables, m: nat, n: nat, ds: seq<Delegation>, bs: seq<Business>, b: Business,
                    user: Option<string>, today: int)
    requires Modern(today) && (user.None? || user.value == b.owner)
    requires Did(t, u, m, AllWorkflows(ds, bs, user, today)) && Did(u, v, n, BusinessRows(ds, b, today))
    ensures Did(t, v, m + n, AllWorkflows(ds, bs + [b], user, today))
  {
    DidMore(t, u, v, m, n, AllWorkflows(ds, bs, user, today), BusinessRows(ds, b, today));
    AllWorkflowsStep(ds, bs, b, user, today);
  }

  lemma DidClient(t: Tables, u: Tables, v: Tables, m: nat, n: nat, d: Delegation, bs: seq<Business>, b: Business,
                  paired: bool, today: int)
    requires Modern(today) && b.owner == d.user
    requires Did(t, u, m, ClientRows(d, bs, paired, today)) && Did(u, v, n, DelegatedRows(d, b, paired, today))
    ensures Did(t, v, m + n, ClientRows(d, bs + [b], paired, today))
  {
    DidMore(t, u, v, m, n, ClientRows(d, bs, paired, today), DelegatedRows(d, b, paired, today));
    ClientRowsStep(d, bs, b, paired, today);
  }

  lemma DidDelegation(t: Tables, u: Tables, v: Tables, m: nat, n: nat, ds: seq<Delegation>, d: Delegation,
                      bs: seq<Business>, agent: Option<string>, paired: bool, today: int)
    requires Modern(today) && d.active && (agent.None? || agent.value == d.agent)
    requires Did(t, u, m, AgentRows(ds, bs, agent, paired, today)) && Did(u, v, n, ClientRows(d, bs, paired, today))
    ensures Did(t, v, m + n, AgentRows(ds + [d], bs, agent, paired, today))
  {
    DidMore(t, u, v, m, n, AgentRows(ds, bs, agent, paired, today), ClientRows(d, bs, paired, today));
    AgentRowsStep(ds, d, bs, agent, paired, today);
  }

  lemma WorkflowsStep(b: Business, kind: Kind, waiting: bool, ps: seq<Period>, p: Period)
    ensures Workflows(b, kind, waiting, ps + [p]) == Workflows(b, kind, waiting, ps) + [WorkflowFor(b, kind, waiting, p)]
  {
    assert (ps + [p])[..|ps|] == ps;
  }

  lemma TasksStep(d: Delegation, b: Business, kind: Kind, paired: bool, ps: seq<Period>, p: Period)
    ensures Tasks(d, b, kind, paired, ps + [p]) == Tasks(d, b, kind, paired, ps) + OneRow(d, b, kind, paired, p)
  {
    assert (ps + [p])[..|ps|] == ps;
  }

  lemma AnnualTasksStep(d: Delegation, b: Business, annual: seq<AnnualPeriod>, a: AnnualPeriod)
    ensures AnnualTasks(d, b, annual + [a]) == AnnualTasks(d, b, annual) + [AnnualTask(d, b, a)]
  {
    assert (annual + [a])[..|annual|] == annual;
  }

  ghost function OneRow(d: Delegation, b: Business, kind: Kind, paired: bool, p: Period): seq<Row> {
    if paired then [TaskFor(d, b, kind, p), PairedWorkflow(d, b, kind, p)] else [TaskFor(d, b, kind, p)]
  }

  lemma NoNumberNoRows(d: Delegation, b: Business, paired: bool, today: int)
    requires Modern(today)
    ensures b.number == "" ==> DelegatedRows(d, b, paired, today) == []
  {
  }

  class Generator {
    var workflows: map<Key, Workflow>
    var tasks: map<Key, Task>

    ghost function Contents(): Tables reads this { Tables(workflows, tasks) }

    constructor (workflows: map<Key, Workflow>, tasks: map<Key, Task>)
      ensures Contents() == Tables(workflows, tasks)
    {
      this.workflows, this.tasks := workflows, tasks;
    }

    /** A duplicate key is not an error: the insert is skipped. */
    method InsertTaskOrIgnore(key: Key, task: Task) returns (created: nat)
      modifies this`tasks
      ensures Did(old(Contents()), Contents(), created, [TaskRow(key, task)])
    {
      DidOne(Contents(), TaskRow(key, task));
      if key in tasks { return 0; }
      tasks := tasks[key := task];
      return 1;
    }

    method UpsertWorkflow(key: Key, workflow: Workflow) returns (created: nat)
      modifies this`workflows
      ensures Did(old(Contents()), Contents(), created, [WorkflowRow(key, workflow, true)])
      ensures Did(old(Contents()), Contents(), 0, [WorkflowRow(key, workflow, false)])
    {
      DidOne(Contents(), WorkflowRow(key, workflow, true));
      DidOne(Contents(), WorkflowRow(key, workflow, false));
      if key in workflows { return 0; }
      workflows := workflows[key := workflow];
      return 1;
    }

    /** resolveInitialStatus: whether the workflow waits for the client, asked once per client and run. */
    method ResolveInitialStatus(ds: seq<Delegation>, user: string, cache: map<string, bool>)
      returns (waiting: bool, updated: map<string, bool>)
      requires forall u :: u in cache ==> cache[u] == HasAccountant(ds, u)
      ensures waiting == HasAccountant(ds, user)
      ensures forall u :: u in updated ==> updated[u] == HasAccountant(ds, u)
    {
      if user in cache { return cache[user], cache; }
      waiting := HasAccountant(ds, user);
      updated := cache[user := waiting];
    }

    /** The periods one kind of report is due for. */
    method ListPeriods(b: Business, kind: Kind, today: int) returns (periods: seq<Period>)
      requires Modern(today)
      ensures periods == Periods(b, kind, today)
    {
      if b.number == "" || Required(b, kind).None? { return []; }
      LowerIsModern(b.createdAt, today);
      periods := EnumeratePeriods(Required(b, kind).value, LowerBound(b.createdAt, today), today);
    }

    /** The workflows of one kind of report. */
    method UpsertPeriods(b: Business, kind: Kind, waiting: bool, periods: seq<Period>) returns (created: nat)
      modifies this`workflows
      ensures Did(old(Contents()), Contents(), created, Workflows(b, kind, waiting, periods))
    {
      created := 0;
      for i := 0 to |periods|
        invariant Did(old(Contents()), Contents(), created, Workflows(b, kind, waiting, periods[..i]))
      {
        ghost var before := Contents();
        var p := periods[i];
        var outcome := UpsertWorkflow(KeyOf(b, kind, p), Workflow(b.owner, waiting));
        WorkflowsStep(b, kind, waiting, periods[..i], p);
        DidMore(old(Contents()), before, Contents(), created, outcome, Workflows(b, kind, waiting, periods[..i]),
                [WorkflowFor(b, kind, waiting, p)]);
        assert periods[..i] + [p] == periods[..i + 1];
        created := created + outcome;
      }
      assert periods[..|periods|] == periods;
    }

    /** processBusinessWorkflows. */
    method ProcessBusinessWorkflows(ds: seq<Delegation>, b: Business, today: int, cache: map<string, bool>)
      returns (created: nat, updated: map<string, bool>)
      requires Modern(today) && forall u :: u in cache ==> cache[u] == HasAccountant(ds, u)
      modifies this`workflows
      ensures forall u :: u in updated ==> updated[u] == HasAccountant(ds, u)
      ensures Did(old(Contents()), Contents(), created, BusinessRows(ds, b, today))
    {
      var waiting, known := ResolveInitialStatus(ds, b.owner, cache);
      var vatPeriods := ListPeriods(b, VatReport, today);
      var vat := UpsertPeriods(b, VatReport, waiting, vatPeriods);
      ghost var middle := Contents();
      var taxPeriods := ListPeriods(b, AdvanceTax, today);
      var tax := UpsertPeriods(b, AdvanceTax, waiting, taxPeriods);
      DidMore(old(Contents()), middle, Contents(), vat, tax,
              Workflows(b, VatReport, waiting, Periods(b, VatReport, today)),
              Workflows(b, AdvanceTax, waiting, Periods(b, AdvanceTax, today)));
      return vat + tax, known;
    }

    /** createPeriodicPair, or createPeriodicTaskOnly; only the task's outcome is tallied. */
    method CreateOne(d: Delegation, b: Business, kind: Kind, paired: bool, p: Period) returns (created: nat)
      modifies this
      ensures Did(old(Contents()), Contents(), created, OneRow(d, b, kind, paired, p))
    {
      created := InsertTaskOrIgnore(KeyOf(b, kind, p), Task(d.agent, d.user, p.due, p.visible));
      if paired {
        ghost var middle := Contents();
        var _ := UpsertWorkflow(KeyOf(b, kind, p), Workflow(d.user, true));
        DidMore(old(Contents()), middle, Contents(), created, 0, [TaskFor(d, b, kind, p)],
                [PairedWorkflow(d, b, kind, p)]);
        assert [TaskFor(d, b, kind, p)] + [PairedWorkflow(d, b, kind, p)] == OneRow(d, b, kind, paired, p);
      }
    }

    method CreatePeriodic(d: Delegation, b: Business, kind: Kind, paired: bool, periods: seq<Period>)
      returns (created: nat)
      modifies this
      ensures Did(old(Contents()), Contents(), created, Tasks(d, b, kind, paired, periods))
    {
      created := 0;
      for i := 0 to |periods|
        invariant Did(old(Contents()), Contents(), created, Tasks(d, b, kind, paired, periods[..i]))
      {
        ghost var before := Contents();
        var p := periods[i];
        var outcome := CreateOne(d, b, kind, paired, p);
        TasksStep(d, b, kind, paired, periods[..i], p);
        DidMore(old(Contents()), before, Contents(), created, outcome, Tasks(d, b, kind, paired, periods[..i]),
                OneRow(d, b, kind, paired, p));
        assert periods[..i] + [p] == periods[..i + 1];
        created := created + outcome;
      }
      assert periods[..|periods|] == periods;
    }

    method CreateAnnual(d: Delegation, b: Business, today: int) returns (created: nat)
      modifies this`tasks
      ensures Did(old(Contents()), Contents(), created, AnnualTasks(d, b, AnnualPeriods(b, today)))
    {
      created := 0;
      if b.number == "" { return; }
      var annual := EnumerateAnnual(LowerBound(b.createdAt, today), today);
      for i := 0 to |annual|
        invariant Did(old(Contents()), Contents(), created, AnnualTasks(d, b, annual[..i]))
      {
        ghost var before := Contents();
        var a := annual[i];
        var outcome := InsertTaskOrIgnore(Key(b.number, AnnualReport, a.start, a.end),
                                          Task(d.agent, d.user, a.due, a.visible));
        AnnualTasksStep(d, b, annual[..i], a);
        DidMore(old(Contents()), before, Contents(), created, outcome, AnnualTasks(d, b, annual[..i]),
                [AnnualTask(d, b, a)]);
        assert annual[..i] + [a] == annual[..i + 1];
        created := created + outcome;
      }
      assert annual[..|annual|] == annual;
    }

    /** processBusinessForDelegation, or its tasks-only variant. */
    method ProcessBusinessForDelegation(d: Delegation, b: Business, paired: bool, today: int) returns (created: nat)
      requires Modern(today)
      modifies this
      ensures Did(old(Contents()), Contents(), created, DelegatedRows(d, b, paired, today))
    {
      var vatPeriods := ListPeriods(b, VatReport, today);
      var vat := CreatePeriodic(d, b, VatReport, paired, vatPeriods);
      ghost var first := Contents();
      var taxPeriods := ListPeriods(b, AdvanceTax, today);
      var tax := CreatePeriodic(d, b, AdvanceTax, paired, taxPeriods);
      ghost var second := Contents();
      var annual := CreateAnnual(d, b, today);
      ghost var v, x := Tasks(d, b, VatReport, paired, Periods(b, VatReport, today)),
        Tasks(d, b, AdvanceTax, paired, Periods(b, AdvanceTax, today));
      DidMore(old(Contents()), first, second, vat, tax, v, x);
      DidMore(old(Contents()), second, Contents(), vat + tax, annual, v + x, AnnualTasks(d, b, AnnualPeriods(b, today)));
      return vat + tax + annual;
    }

    /** The workflow phase over the businesses of one user, or over all of them. */
    method ProcessAllWorkflows(w: World, user: Option<string>, today: int) returns (created: nat)
      requires Modern(today)
      modifies this`workflows
      ensures Did(old(Contents()), Contents(), created, AllWorkflows(w.delegations, w.businesses, user, today))
    {
      created := 0;
      var cache: map<string, bool> := map[];
      var ds, bs := w.delegations, w.businesses;
      for i := 0 to |bs|
        invariant forall u :: u in cache ==> cache[u] == HasAccountant(ds, u)
        invariant Did(old(Contents()), Contents(), created, AllWorkflows(ds, bs[..i], user, today))
      {
        ghost var before := Contents();
        var b := bs[i];
        assert bs[..i] + [b] == bs[..i + 1];
        if user.None? || user.value == b.owner {
          var more;
          more, cache := ProcessBusinessWorkflows(ds, b, today, cache);
          DidBusiness(old(Contents()), before, Contents(), created, more, ds, bs[..i], b, user, today);
          created := created + more;
        } else {
          AllWorkflowsStep(ds, bs[..i], b, user, today);
        }
      }
      assert bs[..|bs|] == bs;
    }

    method ProcessClient(d: Delegation, bs: seq<Business>, paired: bool, today: int) returns (created: nat)
      requires Modern(today) && forall i :: 0 <= i < |bs| ==> bs[i].owner == d.user
      modifies this
      ensures Did(old(Contents()), Contents(), created, ClientRows(d, bs, paired, today))
    {
      created := 0;
      for i := 0 to |bs|
        invariant Did(old(Contents()), Contents(), created, ClientRows(d, bs[..i], paired, today))
      {
        ghost var before := Contents();
        var b := bs[i];
        var more := ProcessBusinessForDelegation(d, b, paired, today);
        assert bs[..i] + [b] == bs[..i + 1];
        DidClient(old(Contents()), before, Contents(), created, more, d, bs[..i], b, paired, today);
        created := created + more;
      }
      assert bs[..|bs|] == bs;
    }

    /** The delegation phase for one accountant, or for all of them. */
    method ProcessDelegations(w: World, agent: Option<string>, paired: bool, today: int) returns (created: nat)
      requires Modern(today)
      modifies this
      ensures Did(old(Contents()), Contents(), created, AgentRows(w.delegations, w.businesses, agent, paired, today))
    {
      created := 0;
      var ds, bs := w.delegations, w.businesses;
      var byUser := GroupBusinessesByUser(bs);
      for i := 0 to |ds|
        invariant Did(old(Contents()), Contents(), created, AgentRows(ds[..i], bs, agent, paired, today))
      {
        ghost var before := Contents();
        var d := ds[i];
        assert ds[..i] + [d] == ds[..i + 1];
        if d.active && (agent.None? || agent.value == d.agent) {
          OwnedRows(d, bs, paired, today);
          OwnedIsOwned(bs, d.user);
          var more := ProcessClient(d, GroupOf(byUser, d.user), paired, today);
          DidDelegation(old(Contents()), before, Contents(), created, more, ds[..i], d, bs, agent, paired, today);
          created := created + more;
        } else {
          AgentRowsStep(ds[..i], d, bs, agent, paired, today);
        }
      }
      assert ds[..|ds|] == ds;
    }

    /** generateForUser, generateForAccountant and generateForToday. */
    method Generate(w: World, call: Call, today: int) returns (created: nat)
      requires Modern(today)
      modifies this
      ensures Did(old(Contents()), Contents(), created, RowsOf(w, call, today))
    {
      match call
      case ForUser(user) => created := ProcessAllWorkflows(w, Some(user), today);
      case ForAccountant(agent) => created := ProcessDelegations(w, Some(agent), true, today);
      case ForToday =>
        var first := ProcessAllWorkflows(w, None, today);
        ghost var middle := Contents();
        var second := ProcessDelegations(w, None, false, today);
        DidMore(old(Contents()), middle, Contents(), first, second,
                AllWorkflows(w.delegations, w.businesses, None, today),
                AgentRows(w.delegations, w.businesses, None, false, today));
        return first + second;
    }
  }

  lemma {:induction false} OwnedIsOwned(bs: seq<Business>, user: string)
    ensures forall i :: 0 <= i < |Owned(bs, user)| ==> Owned(bs, user)[i].owner == user
  {
    if bs != [] { OwnedIsOwned(bs[..|bs| - 1], user); }
  }
}
