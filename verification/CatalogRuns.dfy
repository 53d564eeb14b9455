/** What repointing and law changes guarantee, one by one and over whole runs. */
module CatalogRuns {
  import opened Common
  import opened Charts
  import opened Text
  import opened Precedence
  import opened AccountCodes
  import opened CatalogSpec

  // ---- Rows stay well formed ----

  /** The parts of RowsOk that resolving a law needs. */
  ghost predicate CardsOk(t: Tables) {
    && (forall i :: 0 <= i < |t.accounts| ==> t.accounts[i].id == i + 1)
    && (forall i :: 0 <= i < |t.subs| && t.subs[i].accountId.Some? ==> 1 <= t.subs[i].accountId.value <= |t.accounts|)
  }

  lemma CategoryEnsured(t: Tables, chart: string, name: string, kind: Kind)
    requires IdsOk(t) && EnsureCategory(t, chart, name, kind).Ok?
    ensures var (u, id) := EnsureCategory(t, chart, name, kind).value;
            && t.categories <= u.categories && u.(categories := t.categories) == t
            && 1 <= id <= |u.categories|
            && u.categories[id - 1] == Category(id, Trim(name), kind, chart, true)
            && |u.categories| <= |t.categories| + 1 && (|u.categories| > |t.categories| ==> id == |u.categories|)
  {
  }

  lemma EnsureKeepsRows(t: Tables, chart: string, name: string, kind: Kind)
    requires RowsOk(t) && EnsureCategory(t, chart, name, kind).Ok?
    ensures RowsOk(EnsureCategory(t, chart, name, kind).value.0)
  {
    TrimTrims(name);
    var u := EnsureCategory(t, chart, name, kind).value.0;
    if u != t {
      assert Clean(u.categories[|t.categories|].name);
      NoCategoryFound(t.categories, chart, Trim(name), kind, false);
    }
  }

  /** One more row, with a key of its own and valid links. */
  lemma MoreSubKeepsRows(t: Tables, s: SubCategory)
    requires RowsOk(t) && s.id == |t.subs| + 1 && Clean(s.name) && 1 <= s.categoryId <= |t.categories|
    requires s.accountId.Some? ==> 1 <= s.accountId.value <= |t.accounts|
    requires forall i :: 0 <= i < |t.subs| ==> !IsSub(t.subs[i], s.chart, s.categoryId, s.name)
    ensures RowsOk(t.(subs := t.subs + [s]))
  {
    var u := t.(subs := t.subs + [s]);
    assert forall i :: 0 <= i < |t.subs| ==> u.subs[i] == t.subs[i];
    MoreSubKeepsUnique(t, s);
  }

  lemma MoreSubKeepsUnique(t: Tables, s: SubCategory)
    requires UniqueOk(t) && forall i :: 0 <= i < |t.subs| ==> !IsSub(t.subs[i], s.chart, s.categoryId, s.name)
    ensures UniqueOk(t.(subs := t.subs + [s]))
  {
  }

  lemma InsertKeepsRows(t: Tables, scope: Scope, categoryId: nat, name: string, systemKey: Option<string>,
                        isPrivate: bool, accountId: Option<nat>, approval: Approval)
    requires RowsOk(t) && Trim(name) != "" && 1 <= categoryId <= |t.categories|
    requires InsertSub(t, scope, categoryId, name, systemKey, isPrivate, accountId, approval).Ok?
    ensures RowsOk(InsertSub(t, scope, categoryId, name, systemKey, isPrivate, accountId, approval).value.0)
  {
    TrimTrims(name);
    NoSubFound(t.subs, scope.chart, categoryId, Trim(name), false);
    MoreSubKeepsRows(t, SubCategory(|t.subs| + 1, categoryId, Trim(name), isPrivate,
                                    if isPrivate then None else accountId, scope.chart, approval, systemKey, true));
  }

  lemma PointKeepsRows(t: Tables, i: nat, accountId: Option<nat>, approval: Approval)
    requires RowsOk(t) && i < |t.subs| && (accountId.Some? ==> 1 <= accountId.value <= |t.accounts|)
    ensures RowsOk(PointAt(t, i, accountId, approval))
  {
  }

  /** A card is created only when its chart has no active card with the law, under a fresh code and never without
      a section; no card ever changes; the card returned carries exactly the law. */
  lemma VariantCarriesLaw(t: Tables, scope: Scope, law: Law, base: Option<nat>, categoryName: string)
    requires CardsOk(t) && VariantAccount(t, scope, law, base, categoryName).Ok?
    ensures var (u, id) := VariantAccount(t, scope, law, base, categoryName).value;
            && CardsOk(u) && t.accounts <= u.accounts && u.(accounts := t.accounts) == t
            && (id.Some? ==> 1 <= id.value <= |u.accounts| && u.accounts[id.value - 1].law == Some(law)
                             && u.accounts[id.value - 1].chart == scope.chart && u.accounts[id.value - 1].active)
            && (u != t <==> id == Some(|t.accounts| + 1))
            && (u != t ==> |u.accounts| == |t.accounts| + 1 && u.accounts[|t.accounts|].sectionId.Some?
                           && (forall i :: 0 <= i < |t.accounts| ==>
                                 !(t.accounts[i].chart == scope.chart && t.accounts[i].active
                                   && t.accounts[i].law == Some(law)))
                           && (forall a :: a in t.accounts && a.chart == scope.chart ==>
                                 a.code != u.accounts[|t.accounts|].code))
            && (id.None? ==> forall i :: 0 <= i < |t.accounts| ==>
                !(t.accounts[i].chart == scope.chart && t.accounts[i].active && t.accounts[i].law == Some(law)))
  {
    var (u, id) := VariantAccount(t, scope, law, base, categoryName).value;
    NoCardFound(t.accounts, scope.chart, law);
    FreshCardCode(t, scope);
    if u != t {
      assert |u.accounts| == |t.accounts| + 1;
    }
  }

  lemma FreshCardCode(t: Tables, scope: Scope)
    ensures var code := NextCode(CodesOf(t.accounts, scope.chart), scope.owner, Expense);
            code.Some? ==> forall a :: a in t.accounts && a.chart == scope.chart ==> a.code != code.value
  {
    NextCodeIsFresh(CodesOf(t.accounts, scope.chart), scope.owner, Expense);
    CodesOfIs(t.accounts, scope.chart);
  }

  lemma AccountsKeepRows(t: Tables, u: Tables)
    requires RowsOk(t) && CardsOk(u) && t.accounts <= u.accounts && u.(accounts := t.accounts) == t
    ensures RowsOk(u)
  {
  }

  lemma {:induction false} CodesOfIs(accounts: seq<Account>, chart: string)
    ensures forall a :: a in accounts && a.chart == chart ==> a.code in CodesOf(accounts, chart)
  {
    if accounts != [] {
      CodesOfIs(accounts[..|accounts| - 1], chart);
      assert accounts == accounts[..|accounts| - 1] + [accounts[|accounts| - 1]];
    }
  }

  // ---- Repointing ----

  lemma {:induction false} CategoryRowsAre(categories: seq<Category>, name: string, keys: seq<string>)
    ensures forall r :: r in CategoryRows(categories, name, keys) <==>
              exists c ::
                c in categories && c.active && c.chart in keys && c.name == name && r == Row(c.chart, c.name, c.id)
  {
    if categories != [] {
      CategoryRowsAre(categories[..|categories| - 1], name, keys);
      assert categories == categories[..|categories| - 1] + [categories[|categories| - 1]];
    }
  }

  lemma {:induction false} SubRowsAre(subs: seq<SubCategory>, categoryId: nat, name: string, keys: seq<string>)
    ensures forall r :: r in SubRows(subs, categoryId, name, keys) <==>
              exists s ::
                s in subs && s.active && s.chart in keys && s.categoryId == categoryId && s.name == name
                && r == Row(s.chart, s.name, s.id)
  {
    if subs != [] {
      SubRowsAre(subs[..|subs| - 1], categoryId, name, keys);
      assert subs == subs[..|subs| - 1] + [subs[|subs| - 1]];
    }
  }

  lemma ClientFirst(ctx: Context)
    requires ctx.business.Some?
    ensures ChartOwnerKeys(ctx) != [] && ChartOwnerKeys(ctx)[0] == ClientChart(ctx.business.value)
    ensures ClientChart(ctx.business.value) in ChartOwnerKeys(ctx)
  {
    DistinctIsDistinct([ClientChart(ctx.business.value)] + AccountantCharts(ctx.accountantIds)
                       + (if ctx.accountantId.Some? then [AccountantChart(ctx.accountantId.value)] else []) + [SYSTEM]);
  }

  lemma PickClientCategory(categories: seq<Category>, c: Category, ctx: Context)
    requires ctx.business.Some? && c in categories && c.active && c.chart == ClientChart(ctx.business.value)
    requires forall d :: d in categories && d.active && d.chart == c.chart && d.name == c.name ==> d.id == c.id
    ensures Pick(CategoryRows(categories, c.name, ChartOwnerKeys(ctx)), ChartOwnerKeys(ctx)) ==
            Some(Row(c.chart, c.name, c.id))
  {
    var keys := ChartOwnerKeys(ctx);
    var rows := CategoryRows(categories, c.name, keys);
    ClientFirst(ctx);
    CategoryRowsAre(categories, c.name, keys);
    FirstOfIs(rows, c.chart);
    assert Row(c.chart, c.name, c.id) in rows;
    var first := FirstOf(rows, c.chart).value;
    assert first in rows && first.chart == c.chart;
  }

  lemma PickClientSub(subs: seq<SubCategory>, s: SubCategory, ctx: Context)
    requires ctx.business.Some? && s in subs && s.active && s.chart == ClientChart(ctx.business.value)
    requires forall d ::
               d in subs && d.active && d.chart == s.chart && d.categoryId == s.categoryId && d.name == s.name ==>
                 d.id == s.id
    ensures Pick(SubRows(subs, s.categoryId, s.name, ChartOwnerKeys(ctx)), ChartOwnerKeys(ctx)) ==
            Some(Row(s.chart, s.name, s.id))
  {
    var keys := ChartOwnerKeys(ctx);
    var rows := SubRows(subs, s.categoryId, s.name, keys);
    ClientFirst(ctx);
    SubRowsAre(subs, s.categoryId, s.name, keys);
    FirstOfIs(rows, s.chart);
    assert Row(s.chart, s.name, s.id) in rows;
    var first := FirstOf(rows, s.chart).value;
    assert first in rows && first.chart == s.chart;
  }

  /** Only rows of one chart are added, and of the rows there are only this chart's sub-categories change,
      in nothing but pointer and status. */
  ghost predicate SubsOnly(t: Tables, u: Tables, chart: string) {
    && |t.subs| <= |u.subs|
    && (forall i :: 0 <= i < |t.subs| ==>
          && (t.subs[i].chart != chart ==> u.subs[i] == t.subs[i])
          && u.subs[i].(accountId := t.subs[i].accountId, approval := t.subs[i].approval) == t.subs[i])
    && (forall i :: |t.subs| <= i < |u.subs| ==> u.subs[i].chart == chart)
  }

  ghost predicate OnlyChart(t: Tables, u: Tables, chart: string) {
    && t.categories <= u.categories && u.accounts == t.accounts && u.sections == t.sections
    && (forall i :: |t.categories| <= i < |u.categories| ==> u.categories[i].chart == chart)
    && SubsOnly(t, u, chart)
  }

  ghost predicate NewOnesOfKind(t: Tables, u: Tables, kind: Kind) {
    t.categories <= u.categories && forall i :: |t.categories| <= i < |u.categories| ==> u.categories[i].kind == kind
  }

  ghost predicate Stays(t: Tables, result: (Tables, Result<nat, Error>), chart: string, kind: Kind) {
    OnlyChart(t, result.0, chart) && NewOnesOfKind(t, result.0, kind)
  }

  ghost predicate Foreign(t: Tables, subId: nat, ctx: Context) {
    1 <= subId <= |t.subs| && ctx.business.Some? && t.subs[subId - 1].chart != ClientChart(ctx.business.value)
  }

  /** The active client row that a successful repoint leaves, in the client's category of the same name and kind. */
  ghost predicate IsOverride(u: Tables, id: nat, name: string, parent: Category, chart: string, accountId: nat) {
    && 1 <= id <= |u.subs|
    && var over := u.subs[id - 1];
       && over.id == id && over.active && over.name == name && over.chart == chart
       && over.accountId == Some(accountId) && over.approval == Approved
       && 1 <= over.categoryId <= |u.categories|
       && u.categories[over.categoryId - 1] == Category(over.categoryId, parent.name, parent.kind, chart, true)
  }

  lemma OverrideKeepsRows(t: Tables, scope: Scope, categoryId: nat, name: string, accountId: nat)
    requires RowsOk(t) && 1 <= accountId <= |t.accounts|
    ensures RowsOk(Override(t, scope, categoryId, name, accountId).0)
  {
    var existing := FindSub(t.subs, scope.chart, categoryId, name, true);
    if existing.Some? {
      PointKeepsRows(t, existing.value, Some(accountId), Approved);
    } else {
      CreateSubKeepsRows(t, scope, categoryId, name, NewSub(None, false, None, Some(accountId)));
    }
  }

  /** The override step touches sub-categories of its chart only. */
  lemma OverrideFrame(t: Tables, chart: string, categoryId: nat, name: string, accountId: nat)
    ensures var (u, r) := Override(t, Scope(Client, chart), categoryId, name, accountId);
            u.(subs := t.subs) == t && SubsOnly(t, u, chart)
  {
  }

  /** It leaves the row it names pointing at the card. */
  lemma OverrideRow(t: Tables, chart: string, categoryId: nat, name: string, accountId: nat)
    requires IdsOk(t) && Clean(name) && Override(t, Scope(Client, chart), categoryId, name, accountId).1.Ok?
    ensures var (u, r) := Override(t, Scope(Client, chart), categoryId, name, accountId);
            && 1 <= r.value <= |u.subs|
            && var over := u.subs[r.value - 1];
               over.id == r.value && over.active && over.name == name && over.chart == chart
               && over.categoryId == categoryId
               && over.accountId == Some(accountId)
  {
  }

  lemma OverrideInClientKeepsRows(t: Tables, chart: string, parent: Category, name: string, accountId: nat)
    requires RowsOk(t) && 1 <= accountId <= |t.accounts|
    ensures RowsOk(OverrideInClient(t, chart, parent, name, accountId).0)
  {
    if EnsureCategory(t, chart, parent.name, parent.kind).Ok? {
      EnsureKeepsRows(t, chart, parent.name, parent.kind);
      CategoryEnsured(t, chart, parent.name, parent.kind);
      var (v, categoryId) := EnsureCategory(t, chart, parent.name, parent.kind).value;
      OverrideKeepsRows(v, Scope(Client, chart), categoryId, name, accountId);
    }
  }

  /** Either nothing happens, or the foreign row is overridden in the client's chart, or the row is the client's own. */
  ghost predicate RepointCase(t: Tables, subId: nat, accountId: nat, ctx: Context,
                              result: (Tables, Result<nat, Error>)) {
    || (result.0 == t && result.1.Err?)
    || (1 <= subId <= |t.subs| && 1 <= t.subs[subId - 1].categoryId <= |t.categories| && 1 <= accountId <= |t.accounts|
        && if Foreign(t, subId, ctx) then
             result == OverrideInClient(t, ClientChart(ctx.business.value),
                                        t.categories[t.subs[subId - 1].categoryId - 1], t.subs[subId - 1].name,
                                          accountId)
           else result == (PointAt(t, subId - 1, Some(accountId), Approved), Ok(subId)))
  }

  lemma RepointCases(t: Tables, subId: nat, accountId: nat, ctx: Context)
    requires LinksOk(t)
    ensures RepointCase(t, subId, accountId, ctx, Repoint(t, subId, accountId, ctx))
    ensures Repoint(t, subId, accountId, ctx).1.Ok? ==> AccountInScope(t, accountId, ctx)
  {
  }

  lemma RepointKeepsRows(t: Tables, subId: nat, accountId: nat, ctx: Context)
    requires RowsOk(t)
    ensures RowsOk(Repoint(t, subId, accountId, ctx).0)
  {
    RepointCases(t, subId, accountId, ctx);
    CaseKeepsRows(t, subId, accountId, ctx, Repoint(t, subId, accountId, ctx));
  }

  lemma CaseKeepsRows(t: Tables, subId: nat, accountId: nat, ctx: Context, result: (Tables, Result<nat, Error>))
    requires RowsOk(t) && RepointCase(t, subId, accountId, ctx, result)
    ensures RowsOk(result.0)
  {
    if result.0 == t && result.1.Err? {
      SameRows(result.0, t);
    } else if Foreign(t, subId, ctx) {
      var sub := t.subs[subId - 1];
      ForeignKeepsRows(t, ClientChart(ctx.business.value), t.categories[sub.categoryId - 1], sub.name, accountId,
                       result);
    } else {
      PointedKeepsRows(t, subId, accountId, result);
    }
  }

  lemma PointedKeepsRows(t: Tables, subId: nat, accountId: nat, result: (Tables, Result<nat, Error>))
    requires RowsOk(t) && 1 <= subId <= |t.subs| && 1 <= accountId <= |t.accounts|
    requires result == (PointAt(t, subId - 1, Some(accountId), Approved), Ok(subId))
    ensures RowsOk(result.0)
  {
    PointKeepsRows(t, subId - 1, Some(accountId), Approved);
    SameRows(result.0, PointAt(t, subId - 1, Some(accountId), Approved));
  }

  lemma ForeignKeepsRows(t: Tables, chart: string, parent: Category, name: string, accountId: nat,
                         result: (Tables, Result<nat, Error>))
    requires RowsOk(t) && 1 <= accountId <= |t.accounts|
    requires result == OverrideInClient(t, chart, parent, name, accountId)
    ensures RowsOk(result.0)
  {
    OverrideInClientKeepsRows(t, chart, parent, name, accountId);
    SameRows(result.0, OverrideInClient(t, chart, parent, name, accountId).0);
  }

  lemma SameRows(t: Tables, u: Tables)
    requires t == u && RowsOk(u)
    ensures RowsOk(t)
  {
  }

  lemma EnsureKeepsIds(t: Tables, chart: string, name: string, kind: Kind)
    requires IdsOk(t) && EnsureCategory(t, chart, name, kind).Ok?
    ensures IdsOk(EnsureCategory(t, chart, name, kind).value.0)
  {
  }

  lemma OverrideInClientStays(t: Tables, chart: string, parent: Category, name: string, accountId: nat)
    requires IdsOk(t)
    ensures Stays(t, OverrideInClient(t, chart, parent, name, accountId), chart, parent.kind)
  {
    if EnsureCategory(t, chart, parent.name, parent.kind).Ok? {
      CategoryEnsured(t, chart, parent.name, parent.kind);
      var (v, categoryId) := EnsureCategory(t, chart, parent.name, parent.kind).value;
      OverrideFrame(v, chart, categoryId, name, accountId);
      OverrideComposes(t, v, OverrideInClient(t, chart, parent, name, accountId).0, chart, categoryId, parent.kind);
    }
  }

  /** Repointing a sub-category of another chart: whatever happens, no row outside the client's chart changes. */
  lemma RepointStaysInChart(t: Tables, subId: nat, accountId: nat, ctx: Context)
    requires IdsOk(t) && LinksOk(t) && Foreign(t, subId, ctx)
    ensures Stays(t, Repoint(t, subId, accountId, ctx), ClientChart(ctx.business.value),
                  t.categories[t.subs[subId - 1].categoryId - 1].kind)
  {
    RepointCases(t, subId, accountId, ctx);
    CaseStays(t, subId, accountId, ctx, Repoint(t, subId, accountId, ctx));
  }

  lemma CaseStays(t: Tables, subId: nat, accountId: nat, ctx: Context, result: (Tables, Result<nat, Error>))
    requires IdsOk(t) && LinksOk(t) && Foreign(t, subId, ctx) && RepointCase(t, subId, accountId, ctx, result)
    ensures Stays(t, result, ClientChart(ctx.business.value), t.categories[t.subs[subId - 1].categoryId - 1].kind)
  {
    var sub := t.subs[subId - 1];
    var parent := t.categories[sub.categoryId - 1];
    var chart := ClientChart(ctx.business.value);
    if result.0 == t && result.1.Err? {
      NothingStays(t, chart, parent.kind, result);
    } else {
      ForeignStays(t, chart, parent, sub.name, accountId, result);
    }
  }

  lemma NothingStays(t: Tables, chart: string, kind: Kind, result: (Tables, Result<nat, Error>))
    requires result.0 == t
    ensures Stays(t, result, chart, kind)
  {
  }

  lemma ForeignStays(t: Tables, chart: string, parent: Category, name: string, accountId: nat,
                     result: (Tables, Result<nat, Error>))
    requires IdsOk(t) && result == OverrideInClient(t, chart, parent, name, accountId)
    ensures Stays(t, result, chart, parent.kind)
  {
    OverrideInClientStays(t, chart, parent, name, accountId);
    EitherStays(t, result, OverrideInClient(t, chart, parent, name, accountId), chart, parent.kind);
  }

  lemma EitherStays(t: Tables, result: (Tables, Result<nat, Error>), other: (Tables, Result<nat, Error>),
                    chart: string, kind: Kind)
    requires Stays(t, other, chart, kind) && (result.0 == t || result == other)
    ensures Stays(t, result, chart, kind)
  {
  }

  // ---- Other businesses ----

  /** A client chart among the charts of a context is the context's own. */
  lemma OnlyOwnClientChart(ctx: Context, business: string)
    requires ctx.business != Some(business)
    ensures ClientChart(business) !in ChartOwnerKeys(ctx)
  {
    var charts := (if ctx.business.Some? then [ClientChart(ctx.business.value)] else [])
      + AccountantCharts(ctx.accountantIds)
                  + (if ctx.accountantId.Some? then [AccountantChart(ctx.accountantId.value)] else []) + [SYSTEM];
    DistinctIsDistinct(charts);
    forall id: string ensures ClientChart(business) != AccountantChart(id) { ChartsDiffer(business, id); }
    ChartsDiffer(business, if ctx.business.Some? then ctx.business.value else "");
  }

  lemma {:induction false} CategoryRowsIgnore(categories: seq<Category>, more: seq<Category>, name: string,
                                              keys: seq<string>)
    requires forall i :: 0 <= i < |more| ==> more[i].chart !in keys
    ensures CategoryRows(categories + more, name, keys) == CategoryRows(categories, name, keys)
    decreases |more|
  {
    if more == [] {
      assert categories + more == categories;
    } else {
      assert (categories + more)[..|categories + more| - 1] == categories + more[..|more| - 1];
      CategoryRowsIgnore(categories, more[..|more| - 1], name, keys);
    }
  }

  lemma {:induction false} SubRowsIgnore(subs: seq<SubCategory>, more: seq<SubCategory>, categoryId: nat, name: string,
                                         keys: seq<string>)
    requires forall i :: 0 <= i < |more| ==> more[i].chart !in keys
    ensures SubRows(subs + more, categoryId, name, keys) == SubRows(subs, categoryId, name, keys)
    decreases |more|
  {
    if more == [] {
      assert subs + more == subs;
    } else {
      assert (subs + more)[..|subs + more| - 1] == subs + more[..|more| - 1];
      SubRowsIgnore(subs, more[..|more| - 1], categoryId, name, keys);
    }
  }

  /** Changing pointer and status of a row changes nothing that lookups by name see. */
  lemma {:induction false} SubRowsSame(a: seq<SubCategory>, b: seq<SubCategory>, categoryId: nat, name: string,
                                       keys: seq<string>)
    requires |a| == |b|
    requires forall i :: 0 <= i < |a| ==> b[i].(accountId := a[i].accountId, approval := a[i].approval) == a[i]
    ensures SubRows(a, categoryId, name, keys) == SubRows(b, categoryId, name, keys)
  {
    if a != [] { SubRowsSame(a[..|a| - 1], b[..|b| - 1], categoryId, name, keys); }
  }

  lemma StaysResolvesAlike(t: Tables, u: Tables, chart: string, category: string, sub: string, other: Context)
    requires OnlyChart(t, u, chart) && chart !in ChartOwnerKeys(other)
    ensures ResolveByName(u, category, sub, other) == ResolveByName(t, category, sub, other)
  {
    var keys := ChartOwnerKeys(other);
    var more := u.categories[|t.categories|..];
    assert u.categories == t.categories + more;
    CategoryRowsIgnore(t.categories, more, Trim(category), keys);
    var c := Pick(CategoryRows(t.categories, Trim(category), keys), keys);
    if c.Some? {
      var before, added := u.subs[..|t.subs|], u.subs[|t.subs|..];
      assert u.subs == before + added;
      SubRowsIgnore(before, added, c.value.id, Trim(sub), keys);
      SubRowsSame(t.subs, before, c.value.id, Trim(sub), keys);
    }
  }

  /** Every pair of names that another business resolves, it resolves to the same row with the same card after a
      repoint, whatever became of that. */
  lemma RepointInvisibleToOthers(t: Tables, subId: nat, accountId: nat, ctx: Context, category: string, sub: string,
                                 other: Context)
    requires IdsOk(t) && LinksOk(t) && Foreign(t, subId, ctx) && other.business != ctx.business
    ensures var u := Repoint(t, subId, accountId, ctx).0;
            var row := ResolveByName(t, category, sub, other);
            && ResolveByName(u, category, sub, other) == row && u.accounts == t.accounts
            && (row.Some? ==> 1 <= row.value <= |t.subs| <= |u.subs| && u.subs[row.value - 1] == t.subs[row.value - 1])
  {
    var u := Repoint(t, subId, accountId, ctx).0;
    var chart := ClientChart(ctx.business.value);
    RepointStaysInChart(t, subId, accountId, ctx);
    OnlyOwnClientChart(other, ctx.business.value);
    StaysResolvesAlike(t, u, chart, category, sub, other);
    if ResolveByName(t, category, sub, other).Some? {
      ResolvedRowIs(t, category, sub, other);
    }
  }

  /** What a pair of names resolves to is a row of one of the context's charts. */
  lemma ResolvedRowIs(t: Tables, category: string, sub: string, ctx: Context)
    requires IdsOk(t) && ResolveByName(t, category, sub, ctx).Some?
    ensures var id := ResolveByName(t, category, sub, ctx).value;
            1 <= id <= |t.subs| && t.subs[id - 1].chart in ChartOwnerKeys(ctx)
  {
    var keys := ChartOwnerKeys(ctx);
    var c := Pick(CategoryRows(t.categories, Trim(category), keys), keys).value;
    var rows := SubRows(t.subs, c.id, Trim(sub), keys);
    SubRowsAre(t.subs, c.id, Trim(sub), keys);
    PickedIsThere(rows, keys);
    var picked := Pick(rows, keys).value;
    var s :| s in t.subs && s.chart in keys && picked == Row(s.chart, s.name, s.id);
    var i :| 0 <= i < |t.subs| && t.subs[i] == s;
  }

  lemma {:induction false} PickedIsThere(rows: seq<Row>, keys: seq<string>)
    ensures Pick(rows, keys).Some? ==> Pick(rows, keys).value in rows
  {
    if keys != [] {
      FirstOfIs(rows, keys[0]);
      PickedIsThere(rows, keys[1..]);
    }
  }

  lemma OverrideInClientWrites(t: Tables, chart: string, parent: Category, name: string, accountId: nat)
    requires IdsOk(t) && Clean(name) && Clean(parent.name) && OverrideInClient(t, chart, parent, name, accountId).1.Ok?
    ensures var (u, r) := OverrideInClient(t, chart, parent, name, accountId);
            IsOverride(u, r.value, name, parent, chart, accountId)
  {
    CategoryEnsured(t, chart, parent.name, parent.kind);
    EnsureKeepsIds(t, chart, parent.name, parent.kind);
    var (v, categoryId) := EnsureCategory(t, chart, parent.name, parent.kind).value;
    OverrideFrame(v, chart, categoryId, name, accountId);
    OverrideRow(v, chart, categoryId, name, accountId);
  }

  lemma ForeignRepoint(t: Tables, subId: nat, accountId: nat, ctx: Context)
    requires LinksOk(t) && Foreign(t, subId, ctx) && Repoint(t, subId, accountId, ctx).1.Ok?
    ensures AccountInScope(t, accountId, ctx)
    ensures var sub := t.subs[subId - 1];
            Repoint(t, subId, accountId, ctx) ==
            OverrideInClient(t, ClientChart(ctx.business.value), t.categories[sub.categoryId - 1], sub.name, accountId)
  {
    RepointCases(t, subId, accountId, ctx);
  }

  ghost predicate LeavesOverride(t: Tables, sub: SubCategory, chart: string, accountId: nat,
                                 result: (Tables, Result<nat, Error>)) {
    && 1 <= sub.categoryId <= |t.categories| && result.1.Ok?
    && IsOverride(result.0, result.1.value, sub.name, t.categories[sub.categoryId - 1], chart, accountId)
  }

  /** On success the row returned is the client's active override, pointing at the card, which is an active
      one in scope. */
  lemma RepointWritesOverride(t: Tables, subId: nat, accountId: nat, ctx: Context)
    requires IdsOk(t) && LinksOk(t) && NamesOk(t) && Foreign(t, subId, ctx) && Repoint(t, subId, accountId, ctx).1.Ok?
    ensures AccountInScope(t, accountId, ctx)
    ensures LeavesOverride(t, t.subs[subId - 1], ClientChart(ctx.business.value), accountId,
                           Repoint(t, subId, accountId, ctx))
  {
    ForeignRepoint(t, subId, accountId, ctx);
    ForeignWritesOverride(t, t.subs[subId - 1], ClientChart(ctx.business.value), accountId,
                          Repoint(t, subId, accountId, ctx));
  }

  lemma ForeignWritesOverride(t: Tables, sub: SubCategory, chart: string, accountId: nat,
                              result: (Tables, Result<nat, Error>))
    requires IdsOk(t) && LinksOk(t) && NamesOk(t) && sub in t.subs
    requires result == OverrideInClient(t, chart, t.categories[sub.categoryId - 1], sub.name, accountId) && result.1.Ok?
    ensures LeavesOverride(t, sub, chart, accountId, result)
  {
    RowNames(t, sub);
    OverrideInClientWrites(t, chart, t.categories[sub.categoryId - 1], sub.name, accountId);
  }

  lemma OverrideComposes(t: Tables, v: Tables, u: Tables, chart: string, categoryId: nat, kind: Kind)
    requires t.categories <= v.categories && v.(categories := t.categories) == t
    requires 1 <= categoryId <= |v.categories| && v.categories[categoryId - 1].chart == chart
             && v.categories[categoryId - 1].kind == kind
    requires |v.categories| <= |t.categories| + 1 && (|v.categories| > |t.categories| ==> categoryId == |v.categories|)
    requires u.(subs := v.subs) == v && SubsOnly(v, u, chart)
    ensures OnlyChart(t, u, chart) && NewOnesOfKind(t, u, kind)
  {
  }

  ghost predicate NoOtherKind(t: Tables, chart: string, parent: Category) {
    forall c :: c in t.categories && c.active && c.chart == chart && c.name == parent.name ==> c.kind == parent.kind
  }

  /** A foreign row is overridden in well-formed tables. */
  ghost predicate Overridden(t: Tables, u: Tables, id: nat, name: string, parent: Category, chart: string,
                             accountId: nat) {
    && RowsOk(u) && NewOnesOfKind(t, u, parent.kind) && Clean(name) && Clean(parent.name)
    && IsOverride(u, id, name, parent, chart, accountId)
  }

  lemma RepointFacts(t: Tables, subId: nat, accountId: nat, ctx: Context)
    requires RowsOk(t) && Foreign(t, subId, ctx) && Repoint(t, subId, accountId, ctx).1.Ok?
    ensures var (u, r) := Repoint(t, subId, accountId, ctx);
            var sub := t.subs[subId - 1];
            Overridden(t, u, r.value, sub.name, t.categories[sub.categoryId - 1], ClientChart(ctx.business.value),
                       accountId)
  {
    RepointKeepsRows(t, subId, accountId, ctx);
    RepointStaysInChart(t, subId, accountId, ctx);
    RepointWritesOverride(t, subId, accountId, ctx);
  }

  /** A pair of names stands for this row, which points at the card. */
  ghost predicate ResolvesTo(t: Tables, category: string, name: string, ctx: Context, id: nat, accountId: nat) {
    ResolveByName(t, category, name, ctx) == Some(id) && 1 <= id <= |t.subs|
    && t.subs[id - 1].accountId == Some(accountId)
  }

  /** After a successful repoint the names of the sub-category resolve to the chosen card, provided the client
      has no active category of the same name with the other type. */
  lemma RepointResolves(t: Tables, subId: nat, accountId: nat, ctx: Context)
    requires RowsOk(t) && Foreign(t, subId, ctx)
    requires Repoint(t, subId, accountId, ctx).1.Ok?
    requires NoOtherKind(t, ClientChart(ctx.business.value), t.categories[t.subs[subId - 1].categoryId - 1])
    ensures var (u, r) := Repoint(t, subId, accountId, ctx);
            var sub := t.subs[subId - 1];
            ResolvesTo(u, t.categories[sub.categoryId - 1].name, sub.name, ctx, r.value, accountId)
  {
    RepointFacts(t, subId, accountId, ctx);
    ResultResolves(t, t.subs[subId - 1], ctx, accountId, Repoint(t, subId, accountId, ctx));
  }

  lemma ResultResolves(t: Tables, sub: SubCategory, ctx: Context, accountId: nat, result: (Tables, Result<nat, Error>))
    requires ctx.business.Some? && result.1.Ok? && 1 <= sub.categoryId <= |t.categories|
    requires Overridden(t, result.0, result.1.value, sub.name, t.categories[sub.categoryId - 1],
                        ClientChart(ctx.business.value), accountId)
    requires NoOtherKind(t, ClientChart(ctx.business.value), t.categories[sub.categoryId - 1])
    ensures ResolvesTo(result.0, t.categories[sub.categoryId - 1].name, sub.name, ctx, result.1.value, accountId)
  {
    OverrideResolves(t, result.0, result.1.value, sub.name, t.categories[sub.categoryId - 1], ctx, accountId);
  }

  /** The client's override of a name is what the name resolves to. */
  lemma OverrideResolves(t: Tables, u: Tables, id: nat, name: string, parent: Category, ctx: Context, accountId: nat)
    requires ctx.business.Some? && Overridden(t, u, id, name, parent, ClientChart(ctx.business.value), accountId)
    requires NoOtherKind(t, ClientChart(ctx.business.value), parent)
    ensures ResolvesTo(u, parent.name, name, ctx, id, accountId)
  {
    var over := u.subs[id - 1];
    var c := u.categories[over.categoryId - 1];
    OneClientCategory(t, u, c);
    OneClientSub(u, over);
    assert c in u.categories && over in u.subs;
    PickClientCategory(u.categories, c, ctx);
    PickClientSub(u.subs, over, ctx);
  }

  lemma OneClientCategory(t: Tables, u: Tables, c: Category)
    requires IdsOk(u) && UniqueOk(u) && t.categories <= u.categories && c in u.categories
    requires forall d :: d in t.categories && d.active && d.chart == c.chart && d.name == c.name ==> d.kind == c.kind
    requires forall i :: |t.categories| <= i < |u.categories| ==> u.categories[i].kind == c.kind
    ensures forall d :: d in u.categories && d.active && d.chart == c.chart && d.name == c.name ==> d.id == c.id
  {
    var k :| 0 <= k < |u.categories| && u.categories[k] == c;
    forall d | d in u.categories && d.active && d.chart == c.chart && d.name == c.name ensures d.id == c.id {
      var i :| 0 <= i < |u.categories| && u.categories[i] == d;
      assert i < |t.categories| ==> d in t.categories;
      assert d.kind == c.kind;
    }
  }

  lemma OneClientSub(u: Tables, s: SubCategory)
    requires IdsOk(u) && UniqueOk(u) && s in u.subs
    ensures forall d :: d in u.subs && d.chart == s.chart && d.categoryId == s.categoryId && d.name == s.name ==>
              d.id == s.id
  {
    var k :| 0 <= k < |u.subs| && u.subs[k] == s;
    forall d | d in u.subs && d.chart == s.chart && d.categoryId == s.categoryId && d.name == s.name ensures d.id == s.id
    {
      var i :| 0 <= i < |u.subs| && u.subs[i] == d;
    }
  }

  // ---- When a repoint succeeds ----

  /** The client has no inactive row in the way, of the category or of the name under it; the fixed system name
      is overridden only where the client has it already. */
  ghost predicate Overridable(t: Tables, chart: string, parent: Category, name: string) {
    && (forall i :: 0 <= i < |t.categories| && IsCategory(t.categories[i], chart, parent.name, parent.kind) ==>
          t.categories[i].active)
    && (forall i :: 0 <= i < |t.subs| && IsUnder(t, t.subs[i], chart, parent, name) ==> t.subs[i].active)
    && (name == DIRECT_CARD ==> exists i :: 0 <= i < |t.subs| && IsUnder(t, t.subs[i], chart, parent, name))
  }

  /** A row of this chart and name under the chart's category of the parent's name and kind. */
  predicate IsUnder(t: Tables, s: SubCategory, chart: string, parent: Category, name: string) {
    s.chart == chart && s.name == name && 1 <= s.categoryId <= |t.categories|
    && IsCategory(t.categories[s.categoryId - 1], chart, parent.name, parent.kind)
  }

  lemma EnsureOkIff(t: Tables, chart: string, name: string, kind: Kind)
    requires UniqueOk(t) && Clean(name)
    ensures EnsureCategory(t, chart, name, kind).Ok? <==>
            forall i :: 0 <= i < |t.categories| && IsCategory(t.categories[i], chart, name, kind) ==>
              t.categories[i].active
  {
    NoCategoryFound(t.categories, chart, name, kind, true);
    NoCategoryFound(t.categories, chart, name, kind, false);
    var found := FindCategory(t.categories, chart, name, kind, true);
    if found.Some? {
      forall i | 0 <= i < |t.categories| && IsCategory(t.categories[i], chart, name, kind) ensures i == found.value {
        var j := found.value;
        assert IsCategory(t.categories[j], chart, name, kind);
      }
    }
  }

  lemma OverrideOkIff(t: Tables, chart: string, categoryId: nat, name: string, accountId: nat)
    requires UniqueOk(t) && Clean(name) && 1 <= categoryId <= |t.categories| && 1 <= accountId <= |t.accounts|
    ensures Override(t, Scope(Client, chart), categoryId, name, accountId).1.Ok? <==>
            && (forall i :: 0 <= i < |t.subs| && IsSub(t.subs[i], chart, categoryId, name) ==> t.subs[i].active)
            && (name == DIRECT_CARD ==> exists i :: 0 <= i < |t.subs| && IsSub(t.subs[i], chart, categoryId, name))
  {
    NoSubFound(t.subs, chart, categoryId, name, true);
    NoSubFound(t.subs, chart, categoryId, name, false);
    var found := FindSub(t.subs, chart, categoryId, name, true);
    if found.Some? {
      var j := found.value;
      assert IsSub(t.subs[j], chart, categoryId, name);
      forall i | 0 <= i < |t.subs| && IsSub(t.subs[i], chart, categoryId, name) ensures i == j {
      }
    }
  }

  /** Under the client's own category by id is under it by name and kind. */
  lemma UnderById(t: Tables, v: Tables, id: nat, chart: string, parent: Category, name: string, s: SubCategory)
    requires UniqueOk(v) && t.categories <= v.categories && 1 <= id <= |v.categories|
             && 1 <= s.categoryId <= |t.categories|
    requires IsCategory(v.categories[id - 1], chart, parent.name, parent.kind)
    ensures IsSub(s, chart, id, name) <==> IsUnder(t, s, chart, parent, name)
  {
    assert t.categories[s.categoryId - 1] == v.categories[s.categoryId - 1];
    if IsUnder(t, s, chart, parent, name) {
      assert s.categoryId - 1 == id - 1;
    }
  }

  lemma OverrideInClientOkIff(t: Tables, chart: string, parent: Category, name: string, accountId: nat)
    requires RowsOk(t) && Clean(name) && Clean(parent.name) && 1 <= accountId <= |t.accounts|
    ensures OverrideInClient(t, chart, parent, name, accountId).1.Ok? <==> Overridable(t, chart, parent, name)
  {
    EnsureOkIff(t, chart, parent.name, parent.kind);
    if EnsureCategory(t, chart, parent.name, parent.kind).Ok? {
      CategoryEnsured(t, chart, parent.name, parent.kind);
      EnsureKeepsRows(t, chart, parent.name, parent.kind);
      var (v, id) := EnsureCategory(t, chart, parent.name, parent.kind).value;
      OverrideOkIff(v, chart, id, name, accountId);
      forall i | 0 <= i < |t.subs|
        ensures IsSub(t.subs[i], chart, id, name) <==> IsUnder(t, t.subs[i], chart, parent, name)
      {
        UnderById(t, v, id, chart, parent, name, t.subs[i]);
      }
    }
  }

  /** A visible row that is not private, an active card in scope and a business. */
  predicate MayRepoint(t: Tables, subId: nat, accountId: nat, ctx: Context) {
    && 1 <= subId <= |t.subs| && ctx.business.Some? && AccountInScope(t, accountId, ctx)
    && t.subs[subId - 1].chart in ChartOwnerKeys(ctx) && !t.subs[subId - 1].isPrivate
  }

  lemma RepointOkIs(t: Tables, subId: nat, accountId: nat, ctx: Context)
    requires LinksOk(t)
    ensures Repoint(t, subId, accountId, ctx).1.Ok? <==>
            && MayRepoint(t, subId, accountId, ctx)
            && (Foreign(t, subId, ctx) ==> OverrideOk(t, t.subs[subId - 1], ClientChart(ctx.business.value), accountId))
  {
  }

  ghost predicate OverrideOk(t: Tables, sub: SubCategory, chart: string, accountId: nat)
    requires 1 <= sub.categoryId <= |t.categories|
  {
    OverrideInClient(t, chart, t.categories[sub.categoryId - 1], sub.name, accountId).1.Ok?
  }

  /** The row is the client's own or can be overridden. */
  ghost predicate OwnOrOverridable(t: Tables, sub: SubCategory, chart: string)
    requires 1 <= sub.categoryId <= |t.categories|
  {
    sub.chart == chart || Overridable(t, chart, t.categories[sub.categoryId - 1], sub.name)
  }

  lemma RowNames(t: Tables, sub: SubCategory)
    requires LinksOk(t) && NamesOk(t) && sub in t.subs
    ensures 1 <= sub.categoryId <= |t.categories| && Clean(sub.name) && Clean(t.categories[sub.categoryId - 1].name)
  {
  }

  /** A repoint succeeds exactly for a visible row that is not private, an active card in scope and a business,
      when the row is the client's own or can be overridden. */
  lemma RepointSucceedsIff(t: Tables, subId: nat, accountId: nat, ctx: Context)
    requires RowsOk(t)
    ensures Repoint(t, subId, accountId, ctx).1.Ok? <==>
            && MayRepoint(t, subId, accountId, ctx)
            && OwnOrOverridable(t, t.subs[subId - 1], ClientChart(ctx.business.value))
  {
    RepointOkIs(t, subId, accountId, ctx);
    if MayRepoint(t, subId, accountId, ctx) {
      var sub := t.subs[subId - 1];
      RowNames(t, sub);
      OverrideInClientOkIff(t, ClientChart(ctx.business.value), t.categories[sub.categoryId - 1], sub.name, accountId);
    }
  }

  // ---- Laws ----

  ghost predicate CarriesLaw(t: Tables, subId: nat, law: Law) {
    && 1 <= subId <= |t.subs|
    && (ResolvedLaw(t, subId) == Some(law)
        || (t.subs[subId - 1].approval == MissingMapping && t.subs[subId - 1].accountId == None))
  }

  /** Cards are only added, and every sub-category but one resolves as before. */
  ghost predicate OthersKeepLaw(t: Tables, u: Tables, except: nat) {
    && t.accounts <= u.accounts && |t.subs| <= |u.subs|
    && (forall id :: 1 <= id <= |t.subs| && id != except ==>
          u.subs[id - 1] == t.subs[id - 1] && ResolvedLaw(u, id) == ResolvedLaw(t, id))
  }

  lemma GrowthKeepsLaw(t: Tables, u: Tables, except: nat)
    requires CardsOk(t) && t.accounts <= u.accounts && |t.subs| <= |u.subs|
    requires forall i :: 0 <= i < |t.subs| && i + 1 != except ==> u.subs[i] == t.subs[i]
    ensures OthersKeepLaw(t, u, except)
  {
  }

  lemma CreateWithLawKeeps(t: Tables, scope: Scope, categoryId: nat, name: string, systemKey: Option<string>, law: Law)
    requires CardsOk(t) && 1 <= categoryId <= |t.categories|
    ensures var (u, r) := CreateWithLaw(t, scope, categoryId, name, systemKey, law);
            && CardsOk(u) && t.accounts <= u.accounts && t.subs <= u.subs
            && (r.Err? ==> u.subs == t.subs)
            && (r.Ok? ==> r.value == |u.subs| == |t.subs| + 1 && CarriesLaw(u, r.value, law))
  {
    var base := SystemBase(t.subs, Trim(name));
    var categoryName := t.categories[categoryId - 1].name;
    if VariantAccount(t, scope, law, base, categoryName).Ok? {
      VariantCarriesLaw(t, scope, law, base, categoryName);
    }
  }

  /** A sub-category created through a law resolves to it or is marked, a private one gets no card; no other one is
      touched. */
  lemma CreateSubKeeps(t: Tables, scope: Scope, categoryId: nat, name: string, input: NewSub)
    requires CardsOk(t)
    ensures var (u, r) := CreateSub(t, scope, categoryId, name, input);
            && CardsOk(u) && OthersKeepLaw(t, u, |t.subs| + 1)
            && (r.Err? ==> u.subs == t.subs)
            && (r.Ok? ==> r.value == |u.subs| == |t.subs| + 1)
            && (r.Ok? && input.isPrivate ==> u.subs[r.value - 1].accountId.None?)
            && (r.Ok? && !input.isPrivate && input.accountId.None? && input.law.Some? ==>
                CarriesLaw(u, r.value, input.law.value))
  {
    var (u, r) := CreateSub(t, scope, categoryId, name, input);
    if AllowedName(scope, name, input.systemKey) && 1 <= categoryId <= |t.categories|
       && !input.isPrivate && input.accountId.None? && input.law.Some?
    {
      CreateWithLawKeeps(t, scope, categoryId, name, input.systemKey, input.law.value);
      assert (u, r) == CreateWithLaw(t, scope, categoryId, name, input.systemKey, input.law.value);
    }
    GrowthKeepsLaw(t, u, |t.subs| + 1);
  }

  lemma CreateSubKeepsRows(t: Tables, scope: Scope, categoryId: nat, name: string, input: NewSub)
    requires RowsOk(t)
    ensures RowsOk(CreateSub(t, scope, categoryId, name, input).0)
  {
    var r := CreateSub(t, scope, categoryId, name, input).1;
    if AllowedName(scope, name, input.systemKey) && 1 <= categoryId <= |t.categories| {
      if !input.isPrivate && input.accountId.None? && input.law.Some? {
        var base := SystemBase(t.subs, Trim(name));
        var categoryName := t.categories[categoryId - 1].name;
        var variant := VariantAccount(t, scope, input.law.value, base, categoryName);
        if variant.Ok? {
          VariantCarriesLaw(t, scope, input.law.value, base, categoryName);
          var (v, id) := variant.value;
          AccountsKeepRows(t, v);
          if r.Ok? {
            InsertKeepsRows(v, scope, categoryId, name, input.systemKey, false, id,
                            if id.Some? then Approved else MissingMapping);
          }
        }
      } else if r.Ok? {
        InsertKeepsRows(t, scope, categoryId, name, input.systemKey, input.isPrivate, input.accountId,
                        if input.isPrivate || input.accountId.Some? then Approved else MissingMapping);
      }
    }
  }

  /** A law update takes hold only for a row without a card, or one whose card has the law already. */
  predicate TakesHold(t: Tables, subId: nat, law: Law) {
    1 <= subId <= |t.subs| && (t.subs[subId - 1].accountId.None? || ResolvedLaw(t, subId) == Some(law))
  }

  /** What a law update leaves: the row resolves to the law, or is marked, exactly if it had no card or one of this
      law; otherwise it keeps the law it had. No other sub-category is touched. */
  ghost predicate LawUpdated(t: Tables, subId: nat, law: Law, result: (Tables, Result<nat, Error>)) {
    var (u, r) := result;
    && CardsOk(u) && OthersKeepLaw(t, u, subId) && |u.subs| == |t.subs|
    && (r.Err? ==> u == t)
    && (r.Ok? ==> r.value == subId && 1 <= subId <= |t.subs| && t.subs[subId - 1].systemKey.None?)
    && (r.Ok? ==> (CarriesLaw(u, subId, law) <==> TakesHold(t, subId, law)))
    && (r.Ok? && t.subs[subId - 1].accountId.Some? ==>
          u.subs[subId - 1].accountId == t.subs[subId - 1].accountId && ResolvedLaw(u, subId) == ResolvedLaw(t, subId))
  }

  lemma UpdateLawKeeps(t: Tables, subId: nat, scope: Scope, law: Law)
    requires CardsOk(t)
    ensures LawUpdated(t, subId, law, UpdateLaw(t, subId, scope, law))
  {
    if UpdateLaw(t, subId, scope, law).1.Ok? {
      UpdateIsPointing(t, subId, scope, law);
      var (base, categoryName) := UpdateBase(t, subId);
      VariantCarriesLaw(t, scope, law, base, categoryName);
      var (v, id) := VariantAccount(t, scope, law, base, categoryName).value;
      PointUpdatesLaw(t, v, subId, id, law);
    } else {
      GrowthKeepsLaw(t, t, subId);
    }
  }

  /** A law update is a variant card, then a save. */
  lemma UpdateIsPointing(t: Tables, subId: nat, scope: Scope, law: Law)
    requires UpdateLaw(t, subId, scope, law).1.Ok?
    ensures 1 <= subId <= |t.subs| && t.subs[subId - 1].systemKey.None?
    ensures var (base, categoryName) := UpdateBase(t, subId);
            var variant := VariantAccount(t, scope, law, base, categoryName);
            && variant.Ok? && |variant.value.0.subs| == |t.subs|
            && var (v, id) := variant.value;
               var approval := if id.Some? then Approved else MissingMapping;
               UpdateLaw(t, subId, scope, law) == (PointAt(v, subId - 1, Stored(t, subId, id), approval), Ok(subId))
  {
  }

  lemma PointUpdatesLaw(t: Tables, v: Tables, subId: nat, id: Option<nat>, law: Law)
    requires CardsOk(t) && CardsOk(v) && t.accounts <= v.accounts && v.subs == t.subs
    requires 1 <= subId <= |t.subs| && t.subs[subId - 1].systemKey.None?
    requires id.Some? ==> 1 <= id.value <= |v.accounts| && v.accounts[id.value - 1].law == Some(law)
    ensures var approval := if id.Some? then Approved else MissingMapping;
            LawUpdated(t, subId, law, (PointAt(v, subId - 1, Stored(t, subId, id), approval), Ok(subId)))
  {
    var u := PointAt(v, subId - 1, Stored(t, subId, id), if id.Some? then Approved else MissingMapping);
    GrowthKeepsLaw(t, u, subId);
  }

  /** A row created by one law and then updated to another still resolves to the first. */
  lemma LawUpdateIsLost(t: Tables, scope: Scope, categoryId: nat, name: string, systemKey: Option<string>, first: Law,
                        second: Law)
    requires CardsOk(t) && 1 <= categoryId <= |t.categories| && first != second
    requires var (u, r) := CreateWithLaw(t, scope, categoryId, name, systemKey, first);
             && r.Ok? && 1 <= r.value <= |u.subs| && u.subs[r.value - 1].accountId.Some?
             && UpdateLaw(u, r.value, scope, second).1.Ok?
    ensures var (u, r) := CreateWithLaw(t, scope, categoryId, name, systemKey, first);
            var v := UpdateLaw(u, r.value, scope, second).0;
            ResolvedLaw(v, r.value) == Some(first) && !CarriesLaw(v, r.value, second)
  {
    var (u, r) := CreateWithLaw(t, scope, categoryId, name, systemKey, first);
    CreateWithLawKeeps(t, scope, categoryId, name, systemKey, first);
    UpdateLawKeeps(u, r.value, scope, second);
  }

  lemma UpdateLawKeepsRows(t: Tables, subId: nat, scope: Scope, law: Law)
    requires RowsOk(t)
    ensures RowsOk(UpdateLaw(t, subId, scope, law).0)
  {
    if UpdateLaw(t, subId, scope, law).1.Ok? {
      UpdateIsPointing(t, subId, scope, law);
      var (base, categoryName) := UpdateBase(t, subId);
      VariantCarriesLaw(t, scope, law, base, categoryName);
      var (v, id) := VariantAccount(t, scope, law, base, categoryName).value;
      var approval := if id.Some? then Approved else MissingMapping;
      SavedKeepsRows(t, v, subId, id, approval);
      SameRows(UpdateLaw(t, subId, scope, law).0, PointAt(v, subId - 1, Stored(t, subId, id), approval));
    }
  }

  lemma SavedKeepsRows(t: Tables, v: Tables, subId: nat, id: Option<nat>, approval: Approval)
    requires RowsOk(t) && CardsOk(v) && t.accounts <= v.accounts && v.(accounts := t.accounts) == t
    requires 1 <= subId <= |t.subs| && (id.Some? ==> 1 <= id.value <= |v.accounts|)
    ensures RowsOk(PointAt(v, subId - 1, Stored(t, subId, id), approval))
  {
    AccountsKeepRows(t, v);
    PointKeepsRows(v, subId - 1, Stored(t, subId, id), approval);
  }

  /** All cards stay, and all sub-categories but the one the result names. */
  ghost predicate KeepsOthers(t: Tables, result: (Tables, Result<nat, Error>)) {
    && result.0.accounts == t.accounts && |t.subs| <= |result.0.subs|
    && (result.1.Err? ==> result.0.subs == t.subs)
    && (result.1.Ok? ==> forall i :: 0 <= i < |t.subs| && i + 1 != result.1.value ==> result.0.subs[i] == t.subs[i])
  }

  lemma RepointKeepsOthers(t: Tables, subId: nat, accountId: nat, ctx: Context)
    requires IdsOk(t) && LinksOk(t)
    ensures KeepsOthers(t, Repoint(t, subId, accountId, ctx))
  {
    RepointCases(t, subId, accountId, ctx);
    CaseKeepsOthers(t, subId, accountId, ctx, Repoint(t, subId, accountId, ctx));
  }

  lemma CaseKeepsOthers(t: Tables, subId: nat, accountId: nat, ctx: Context, result: (Tables, Result<nat, Error>))
    requires IdsOk(t) && RepointCase(t, subId, accountId, ctx, result)
    ensures KeepsOthers(t, result)
  {
    if result.0 == t && result.1.Err? {
      EitherKeepsOthers(t, result, (t, result.1));
    } else if Foreign(t, subId, ctx) {
      var sub := t.subs[subId - 1];
      ForeignKeepsOthers(t, ClientChart(ctx.business.value), t.categories[sub.categoryId - 1], sub.name, accountId,
                         result);
    } else {
      PointedKeepsOthers(t, subId, accountId, result);
    }
  }

  lemma PointedKeepsOthers(t: Tables, subId: nat, accountId: nat, result: (Tables, Result<nat, Error>))
    requires IdsOk(t) && 1 <= subId <= |t.subs|
    requires result == (PointAt(t, subId - 1, Some(accountId), Approved), Ok(subId))
    ensures KeepsOthers(t, result)
  {
    PointKeepsOthers(t, subId - 1, accountId);
    EitherKeepsOthers(t, result, (PointAt(t, subId - 1, Some(accountId), Approved), Ok(subId)));
  }

  lemma ForeignKeepsOthers(t: Tables, chart: string, parent: Category, name: string, accountId: nat,
                           result: (Tables, Result<nat, Error>))
    requires IdsOk(t) && result == OverrideInClient(t, chart, parent, name, accountId)
    ensures KeepsOthers(t, result)
  {
    OverrideInClientKeepsOthers(t, chart, parent, name, accountId);
    EitherKeepsOthers(t, result, OverrideInClient(t, chart, parent, name, accountId));
  }

  lemma EitherKeepsOthers(t: Tables, result: (Tables, Result<nat, Error>), other: (Tables, Result<nat, Error>))
    requires KeepsOthers(t, other) && result == other
    ensures KeepsOthers(t, result)
  {
  }

  lemma PointKeepsOthers(t: Tables, i: nat, accountId: nat)
    requires i < |t.subs|
    ensures KeepsOthers(t, (PointAt(t, i, Some(accountId), Approved), Ok(i + 1)))
  {
  }

  lemma KeptOthersKeepLaw(t: Tables, result: (Tables, Result<nat, Error>))
    requires CardsOk(t) && KeepsOthers(t, result) && result.1.Ok?
    ensures OthersKeepLaw(t, result.0, result.1.value)
  {
    GrowthKeepsLaw(t, result.0, result.1.value);
  }

  lemma OverrideInClientKeepsOthers(t: Tables, chart: string, parent: Category, name: string, accountId: nat)
    requires IdsOk(t)
    ensures KeepsOthers(t, OverrideInClient(t, chart, parent, name, accountId))
  {
    if EnsureCategory(t, chart, parent.name, parent.kind).Ok? {
      CategoryEnsured(t, chart, parent.name, parent.kind);
      EnsureKeepsIds(t, chart, parent.name, parent.kind);
      var (v, categoryId) := EnsureCategory(t, chart, parent.name, parent.kind).value;
      OverrideKeepsOthers(v, Scope(Client, chart), categoryId, name, accountId);
    }
  }

  lemma OverrideKeepsOthers(t: Tables, scope: Scope, categoryId: nat, name: string, accountId: nat)
    requires IdsOk(t)
    ensures KeepsOthers(t, Override(t, scope, categoryId, name, accountId))
  {
  }

  // ---- Runs ----

  datatype CatalogOp =
    | AddCategory(chart: string, name: string, kind: Kind)
    | AddSub(scope: Scope, categoryId: nat, name: string, input: NewSub)
    | SetLaw(subId: nat, scope: Scope, law: Law)
    | RepointTo(subId: nat, accountId: nat, ctx: Context)
    | RemoveCategory(id: nat)
    | RemoveSub(id: nat)

  /** The tables, and for each sub-category the last law asked for through the law path. */
  function Apply(t: Tables, laws: map<nat, Law>, op: CatalogOp): (Tables, map<nat, Law>) {
    match op
    case AddCategory(chart, name, kind) =>
      var r := EnsureCategory(t, chart, name, kind);
      (if r.Ok? then r.value.0 else t, laws)
    case AddSub(scope, categoryId, name, input) =>
      var (u, r) := CreateSub(t, scope, categoryId, name, input);
      (u, if r.Ok? && !input.isPrivate && input.accountId.None? && input.law.Some? then laws[r.value := input.law.value]
          else laws)
    case SetLaw(subId, scope, law) =>
      var (u, r) := UpdateLaw(t, subId, scope, law);
      (u, if r.Ok? && TakesHold(t, subId, law) then laws[r.value := law] else laws)
    case RepointTo(subId, accountId, ctx) =>
      var (u, r) := Repoint(t, subId, accountId, ctx);
      (u, if r.Ok? then laws - {r.value} else laws)
    case RemoveCategory(id) => (DeleteCategory(t, id).0, laws)
    case RemoveSub(id) => (DeleteSub(t, id).0, laws)
  }

  function Run(start: Tables, ops: seq<CatalogOp>): (Tables, map<nat, Law>) {
    if ops == [] then (start, map[])
    else
      var (t, laws) := Run(start, ops[..|ops| - 1]);
      Apply(t, laws, ops[|ops| - 1])
  }

  ghost predicate LawsCarried(t: Tables, laws: map<nat, Law>) {
    forall id :: id in laws ==> CarriesLaw(t, id, laws[id])
  }

  lemma KeptLawsCarried(t: Tables, u: Tables, except: nat, laws: map<nat, Law>)
    requires LawsCarried(t, laws) && OthersKeepLaw(t, u, except) && except !in laws
    ensures LawsCarried(u, laws)
  {
    forall id | id in laws ensures CarriesLaw(u, id, laws[id]) {
      assert CarriesLaw(t, id, laws[id]);
    }
  }

  lemma ApplyKeepsRows(t: Tables, laws: map<nat, Law>, op: CatalogOp)
    requires RowsOk(t)
    ensures RowsOk(Apply(t, laws, op).0)
  {
    match op
    case AddCategory(chart, name, kind) =>
      if EnsureCategory(t, chart, name, kind).Ok? { EnsureKeepsRows(t, chart, name, kind); }
    case AddSub(scope, categoryId, name, input) => CreateSubKeepsRows(t, scope, categoryId, name, input);
    case SetLaw(subId, scope, law) => UpdateLawKeepsRows(t, subId, scope, law);
    case RepointTo(subId, accountId, ctx) => RepointKeepsRows(t, subId, accountId, ctx);
    case RemoveCategory(id) => DeleteCategoryKeepsRows(t, id);
    case RemoveSub(id) => DeleteSubKeepsRows(t, id);
  }

  lemma DeleteCategoryKeepsRows(t: Tables, id: nat)
    requires RowsOk(t)
    ensures RowsOk(DeleteCategory(t, id).0)
  {
  }

  lemma DeleteSubKeepsRows(t: Tables, id: nat)
    requires RowsOk(t)
    ensures RowsOk(DeleteSub(t, id).0)
  {
  }

  lemma RemovalKeepsLaws(t: Tables, laws: map<nat, Law>, id: nat)
    requires LawsCarried(t, laws)
    ensures LawsCarried(DeleteCategory(t, id).0, laws) && LawsCarried(DeleteSub(t, id).0, laws)
  {
    forall sub | sub in laws
      ensures CarriesLaw(DeleteCategory(t, id).0, sub, laws[sub]) && CarriesLaw(DeleteSub(t, id).0, sub, laws[sub])
    {
      assert CarriesLaw(t, sub, laws[sub]);
    }
  }

  lemma ApplyKeepsLaws(t: Tables, laws: map<nat, Law>, op: CatalogOp)
    requires RowsOk(t) && LawsCarried(t, laws)
    ensures var (u, after) := Apply(t, laws, op); LawsCarried(u, after) && t.accounts <= u.accounts
  {
    match op
    case AddCategory(chart, name, kind) => AddCategoryKeepsLaws(t, laws, chart, name, kind);
    case AddSub(scope, categoryId, name, input) => AddSubKeepsLaws(t, laws, scope, categoryId, name, input);
    case SetLaw(subId, scope, law) => SetLawKeepsLaws(t, laws, subId, scope, law);
    case RepointTo(subId, accountId, ctx) => RepointToKeepsLaws(t, laws, subId, accountId, ctx);
    case RemoveCategory(id) => RemovalKeepsLaws(t, laws, id);
    case RemoveSub(id) => RemovalKeepsLaws(t, laws, id);
  }

  lemma AddSubKeepsLaws(t: Tables, laws: map<nat, Law>, scope: Scope, categoryId: nat, name: string, input: NewSub)
    requires CardsOk(t) && LawsCarried(t, laws)
    ensures var (u, after) := Apply(t, laws, AddSub(scope, categoryId, name, input));
            LawsCarried(u, after) && t.accounts <= u.accounts
  {
    CreateSubKeeps(t, scope, categoryId, name, input);
    assert |t.subs| + 1 in laws ==> CarriesLaw(t, |t.subs| + 1, laws[|t.subs| + 1]);
    KeptLawsCarried(t, CreateSub(t, scope, categoryId, name, input).0, |t.subs| + 1, laws);
  }

  lemma SetLawKeepsLaws(t: Tables, laws: map<nat, Law>, subId: nat, scope: Scope, law: Law)
    requires CardsOk(t) && LawsCarried(t, laws)
    ensures var (u, after) := Apply(t, laws, SetLaw(subId, scope, law));
            LawsCarried(u, after) && t.accounts <= u.accounts
  {
    UpdateLawKeeps(t, subId, scope, law);
    UpdateKeepsLaws(t, laws, subId, law, UpdateLaw(t, subId, scope, law));
  }

  lemma UpdateKeepsLaws(t: Tables, laws: map<nat, Law>, subId: nat, law: Law, result: (Tables, Result<nat, Error>))
    requires LawsCarried(t, laws) && LawUpdated(t, subId, law, result)
    ensures var after := if result.1.Ok? && TakesHold(t, subId, law) then laws[result.1.value := law] else laws;
            LawsCarried(result.0, after)
  {
    var after := if result.1.Ok? && TakesHold(t, subId, law) then laws[result.1.value := law] else laws;
    KeptLawsCarried(t, result.0, subId, laws - {subId});
    forall id | id in after ensures CarriesLaw(result.0, id, after[id]) {
      if id in laws { assert CarriesLaw(t, id, laws[id]); }
      if id != subId { assert CarriesLaw(result.0, id, (laws - {subId})[id]); }
    }
  }

  lemma AddCategoryKeepsLaws(t: Tables, laws: map<nat, Law>, chart: string, name: string, kind: Kind)
    requires RowsOk(t) && LawsCarried(t, laws)
    ensures var (u, after) := Apply(t, laws, AddCategory(chart, name, kind));
            LawsCarried(u, after) && t.accounts <= u.accounts
  {
    if EnsureCategory(t, chart, name, kind).Ok? {
      CategoryEnsured(t, chart, name, kind);
      var u := EnsureCategory(t, chart, name, kind).value.0;
      forall id | id in laws ensures CarriesLaw(u, id, laws[id]) { assert CarriesLaw(t, id, laws[id]); }
    }
  }

  lemma RepointToKeepsLaws(t: Tables, laws: map<nat, Law>, subId: nat, accountId: nat, ctx: Context)
    requires RowsOk(t) && LawsCarried(t, laws)
    ensures var (u, after) := Apply(t, laws, RepointTo(subId, accountId, ctx));
            LawsCarried(u, after) && t.accounts <= u.accounts
  {
    RepointKeepsOthers(t, subId, accountId, ctx);
    ResultKeepsLaws(t, laws, Repoint(t, subId, accountId, ctx));
  }

  lemma ResultKeepsLaws(t: Tables, laws: map<nat, Law>, result: (Tables, Result<nat, Error>))
    requires CardsOk(t) && LawsCarried(t, laws) && KeepsOthers(t, result)
    ensures LawsCarried(result.0, if result.1.Ok? then laws - {result.1.value} else laws)
            && t.accounts <= result.0.accounts
  {
    if result.1.Ok? {
      KeptOthersKeepLaw(t, result);
      KeptLawsCarried(t, result.0, result.1.value, laws - {result.1.value});
    } else {
      forall id | id in laws ensures CarriesLaw(result.0, id, laws[id]) { assert CarriesLaw(t, id, laws[id]); }
    }
  }

  /** Over any run from well-formed tables the tables stay well formed, a sub-category whose last pointer
      came from a law resolves to exactly that law or is marked as missing its mapping, and no card in
      place at the start has changed. */
  lemma {:induction false} LawsHold(start: Tables, ops: seq<CatalogOp>)
    requires RowsOk(start)
    ensures var (t, laws) := Run(start, ops);
            RowsOk(t) && LawsCarried(t, laws) && start.accounts <= t.accounts
  {
    if ops != [] {
      LawsHold(start, ops[..|ops| - 1]);
      var (t, laws) := Run(start, ops[..|ops| - 1]);
      ApplyKeepsRows(t, laws, ops[|ops| - 1]);
      ApplyKeepsLaws(t, laws, ops[|ops| - 1]);
    }
  }

  /** Editing a card's percents in place keeps the laws given exactly when each of the sub-categories pointing at the
      card was given the law it is edited to. */
  lemma CardEditKeepsLawsIff(t: Tables, laws: map<nat, Law>, accountId: nat, law: Law)
    requires CardsOk(t) && LawsCarried(t, laws) && 1 <= accountId <= |t.accounts|
    ensures LawsCarried(EditLaw(t, accountId, law), laws) <==>
            forall id :: id in laws && t.subs[id - 1].accountId == Some(accountId) ==> laws[id] == law
  {
    forall id | id in laws
      ensures CarriesLaw(EditLaw(t, accountId, law), id, laws[id]) <==>
              (t.subs[id - 1].accountId == Some(accountId) ==> laws[id] == law)
    {
      assert CarriesLaw(t, id, laws[id]);
    }
  }

  /** A row created by one law loses it when its card is edited to another. */
  lemma CardEditBreaksLaw(t: Tables, scope: Scope, categoryId: nat, name: string, systemKey: Option<string>,
                          first: Law, second: Law)
    requires CardsOk(t) && 1 <= categoryId <= |t.categories| && first != second
    requires var (u, r) := CreateWithLaw(t, scope, categoryId, name, systemKey, first);
             r.Ok? && 1 <= r.value <= |u.subs| && u.subs[r.value - 1].accountId.Some?
    ensures var (u, r) := CreateWithLaw(t, scope, categoryId, name, systemKey, first);
            var card := u.subs[r.value - 1].accountId.value;
            && 1 <= card <= |u.accounts| && CarriesLaw(u, r.value, first)
            && !CarriesLaw(EditLaw(u, card, second), r.value, first)
  {
    CreateWithLawKeeps(t, scope, categoryId, name, systemKey, first);
  }

  /** Two sub-categories given different laws never share a card. */
  lemma DifferentLawsDifferentCards(start: Tables, ops: seq<CatalogOp>, a: nat, b: nat)
    requires RowsOk(start)
    requires var laws := Run(start, ops).1; a in laws && b in laws && laws[a] != laws[b]
    ensures var t := Run(start, ops).0;
            && 1 <= a <= |t.subs| && 1 <= b <= |t.subs|
            && (t.subs[a - 1].accountId.Some? ==> t.subs[a - 1].accountId != t.subs[b - 1].accountId)
  {
    LawsHold(start, ops);
    var (t, laws) := Run(start, ops);
    assert CarriesLaw(t, a, laws[a]) && CarriesLaw(t, b, laws[b]);
  }
}
