/** What the migration's plan amounts to: when it is applied, and which row each insert stands for. */
module MigrationPlan {
  import opened Common
  import opened Charts
  import opened MigrationSpec

  // ---- The order of the rules ----

  /** An override of a name takes effect exactly when no merge group, annual name or private rule claims the row. */
  lemma OverrideTakesEffectIff(rules: Rules, category: string, name: string, code: string)
    requires OverrideFor(rules.overrides, category, name).Some?
    ensures Resolve(rules, category, name, code) == ToCard(OverrideFor(rules.overrides, category, name).value.code) <==>
            && (forall m :: m in rules.merges ==> name !in m.members) && name !in rules.annual
            && category !in rules.privateCategories
            && !(category == rules.healthCategory && name in rules.privateChildren)
  {
    MergeForIs(rules.merges, name);
  }

  /** Under any rules, a row that an override names loses it to a merge group, an annual name or a private rule. */
  lemma OverrideMayLose(rules: Rules, i: nat, category: string, code: string)
    requires i < |rules.overrides|
             && (rules.overrides[i].category.None? || rules.overrides[i].category == Some(category))
    requires var name := rules.overrides[i].name;
             || (exists m :: m in rules.merges && name in m.members) || name in rules.annual
             || category in rules.privateCategories
             || (category == rules.healthCategory && name in rules.privateChildren)
    ensures OverrideFor(rules.overrides, category, rules.overrides[i].name).Some?
    ensures !Resolve(rules, category, rules.overrides[i].name, code).ToCard?
  {
    OverrideFound(rules.overrides, i, category);
    MergeForIs(rules.merges, rules.overrides[i].name);
  }

  lemma {:induction false} OverrideFound(overrides: seq<Override>, i: nat, category: string)
    requires i < |overrides| && (overrides[i].category.None? || overrides[i].category == Some(category))
    ensures OverrideFor(overrides, category, overrides[i].name).Some?
  {
    if i > 0 { OverrideFound(overrides[1..], i - 1, category); }
  }

  lemma {:induction false} MergeForIs(merges: seq<Merge>, name: string)
    ensures MergeFor(merges, name).None? <==> forall m :: m in merges ==> name !in m.members
  {
    if merges != [] {
      MergeForIs(merges[1..], name);
      assert merges == [merges[0]] + merges[1..];
    }
  }

  // ---- One insert for each row ----

  lemma {:induction false} SystemOriginsAre(rules: Rules, rows: seq<LegacySub>)
    ensures var os := SystemOrigins(rules, rows);
            && NoRepeats(os)
            && (forall i: nat :: FromSystem(i) in os <==>
                  i < |rows| && !IsExcluded(rules, rows[i]) && !IsMerged(rules, rows[i]))
            && (forall into :: FromMerge(into) in os <==>
                  exists i :: 0 <= i < |rows| && IsMerged(rules, rows[i]) && Of(rules, rows[i]).mergeInto == Some(into))
            && (forall i: nat :: FromClient(i) !in os)
  {
    if rows != [] {
      var init, last := rows[..|rows| - 1], rows[|rows| - 1];
      SystemOriginsAre(rules, init);
      assert forall i :: 0 <= i < |init| ==> rows[i] == init[i];
      var before, os := SystemOrigins(rules, init), SystemOrigins(rules, rows);
      assert os == before || exists o :: os == before + [o];
      MergedInAre(rules, rows);
    }
  }

  ghost predicate MergedIn(rules: Rules, rows: seq<LegacySub>, into: string) {
    exists i :: 0 <= i < |rows| && IsMerged(rules, rows[i]) && Of(rules, rows[i]).mergeInto == Some(into)
  }

  lemma MergedInAre(rules: Rules, rows: seq<LegacySub>)
    requires rows != []
    ensures forall into :: MergedIn(rules, rows, into) <==>
                           MergedIn(rules, rows[..|rows| - 1], into)
                           || (IsMerged(rules, rows[|rows| - 1]) && Of(rules, rows[|rows| - 1]).mergeInto == Some(into))
  {
    var init := rows[..|rows| - 1];
    assert forall i :: 0 <= i < |init| ==> rows[i] == init[i];
  }

  lemma {:induction false} ClientOriginsAre(n: nat)
    ensures NoRepeats(ClientOrigins(n)) && |ClientOrigins(n)| == n
    ensures forall o :: o in ClientOrigins(n) <==> o.FromClient? && o.i < n
  {
    if n > 0 { ClientOriginsAre(n - 1); }
  }

  /** Exactly one insert for each CLIENT row, for each SYSTEM row that is neither excluded nor in a merge group,
      and for each merge group with a row in it. */
  lemma OneInsertEach(rules: Rules, legacy: Legacy)
    ensures var os := Origins(rules, legacy);
            && NoRepeats(os)
            && (forall i: nat :: FromClient(i) in os <==> i < |legacy.userSubs|)
            && (forall i: nat :: FromSystem(i) in os <==>
                  i < |legacy.subs| && !IsExcluded(rules, legacy.subs[i]) && !IsMerged(rules, legacy.subs[i]))
            && (forall into :: FromMerge(into) in os <==> MergedIn(rules, legacy.subs, into))
  {
    SystemOriginsAre(rules, legacy.subs);
    ClientOriginsAre(|legacy.userSubs|);
  }

  // ---- Categories by key ----

  ghost predicate InChart(cs: seq<Category>, chart: string, name: string) {
    exists i :: 0 <= i < |cs| && cs[i].chart == chart && cs[i].name == name
  }

  /** A category is found by chart and name exactly when it was inserted; the id is then its own. */
  lemma {:induction false} IdOfIs(base: nat, cs: seq<Category>, chart: string, name: string)
    ensures var id := IdOf(base, cs, chart, name);
            && (id.Some? <==> InChart(cs, chart, name))
            && (id.Some? ==>
                base < id.value <= base + |cs| && cs[id.value - base - 1].chart == chart
                && cs[id.value - base - 1].name == name)
  {
    if cs != [] {
      IdOfIs(base, cs[..|cs| - 1], chart, name);
      InChartOneMore(cs[..|cs| - 1], cs[|cs| - 1], chart, name);
      assert cs == cs[..|cs| - 1] + [cs[|cs| - 1]];
    }
  }

  lemma InChartOneMore(cs: seq<Category>, c: Category, chart: string, name: string)
    ensures InChart(cs + [c], chart, name) <==> InChart(cs, chart, name) || (c.chart == chart && c.name == name)
  {
    var all := cs + [c];
    assert all[|cs|] == c;
    if InChart(cs, chart, name) {
      var i :| 0 <= i < |cs| && cs[i].chart == chart && cs[i].name == name;
      assert all[i] == cs[i];
    }
  }

  lemma InChartOfTwo(a: seq<Category>, b: seq<Category>, chart: string, name: string)
    ensures InChart(a + b, chart, name) <==> InChart(a, chart, name) || InChart(b, chart, name)
  {
    if InChart(a, chart, name) {
      var i :| 0 <= i < |a| && a[i].chart == chart && a[i].name == name;
      assert (a + b)[i] == a[i];
    }
    if InChart(b, chart, name) {
      var i :| 0 <= i < |b| && b[i].chart == chart && b[i].name == name;
      assert (a + b)[|a| + i] == b[i];
    }
  }

  /** Default categories have no business, user categories one. */
  ghost predicate Proper(legacy: Legacy) {
    && (forall c :: c in legacy.categories ==> c.business.None?)
    && (forall c :: c in legacy.userCategories ==> c.business.Some?)
  }

  lemma {:induction false} IncludedAre(rules: Rules, cs: seq<LegacyCategory>)
    ensures forall c :: c in Included(rules, cs) <==> c in cs && c.name !in rules.excluded
  {
    if cs != [] {
      IncludedAre(rules, cs[..|cs| - 1]);
      assert cs == cs[..|cs| - 1] + [cs[|cs| - 1]];
    }
  }

  ghost predicate HasDefault(cs: seq<LegacyCategory>, name: string) {
    exists c :: c in cs && c.name == name
  }

  ghost predicate HasOwn(cs: seq<LegacyCategory>, business: string, name: string) {
    exists c :: c in cs && c.business == Some(business) && c.name == name
  }

  lemma {:induction false} DefaultsInChart(cs: seq<LegacyCategory>, business: string, name: string)
    requires forall c :: c in cs ==> c.business.None?
    ensures InChart(CategoriesOf(cs), SYSTEM, name) <==> HasDefault(cs, name)
    ensures !InChart(CategoriesOf(cs), ClientChart(business), name)
  {
    if cs != [] {
      var init, last := cs[..|cs| - 1], cs[|cs| - 1];
      assert cs == init + [last] && last in cs;
      DefaultsInChart(init, business, name);
      InChartOneMore(CategoriesOf(init), CategoryOf(last), SYSTEM, name);
      InChartOneMore(CategoriesOf(init), CategoryOf(last), ClientChart(business), name);
      ChartsDiffer(business, business);
    }
  }

  lemma {:induction false} OwnInChart(cs: seq<LegacyCategory>, business: string, name: string)
    requires forall c :: c in cs ==> c.business.Some?
    ensures InChart(CategoriesOf(cs), ClientChart(business), name) <==> HasOwn(cs, business, name)
    ensures !InChart(CategoriesOf(cs), SYSTEM, name)
  {
    if cs != [] {
      var init, last := cs[..|cs| - 1], cs[|cs| - 1];
      assert cs == init + [last] && last in cs;
      OwnInChart(init, business, name);
      InChartOneMore(CategoriesOf(init), CategoryOf(last), SYSTEM, name);
      InChartOneMore(CategoriesOf(init), CategoryOf(last), ClientChart(business), name);
      ChartsDiffer(last.business.value, business);
    }
  }

  /** New SYSTEM categories are the included default ones, new client ones those of the business. */
  lemma NewCategoriesByChart(rules: Rules, legacy: Legacy, business: string, name: string)
    requires Proper(legacy)
    ensures var cs := NewCategories(rules, legacy);
            && (InChart(cs, SYSTEM, name) <==> HasDefault(Included(rules, legacy.categories), name))
            && (InChart(cs, ClientChart(business), name) <==> HasOwn(legacy.userCategories, business, name))
  {
    var included := Included(rules, legacy.categories);
    IncludedAre(rules, legacy.categories);
    DefaultsInChart(included, business, name);
    OwnInChart(legacy.userCategories, business, name);
    InChartOfTwo(CategoriesOf(included), CategoriesOf(legacy.userCategories), SYSTEM, name);
    InChartOfTwo(CategoriesOf(included), CategoriesOf(legacy.userCategories), ClientChart(business), name);
  }

  /** The map lookup of the apply pass finds a parent exactly when the review's own check does. */
  lemma ParentFoundIff(rules: Rules, legacy: Legacy, base: nat, row: LegacySub)
    requires Proper(legacy)
    ensures ParentOf(base, NewCategories(rules, legacy), ClientChart(row.business), row.category).Some? <==>
            HasParent(rules, legacy, row)
  {
    var cs := NewCategories(rules, legacy);
    IdOfIs(base, cs, ClientChart(row.business), row.category);
    IdOfIs(base, cs, SYSTEM, row.category);
    NewCategoriesByChart(rules, legacy, row.business, row.category);
  }

  // ---- When an apply commits ----

  /** The card a row goes to, if any, is there. */
  predicate CardThere(rules: Rules, cards: seq<string>, row: LegacySub) {
    Of(rules, row).ToCard? ==> Of(rules, row).code in cards
  }

  predicate SystemParent(rules: Rules, legacy: Legacy, name: string) {
    exists c :: c in Included(rules, legacy.categories) && c.name == name
  }

  /** What the review does not look at: default rows need their own or the merge group's default category, and
      rows need their cards. */
  ghost predicate Unreviewed(rules: Rules, legacy: Legacy, cards: seq<string>) {
    && (forall row :: row in legacy.subs && !IsExcluded(rules, row) ==>
          if IsMerged(rules, row) then SystemParent(rules, legacy, rules.mergeParent)
          else SystemParent(rules, legacy, row.category) && CardThere(rules, cards, row))
    && (forall row :: row in legacy.userSubs ==> CardThere(rules, cards, row))
  }

  ghost predicate Reviewed(rules: Rules, legacy: Legacy) {
    && (forall row :: row in legacy.subs ==> !IsUnresolved(rules, row))
    && (forall row :: row in legacy.userSubs ==> !IsVariant(rules, row) && HasParent(rules, legacy, row))
  }

  lemma Listed(numbers: seq<nat>, rows: seq<LegacySub>, p: LegacySub -> bool)
    requires ExactlyThose(numbers, rows, p) && numbers != []
    ensures exists row :: row in rows && p(row)
  {
    assert numbers[0] in numbers && rows[numbers[0]] in rows;
  }

  lemma CleanMeansReviewed(r: Report, rules: Rules, legacy: Legacy)
    requires IsReview(r, rules, legacy)
    ensures IsClean(r) <==> Reviewed(rules, legacy)
  {
    if IsClean(r) {
      forall row | row in legacy.subs ensures !IsUnresolved(rules, row) {
        var i :| 0 <= i < |legacy.subs| && legacy.subs[i] == row;
        assert i !in r.unresolved;
      }
      forall row | row in legacy.userSubs ensures !IsVariant(rules, row) && HasParent(rules, legacy, row) {
        var i :| 0 <= i < |legacy.userSubs| && legacy.userSubs[i] == row;
        assert i !in r.variants && i !in r.unmatched;
      }
    }
    if r.unresolved != [] { Listed(r.unresolved, legacy.subs, row => IsUnresolved(rules, row)); }
    if r.variants != [] { Listed(r.variants, legacy.userSubs, row => IsVariant(rules, row)); }
    if r.unmatched != [] { Listed(r.unmatched, legacy.userSubs, row => !HasParent(rules, legacy, row)); }
  }

  lemma ClientPlannedIff(rules: Rules, legacy: Legacy, look: Lookup, row: LegacySub)
    requires Proper(legacy) && look.categories == NewCategories(rules, legacy)
    ensures ClientSub(rules, look, row).Some? <==>
            !IsVariant(rules, row) && HasParent(rules, legacy, row) && CardThere(rules, look.cards, row)
  {
    ParentFoundIff(rules, legacy, look.base, row);
  }

  lemma SystemPlannedIff(rules: Rules, legacy: Legacy, look: Lookup, row: LegacySub)
    requires Proper(legacy) && look.categories == NewCategories(rules, legacy)
    ensures SystemSub(rules, look, row).Some? <==>
            !Of(rules, row).Unresolved? && SystemParent(rules, legacy, row.category) && CardThere(rules, look.cards, row)
  {
    IdOfIs(look.base, look.categories, SYSTEM, row.category);
    NewCategoriesByChart(rules, legacy, row.business, row.category);
  }

  lemma MergePlannedIff(rules: Rules, legacy: Legacy, look: Lookup, into: string)
    requires Proper(legacy) && look.categories == NewCategories(rules, legacy)
    ensures MergedSub(rules, look, into).Some? <==> SystemParent(rules, legacy, rules.mergeParent)
  {
    IdOfIs(look.base, look.categories, SYSTEM, rules.mergeParent);
    NewCategoriesByChart(rules, legacy, "", rules.mergeParent);
  }

  /** Every insert finds what it needs exactly when the review is clean and the unreviewed conditions hold. */
  lemma PlannedIffReviewed(rules: Rules, legacy: Legacy, look: Lookup)
    requires Proper(legacy) && look.categories == NewCategories(rules, legacy)
    ensures AllPlanned(rules, look, legacy, Origins(rules, legacy)) <==>
            Reviewed(rules, legacy) && Unreviewed(rules, legacy, look.cards)
  {
    OneInsertEach(rules, legacy);
    if AllPlanned(rules, look, legacy, Origins(rules, legacy)) {
      PlannedMeansReviewed(rules, legacy, look);
    }
    if Reviewed(rules, legacy) && Unreviewed(rules, legacy, look.cards) {
      ReviewedMeansPlanned(rules, legacy, look);
    }
  }

  lemma PlannedMeansReviewed(rules: Rules, legacy: Legacy, look: Lookup)
    requires Proper(legacy) && look.categories == NewCategories(rules, legacy)
    requires AllPlanned(rules, look, legacy, Origins(rules, legacy))
    ensures Reviewed(rules, legacy) && Unreviewed(rules, legacy, look.cards)
  {
    OneInsertEach(rules, legacy);
    forall row | row in legacy.subs && !IsExcluded(rules, row)
      ensures !IsUnresolved(rules, row)
      ensures if IsMerged(rules, row) then SystemParent(rules, legacy, rules.mergeParent)
              else SystemParent(rules, legacy, row.category) && CardThere(rules, look.cards, row)
    {
      var i :| 0 <= i < |legacy.subs| && legacy.subs[i] == row;
      if IsMerged(rules, row) {
        var into := Of(rules, row).mergeInto.value;
        assert MergedIn(rules, legacy.subs, into);
        assert Planned(rules, look, legacy, FromMerge(into)).Some?;
        MergePlannedIff(rules, legacy, look, into);
      } else {
        assert Planned(rules, look, legacy, FromSystem(i)).Some?;
        SystemPlannedIff(rules, legacy, look, row);
      }
    }
    forall row | row in legacy.userSubs
      ensures !IsVariant(rules, row) && HasParent(rules, legacy, row) && CardThere(rules, look.cards, row)
    {
      var i :| 0 <= i < |legacy.userSubs| && legacy.userSubs[i] == row;
      assert Planned(rules, look, legacy, FromClient(i)).Some?;
      ClientPlannedIff(rules, legacy, look, row);
    }
  }

  lemma ReviewedMeansPlanned(rules: Rules, legacy: Legacy, look: Lookup)
    requires Proper(legacy) && look.categories == NewCategories(rules, legacy)
    requires Reviewed(rules, legacy) && Unreviewed(rules, legacy, look.cards)
    ensures AllPlanned(rules, look, legacy, Origins(rules, legacy))
  {
    OneInsertEach(rules, legacy);
    forall o | o in Origins(rules, legacy) ensures Planned(rules, look, legacy, o).Some? {
      match o
      case FromSystem(i) =>
        assert legacy.subs[i] in legacy.subs && !IsExcluded(rules, legacy.subs[i]) && !IsMerged(rules, legacy.subs[i]);
        SystemPlannedIff(rules, legacy, look, legacy.subs[i]);
      case FromMerge(into) =>
        assert MergedIn(rules, legacy.subs, into);
        MergePlannedIff(rules, legacy, look, into);
      case FromClient(i) =>
        assert legacy.userSubs[i] in legacy.userSubs;
        ClientPlannedIff(rules, legacy, look, legacy.userSubs[i]);
    }
  }

  /** A clean review does not suffice, under any rules: one default row of a private category that is not excluded,
      with no default category of that name, passes the review, whose parent check covers CLIENT rows only, and then
      stops the apply pass. */
  lemma CleanReviewMayFail(rules: Rules, row: LegacySub, db: Tables)
    requires row.category in rules.privateCategories && row.category !in rules.excluded
    requires row.name !in rules.annual && forall m :: m in rules.merges ==> row.name !in m.members
    ensures var legacy := Legacy([], [row], [], []);
            && Proper(legacy) && IsReview(Report([], [], [], []), rules, legacy) && IsClean(Report([], [], [], []))
            && !Applicable(rules, legacy, db)
  {
    var legacy := Legacy([], [row], [], []);
    MergeForIs(rules.merges, row.name);
    assert Of(rules, row) == Private;
    PlannedIffReviewed(rules, legacy, LookupOf(rules, legacy, db));
    assert row in legacy.subs && Included(rules, legacy.categories) == [];
    assert !SystemParent(rules, legacy, row.category);
  }

  // ---- What is inserted ----

  lemma {:induction false} PlannedSubsAre(rules: Rules, look: Lookup, legacy: Legacy, os: seq<Origin>)
    requires AllPlanned(rules, look, legacy, os)
    ensures var subs := PlannedSubs(rules, look, legacy, os);
            |subs| == |os| && forall j :: 0 <= j < |os| ==> Planned(rules, look, legacy, os[j]) == Some(subs[j])
  {
    if os != [] {
      assert AllPlanned(rules, look, legacy, os[..|os| - 1]);
      PlannedSubsAre(rules, look, legacy, os[..|os| - 1]);
    }
  }

  /** The category with this id after the apply. */
  ghost predicate CategoryIs(t: Tables, id: nat, chart: string, name: string) {
    1 <= id <= |t.categories| && t.categories[id - 1].chart == chart && t.categories[id - 1].name == name
  }

  lemma FoundIdIs(t: Tables, base: nat, cs: seq<Category>, chart: string, name: string)
    requires base <= |t.categories| && t.categories[base..] == cs
    ensures var id := IdOf(base, cs, chart, name); id.Some? ==> CategoryIs(t, id.value, chart, name)
  {
    IdOfIs(base, cs, chart, name);
    var id := IdOf(base, cs, chart, name);
    if id.Some? {
      assert t.categories[id.value - 1] == t.categories[base..][id.value - base - 1];
    }
  }

  /** The insert keeps the row's business and name, sits under the business's own category of the old category's
      name or else the default one, and is marked exactly when no card was found for the row. */
  ghost predicate KeepsPlace(rules: Rules, t: Tables, row: LegacySub, s: Sub) {
    && s.chart == ClientChart(row.business) && s.name == row.name
    && (CategoryIs(t, s.categoryId, ClientChart(row.business), row.category)
        || CategoryIs(t, s.categoryId, SYSTEM, row.category))
    && (s.missingMapping <==> Of(rules, row).Unresolved?) && (s.isPrivate <==> Of(rules, row).Private?)
    && (s.annual <==> Of(rules, row).Annual?)
    && s.card == (if Of(rules, row).ToCard? then Some(Of(rules, row).code) else None)
  }

  lemma ClientSubKeepsPlace(rules: Rules, look: Lookup, t: Tables, row: LegacySub)
    requires look.base <= |t.categories| && t.categories[look.base..] == look.categories
    ensures var s := ClientSub(rules, look, row); s.Some? ==> KeepsPlace(rules, t, row, s.value)
  {
    FoundIdIs(t, look.base, look.categories, ClientChart(row.business), row.category);
    FoundIdIs(t, look.base, look.categories, SYSTEM, row.category);
  }

  /** After an apply each CLIENT row has its insert, in its place. */
  lemma ClientRowsKeepTheirPlace(rules: Rules, legacy: Legacy, db: Tables, i: nat)
    requires Applicable(rules, legacy, db) && i < |legacy.userSubs|
    ensures var t := Applied(rules, legacy, db);
            exists s :: s in t.subs[|db.subs|..] && KeepsPlace(rules, t, legacy.userSubs[i], s)
  {
    OneInsertEach(rules, legacy);
    var s := InsertOf(rules, legacy, db, FromClient(i));
    ClientSubKeepsPlace(rules, LookupOf(rules, legacy, db), Applied(rules, legacy, db), legacy.userSubs[i]);
  }

  lemma NewPartsOf(rules: Rules, legacy: Legacy, db: Tables)
    requires Applicable(rules, legacy, db)
    ensures var t := Applied(rules, legacy, db);
            var look := LookupOf(rules, legacy, db);
            && look.base <= |t.categories| && t.categories[look.base..] == look.categories
            && |db.subs| <= |t.subs| && t.subs[|db.subs|..] == PlannedSubs(rules, look, legacy, Origins(rules, legacy))
  {
  }

  /** The insert of an origin in the new tables. */
  lemma InsertOf(rules: Rules, legacy: Legacy, db: Tables, o: Origin) returns (s: Sub)
    requires Applicable(rules, legacy, db) && o in Origins(rules, legacy)
    ensures var t := Applied(rules, legacy, db);
            var look := LookupOf(rules, legacy, db);
            && look.base <= |t.categories| && t.categories[look.base..] == look.categories
            && s in t.subs[|db.subs|..] && Planned(rules, look, legacy, o) == Some(s)
  {
    NewPartsOf(rules, legacy, db);
    s := PlannedInsert(rules, LookupOf(rules, legacy, db), legacy, Origins(rules, legacy), o);
  }

  lemma PlannedInsert(rules: Rules, look: Lookup, legacy: Legacy, os: seq<Origin>, o: Origin) returns (s: Sub)
    requires AllPlanned(rules, look, legacy, os) && o in os
    ensures s in PlannedSubs(rules, look, legacy, os) && Planned(rules, look, legacy, o) == Some(s)
  {
    PlannedSubsAre(rules, look, legacy, os);
    var j :| 0 <= j < |os| && os[j] == o;
    s := PlannedSubs(rules, look, legacy, os)[j];
  }

  /** The insert keeps the default row's name, under the default category of its old category's name, private, annual
      or with its card as the rules say. */
  ghost predicate KeepsDefaultPlace(rules: Rules, t: Tables, row: LegacySub, s: Sub) {
    && s.chart == SYSTEM && s.name == row.name && CategoryIs(t, s.categoryId, SYSTEM, row.category) && !s.missingMapping
    && (s.isPrivate <==> Of(rules, row).Private?) && (s.annual <==> Of(rules, row).Annual?)
    && s.card == (if Of(rules, row).ToCard? then Some(Of(rules, row).code) else None)
  }

  lemma SystemSubKeepsPlace(rules: Rules, look: Lookup, t: Tables, row: LegacySub)
    requires look.base <= |t.categories| && t.categories[look.base..] == look.categories
    ensures var s := SystemSub(rules, look, row); s.Some? ==> KeepsDefaultPlace(rules, t, row, s.value)
  {
    FoundIdIs(t, look.base, look.categories, SYSTEM, row.category);
  }

  /** After an apply each kept default row has its insert, in its place. */
  lemma SystemRowsKeepTheirPlace(rules: Rules, legacy: Legacy, db: Tables, i: nat)
    requires Applicable(rules, legacy, db) && i < |legacy.subs|
    requires !IsExcluded(rules, legacy.subs[i]) && !IsMerged(rules, legacy.subs[i])
    ensures var t := Applied(rules, legacy, db);
            exists s :: s in t.subs[|db.subs|..] && KeepsDefaultPlace(rules, t, legacy.subs[i], s)
  {
    OneInsertEach(rules, legacy);
    var s := InsertOf(rules, legacy, db, FromSystem(i));
    SystemSubKeepsPlace(rules, LookupOf(rules, legacy, db), Applied(rules, legacy, db), legacy.subs[i]);
  }

  /** After an apply each merge group with a row in it has its one annual insert under the groups' category. */
  lemma MergeGroupsHaveTheirRow(rules: Rules, legacy: Legacy, db: Tables, into: string)
    requires Applicable(rules, legacy, db) && MergedIn(rules, legacy.subs, into)
    ensures var t := Applied(rules, legacy, db);
            exists s :: s in t.subs[|db.subs|..] && CategoryIs(t, s.categoryId, SYSTEM, rules.mergeParent)
                        && s == Sub(SYSTEM, s.categoryId, into, false, None, true, false)
  {
    OneInsertEach(rules, legacy);
    var s := InsertOf(rules, legacy, db, FromMerge(into));
    var look := LookupOf(rules, legacy, db);
    FoundIdIs(Applied(rules, legacy, db), look.base, look.categories, SYSTEM, rules.mergeParent);
  }

  /** How many default rows are neither excluded nor merged, and which merge groups have a row. */
  function KeptCount(rules: Rules, rows: seq<LegacySub>): nat {
    if rows == [] then 0
    else
      var row := rows[|rows| - 1];
      KeptCount(rules, rows[..|rows| - 1]) + (if IsExcluded(rules, row) || IsMerged(rules, row) then 0 else 1)
  }

  function Groups(rules: Rules, rows: seq<LegacySub>): set<string> {
    if rows == [] then {}
    else
      var row := rows[|rows| - 1];
      Groups(rules, rows[..|rows| - 1]) + (if IsMerged(rules, row) then {Of(rules, row).mergeInto.value} else {})
  }

  lemma {:induction false} SystemOriginsCount(rules: Rules, rows: seq<LegacySub>)
    ensures forall into :: FromMerge(into) in SystemOrigins(rules, rows) <==> into in Groups(rules, rows)
    ensures |SystemOrigins(rules, rows)| == KeptCount(rules, rows) + |Groups(rules, rows)|
  {
    if rows != [] {
      var init, row := rows[..|rows| - 1], rows[|rows| - 1];
      SystemOriginsCount(rules, init);
      if IsMerged(rules, row) {
        var into := Of(rules, row).mergeInto.value;
        if into in Groups(rules, init) { assert Groups(rules, rows) == Groups(rules, init); }
      } else {
        assert Groups(rules, rows) == Groups(rules, init);
      }
    }
  }

  /** An apply adds one row per CLIENT row, kept default row and merge group in use, and nothing else. */
  lemma InsertedCount(rules: Rules, legacy: Legacy, db: Tables)
    requires Applicable(rules, legacy, db)
    ensures var t := Applied(rules, legacy, db);
            && db.subs <= t.subs
            && |t.subs| == |db.subs| + |legacy.userSubs| + KeptCount(rules, legacy.subs) + |Groups(rules, legacy.subs)|
  {
    PlannedSubsAre(rules, LookupOf(rules, legacy, db), legacy, Origins(rules, legacy));
    SystemOriginsCount(rules, legacy.subs);
    ClientOriginsAre(|legacy.userSubs|);
  }
}
