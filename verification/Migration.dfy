/** The migration script: a review of the legacy rows, then an apply that either goes through or leaves no trace. */
module Migration {
  import opened Common
  import opened Charts
  import opened MigrationSpec

  // ---- Steps of the loops ----

  lemma ThoseGrow(numbers: seq<nat>, rows: seq<LegacySub>, row: LegacySub, p: LegacySub -> bool)
    requires ExactlyThose(numbers, rows, p)
    ensures ExactlyThose(if p(row) then numbers + [|rows|] else numbers, rows + [row], p)
  {
    assert forall j :: 0 <= j < |numbers| ==> numbers[j] in numbers;
    assert forall i: nat :: i in numbers + [|rows|] <==> i in numbers || i == |rows|;
  }

  lemma NewGrows<T(!new)>(there: seq<T>, added: seq<T>, x: T)
    ensures AllNew(there, added + [x]) <==> AllNew(there, added) && x !in there && x !in added
  {
    var all := added + [x];
    assert all[|added|] == x && all[..|added|] == added;
    assert forall j :: 0 <= j < |added| ==> all[j] == added[j] && all[..j] == added[..j];
  }

  lemma {:induction false} NewPrefix<T(!new)>(there: seq<T>, added: seq<T>, more: seq<T>)
    requires AllNew(there, added + more)
    ensures AllNew(there, added)
  {
    forall j | 0 <= j < |added| ensures added[j] !in there && added[j] !in added[..j] {
      assert (added + more)[j] == added[j] && (added + more)[..j] == added[..j];
    }
  }

  lemma {:induction false} KeysOfTwo(a: seq<Sub>, b: seq<Sub>)
    ensures SubKeys(a + b) == SubKeys(a) + SubKeys(b)
    decreases |b|
  {
    if b == [] {
      assert a + b == a;
    } else {
      assert (a + b)[..|a + b| - 1] == a + b[..|b| - 1];
      KeysOfTwo(a, b[..|b| - 1]);
    }
  }

  /** One more insert succeeds exactly when it is planned and its key is free. */
  lemma InsertableGrows(rules: Rules, look: Lookup, legacy: Legacy, there: seq<Sub>, os: seq<Origin>, o: Origin)
    requires Insertable(rules, look, legacy, there, os)
    ensures var planned := Planned(rules, look, legacy, o);
            var subs := there + PlannedSubs(rules, look, legacy, os);
            && (Insertable(rules, look, legacy, there, os + [o]) <==>
                planned.Some? && SubKey(planned.value) !in SubKeys(subs))
            && (planned.Some? ==> AllPlanned(rules, look, legacy, os + [o])
                                  && there + PlannedSubs(rules, look, legacy, os + [o]) == subs + [planned.value])
  {
    assert (os + [o])[|os|] == o;
    var planned := Planned(rules, look, legacy, o);
    if planned.Some? {
      OneMorePlanned(rules, look, legacy, os, o);
      FreeKey(there, PlannedSubs(rules, look, legacy, os), planned.value);
    } else {
      assert o in os + [o];
    }
  }

  lemma OneMorePlanned(rules: Rules, look: Lookup, legacy: Legacy, os: seq<Origin>, o: Origin)
    requires AllPlanned(rules, look, legacy, os) && Planned(rules, look, legacy, o).Some?
    ensures AllPlanned(rules, look, legacy, os + [o])
    ensures PlannedSubs(rules, look, legacy, os + [o]) ==
            PlannedSubs(rules, look, legacy, os) + [Planned(rules, look, legacy, o).value]
  {
    assert (os + [o])[..|os|] == os;
  }

  lemma FreeKey(there: seq<Sub>, before: seq<Sub>, s: Sub)
    ensures AllNew(SubKeys(there), SubKeys(before + [s])) <==>
            AllNew(SubKeys(there), SubKeys(before)) && SubKey(s) !in SubKeys(there + before)
    ensures there + (before + [s]) == (there + before) + [s]
  {
    KeysOfTwo(there, before);
    assert (before + [s])[..|before|] == before;
    NewGrows(SubKeys(there), SubKeys(before), SubKey(s));
  }

  lemma {:induction false} PlannedOfTwo(rules: Rules, look: Lookup, legacy: Legacy, os: seq<Origin>, more: seq<Origin>)
    requires AllPlanned(rules, look, legacy, os + more)
    ensures AllPlanned(rules, look, legacy, os) && AllPlanned(rules, look, legacy, more)
    ensures PlannedSubs(rules, look, legacy, os + more) ==
            PlannedSubs(rules, look, legacy, os) + PlannedSubs(rules, look, legacy, more)
    decreases |more|
  {
    var all := os + more;
    assert forall o :: o in os ==> o in all;
    assert forall o :: o in more ==> o in all;
    if more == [] {
      assert all == os;
    } else {
      var init := more[..|more| - 1];
      assert all[..|all| - 1] == os + init;
      assert AllPlanned(rules, look, legacy, os + init);
      PlannedOfTwo(rules, look, legacy, os, init);
    }
  }

  lemma InsertablePrefix(rules: Rules, look: Lookup, legacy: Legacy, there: seq<Sub>, os: seq<Origin>, more: seq<Origin>)
    requires Insertable(rules, look, legacy, there, os + more)
    ensures Insertable(rules, look, legacy, there, os)
  {
    PlannedOfTwo(rules, look, legacy, os, more);
    KeysOfTwo(PlannedSubs(rules, look, legacy, os), PlannedSubs(rules, look, legacy, more));
    NewPrefix(SubKeys(there), SubKeys(PlannedSubs(rules, look, legacy, os)),
              SubKeys(PlannedSubs(rules, look, legacy, more)));
  }

  /** Some list of origins extends another. */
  lemma {:induction false} SystemOriginsExtend(rules: Rules, rows: seq<LegacySub>, i: nat) returns (more: seq<Origin>)
    requires i <= |rows|
    ensures SystemOrigins(rules, rows) == SystemOrigins(rules, rows[..i]) + more
    decreases |rows| - i
  {
    if i == |rows| {
      assert rows[..i] == rows;
      more := [];
    } else {
      var rest := SystemOriginsExtend(rules, rows, i + 1);
      var step := SystemStep(rules, rows[..i], rows[i]);
      assert rows[..i + 1] == rows[..i] + [rows[i]];
      more := step + rest;
    }
  }

  lemma SystemStep(rules: Rules, rows: seq<LegacySub>, row: LegacySub) returns (step: seq<Origin>)
    ensures SystemOrigins(rules, rows + [row]) == SystemOrigins(rules, rows) + step
    ensures IsExcluded(rules, row) ==> step == []
    ensures IsMerged(rules, row) ==>
              var o := FromMerge(Of(rules, row).mergeInto.value);
              step == if o in SystemOrigins(rules, rows) then [] else [o]
    ensures !IsExcluded(rules, row) && !IsMerged(rules, row) ==> step == [FromSystem(|rows|)]
  {
    assert (rows + [row])[..|rows|] == rows;
    if IsExcluded(rules, row) {
      step := [];
    } else if IsMerged(rules, row) {
      var o := FromMerge(Of(rules, row).mergeInto.value);
      step := if o in SystemOrigins(rules, rows) then [] else [o];
    } else {
      step := [FromSystem(|rows|)];
    }
  }

  lemma {:induction false} ClientOriginsExtend(n: nat, i: nat) returns (more: seq<Origin>)
    requires i <= n
    ensures ClientOrigins(n) == ClientOrigins(i) + more
  {
    if i == n {
      more := [];
    } else {
      var rest := ClientOriginsExtend(n - 1, i);
      more := rest + [FromClient(n - 1)];
    }
  }

  lemma ClientStep(system: seq<Origin>, i: nat)
    ensures (system + ClientOrigins(i)) + [FromClient(i)] == system + ClientOrigins(i + 1)
  {
  }

  lemma NoClients(system: seq<Origin>)
    ensures system + ClientOrigins(0) == system
  {
  }

  /** An origin that cannot be inserted after those of the first default rows dooms the plan. */
  lemma StuckSystem(rules: Rules, look: Lookup, legacy: Legacy, there: seq<Sub>, i: nat)
    requires i <= |legacy.subs|
    requires !Insertable(rules, look, legacy, there, SystemOrigins(rules, legacy.subs[..i]))
    ensures !Insertable(rules, look, legacy, there, Origins(rules, legacy))
  {
    var more := SystemOriginsExtend(rules, legacy.subs, i);
    var os := SystemOrigins(rules, legacy.subs[..i]);
    assert Origins(rules, legacy) == os + (more + ClientOrigins(|legacy.userSubs|));
    if Insertable(rules, look, legacy, there, Origins(rules, legacy)) {
      InsertablePrefix(rules, look, legacy, there, os, more + ClientOrigins(|legacy.userSubs|));
    }
  }

  lemma StuckClient(rules: Rules, look: Lookup, legacy: Legacy, there: seq<Sub>, i: nat)
    requires i <= |legacy.userSubs|
    requires !Insertable(rules, look, legacy, there, SystemOrigins(rules, legacy.subs) + ClientOrigins(i))
    ensures !Insertable(rules, look, legacy, there, Origins(rules, legacy))
  {
    var more := ClientOriginsExtend(|legacy.userSubs|, i);
    var os := SystemOrigins(rules, legacy.subs) + ClientOrigins(i);
    assert Origins(rules, legacy) == os + more;
    if Insertable(rules, look, legacy, there, Origins(rules, legacy)) {
      InsertablePrefix(rules, look, legacy, there, os, more);
    }
  }

  function Get(ids: map<(string, string), nat>, chart: string, name: string): Option<nat> {
    if (chart, name) in ids then Some(ids[(chart, name)]) else None
  }

  /** The map holds the ids of these categories. */
  ghost predicate Holds(ids: map<(string, string), nat>, base: nat, cs: seq<Category>) {
    forall chart, name :: Get(ids, chart, name) == IdOf(base, cs, chart, name)
  }

  lemma HoldsMore(ids: map<(string, string), nat>, base: nat, cs: seq<Category>, c: Category)
    requires Holds(ids, base, cs)
    ensures Holds(ids[(c.chart, c.name) := base + |cs| + 1], base, cs + [c])
  {
    var more := ids[(c.chart, c.name) := base + |cs| + 1];
    assert (cs + [c])[..|cs|] == cs;
    forall chart, name ensures Get(more, chart, name) == IdOf(base, cs + [c], chart, name) {
      assert Get(ids, chart, name) == IdOf(base, cs, chart, name);
    }
  }

  /** The categories inserted so far, with the map of their ids. */
  ghost predicate CategoriesSaved(now: seq<Category>, ids: map<(string, string), nat>, base: nat, there: seq<Category>,
                                  added: seq<Category>) {
    base == |there| && now == there + added && Holds(ids, base, added) && AllNew(there, added)
  }

  lemma CategoryStep(now: seq<Category>, ids: map<(string, string), nat>, base: nat, there: seq<Category>,
                     done: seq<Category>, c: Category)
    requires CategoriesSaved(now, ids, base, there, done)
    ensures AllNew(there, done + [c]) <==> c !in now
    ensures c !in now ==> CategoriesSaved(now + [c], ids[(c.chart, c.name) := |now| + 1], base, there, done + [c])
  {
    NewGrows(there, done, c);
    HoldsMore(ids, base, done, c);
    assert there + (done + [c]) == now + [c];
  }

  lemma CategoriesOneMore(before: seq<Category>, added: seq<LegacyCategory>, i: nat)
    requires i < |added|
    ensures before + CategoriesOf(added[..i + 1]) == before + CategoriesOf(added[..i]) + [CategoryOf(added[i])]
  {
    assert added[..i + 1][..i] == added[..i];
  }

  /** The sub-categories inserted so far. */
  ghost predicate SubsSaved(now: seq<Sub>, rules: Rules, look: Lookup, legacy: Legacy, there: seq<Sub>,
                            os: seq<Origin>) {
    Insertable(rules, look, legacy, there, os) && now == there + PlannedSubs(rules, look, legacy, os)
  }

  lemma NothingSaved(rules: Rules, look: Lookup, legacy: Legacy, there: seq<Sub>)
    ensures SubsSaved(there, rules, look, legacy, there, [])
  {
  }

  ghost predicate MergesDone(merged: set<string>, os: seq<Origin>) {
    forall into :: into in merged <==> FromMerge(into) in os
  }

  // ---- The script ----

  method Review(rules: Rules, legacy: Legacy) returns (r: Report)
    ensures IsReview(r, rules, legacy)
  {
    var unresolved: seq<nat> := [];
    for i := 0 to |legacy.subs|
      invariant ExactlyThose(unresolved, legacy.subs[..i], row => IsUnresolved(rules, row))
    {
      var row := legacy.subs[i];
      ThoseGrow(unresolved, legacy.subs[..i], row, row => IsUnresolved(rules, row));
      assert legacy.subs[..i] + [row] == legacy.subs[..i + 1];
      if row.category in rules.excluded { continue; }
      if Of(rules, row).Unresolved? { unresolved := unresolved + [i]; }
    }
    var variants, unmatched, missing := ReviewUserSubs(rules, legacy);
    assert legacy.subs[..|legacy.subs|] == legacy.subs;
    return Report(unresolved, variants, unmatched, missing);
  }

  ghost predicate UserReport(variants: seq<nat>, unmatched: seq<nat>, missing: seq<nat>, rules: Rules, legacy: Legacy,
                             rows: seq<LegacySub>) {
    && ExactlyThose(variants, rows, row => IsVariant(rules, row))
    && ExactlyThose(unmatched, rows, row => !HasParent(rules, legacy, row))
    && ExactlyThose(missing, rows, row => Of(rules, row).Unresolved?)
  }

  lemma UserReportGrows(variants: seq<nat>, unmatched: seq<nat>, missing: seq<nat>, rules: Rules, legacy: Legacy,
                        rows: seq<LegacySub>, row: LegacySub)
    requires UserReport(variants, unmatched, missing, rules, legacy, rows)
    ensures UserReport(if IsVariant(rules, row) then variants + [|rows|] else variants,
                       if HasParent(rules, legacy, row) then unmatched else unmatched + [|rows|],
                       if Of(rules, row).Unresolved? then missing + [|rows|] else missing, rules, legacy, rows + [row])
  {
    ThoseGrow(variants, rows, row, row => IsVariant(rules, row));
    ThoseGrow(unmatched, rows, row, row => !HasParent(rules, legacy, row));
    ThoseGrow(missing, rows, row, row => Of(rules, row).Unresolved?);
  }

  method ReviewUserSubs(rules: Rules, legacy: Legacy)
    returns (variants: seq<nat>, unmatched: seq<nat>, missing: seq<nat>)
    ensures UserReport(variants, unmatched, missing, rules, legacy, legacy.userSubs)
  {
    variants, unmatched, missing := [], [], [];
    for i := 0 to |legacy.userSubs|
      invariant UserReport(variants, unmatched, missing, rules, legacy, legacy.userSubs[..i])
    {
      var row := legacy.userSubs[i];
      UserReportGrows(variants, unmatched, missing, rules, legacy, legacy.userSubs[..i], row);
      assert legacy.userSubs[..i] + [row] == legacy.userSubs[..i + 1];
      var d := Of(rules, row);
      if d.Unresolved? { missing := missing + [i]; }
      if !HasParent(rules, legacy, row) { unmatched := unmatched + [i]; }
      if d.ToCard? {
        var target := ByCode(rules.chart, d.code);
        if target.Some? && target.value.law.Some? && target.value.law.value != row.percents {
          variants := variants + [i];
        }
      }
    }
    assert legacy.userSubs[..|legacy.userSubs|] == legacy.userSubs;
  }

  class Script {
    var categories: seq<Category>
    var subs: seq<Sub>
    var cards: seq<string>

    ghost function Contents(): Tables reads this { Tables(categories, subs, cards) }

    constructor (db: Tables)
      ensures Contents() == db
    {
      categories, subs, cards := db.categories, db.subs, db.cards;
    }

    method EnsureTechnical(rules: Rules) returns (ok: bool)
      modifies this`cards
      ensures ok == TechnicalKnown(rules, old(cards))
      ensures ok ==> cards == EnsureCards(old(cards), rules.technical)
    {
      for i := 0 to |rules.technical|
        invariant cards == EnsureCards(old(cards), rules.technical[..i])
        invariant forall code :: code in rules.technical[..i] ==> code in old(cards) || ByCode(rules.chart, code).Some?
      {
        var code := rules.technical[i];
        EnsuredAre(old(cards), rules.technical[..i]);
        assert rules.technical[..i + 1] == rules.technical[..i] + [code];
        assert rules.technical[..i + 1][..i] == rules.technical[..i];
        if code in cards { continue; }
        if ByCode(rules.chart, code).None? { return false; }
        cards := cards + [code];
      }
      assert rules.technical[..|rules.technical|] == rules.technical;
      return true;
    }

    /** One category insert, refused by the unique index if its key is there. */
    method SaveCategory(c: Category, ids: map<(string, string), nat>, base: nat, ghost there: seq<Category>,
                        ghost done: seq<Category>)
      returns (ok: bool, updated: map<(string, string), nat>)
      requires CategoriesSaved(categories, ids, base, there, done)
      modifies this`categories
      ensures ok <==> AllNew(there, done + [c])
      ensures ok ==> CategoriesSaved(categories, updated, base, there, done + [c])
    {
      CategoryStep(categories, ids, base, there, done, c);
      if c in categories { return false, ids; }
      categories := categories + [c];
      return true, ids[(c.chart, c.name) := |categories|];
    }

    method SaveCategories(added: seq<LegacyCategory>, ids: map<(string, string), nat>, base: nat,
                          ghost there: seq<Category>, ghost before: seq<Category>)
      returns (ok: bool, updated: map<(string, string), nat>)
      requires CategoriesSaved(categories, ids, base, there, before)
      modifies this`categories
      ensures ok <==> AllNew(there, before + CategoriesOf(added))
      ensures ok ==> CategoriesSaved(categories, updated, base, there, before + CategoriesOf(added))
    {
      updated := ids;
      assert before + CategoriesOf(added[..0]) == before;
      for i := 0 to |added|
        invariant CategoriesSaved(categories, updated, base, there, before + CategoriesOf(added[..i]))
      {
        CategoriesOneMore(before, added, i);
        ok, updated := SaveCategory(CategoryOf(added[i]), updated, base, there, before + CategoriesOf(added[..i]));
        if !ok {
          StuckCategory(there, before, added, i + 1);
          return;
        }
      }
      assert added[..|added|] == added;
      ok := true;
    }

    /** One sub-category insert, for a plan that may be missing or refused by the unique index. */
    method SaveSub(planned: Option<Sub>, ghost rules: Rules, ghost look: Lookup, ghost legacy: Legacy,
                   ghost there: seq<Sub>, ghost os: seq<Origin>, ghost o: Origin)
      returns (ok: bool)
      requires SubsSaved(subs, rules, look, legacy, there, os) && planned == Planned(rules, look, legacy, o)
      modifies this`subs
      ensures ok <==> Insertable(rules, look, legacy, there, os + [o])
      ensures ok ==> SubsSaved(subs, rules, look, legacy, there, os + [o])
    {
      InsertableGrows(rules, look, legacy, there, os, o);
      if planned.None? { return false; }
      if SubKey(planned.value) in SubKeys(subs) { return false; }
      subs := subs + [planned.value];
      return true;
    }

    /** The insert for a default row or its merge group. */
    method PlanSystem(rules: Rules, row: LegacySub, ids: map<(string, string), nat>, ghost look: Lookup)
      returns (planned: Option<Sub>)
      requires cards == look.cards && Holds(ids, look.base, look.categories) && !IsExcluded(rules, row)
      ensures planned == if IsMerged(rules, row) then MergedSub(rules, look, Of(rules, row).mergeInto.value)
              else SystemSub(rules, look, row)
    {
      var d := Of(rules, row);
      if d.Unresolved? { return None; }
      if d.Annual? && d.mergeInto.Some? {
        var parent := Get(ids, SYSTEM, rules.mergeParent);
        return if parent.None? then None
               else Some(Sub(SYSTEM, parent.value, d.mergeInto.value, false, None, true, false));
      }
      return SubFor(cards, SYSTEM, Get(ids, SYSTEM, row.category), row.name, d, false);
    }

    method PlanClient(rules: Rules, row: LegacySub, ids: map<(string, string), nat>, ghost look: Lookup)
      returns (planned: Option<Sub>)
      requires cards == look.cards && Holds(ids, look.base, look.categories)
      ensures planned == ClientSub(rules, look, row)
    {
      var d := Of(rules, row);
      if IsVariant(rules, row) { return None; }
      var parent := Get(ids, ClientChart(row.business), row.category);
      if parent.None? { parent := Get(ids, SYSTEM, row.category); }
      return SubFor(cards, ClientChart(row.business), parent, row.name, d, d.Unresolved?);
    }

    method SaveSystemSubs(rules: Rules, legacy: Legacy, ids: map<(string, string), nat>, ghost look: Lookup,
                          ghost there: seq<Sub>)
      returns (ok: bool)
      requires subs == there && cards == look.cards && Holds(ids, look.base, look.categories)
      modifies this`subs
      ensures !ok ==> !Insertable(rules, look, legacy, there, Origins(rules, legacy))
      ensures ok ==> SubsSaved(subs, rules, look, legacy, there, SystemOrigins(rules, legacy.subs))
    {
      var merged: set<string> := {};
      NothingSaved(rules, look, legacy, there);
      assert legacy.subs[..0] == [];
      for i := 0 to |legacy.subs|
        invariant SubsSaved(subs, rules, look, legacy, there, SystemOrigins(rules, legacy.subs[..i]))
        invariant MergesDone(merged, SystemOrigins(rules, legacy.subs[..i]))
      {
        var row := legacy.subs[i];
        ghost var done := SystemOrigins(rules, legacy.subs[..i]);
        ghost var step := SystemStep(rules, legacy.subs[..i], row);
        assert legacy.subs[..i] + [row] == legacy.subs[..i + 1];
        if row.category in rules.excluded { continue; }
        var planned := PlanSystem(rules, row, ids, look);
        if IsMerged(rules, row) {
          var into := Of(rules, row).mergeInto.value;
          if into in merged { continue; }
          ok := SaveSub(planned, rules, look, legacy, there, done, FromMerge(into));
          merged := merged + {into};
        } else {
          ok := SaveSub(planned, rules, look, legacy, there, done, FromSystem(i));
        }
        if !ok {
          StuckSystem(rules, look, legacy, there, i + 1);
          return false;
        }
      }
      assert legacy.subs[..|legacy.subs|] == legacy.subs;
      return true;
    }

    method SaveClientSubs(rules: Rules, legacy: Legacy, ids: map<(string, string), nat>, ghost look: Lookup,
                          ghost there: seq<Sub>)
      returns (ok: bool)
      requires SubsSaved(subs, rules, look, legacy, there, SystemOrigins(rules, legacy.subs))
      requires cards == look.cards && Holds(ids, look.base, look.categories)
      modifies this`subs
      ensures ok <==> Insertable(rules, look, legacy, there, Origins(rules, legacy))
      ensures ok ==> SubsSaved(subs, rules, look, legacy, there, Origins(rules, legacy))
    {
      ghost var system := SystemOrigins(rules, legacy.subs);
      NoClients(system);
      for i := 0 to |legacy.userSubs|
        invariant SubsSaved(subs, rules, look, legacy, there, system + ClientOrigins(i))
      {
        var planned := PlanClient(rules, legacy.userSubs[i], ids, look);
        ok := SaveSub(planned, rules, look, legacy, there, system + ClientOrigins(i), FromClient(i));
        ClientStep(system, i);
        if !ok {
          StuckClient(rules, look, legacy, there, i + 1);
          return false;
        }
      }
      return true;
    }

    /** The transaction of the apply pass. */
    method Apply(rules: Rules, legacy: Legacy) returns (ok: bool)
      modifies this
      ensures ok <==> Applicable(rules, legacy, old(Contents()))
      ensures Contents() == if ok then Applied(rules, legacy, old(Contents())) else old(Contents())
    {
      var oldCategories, oldSubs, oldCards := categories, subs, cards;
      ok := Insert(rules, legacy);
      if !ok {
        categories, subs, cards := oldCategories, oldSubs, oldCards;
      }
    }

    method Insert(rules: Rules, legacy: Legacy) returns (ok: bool)
      modifies this
      ensures ok <==> Applicable(rules, legacy, old(Contents()))
      ensures ok ==> Contents() == Applied(rules, legacy, old(Contents()))
    {
      ghost var db := Contents();
      ghost var look := LookupOf(rules, legacy, db);
      ghost var included := CategoriesOf(Included(rules, legacy.categories));
      ok := EnsureTechnical(rules);
      if !ok { return; }
      var ids: map<(string, string), nat> := map[];
      var base := |categories|;
      assert Holds(ids, base, []) && db.categories + [] == db.categories && [] + included == included;
      ok, ids := SaveCategories(Included(rules, legacy.categories), ids, base, db.categories, []);
      if !ok {
        if Applicable(rules, legacy, db) { NewPrefix(db.categories, included, CategoriesOf(legacy.userCategories)); }
        return;
      }
      ok, ids := SaveCategories(legacy.userCategories, ids, base, db.categories, included);
      if !ok { return; }
      ok := SaveSystemSubs(rules, legacy, ids, look, db.subs);
      if !ok { return; }
      ok := SaveClientSubs(rules, legacy, ids, look, db.subs);
    }

    /** The script: it stops before anything else if an excluded category is in use or a user category bears an
        excluded name; otherwise it reviews, and applies only when asked to. */
    method Run(rules: Rules, legacy: Legacy, excludedInUse: bool, apply: bool)
      returns (report: Option<Report>, applied: bool)
      modifies this
      ensures report.Some? <==> !excludedInUse && forall c :: c in legacy.userCategories ==> c.name !in rules.excluded
      ensures report.Some? ==> IsReview(report.value, rules, legacy)
      ensures applied <==> report.Some? && apply && Applicable(rules, legacy, old(Contents()))
      ensures Contents() == if applied then Applied(rules, legacy, old(Contents())) else old(Contents())
    {
      if excludedInUse || exists c :: c in legacy.userCategories && c.name in rules.excluded { return None, false; }
      var r := Review(rules, legacy);
      report, applied := Some(r), false;
      if apply { applied := Apply(rules, legacy); }
    }
  }

  lemma {:induction false} EnsuredAre(cards: seq<string>, technical: seq<string>)
    ensures forall code :: code in EnsureCards(cards, technical) <==> code in cards || code in technical
  {
    if technical != [] {
      EnsuredAre(cards, technical[..|technical| - 1]);
      assert technical == technical[..|technical| - 1] + [technical[|technical| - 1]];
    }
  }

  lemma {:induction false} CategoriesOfTwo(a: seq<LegacyCategory>, b: seq<LegacyCategory>)
    ensures CategoriesOf(a + b) == CategoriesOf(a) + CategoriesOf(b)
    decreases |b|
  {
    if b == [] {
      assert a + b == a;
    } else {
      assert (a + b)[..|a + b| - 1] == a + b[..|b| - 1];
      CategoriesOfTwo(a, b[..|b| - 1]);
    }
  }

  lemma CategoriesPrefix(before: seq<Category>, added: seq<LegacyCategory>, i: nat) returns (tail: seq<Category>)
    requires i <= |added|
    ensures before + CategoriesOf(added) == (before + CategoriesOf(added[..i])) + tail
  {
    assert added == added[..i] + added[i..];
    CategoriesOfTwo(added[..i], added[i..]);
    tail := CategoriesOf(added[i..]);
  }

  lemma StuckCategory(there: seq<Category>, before: seq<Category>, added: seq<LegacyCategory>, i: nat)
    requires i <= |added| && !AllNew(there, before + CategoriesOf(added[..i]))
    ensures !AllNew(there, before + CategoriesOf(added))
  {
    var tail := CategoriesPrefix(before, added, i);
    NotNewExtends(there, before + CategoriesOf(added[..i]), tail);
  }

  lemma NotNewExtends<T(!new)>(there: seq<T>, added: seq<T>, more: seq<T>)
    requires !AllNew(there, added)
    ensures !AllNew(there, added + more)
  {
    if AllNew(there, added + more) { NewPrefix(there, added, more); }
  }
}
