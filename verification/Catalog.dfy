/** The catalog service over its tables: each method changes them exactly as the specification says. */
module Catalog {
  import opened Common
  import opened Charts
  import opened Text
  import opened Precedence
  import opened AccountCodes
  import opened CatalogSpec

  class CatalogService {
    var categories: seq<Category>
    var subs: seq<SubCategory>
    var accounts: seq<Account>
    var sections: seq<Section>

    ghost function Contents(): Tables reads this { Tables(categories, subs, accounts, sections) }

    constructor (categories: seq<Category>, subs: seq<SubCategory>, accounts: seq<Account>, sections: seq<Section>)
      ensures Contents() == Tables(categories, subs, accounts, sections)
    {
      this.categories, this.subs, this.accounts, this.sections := categories, subs, accounts, sections;
    }

    method FindOrCreateCategory(chart: string, name: string, kind: Kind) returns (r: Result<nat, Error>)
      modifies this`categories
      ensures var expected := EnsureCategory(old(Contents()), chart, name, kind);
              && Contents() == (if expected.Ok? then expected.value.0 else old(Contents()))
              && r == (if expected.Ok? then Ok(expected.value.1) else Err(expected.error))
    {
      var trimmed := Trim(name);
      if trimmed == "" { return Err(BadRequest); }
      var existing := FindCategory(categories, chart, trimmed, kind, true);
      if existing.Some? { return Ok(categories[existing.value].id); }
      if FindCategory(categories, chart, trimmed, kind, false).Some? { return Err(Duplicate); }
      var id := |categories| + 1;
      categories := categories + [Category(id, trimmed, kind, chart, true)];
      return Ok(id);
    }

    method FindOrCreateVariantAccount(scope: Scope, law: Law, base: Option<nat>, categoryName: string)
      returns (r: Result<Option<nat>, Error>)
      modifies this`accounts
      ensures var expected := VariantAccount(old(Contents()), scope, law, base, categoryName);
              && Contents() == (if expected.Ok? then expected.value.0 else old(Contents()))
              && r == (if expected.Ok? then Ok(expected.value.1) else Err(expected.error))
    {
      var existing := FindByLaw(accounts, scope.chart, law);
      if existing.Some? { return Ok(Some(accounts[existing.value].id)); }
      var section: Option<nat> := None;
      if base.Some? && 1 <= base.value <= |accounts| && accounts[base.value - 1].sectionId.Some? {
        section := accounts[base.value - 1].sectionId;
      } else if Trim(categoryName) != "" {
        section := SystemSection(sections, Trim(categoryName));
      }
      if section.None? { return Ok(None); }
      var code := NextCode(CodesOf(accounts, scope.chart), scope.owner, Expense);
      if code.None? { return Err(Exhausted); }
      var id := |accounts| + 1;
      accounts := accounts + [Account(id, code.value, scope.chart, true, Some(law), section)];
      return Ok(Some(id));
    }

    /** The save of a new sub-category. */
    method SaveSubCategory(scope: Scope, categoryId: nat, name: string, systemKey: Option<string>, isPrivate: bool,
                           accountId: Option<nat>, approval: Approval)
      returns (r: Result<nat, Error>)
      modifies this`subs
      ensures var expected := InsertSub(old(Contents()), scope, categoryId, name, systemKey, isPrivate, accountId,
                                        approval);
              && Contents() == (if expected.Ok? then expected.value.0 else old(Contents()))
              && r == (if expected.Ok? then Ok(expected.value.1) else Err(expected.error))
    {
      var trimmed := Trim(name);
      if FindSub(subs, scope.chart, categoryId, trimmed, false).Some? { return Err(Duplicate); }
      if systemKey.Some? && HasKey(subs, systemKey) { return Err(Duplicate); }
      if !isPrivate && accountId.Some? && !(1 <= accountId.value <= |accounts|) { return Err(BadRequest); }
      var id := |subs| + 1;
      subs := subs + [SubCategory(id, categoryId, trimmed, isPrivate, if isPrivate then None else accountId,
                                  scope.chart, approval, systemKey, true)];
      return Ok(id);
    }

    method CreateSubCategory(scope: Scope, categoryId: nat, name: string, input: NewSub) returns (r: Result<nat, Error>)
      modifies this`subs, this`accounts
      ensures (Contents(), r) == CreateSub(old(Contents()), scope, categoryId, name, input)
    {
      var trimmed := Trim(name);
      if trimmed == "" { return Err(BadRequest); }
      if trimmed == DIRECT_CARD && (!scope.owner.System? || input.systemKey != Some(DIRECT_KEY)) {
        return Err(BadRequest);
      }
      if !(1 <= categoryId <= |categories|) { return Err(BadRequest); }
      var accountId := input.accountId;
      var approval := Approved;
      if input.isPrivate {
      } else if accountId.None? && input.law.Some? {
        var base := SystemBase(subs, trimmed);
        var account := FindOrCreateVariantAccount(scope, input.law.value, base, categories[categoryId - 1].name);
        if account.Err? { return Err(account.error); }
        if account.value.Some? { accountId := account.value; } else { approval := MissingMapping; }
      } else if accountId.None? {
        approval := MissingMapping;
      }
      r := SaveSubCategory(scope, categoryId, name, input.systemKey, input.isPrivate, accountId, approval);
    }

    method UpdateSubCategoryLaw(subId: nat, scope: Scope, law: Law) returns (r: Result<nat, Error>)
      modifies this`subs, this`accounts
      ensures (Contents(), r) == UpdateLaw(old(Contents()), subId, scope, law)
    {
      if !(1 <= subId <= |subs|) { return Err(BadRequest); }
      var sub := subs[subId - 1];
      if sub.systemKey.Some? { return Err(BadRequest); }
      var base := sub.accountId;
      if base.None? { base := SystemBase(subs, Trim(sub.name)); }
      var categoryName := if 1 <= sub.categoryId <= |categories| then categories[sub.categoryId - 1].name else "";
      assert (base, categoryName) == UpdateBase(Contents(), subId);
      var account := FindOrCreateVariantAccount(scope, law, base, categoryName);
      if account.Err? { return Err(account.error); }
      // The loaded card wins over the assigned id.
      var stored := if sub.accountId.Some? then sub.accountId else account.value;
      subs := subs[subId - 1 := sub.(accountId := stored,
                                     approval := if account.value.Some? then Approved else MissingMapping)];
      return Ok(subId);
    }

    /** A category made before a later failure stays: there is no transaction. */
    method RepointSubCategoryAccount(subId: nat, accountId: nat, ctx: Context) returns (r: Result<nat, Error>)
      modifies this
      ensures (Contents(), r) == Repoint(old(Contents()), subId, accountId, ctx)
    {
      if !(1 <= subId <= |subs|) || subs[subId - 1].chart !in ChartOwnerKeys(ctx) { return Err(NotFound); }
      var sub := subs[subId - 1];
      if sub.isPrivate { return Err(BadRequest); }
      if !(1 <= accountId <= |accounts|) || !accounts[accountId - 1].active
         || accounts[accountId - 1].chart !in ChartOwnerKeys(ctx) {
        return Err(NotFound);
      }
      if ctx.business.None? || sub.chart != ClientChart(ctx.business.value) {
        if ctx.business.None? || !(1 <= sub.categoryId <= |categories|) { return Err(BadRequest); }
        r := OverrideForClient(ClientChart(ctx.business.value), categories[sub.categoryId - 1], sub.name, accountId);
        return;
      }
      subs := subs[subId - 1 := sub.(accountId := Some(accountId), approval := Approved)];
      return Ok(subId);
    }

    method RemoveCategory(id: nat) returns (r: Result<nat, Error>)
      modifies this`categories
      ensures (Contents(), r) == DeleteCategory(old(Contents()), id)
    {
      if !(1 <= id <= |categories|) { return Err(NotFound); }
      if HoldsDirectCard(subs, id) { return Err(BadRequest); }
      categories := categories[id - 1 := categories[id - 1].(active := false)];
      return Ok(id);
    }

    method RemoveSubCategory(id: nat) returns (r: Result<nat, Error>)
      modifies this`subs
      ensures (Contents(), r) == DeleteSub(old(Contents()), id)
    {
      if !(1 <= id <= |subs|) { return Err(NotFound); }
      if subs[id - 1].systemKey.Some? { return Err(BadRequest); }
      subs := subs[id - 1 := subs[id - 1].(active := false)];
      return Ok(id);
    }

    method OverrideForClient(chart: string, parent: Category, name: string, accountId: nat)
      returns (r: Result<nat, Error>)
      modifies this
      ensures (Contents(), r) == OverrideInClient(old(Contents()), chart, parent, name, accountId)
    {
      var category := FindOrCreateCategory(chart, parent.name, parent.kind);
      if category.Err? { return Err(category.error); }
      var existing := FindSub(subs, chart, category.value, name, true);
      if existing.Some? {
        r := Ok(subs[existing.value].id);
        subs := subs[existing.value := subs[existing.value].(accountId := Some(accountId), approval := Approved)];
      } else {
        r := CreateSubCategory(Scope(Client, chart), category.value, name, NewSub(None, false, None, Some(accountId)));
      }
    }
  }
}
