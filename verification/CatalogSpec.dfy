/** The catalog's tables as a value: resolution by name, repointing a sub-category, and cards by law. */
module CatalogSpec {
  import opened Common
  import opened Charts
  import opened Text
  import opened Precedence
  import opened AccountCodes

  datatype Category = Category(id: nat, name: string, kind: Kind, chart: string, active: bool)

  datatype Approval = Approved | MissingMapping | PendingApproval | Rejected

  datatype SubCategory = SubCategory(
    id: nat, categoryId: nat, name: string, isPrivate: bool, accountId: Option<nat>, chart: string, approval: Approval,
    systemKey: Option<string>, active: bool)

  datatype Law = Law(vat: real, tax: real, reduction: real, isEquipment: bool, recognition: string)

  datatype Account = Account(id: nat, code: string, chart: string, active: bool, law: Option<Law>,
                             sectionId: Option<nat>)

  datatype Section = Section(id: nat, name: string, chart: string, active: bool)

  datatype Tables = Tables(categories: seq<Category>, subs: seq<SubCategory>, accounts: seq<Account>,
                           sections: seq<Section>)

  /** Who a written row belongs to. */
  datatype Scope = Scope(owner: Owner, chart: string)

  datatype Error = NotFound | BadRequest | Duplicate | Exhausted

  const DIRECT_CARD := "כרטיס דיירקט"
  const DIRECT_KEY := "DIRECT_CARD_BANK_PAYMENT"

  /** Ids are table positions counted from 1: no row of these tables is ever deleted. */
  ghost predicate IdsOk(t: Tables) {
    && (forall i :: 0 <= i < |t.categories| ==> t.categories[i].id == i + 1)
    && (forall i :: 0 <= i < |t.subs| ==> t.subs[i].id == i + 1)
    && (forall i :: 0 <= i < |t.accounts| ==> t.accounts[i].id == i + 1)
  }

  /** Foreign keys point at existing rows. */
  ghost predicate LinksOk(t: Tables) {
    && (forall i :: 0 <= i < |t.subs| ==> 1 <= t.subs[i].categoryId <= |t.categories|)
    && (forall i :: 0 <= i < |t.subs| && t.subs[i].accountId.Some? ==> 1 <= t.subs[i].accountId.value <= |t.accounts|)
  }

  predicate Clean(name: string) { name != "" && Trimmed(name) }

  /** Names are stored trimmed. */
  ghost predicate NamesOk(t: Tables) {
    && (forall i :: 0 <= i < |t.categories| ==> Clean(t.categories[i].name))
    && (forall i :: 0 <= i < |t.subs| ==> Clean(t.subs[i].name))
  }

  /** The unique indexes: one category per chart, name and kind; one sub-category per chart, category and name. */
  ghost predicate UniqueOk(t: Tables) {
    && (forall i, j :: 0 <= i < j < |t.categories| ==>
          !(t.categories[i].chart == t.categories[j].chart && t.categories[i].name == t.categories[j].name
            && t.categories[i].kind == t.categories[j].kind))
    && (forall i, j :: 0 <= i < j < |t.subs| ==>
          !(t.subs[i].chart == t.subs[j].chart && t.subs[i].categoryId == t.subs[j].categoryId
            && t.subs[i].name == t.subs[j].name))
  }

  ghost predicate RowsOk(t: Tables) {
    IdsOk(t) && LinksOk(t) && NamesOk(t) && UniqueOk(t)
  }

  // ---- Lookups ----

  /** findOne: the first category of the chart with this name and kind, active or not as asked. */
  function FindCategory(categories: seq<Category>, chart: string, name: string, kind: Kind, onlyActive: bool)
    : Option<nat>
    ensures var i := FindCategory(categories, chart, name, kind, onlyActive);
            i.Some? ==>
              i.value < |categories| && var c := categories[i.value];
              c.chart == chart && c.name == name && c.kind == kind && (onlyActive ==> c.active)
  {
    if categories == [] then None
    else
      var c := categories[0];
      if c.chart == chart && c.name == name && c.kind == kind && (onlyActive ==> c.active) then Some(0)
      else
        var i := FindCategory(categories[1..], chart, name, kind, onlyActive);
        if i.Some? then Some(i.value + 1) else None
  }

  lemma {:induction false} NoCategoryFound(categories: seq<Category>, chart: string, name: string, kind: Kind,
                                           onlyActive: bool)
    ensures FindCategory(categories, chart, name, kind, onlyActive).None? <==>
              forall i :: 0 <= i < |categories| && (onlyActive ==> categories[i].active) ==>
                !IsCategory(categories[i], chart, name, kind)
  {
    if categories != [] {
      NoCategoryFound(categories[1..], chart, name, kind, onlyActive);
      assert forall i :: 0 < i < |categories| ==> categories[i] == categories[1..][i - 1];
    }
  }

  predicate IsCategory(c: Category, chart: string, name: string, kind: Kind) {
    c.chart == chart && c.name == name && c.kind == kind
  }

  function FindSub(subs: seq<SubCategory>, chart: string, categoryId: nat, name: string, onlyActive: bool): Option<nat>
    ensures var i := FindSub(subs, chart, categoryId, name, onlyActive);
            i.Some? ==>
              i.value < |subs| && var s := subs[i.value];
              s.chart == chart && s.categoryId == categoryId && s.name == name && (onlyActive ==> s.active)
  {
    if subs == [] then None
    else
      var s := subs[0];
      if s.chart == chart && s.categoryId == categoryId && s.name == name && (onlyActive ==> s.active) then Some(0)
      else
        var i := FindSub(subs[1..], chart, categoryId, name, onlyActive);
        if i.Some? then Some(i.value + 1) else None
  }

  lemma {:induction false} NoSubFound(subs: seq<SubCategory>, chart: string, categoryId: nat, name: string,
                                      onlyActive: bool)
    ensures FindSub(subs, chart, categoryId, name, onlyActive).None? <==>
              forall i :: 0 <= i < |subs| && (onlyActive ==> subs[i].active) ==> !IsSub(subs[i], chart, categoryId, name)
  {
    if subs != [] {
      NoSubFound(subs[1..], chart, categoryId, name, onlyActive);
      assert forall i :: 0 < i < |subs| ==> subs[i] == subs[1..][i - 1];
    }
  }

  predicate IsSub(s: SubCategory, chart: string, categoryId: nat, name: string) {
    s.chart == chart && s.categoryId == categoryId && s.name == name
  }

  /** The categories of a name in scope, as the precedence pick sees them. */
  function CategoryRows(categories: seq<Category>, name: string, keys: seq<string>): seq<Row> {
    if categories == [] then []
    else
      var c := categories[|categories| - 1];
      CategoryRows(categories[..|categories| - 1], name, keys)
      + (if c.active && c.chart in keys && c.name == name then [Row(c.chart, c.name, c.id)] else [])
  }

  function SubRows(subs: seq<SubCategory>, categoryId: nat, name: string, keys: seq<string>): seq<Row> {
    if subs == [] then []
    else
      var s := subs[|subs| - 1];
      SubRows(subs[..|subs| - 1], categoryId, name, keys)
      + (if s.active && s.chart in keys && s.categoryId == categoryId && s.name == name then
         [Row(s.chart, s.name, s.id)] else [])
  }

  /** resolveByName: the id of the sub-category that a pair of names stands for in a context. */
  function ResolveByName(t: Tables, category: string, sub: string, ctx: Context): Option<nat> {
    if Trim(category) == "" || Trim(sub) == "" then None
    else
      var keys := ChartOwnerKeys(ctx);
      var c := Pick(CategoryRows(t.categories, Trim(category), keys), keys);
      if c.None? then None
      else
        var s := Pick(SubRows(t.subs, c.value.id, Trim(sub), keys), keys);
        if s.None? then None else Some(s.value.id)
  }

  // ---- Writing categories and sub-categories ----

  /** The active card with this id, if it is in scope. */
  predicate AccountInScope(t: Tables, accountId: nat, ctx: Context) {
    1 <= accountId <= |t.accounts| && t.accounts[accountId - 1].active
    && t.accounts[accountId - 1].chart in ChartOwnerKeys(ctx)
  }

  /** findOrCreateCategory: the tables after it and the category's id. */
  function EnsureCategory(t: Tables, chart: string, name: string, kind: Kind): Result<(Tables, nat), Error> {
    if Trim(name) == "" then Err(BadRequest)
    else
      var found := FindCategory(t.categories, chart, Trim(name), kind, true);
      if found.Some? then Ok((t, t.categories[found.value].id))
      else if FindCategory(t.categories, chart, Trim(name), kind, false).Some? then Err(Duplicate)
      else
        var id := |t.categories| + 1;
        Ok((t.(categories := t.categories + [Category(id, Trim(name), kind, chart, true)]), id))
  }

  predicate AllowedName(scope: Scope, name: string, systemKey: Option<string>) {
    Trim(name) != "" && (Trim(name) == DIRECT_CARD ==> scope.owner.System? && systemKey == Some(DIRECT_KEY))
  }

  predicate HasKey(subs: seq<SubCategory>, systemKey: Option<string>) {
    subs != [] && (subs[0].systemKey == systemKey || HasKey(subs[1..], systemKey))
  }

  /** The write of createSubCategory; the unique indexes cover inactive rows too. */
  function InsertSub(t: Tables, scope: Scope, categoryId: nat, name: string, systemKey: Option<string>, isPrivate: bool,
                     accountId: Option<nat>, approval: Approval)
    : Result<(Tables, nat), Error>
  {
    if FindSub(t.subs, scope.chart, categoryId, Trim(name), false).Some? then Err(Duplicate)
    else if systemKey.Some? && HasKey(t.subs, systemKey) then Err(Duplicate)
    else if !isPrivate && accountId.Some? && !(1 <= accountId.value <= |t.accounts|) then Err(BadRequest)
    else
      var id := |t.subs| + 1;
      Ok((t.(subs := t.subs + [SubCategory(id, categoryId, Trim(name), isPrivate, if isPrivate then None else accountId,
                                           scope.chart, approval, systemKey, true)]), id))
  }

  function PointAt(t: Tables, i: nat, accountId: Option<nat>, approval: Approval): Tables
    requires i < |t.subs|
  {
    t.(subs := t.subs[i := t.subs[i].(accountId := accountId, approval := approval)])
  }

  // ---- Cards by law ----

  function FindByLaw(accounts: seq<Account>, chart: string, law: Law): Option<nat>
    ensures var i := FindByLaw(accounts, chart, law);
            i.Some? ==>
              i.value < |accounts| && accounts[i.value].chart == chart && accounts[i.value].active
              && accounts[i.value].law == Some(law)
  {
    if accounts == [] then None
    else if accounts[0].chart == chart && accounts[0].active && accounts[0].law == Some(law) then Some(0)
    else
      var i := FindByLaw(accounts[1..], chart, law);
      if i.Some? then Some(i.value + 1) else None
  }

  lemma {:induction false} NoCardFound(accounts: seq<Account>, chart: string, law: Law)
    ensures FindByLaw(accounts, chart, law).None? <==>
              forall i :: 0 <= i < |accounts| ==>
                !(accounts[i].chart == chart && accounts[i].active && accounts[i].law == Some(law))
  {
    if accounts != [] {
      NoCardFound(accounts[1..], chart, law);
      assert forall i :: 0 < i < |accounts| ==> accounts[i] == accounts[1..][i - 1];
    }
  }

  function CodesOf(accounts: seq<Account>, chart: string): seq<string> {
    if accounts == [] then []
    else
      var a := accounts[|accounts| - 1];
      CodesOf(accounts[..|accounts| - 1], chart) + (if a.chart == chart then [a.code] else [])
  }

  function SystemSection(sections: seq<Section>, name: string): Option<nat> {
    if sections == [] then None
    else if sections[0].chart == SYSTEM && sections[0].name == name && sections[0].active then Some(sections[0].id)
    else SystemSection(sections[1..], name)
  }

  /** The card of the first active SYSTEM sub-category of this name. */
  function SystemBase(subs: seq<SubCategory>, name: string): Option<nat> {
    if subs == [] then None
    else if subs[0].chart == SYSTEM && subs[0].name == name && subs[0].active then subs[0].accountId
    else SystemBase(subs[1..], name)
  }

  /** The section a variant inherits: its base card's, else a SYSTEM section named like the category. */
  function VariantSection(t: Tables, base: Option<nat>, categoryName: string): Option<nat> {
    if base.Some? && 1 <= base.value <= |t.accounts| && t.accounts[base.value - 1].sectionId.Some? then
      t.accounts[base.value - 1].sectionId
    else if Trim(categoryName) == "" then None
    else SystemSection(t.sections, Trim(categoryName))
  }

  /** findOrCreateVariantAccount: None when no section can be found for a new card. */
  function VariantAccount(t: Tables, scope: Scope, law: Law, base: Option<nat>, categoryName: string)
    : Result<(Tables, Option<nat>), Error>
  {
    var existing := FindByLaw(t.accounts, scope.chart, law);
    if existing.Some? then Ok((t, Some(t.accounts[existing.value].id)))
    else
      var section := VariantSection(t, base, categoryName);
      if section.None? then Ok((t, None))
      else
        var code := NextCode(CodesOf(t.accounts, scope.chart), scope.owner, Expense);
        if code.None? then Err(Exhausted)
        else
          var id := |t.accounts| + 1;
          Ok((t.(accounts := t.accounts + [Account(id, code.value, scope.chart, true, Some(law), section)]), Some(id)))
  }

  /** What a caller of createSubCategory asks for. */
  datatype NewSub = NewSub(systemKey: Option<string>, isPrivate: bool, law: Option<Law>, accountId: Option<nat>)

  /** The law branch of createSubCategory: the card first, then the row. */
  function CreateWithLaw(t: Tables, scope: Scope, categoryId: nat, name: string, systemKey: Option<string>, law: Law)
    : (Tables, Result<nat, Error>)
    requires 1 <= categoryId <= |t.categories|
  {
    var variant := VariantAccount(t, scope, law, SystemBase(t.subs, Trim(name)), t.categories[categoryId - 1].name);
    if variant.Err? then (t, Err(variant.error))
    else
      var (u, accountId) := variant.value;
      var inserted := InsertSub(u, scope, categoryId, name, systemKey, false, accountId,
                                if accountId.Some? then Approved else MissingMapping);
      if inserted.Err? then (u, Err(inserted.error)) else (inserted.value.0, Ok(inserted.value.1))
  }

  /** createSubCategory. A card created before a later failure stays. */
  function CreateSub(t: Tables, scope: Scope, categoryId: nat, name: string, input: NewSub)
    : (Tables, Result<nat, Error>)
  {
    if !AllowedName(scope, name, input.systemKey) || !(1 <= categoryId <= |t.categories|) then (t, Err(BadRequest))
    else if !input.isPrivate && input.accountId.None? && input.law.Some? then
      CreateWithLaw(t, scope, categoryId, name, input.systemKey, input.law.value)
    else
      var inserted := InsertSub(t, scope, categoryId, name, input.systemKey, input.isPrivate, input.accountId,
                                if input.isPrivate || input.accountId.Some? then Approved else MissingMapping);
      if inserted.Err? then (t, Err(inserted.error)) else (inserted.value.0, Ok(inserted.value.1))
  }

  /** The base card and the category name that a law update starts from. */
  function UpdateBase(t: Tables, subId: nat): (Option<nat>, string)
    requires 1 <= subId <= |t.subs|
  {
    var sub := t.subs[subId - 1];
    (if sub.accountId.Some? then sub.accountId else SystemBase(t.subs, Trim(sub.name)),
     if 1 <= sub.categoryId <= |t.categories| then t.categories[sub.categoryId - 1].name else "")
  }

  /** The card that a save stores for a row loaded with its card. */
  function Stored(t: Tables, subId: nat, account: Option<nat>): Option<nat>
    requires 1 <= subId <= |t.subs|
  {
    if t.subs[subId - 1].accountId.Some? then t.subs[subId - 1].accountId else account
  }

  /** updateSubCategoryLaw. Its caller loads the row with its card as a relation, and a loaded relation wins over
      the id assigned beside it when the row is saved: a row that has a card keeps it. */
  function UpdateLaw(t: Tables, subId: nat, scope: Scope, law: Law): (Tables, Result<nat, Error>) {
    if !(1 <= subId <= |t.subs|) || t.subs[subId - 1].systemKey.Some? then (t, Err(BadRequest))
    else
      var variant := VariantAccount(t, scope, law, UpdateBase(t, subId).0, UpdateBase(t, subId).1);
      if variant.Err? then (t, Err(variant.error))
      else
        var (u, accountId) := variant.value;
        (PointAt(u, subId - 1, Stored(t, subId, accountId), if accountId.Some? then Approved else MissingMapping),
         Ok(subId))
  }

  /** The client's row of this name under a category points at the card: the active one there is, else a new one. */
  function Override(t: Tables, scope: Scope, categoryId: nat, name: string, accountId: nat)
    : (Tables, Result<nat, Error>)
  {
    var existing := FindSub(t.subs, scope.chart, categoryId, name, true);
    if existing.Some? then (PointAt(t, existing.value, Some(accountId), Approved), Ok(t.subs[existing.value].id))
    else CreateSub(t, scope, categoryId, name, NewSub(None, false, None, Some(accountId)))
  }

  /** The override of a foreign row, under the client's own category of the same name and kind. */
  function OverrideInClient(t: Tables, chart: string, parent: Category, name: string, accountId: nat)
    : (Tables, Result<nat, Error>)
  {
    var ensured := EnsureCategory(t, chart, parent.name, parent.kind);
    if ensured.Err? then (t, Err(ensured.error))
    else Override(ensured.value.0, Scope(Client, chart), ensured.value.1, name, accountId)
  }

  /** repointSubCategoryAccount: the tables after it, which keep a category created before a later failure,
      and the id of the row that now points at the card. */
  function Repoint(t: Tables, subId: nat, accountId: nat, ctx: Context): (Tables, Result<nat, Error>) {
    if !(1 <= subId <= |t.subs|) || t.subs[subId - 1].chart !in ChartOwnerKeys(ctx) then (t, Err(NotFound))
    else
      var sub := t.subs[subId - 1];
      if sub.isPrivate then (t, Err(BadRequest))
      else if !AccountInScope(t, accountId, ctx) then (t, Err(NotFound))
      else if ctx.business.Some? && sub.chart == ClientChart(ctx.business.value) then
        (PointAt(t, subId - 1, Some(accountId), Approved), Ok(subId))
      else if ctx.business.None? || !(1 <= sub.categoryId <= |t.categories|) then (t, Err(BadRequest))
      else OverrideInClient(t, ClientChart(ctx.business.value), t.categories[sub.categoryId - 1], sub.name, accountId)
  }

  // ---- Soft deletes and card edits ----

  predicate HoldsDirectCard(subs: seq<SubCategory>, categoryId: nat) {
    subs != [] && ((subs[0].categoryId == categoryId && subs[0].systemKey == Some(DIRECT_KEY))
                   || HoldsDirectCard(subs[1..], categoryId))
  }

  /** deleteCategory: refused while the category holds the fixed system sub-category. */
  function DeleteCategory(t: Tables, id: nat): (Tables, Result<nat, Error>) {
    if !(1 <= id <= |t.categories|) then (t, Err(NotFound))
    else if HoldsDirectCard(t.subs, id) then (t, Err(BadRequest))
    else (t.(categories := t.categories[id - 1 := t.categories[id - 1].(active := false)]), Ok(id))
  }

  /** deleteSubCategory: fixed system rows are refused. */
  function DeleteSub(t: Tables, id: nat): (Tables, Result<nat, Error>) {
    if !(1 <= id <= |t.subs|) then (t, Err(NotFound))
    else if t.subs[id - 1].systemKey.Some? then (t, Err(BadRequest))
    else (t.(subs := t.subs[id - 1 := t.subs[id - 1].(active := false)]), Ok(id))
  }

  /** What updateAccountFields does to a card's law. */
  function EditLaw(t: Tables, accountId: nat, law: Law): Tables
    requires 1 <= accountId <= |t.accounts|
  {
    t.(accounts := t.accounts[accountId - 1 := t.accounts[accountId - 1].(law := Some(law))])
  }

  /** The law a sub-category resolves to, through its card. */
  function ResolvedLaw(t: Tables, subId: nat): Option<Law> {
    if 1 <= subId <= |t.subs| && t.subs[subId - 1].accountId.Some?
       && 1 <= t.subs[subId - 1].accountId.value <= |t.accounts|
    then t.accounts[t.subs[subId - 1].accountId.value - 1].law
    else None
  }
}
