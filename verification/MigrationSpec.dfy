/** The catalog migration: what each legacy row becomes, what the review reports, and what an apply inserts. */
module MigrationSpec {
  import opened Common
  import opened Charts

  datatype Percents = Percents(tax: real, vat: real, reduction: real, equipment: bool)

  /** law is there for real expense cards only. */
  datatype ChartAccount = ChartAccount(code: string, name: string, law: Option<Percents>)

  /** A rule that sends a name, in one category or in any, to a card. */
  datatype Override = Override(category: Option<string>, name: string, code: string)

  datatype Merge = Merge(into: string, members: set<string>)

  /** The tables at the head of the script. */
  datatype Rules = Rules(
    excluded: set<string>, privateCategories: set<string>, healthCategory: string, privateChildren: set<string>,
    annual: set<string>, merges: seq<Merge>, mergeParent: string, overrides: seq<Override>,
    chart: seq<ChartAccount>, newCodes: map<string, string>, technical: seq<string>)

  /** Legacy rows; those of the default tables have no business. An empty code stands for none. */
  datatype LegacyCategory = LegacyCategory(business: Option<string>, name: string, isExpense: bool)
  datatype LegacySub = LegacySub(business: string, category: string, name: string, code: string, percents: Percents)

  datatype Legacy = Legacy(categories: seq<LegacyCategory>, subs: seq<LegacySub>, userCategories: seq<LegacyCategory>,
                           userSubs: seq<LegacySub>)

  /** The new tables. Ids of categories are positions counted from 1; SYSTEM cards go by their code. */
  datatype Category = Category(chart: string, name: string, isExpense: bool)
  datatype Sub = Sub(chart: string, categoryId: nat, name: string, isPrivate: bool, card: Option<string>, annual: bool,
                     missingMapping: bool)
  datatype Tables = Tables(categories: seq<Category>, subs: seq<Sub>, cards: seq<string>)

  // ---- Dispositions ----

  datatype Disposition = ToCard(code: string) | Private | Annual(mergeInto: Option<string>) | Unresolved

  /** The chart as the maps by code and by name hold it: of equal keys the last one. */
  function ByCode(chart: seq<ChartAccount>, code: string): Option<ChartAccount> {
    if chart == [] then None
    else if chart[|chart| - 1].code == code then Some(chart[|chart| - 1])
    else ByCode(chart[..|chart| - 1], code)
  }

  function ByName(chart: seq<ChartAccount>, name: string): Option<ChartAccount> {
    if chart == [] then None
    else if chart[|chart| - 1].name == name then Some(chart[|chart| - 1])
    else ByName(chart[..|chart| - 1], name)
  }

  function OverrideFor(overrides: seq<Override>, category: string, name: string): Option<Override> {
    if overrides == [] then None
    else if overrides[0].name == name && (overrides[0].category.None? || overrides[0].category.value == category) then
      Some(overrides[0])
    else OverrideFor(overrides[1..], category, name)
  }

  function MergeFor(merges: seq<Merge>, name: string): Option<string> {
    if merges == [] then None
    else if name in merges[0].members then Some(merges[0].into)
    else MergeFor(merges[1..], name)
  }

  function FromOldCode(rules: Rules, code: string): Option<string> {
    if code == "" then None
    else if code in rules.newCodes then if rules.newCodes[code] == "" then None else Some(rules.newCodes[code])
    else if ByCode(rules.chart, code).Some? then Some(code)
    else None
  }

  /** resolveDisposition. */
  function Resolve(rules: Rules, category: string, name: string, code: string): Disposition {
    if MergeFor(rules.merges, name).Some? then Annual(MergeFor(rules.merges, name))
    else if name in rules.annual then Annual(None)
    else if category in rules.privateCategories
      || (category == rules.healthCategory && name in rules.privateChildren) then Private
    else if OverrideFor(rules.overrides, category, name).Some? then
      ToCard(OverrideFor(rules.overrides, category, name).value.code)
    else if ByName(rules.chart, name).Some? then ToCard(ByName(rules.chart, name).value.code)
    else if FromOldCode(rules, code).Some? then ToCard(FromOldCode(rules, code).value)
    else Unresolved
  }

  function Of(rules: Rules, row: LegacySub): Disposition { Resolve(rules, row.category, row.name, row.code) }

  /** A row of a real expense card whose own percents are not the card's. */
  predicate IsVariant(rules: Rules, row: LegacySub) {
    Of(rules, row).ToCard?
    && var card := ByCode(rules.chart, Of(rules, row).code);
       card.Some? && card.value.law.Some? && card.value.law.value != row.percents
  }

  predicate IsExcluded(rules: Rules, row: LegacySub) { row.category in rules.excluded }

  predicate IsUnresolved(rules: Rules, row: LegacySub) { !IsExcluded(rules, row) && Of(rules, row).Unresolved? }

  predicate IsMerged(rules: Rules, row: LegacySub) {
    !IsExcluded(rules, row) && Of(rules, row).Annual? && Of(rules, row).mergeInto.Some?
  }

  function Included(rules: Rules, categories: seq<LegacyCategory>): seq<LegacyCategory> {
    if categories == [] then []
    else
      var last := categories[|categories| - 1];
      var before := Included(rules, categories[..|categories| - 1]);
      if last.name in rules.excluded then before else before + [last]
  }

  /** The review's parent check: a category of the same business and name, else an included default one. */
  predicate HasParent(rules: Rules, legacy: Legacy, row: LegacySub) {
    || (exists c :: c in legacy.userCategories && c.business == Some(row.business) && c.name == row.category)
    || (exists c :: c in Included(rules, legacy.categories) && c.name == row.category)
  }

  // ---- Categories ----

  function CategoryOf(c: LegacyCategory): Category {
    Category(if c.business.Some? then ClientChart(c.business.value) else SYSTEM, c.name, c.isExpense)
  }

  function CategoriesOf(cs: seq<LegacyCategory>): seq<Category> {
    if cs == [] then [] else CategoriesOf(cs[..|cs| - 1]) + [CategoryOf(cs[|cs| - 1])]
  }

  function NewCategories(rules: Rules, legacy: Legacy): seq<Category> {
    CategoriesOf(Included(rules, legacy.categories)) + CategoriesOf(legacy.userCategories)
  }

  /** The id under which the map by chart and name holds a category: that of the last one inserted. */
  function IdOf(base: nat, cs: seq<Category>, chart: string, name: string): Option<nat> {
    if cs == [] then None
    else if cs[|cs| - 1].chart == chart && cs[|cs| - 1].name == name then Some(base + |cs|)
    else IdOf(base, cs[..|cs| - 1], chart, name)
  }

  /** A row's own parent, or the default one of the same name. */
  function ParentOf(base: nat, cs: seq<Category>, chart: string, name: string): Option<nat> {
    if IdOf(base, cs, chart, name).Some? then IdOf(base, cs, chart, name) else IdOf(base, cs, SYSTEM, name)
  }

  /** Every insert is new: neither there before nor inserted twice. */
  ghost predicate AllNew<T(!new)>(there: seq<T>, added: seq<T>) {
    forall j :: 0 <= j < |added| ==> added[j] !in there && added[j] !in added[..j]
  }

  /** The columns of the unique index on sub-categories. */
  function SubKey(s: Sub): (string, nat, string) { (s.chart, s.categoryId, s.name) }

  function SubKeys(subs: seq<Sub>): seq<(string, nat, string)> {
    if subs == [] then [] else SubKeys(subs[..|subs| - 1]) + [SubKey(subs[|subs| - 1])]
  }

  // ---- Cards ----

  function EnsureCards(cards: seq<string>, technical: seq<string>): seq<string> {
    if technical == [] then cards
    else
      var before := EnsureCards(cards, technical[..|technical| - 1]);
      if technical[|technical| - 1] in before then before else before + [technical[|technical| - 1]]
  }

  predicate TechnicalKnown(rules: Rules, cards: seq<string>) {
    forall code :: code in rules.technical ==> code in cards || ByCode(rules.chart, code).Some?
  }

  // ---- Sub-categories ----

  /** Where a new sub-category comes from. */
  datatype Origin = FromSystem(i: nat) | FromMerge(into: string) | FromClient(i: nat)

  /** What the inserts look up: the first new id, the new categories and the cards. */
  datatype Lookup = Lookup(base: nat, categories: seq<Category>, cards: seq<string>)

  function MergedSub(rules: Rules, look: Lookup, into: string): Option<Sub> {
    var parent := IdOf(look.base, look.categories, SYSTEM, rules.mergeParent);
    if parent.None? then None else Some(Sub(SYSTEM, parent.value, into, false, None, true, false))
  }

  /** The insert for a row under a parent; None where the script throws. */
  function SubFor(cards: seq<string>, chart: string, parent: Option<nat>, name: string, d: Disposition,
                  missingMapping: bool): Option<Sub> {
    if parent.None? then None
    else
      match d
      case ToCard(code) =>
        if code in cards then Some(Sub(chart, parent.value, name, false, Some(code), false, missingMapping)) else None
      case Private => Some(Sub(chart, parent.value, name, true, None, false, missingMapping))
      case Annual(_) => Some(Sub(chart, parent.value, name, false, None, true, missingMapping))
      case Unresolved => Some(Sub(chart, parent.value, name, false, None, false, missingMapping))
  }

  function SystemSub(rules: Rules, look: Lookup, row: LegacySub): Option<Sub> {
    if Of(rules, row).Unresolved? then None
    else SubFor(look.cards, SYSTEM, IdOf(look.base, look.categories, SYSTEM, row.category), row.name, Of(rules, row),
                false)
  }

  function ClientSub(rules: Rules, look: Lookup, row: LegacySub): Option<Sub> {
    if IsVariant(rules, row) then None
    else
      SubFor(look.cards, ClientChart(row.business),
             ParentOf(look.base, look.categories, ClientChart(row.business), row.category), row.name,
             Of(rules, row), Of(rules, row).Unresolved?)
  }

  function Planned(rules: Rules, look: Lookup, legacy: Legacy, o: Origin): Option<Sub> {
    match o
    case FromSystem(i) => if i < |legacy.subs| then SystemSub(rules, look, legacy.subs[i]) else None
    case FromMerge(into) => MergedSub(rules, look, into)
    case FromClient(i) => if i < |legacy.userSubs| then ClientSub(rules, look, legacy.userSubs[i]) else None
  }

  /** The origins of the inserts, in order: a merge group appears where its first member does. */
  function SystemOrigins(rules: Rules, rows: seq<LegacySub>): seq<Origin> {
    if rows == [] then []
    else
      var before := SystemOrigins(rules, rows[..|rows| - 1]);
      var row := rows[|rows| - 1];
      if IsExcluded(rules, row) then before
      else if IsMerged(rules, row) then
        var o := FromMerge(Of(rules, row).mergeInto.value);
        if o in before then before else before + [o]
      else before + [FromSystem(|rows| - 1)]
  }

  function ClientOrigins(n: nat): seq<Origin> {
    if n == 0 then [] else ClientOrigins(n - 1) + [FromClient(n - 1)]
  }

  function Origins(rules: Rules, legacy: Legacy): seq<Origin> {
    SystemOrigins(rules, legacy.subs) + ClientOrigins(|legacy.userSubs|)
  }

  predicate AllPlanned(rules: Rules, look: Lookup, legacy: Legacy, os: seq<Origin>) {
    forall o :: o in os ==> Planned(rules, look, legacy, o).Some?
  }

  function PlannedSubs(rules: Rules, look: Lookup, legacy: Legacy, os: seq<Origin>): seq<Sub>
    requires AllPlanned(rules, look, legacy, os)
  {
    if os == [] then []
    else
      assert os[|os| - 1] in os;
      PlannedSubs(rules, look, legacy, os[..|os| - 1]) + [Planned(rules, look, legacy, os[|os| - 1]).value]
  }

  /** These inserts, one after the other, all succeed. */
  ghost predicate Insertable(rules: Rules, look: Lookup, legacy: Legacy, there: seq<Sub>, os: seq<Origin>) {
    AllPlanned(rules, look, legacy, os) && AllNew(SubKeys(there), SubKeys(PlannedSubs(rules, look, legacy, os)))
  }

  // ---- The whole plan ----

  function LookupOf(rules: Rules, legacy: Legacy, db: Tables): Lookup {
    Lookup(|db.categories|, NewCategories(rules, legacy), EnsureCards(db.cards, rules.technical))
  }

  /** What the apply pass needs; anything else rolls it back. */
  ghost predicate Applicable(rules: Rules, legacy: Legacy, db: Tables) {
    && TechnicalKnown(rules, db.cards)
    && AllNew(db.categories, NewCategories(rules, legacy))
    && Insertable(rules, LookupOf(rules, legacy, db), legacy, db.subs, Origins(rules, legacy))
  }

  function Applied(rules: Rules, legacy: Legacy, db: Tables): Tables
    requires AllPlanned(rules, LookupOf(rules, legacy, db), legacy, Origins(rules, legacy))
  {
    Tables(db.categories + NewCategories(rules, legacy),
           db.subs + PlannedSubs(rules, LookupOf(rules, legacy, db), legacy, Origins(rules, legacy)),
           EnsureCards(db.cards, rules.technical))
  }

  // ---- The review ----

  /** Row numbers the review reports. */
  datatype Report = Report(unresolved: seq<nat>, variants: seq<nat>, unmatched: seq<nat>, missingMapping: seq<nat>)

  predicate IsClean(r: Report) { r.unresolved == [] && r.variants == [] && r.unmatched == [] }

  ghost predicate ExactlyThose(numbers: seq<nat>, rows: seq<LegacySub>, p: LegacySub -> bool) {
    && (forall i: nat :: i in numbers <==> i < |rows| && p(rows[i]))
    && (forall j, k :: 0 <= j < k < |numbers| ==> numbers[j] < numbers[k])
  }

  /** The report lists exactly the rows of each kind, in order. */
  ghost predicate IsReview(r: Report, rules: Rules, legacy: Legacy) {
    && ExactlyThose(r.unresolved, legacy.subs, row => IsUnresolved(rules, row))
    && ExactlyThose(r.variants, legacy.userSubs, row => IsVariant(rules, row))
    && ExactlyThose(r.unmatched, legacy.userSubs, row => !HasParent(rules, legacy, row))
    && ExactlyThose(r.missingMapping, legacy.userSubs, row => Of(rules, row).Unresolved?)
  }
}
