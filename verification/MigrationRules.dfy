/** What the rules make of a row, and which categories and cards an apply adds, said of the tables themselves. */
module MigrationRules {
  import opened Common
  import opened Charts
  import opened MigrationSpec
  import opened MigrationPlan

  // ---- What becomes of a row ----

  /** The first merge group with the name goes into this row. */
  ghost predicate IsMergedInto(rules: Rules, name: string, into: string) {
    exists i :: && 0 <= i < |rules.merges| && name in rules.merges[i].members && rules.merges[i].into == into
                && forall j :: 0 <= j < i ==> name !in rules.merges[j].members
  }

  predicate Covers(o: Override, category: string, name: string) {
    o.name == name && (o.category == None || o.category == Some(category))
  }

  /** The first override that covers the row sends it to this card. */
  ghost predicate IsOverriddenTo(rules: Rules, category: string, name: string, to: string) {
    exists i :: && 0 <= i < |rules.overrides|
                && Covers(rules.overrides[i], category, name) && rules.overrides[i].code == to
                && forall j :: 0 <= j < i ==> !Covers(rules.overrides[j], category, name)
  }

  /** The last card of the chart with the name has this code. */
  ghost predicate IsNamed(rules: Rules, name: string, to: string) {
    exists i :: && 0 <= i < |rules.chart| && rules.chart[i].name == name && rules.chart[i].code == to
                && forall j :: i < j < |rules.chart| ==> rules.chart[j].name != name
  }

  /** The old code's new number, or the old code itself if it was not renumbered and the chart still has it. */
  ghost predicate IsRenumberedTo(rules: Rules, code: string, to: string) {
    && code != ""
    && if code in rules.newCodes then to != "" && rules.newCodes[code] == to
       else to == code && exists a :: a in rules.chart && a.code == code
  }

  /** The row is for private use. */
  predicate IsPrivate(rules: Rules, category: string, name: string) {
    category in rules.privateCategories || (category == rules.healthCategory && name in rules.privateChildren)
  }

  predicate NoGroup(rules: Rules, name: string) { forall m :: m in rules.merges ==> name !in m.members }

  /** Neither merged nor annual nor private. */
  predicate NeedsCard(rules: Rules, category: string, name: string) {
    NoGroup(rules, name) && name !in rules.annual && !IsPrivate(rules, category, name)
  }

  predicate NoOverride(rules: Rules, category: string, name: string) {
    forall o :: o in rules.overrides ==> !Covers(o, category, name)
  }

  predicate NoName(rules: Rules, name: string) { forall a :: a in rules.chart ==> a.name != name }

  /** The card of a row that needs one: the first override's, else that of the row's name, else that of its old code. */
  ghost predicate IsCardOf(rules: Rules, category: string, name: string, code: string, to: string) {
    || IsOverriddenTo(rules, category, name, to)
    || (NoOverride(rules, category, name) && IsNamed(rules, name, to))
    || (NoOverride(rules, category, name) && NoName(rules, name) && IsRenumberedTo(rules, code, to))
  }

  lemma {:induction false} MergeIsFirst(merges: seq<Merge>, name: string)
    ensures MergeFor(merges, name).Some? ==>
              exists i :: && 0 <= i < |merges| && name in merges[i].members
                          && MergeFor(merges, name) == Some(merges[i].into)
                          && forall j :: 0 <= j < i ==> name !in merges[j].members
  {
    if merges != [] && name !in merges[0].members {
      MergeIsFirst(merges[1..], name);
      assert forall j :: 0 < j < |merges| ==> merges[j] == merges[1..][j - 1];
      if i :| && 0 <= i < |merges[1..]| && name in merges[1..][i].members
              && MergeFor(merges[1..], name) == Some(merges[1..][i].into)
              && forall j :: 0 <= j < i ==> name !in merges[1..][j].members
      {
        assert merges[i + 1] == merges[1..][i];
      }
    }
  }

  lemma {:induction false} OverrideIsFirst(overrides: seq<Override>, category: string, name: string)
    ensures OverrideFor(overrides, category, name).None? ==> forall o :: o in overrides ==> !Covers(o, category, name)
    ensures OverrideFor(overrides, category, name).Some? ==>
              exists i :: && 0 <= i < |overrides| && Covers(overrides[i], category, name)
                          && OverrideFor(overrides, category, name) == Some(overrides[i])
                          && forall j :: 0 <= j < i ==> !Covers(overrides[j], category, name)
  {
    if overrides != [] && !Covers(overrides[0], category, name) {
      OverrideIsFirst(overrides[1..], category, name);
      assert forall j :: 0 < j < |overrides| ==> overrides[j] == overrides[1..][j - 1];
      if i :| && 0 <= i < |overrides[1..]| && Covers(overrides[1..][i], category, name)
              && OverrideFor(overrides[1..], category, name) == Some(overrides[1..][i])
              && forall j :: 0 <= j < i ==> !Covers(overrides[1..][j], category, name)
      {
        assert overrides[i + 1] == overrides[1..][i];
      }
    }
  }

  lemma {:induction false} ByNameIsLast(chart: seq<ChartAccount>, name: string)
    ensures ByName(chart, name).None? <==> forall a :: a in chart ==> a.name != name
    ensures ByName(chart, name).Some? ==>
              exists i :: && 0 <= i < |chart| && chart[i].name == name && ByName(chart, name) == Some(chart[i])
                          && forall j :: i < j < |chart| ==> chart[j].name != name
  {
    if chart != [] {
      ByNameIsLast(chart[..|chart| - 1], name);
      assert chart == chart[..|chart| - 1] + [chart[|chart| - 1]];
    }
  }

  lemma {:induction false} ByCodeIsLast(chart: seq<ChartAccount>, code: string)
    ensures ByCode(chart, code).None? <==> forall a :: a in chart ==> a.code != code
    ensures ByCode(chart, code).Some? ==>
              exists i :: && 0 <= i < |chart| && chart[i].code == code && ByCode(chart, code) == Some(chart[i])
                          && forall j :: i < j < |chart| ==> chart[j].code != code
  {
    if chart != [] {
      ByCodeIsLast(chart[..|chart| - 1], code);
      assert chart == chart[..|chart| - 1] + [chart[|chart| - 1]];
    }
  }

  lemma MergeIs(rules: Rules, name: string, into: string)
    ensures MergeFor(rules.merges, name) == Some(into) <==> IsMergedInto(rules, name, into)
  {
    MergeForIs(rules.merges, name);
    MergeIsFirst(rules.merges, name);
    if i :| && 0 <= i < |rules.merges| && name in rules.merges[i].members && rules.merges[i].into == into
            && forall j :: 0 <= j < i ==> name !in rules.merges[j].members
    {
      assert rules.merges[i] in rules.merges;
    }
  }

  lemma OverrideIs(rules: Rules, category: string, name: string, to: string)
    ensures var o := OverrideFor(rules.overrides, category, name);
            && (o.None? <==> NoOverride(rules, category, name))
            && (o.Some? && o.value.code == to <==> IsOverriddenTo(rules, category, name, to))
  {
    OverrideIsFirst(rules.overrides, category, name);
    if i :| && 0 <= i < |rules.overrides| && Covers(rules.overrides[i], category, name) && rules.overrides[i].code == to
            && forall j :: 0 <= j < i ==> !Covers(rules.overrides[j], category, name)
    {
      assert rules.overrides[i] in rules.overrides;
    }
  }

  lemma NameIs(rules: Rules, name: string, to: string)
    ensures var a := ByName(rules.chart, name);
            && (a.None? <==> NoName(rules, name))
            && (a.Some? && a.value.code == to <==> IsNamed(rules, name, to))
  {
    ByNameIsLast(rules.chart, name);
    if i :| && 0 <= i < |rules.chart| && rules.chart[i].name == name && rules.chart[i].code == to
            && forall j :: i < j < |rules.chart| ==> rules.chart[j].name != name
    {
      assert rules.chart[i] in rules.chart;
    }
  }

  lemma OldCodeIs(rules: Rules, code: string, to: string)
    ensures FromOldCode(rules, code) == Some(to) <==> IsRenumberedTo(rules, code, to)
  {
    ByCodeIsLast(rules.chart, code);
  }

  /** A row goes to a merge group, is annual or private, or else gets its card; it is unresolved exactly if it needs a
      card and no override, name or old code gives one. */
  lemma ResolvedAs(rules: Rules, category: string, name: string, code: string)
    ensures forall into :: Resolve(rules, category, name, code) == Annual(Some(into)) <==>
              IsMergedInto(rules, name, into)
    ensures Resolve(rules, category, name, code) == Annual(None) <==> NoGroup(rules, name) && name in rules.annual
    ensures Resolve(rules, category, name, code) == Private <==>
            NoGroup(rules, name) && name !in rules.annual && IsPrivate(rules, category, name)
    ensures forall to :: Resolve(rules, category, name, code) == ToCard(to) <==>
                           NeedsCard(rules, category, name) && IsCardOf(rules, category, name, code, to)
    ensures Resolve(rules, category, name, code) == Unresolved <==>
            NeedsCard(rules, category, name) && forall to :: !IsCardOf(rules, category, name, code, to)
  {
    MergeForIs(rules.merges, name);
    forall into ensures MergeFor(rules.merges, name) == Some(into) <==> IsMergedInto(rules, name, into) {
      MergeIs(rules, name, into);
    }
    forall to ensures CardFor(rules, category, name, code) == Some(to) <==> IsCardOf(rules, category, name, code, to) {
      CardIs(rules, category, name, code, to);
    }
    assert Resolve(rules, category, name, code) ==
           if !NoGroup(rules, name) then Annual(MergeFor(rules.merges, name))
           else if name in rules.annual then Annual(None)
           else if IsPrivate(rules, category, name) then Private
           else if CardFor(rules, category, name, code).Some? then ToCard(CardFor(rules, category, name, code).value)
           else Unresolved;
  }

  function CardFor(rules: Rules, category: string, name: string, code: string): Option<string> {
    if OverrideFor(rules.overrides, category, name).Some? then
      Some(OverrideFor(rules.overrides, category, name).value.code)
    else if ByName(rules.chart, name).Some? then Some(ByName(rules.chart, name).value.code)
    else FromOldCode(rules, code)
  }

  lemma CardIs(rules: Rules, category: string, name: string, code: string, to: string)
    ensures CardFor(rules, category, name, code) == Some(to) <==> IsCardOf(rules, category, name, code, to)
  {
    OverrideIs(rules, category, name, to);
    NameIs(rules, name, to);
    OldCodeIs(rules, code, to);
    if IsOverriddenTo(rules, category, name, to) { assert !NoOverride(rules, category, name); }
    if IsNamed(rules, name, to) { assert !NoName(rules, name); }
  }

  /** A row is a percent variant exactly if its card is one of the chart with percents, which differ from its own. */
  lemma VariantIs(rules: Rules, row: LegacySub)
    ensures IsVariant(rules, row) <==>
            exists i :: && 0 <= i < |rules.chart| && Of(rules, row) == ToCard(rules.chart[i].code)
                        && (forall j :: i < j < |rules.chart| ==> rules.chart[j].code != rules.chart[i].code)
                        && rules.chart[i].law != None && rules.chart[i].law != Some(row.percents)
  {
    if Of(rules, row).ToCard? {
      ByCodeIsLast(rules.chart, Of(rules, row).code);
    }
  }

  // ---- What an apply adds beside rows ----

  /** A category of a business in its client chart, one without a business in SYSTEM. */
  predicate IsCategoryOf(n: Category, c: LegacyCategory) {
    && n.name == c.name && n.isExpense == c.isExpense
    && n.chart == (if c.business == None then "SYSTEM" else "CLIENT_" + c.business.value)
  }

  /** The categories of these that are not excluded, in order. */
  ghost predicate AreTheIncluded(rules: Rules, cs: seq<LegacyCategory>, kept: seq<LegacyCategory>) {
    && (forall c :: c in kept <==> c in cs && c.name !in rules.excluded)
    && forall c :: c in kept ==> multiset(kept)[c] == multiset(cs)[c]
  }

  lemma {:induction false} IncludedAre(rules: Rules, cs: seq<LegacyCategory>)
    ensures AreTheIncluded(rules, cs, Included(rules, cs))
  {
    if cs != [] {
      var init, last := cs[..|cs| - 1], cs[|cs| - 1];
      IncludedAre(rules, init);
      assert cs == init + [last];
    }
  }

  lemma {:induction false} CategoriesAre(cs: seq<LegacyCategory>)
    ensures |CategoriesOf(cs)| == |cs| && forall i :: 0 <= i < |cs| ==> IsCategoryOf(CategoriesOf(cs)[i], cs[i])
  {
    if cs != [] { CategoriesAre(cs[..|cs| - 1]); }
  }

  /** An apply adds, after the categories there were, one for each default category that is not excluded and then one for
      each category of a business, with its name and type, in its chart; and the technical cards that were missing. */
  lemma AppliedAdds(rules: Rules, legacy: Legacy, db: Tables) returns (kept: seq<LegacyCategory>)
    requires Applicable(rules, legacy, db)
    ensures AreTheIncluded(rules, legacy.categories, kept)
    ensures var t, sources := Applied(rules, legacy, db), kept + legacy.userCategories;
            && |t.categories| == |db.categories| + |sources| && t.categories[..|db.categories|] == db.categories
            && (forall i :: 0 <= i < |sources| ==> IsCategoryOf(t.categories[|db.categories| + i], sources[i]))
            && db.cards <= t.cards && (forall code :: code in t.cards <==> code in db.cards || code in rules.technical)
            && (forall i, j :: |db.cards| <= i < j < |t.cards| ==> t.cards[i] != t.cards[j])
  {
    kept := Included(rules, legacy.categories);
    IncludedAre(rules, legacy.categories);
    CategoriesAre(kept);
    CategoriesAre(legacy.userCategories);
    CardsAre(db.cards, rules.technical);
    var t := Applied(rules, legacy, db);
    assert t.categories[|db.categories|..] == NewCategories(rules, legacy);
    forall i | 0 <= i < |kept + legacy.userCategories|
      ensures IsCategoryOf(t.categories[|db.categories| + i], (kept + legacy.userCategories)[i])
    {
      assert t.categories[|db.categories| + i] == NewCategories(rules, legacy)[i];
    }
  }

  lemma {:induction false} CardsAre(cards: seq<string>, technical: seq<string>)
    ensures var all := EnsureCards(cards, technical);
            && cards <= all && (forall code :: code in all <==> code in cards || code in technical)
            && (forall i, j :: |cards| <= i < j < |all| ==> all[i] != all[j])
  {
    if technical != [] {
      CardsAre(cards, technical[..|technical| - 1]);
      assert technical == technical[..|technical| - 1] + [technical[|technical| - 1]];
    }
  }
}
