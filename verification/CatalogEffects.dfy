/** What names resolve to, and what creating and removing rows leaves behind, said of the rows themselves. */
module CatalogEffects {
  import opened Common
  import opened Charts
  import opened Text
  import opened Precedence
  import opened AccountCodes
  import opened CodeDigits
  import opened CatalogSpec
  import opened CatalogRuns

  // ---- Resolution by name ----

  predicate NamesCategory(c: Category, name: string) { c.active && c.name == name }

  predicate NamesSub(s: SubCategory, categoryId: nat, name: string) {
    s.active && s.categoryId == categoryId && s.name == name
  }

  function CategoryCharts(t: Tables, name: string): set<string> {
    set c | c in t.categories && NamesCategory(c, name) :: c.chart
  }

  function SubCharts(t: Tables, categoryId: nat, name: string): set<string> {
    set s | s in t.subs && NamesSub(s, categoryId, name) :: s.chart
  }

  /** The active category of this name in the chart of precedence, the oldest if it has one of each type. */
  ghost predicate ShowsCategory(t: Tables, ctx: Context, name: string, c: Category) {
    && c in t.categories && NamesCategory(c, name) && ComesFirst(ctx, CategoryCharts(t, name), c.chart)
    && Sees(ctx, c.chart)
    && forall d :: d in t.categories && NamesCategory(d, name) && d.chart == c.chart ==> c.id <= d.id
  }

  /** The active sub-category of this name under the category, in the chart of precedence. */
  ghost predicate ShowsSub(t: Tables, ctx: Context, categoryId: nat, name: string, s: SubCategory) {
    && s in t.subs && NamesSub(s, categoryId, name) && ComesFirst(ctx, SubCharts(t, categoryId, name), s.chart)
    && Sees(ctx, s.chart)
    && forall d :: d in t.subs && NamesSub(d, categoryId, name) && d.chart == s.chart ==> s.id <= d.id
  }

  /** The pair of trimmed names shows this row. */
  ghost predicate Shows(t: Tables, category: string, sub: string, ctx: Context, s: SubCategory) {
    && Trim(category) != "" && Trim(sub) != ""
    && exists c :: ShowsCategory(t, ctx, Trim(category), c) && ShowsSub(t, ctx, c.id, Trim(sub), s)
  }

  ghost predicate Ascending(rows: seq<Row>) {
    forall i, j :: 0 <= i < j < |rows| ==> rows[i].id < rows[j].id
  }

  lemma {:induction false} CategoryRowsAscend(categories: seq<Category>, name: string, keys: seq<string>)
    requires forall i :: 0 <= i < |categories| ==> categories[i].id == i + 1
    ensures var rows := CategoryRows(categories, name, keys);
            Ascending(rows) && forall i :: 0 <= i < |rows| ==> rows[i].id <= |categories|
  {
    if categories != [] { CategoryRowsAscend(categories[..|categories| - 1], name, keys); }
  }

  lemma {:induction false} SubRowsAscend(subs: seq<SubCategory>, categoryId: nat, name: string, keys: seq<string>)
    requires forall i :: 0 <= i < |subs| ==> subs[i].id == i + 1
    ensures var rows := SubRows(subs, categoryId, name, keys);
            Ascending(rows) && forall i :: 0 <= i < |rows| ==> rows[i].id <= |subs|
  {
    if subs != [] { SubRowsAscend(subs[..|subs| - 1], categoryId, name, keys); }
  }

  lemma FirstIsLeast(rows: seq<Row>, i: nat, r: Row)
    requires Ascending(rows) && i < |rows| && (forall j :: 0 <= j < i ==> rows[j].chart != rows[i].chart)
    requires r in rows && r.chart == rows[i].chart
    ensures rows[i].id <= r.id
  {
    var j :| 0 <= j < |rows| && rows[j] == r;
  }

  lemma PickedCategory(t: Tables, ctx: Context, name: string)
    requires IdsOk(t)
    ensures var p := Pick(CategoryRows(t.categories, name, ChartOwnerKeys(ctx)), ChartOwnerKeys(ctx));
            && (p.None? ==> forall c :: c in t.categories && NamesCategory(c, name) ==> !Sees(ctx, c.chart))
            && (p.Some? ==> exists c :: ShowsCategory(t, ctx, name, c) && p == Some(Row(c.chart, name, c.id)))
  {
    var keys := ChartOwnerKeys(ctx);
    var rows := CategoryRows(t.categories, name, keys);
    CategoryRowsAre(t.categories, name, keys);
    CategoryRowsAscend(t.categories, name, keys);
    PickComesFirst(rows, ctx);
    forall c | c in t.categories && NamesCategory(c, name) && Sees(ctx, c.chart) ensures Row(c.chart, name, c.id) in rows
    {
      KeysAreSeen(ctx, c.chart);
    }
    var p := Pick(rows, keys);
    if p.Some? {
      var i :| 0 <= i < |rows| && rows[i] == p.value && forall j :: 0 <= j < i ==> rows[j].chart != p.value.chart;
      assert rows[i] in rows;
      var c :| c in t.categories && c.active && c.chart in keys && c.name == name
        && p.value == Row(c.chart, c.name, c.id);
      KeysAreSeen(ctx, c.chart);
      forall d | d in t.categories && NamesCategory(d, name) && d.chart == c.chart ensures c.id <= d.id {
        FirstIsLeast(rows, i, Row(d.chart, name, d.id));
      }
      forall chart | Sees(ctx, chart) ensures chart in ChartsOf(rows) <==> chart in CategoryCharts(t, name) {
        if d :| d in t.categories && NamesCategory(d, name) && d.chart == chart {
          assert Row(d.chart, name, d.id) in rows;
        }
      }
      OnlySeenMatter(ctx, ChartsOf(rows), CategoryCharts(t, name), c.chart);
      assert ShowsCategory(t, ctx, name, c);
    }
  }

  lemma PickedSub(t: Tables, ctx: Context, categoryId: nat, name: string)
    requires IdsOk(t)
    ensures var p := Pick(SubRows(t.subs, categoryId, name, ChartOwnerKeys(ctx)), ChartOwnerKeys(ctx));
            && (p.None? ==> forall s :: s in t.subs && NamesSub(s, categoryId, name) ==> !Sees(ctx, s.chart))
            && (p.Some? ==> exists s :: ShowsSub(t, ctx, categoryId, name, s) && p == Some(Row(s.chart, name, s.id)))
  {
    var keys := ChartOwnerKeys(ctx);
    var rows := SubRows(t.subs, categoryId, name, keys);
    SubRowsAre(t.subs, categoryId, name, keys);
    SubRowsAscend(t.subs, categoryId, name, keys);
    PickComesFirst(rows, ctx);
    forall s | s in t.subs && NamesSub(s, categoryId, name) && Sees(ctx, s.chart)
      ensures Row(s.chart, name, s.id) in rows
    {
      KeysAreSeen(ctx, s.chart);
    }
    var p := Pick(rows, keys);
    if p.Some? {
      var i :| 0 <= i < |rows| && rows[i] == p.value && forall j :: 0 <= j < i ==> rows[j].chart != p.value.chart;
      assert rows[i] in rows;
      var s :| s in t.subs && s.active && s.chart in keys && s.categoryId == categoryId && s.name == name
               && p.value == Row(s.chart, s.name, s.id);
      KeysAreSeen(ctx, s.chart);
      forall d | d in t.subs && NamesSub(d, categoryId, name) && d.chart == s.chart ensures s.id <= d.id {
        FirstIsLeast(rows, i, Row(d.chart, name, d.id));
      }
      forall chart | Sees(ctx, chart) ensures chart in ChartsOf(rows) <==> chart in SubCharts(t, categoryId, name) {
        if d :| d in t.subs && NamesSub(d, categoryId, name) && d.chart == chart {
          assert Row(d.chart, name, d.id) in rows;
        }
      }
      OnlySeenMatter(ctx, ChartsOf(rows), SubCharts(t, categoryId, name), s.chart);
      assert ShowsSub(t, ctx, categoryId, name, s);
    }
  }

  lemma OneChartFirst(ctx: Context, there: set<string>, a: string, b: string)
    requires ComesFirst(ctx, there, a) && ComesFirst(ctx, there, b)
    ensures a == b
  {
    FirstComesFirst(ctx, there, a);
    FirstComesFirst(ctx, there, b);
    var keys := ChartOwnerKeys(ctx);
    var i :| 0 <= i < |keys| && a == keys[i] && keys[i] in there && forall j :: 0 <= j < i ==> keys[j] !in there;
    var k :| 0 <= k < |keys| && b == keys[k] && keys[k] in there && forall j :: 0 <= j < k ==> keys[j] !in there;
  }

  lemma OneCategoryShown(t: Tables, ctx: Context, name: string, c: Category, d: Category)
    requires IdsOk(t) && ShowsCategory(t, ctx, name, c) && ShowsCategory(t, ctx, name, d)
    ensures c == d
  {
    OneChartFirst(ctx, CategoryCharts(t, name), c.chart, d.chart);
  }

  lemma OneSubShown(t: Tables, ctx: Context, categoryId: nat, name: string, r: SubCategory, s: SubCategory)
    requires IdsOk(t) && ShowsSub(t, ctx, categoryId, name, r) && ShowsSub(t, ctx, categoryId, name, s)
    ensures r == s
  {
    OneChartFirst(ctx, SubCharts(t, categoryId, name), r.chart, s.chart);
  }

  /** A pair of names resolves to exactly the row that the charts show, by owner: the client's category of the name, else
      the first accountant's that has one, else SYSTEM's, and under it the sub-category in the same order. */
  lemma ResolvesToShown(t: Tables, category: string, sub: string, ctx: Context, id: nat)
    requires IdsOk(t)
    ensures ResolveByName(t, category, sub, ctx) == Some(id) <==>
            exists s :: Shows(t, category, sub, ctx, s) && s.id == id
  {
    PickedCategory(t, ctx, Trim(category));
    if c :| ShowsCategory(t, ctx, Trim(category), c) {
      var p := Pick(CategoryRows(t.categories, Trim(category), ChartOwnerKeys(ctx)), ChartOwnerKeys(ctx));
      var d :| ShowsCategory(t, ctx, Trim(category), d) && p == Some(Row(d.chart, Trim(category), d.id));
      OneCategoryShown(t, ctx, Trim(category), c, d);
      PickedSub(t, ctx, c.id, Trim(sub));
      forall e | ShowsCategory(t, ctx, Trim(category), e) ensures e == c {
        OneCategoryShown(t, ctx, Trim(category), c, e);
      }
      if s :| ShowsSub(t, ctx, c.id, Trim(sub), s) {
        forall r | ShowsSub(t, ctx, c.id, Trim(sub), r) ensures r == s { OneSubShown(t, ctx, c.id, Trim(sub), r, s); }
      }
    }
  }

  // ---- Removal ----

  /** With fewer charts, the chart of precedence keeps it as long as it is there. */
  lemma FewerCharts(ctx: Context, there: set<string>, fewer: set<string>, chart: string)
    requires fewer <= there && chart in fewer && ComesFirst(ctx, there, chart)
    ensures ComesFirst(ctx, fewer, chart)
  {
    FirstComesFirst(ctx, there, chart);
    FirstComesFirst(ctx, fewer, chart);
    var keys := ChartOwnerKeys(ctx);
    var k :| 0 <= k < |keys| && chart == keys[k] && keys[k] in there && forall j :: 0 <= j < k ==> keys[j] !in there;
    assert keys[k] in fewer;
  }

  lemma ShownCategoryStays(t: Tables, u: Tables, ctx: Context, name: string, c: Category)
    requires ShowsCategory(t, ctx, name, c) && c in u.categories
    requires forall d :: d in u.categories && d.active ==> d in t.categories
    ensures ShowsCategory(u, ctx, name, c)
  {
    assert CategoryCharts(u, name) <= CategoryCharts(t, name);
    FewerCharts(ctx, CategoryCharts(t, name), CategoryCharts(u, name), c.chart);
  }

  lemma ShownSubStays(t: Tables, u: Tables, ctx: Context, categoryId: nat, name: string, s: SubCategory)
    requires ShowsSub(t, ctx, categoryId, name, s) && s in u.subs
    requires forall d :: d in u.subs && d.active ==> d in t.subs
    ensures ShowsSub(u, ctx, categoryId, name, s)
  {
    assert SubCharts(u, categoryId, name) <= SubCharts(t, categoryId, name);
    FewerCharts(ctx, SubCharts(t, categoryId, name), SubCharts(u, categoryId, name), s.chart);
  }

  /** Only this sub-category was turned off. */
  ghost predicate SubOff(t: Tables, u: Tables, id: nat) {
    && 1 <= id <= |t.subs| && u == t.(subs := u.subs) && |u.subs| == |t.subs|
    && (forall i :: 0 <= i < |t.subs| && i != id - 1 ==> u.subs[i] == t.subs[i])
    && u.subs[id - 1].id == t.subs[id - 1].id && !u.subs[id - 1].active
  }

  lemma ActiveSubsWere(t: Tables, u: Tables, id: nat)
    requires SubOff(t, u, id) && IdsOk(t)
    ensures IdsOk(u)
    ensures forall s :: s in u.subs && s.active ==> s in t.subs
    ensures forall s :: s in t.subs && s.id != id ==> s in u.subs
  {
    forall s | s in t.subs && s.id != id ensures s in u.subs {
      var i :| 0 <= i < |t.subs| && t.subs[i] == s;
      assert u.subs[i] == s;
    }
    forall s | s in u.subs && s.active ensures s in t.subs {
      var i :| 0 <= i < |u.subs| && u.subs[i] == s;
      assert t.subs[i] == s;
    }
  }

  /** A removed sub-category is never resolved to, and whatever resolved to another row still does. */
  lemma RemovedSubIsGone(t: Tables, id: nat)
    requires IdsOk(t)
    ensures var (u, r) := DeleteSub(t, id);
            && (r.Ok? <==> 1 <= id <= |t.subs| && t.subs[id - 1].systemKey == None)
            && (if r.Ok? then SubOff(t, u, id) else u == t)
    ensures DeleteSub(t, id).1.Ok? ==>
              forall category, sub, ctx :: ResolveByName(DeleteSub(t, id).0, category, sub, ctx) != Some(id)
    ensures DeleteSub(t, id).1.Ok? ==>
              forall category, sub, ctx, other: nat ::
                ResolveByName(t, category, sub, ctx) == Some(other) && other != id ==>
                  ResolveByName(DeleteSub(t, id).0, category, sub, ctx) == Some(other)
  {
    var (u, r) := DeleteSub(t, id);
    if r.Ok? {
      ActiveSubsWere(t, u, id);
      forall category, sub, ctx ensures ResolveByName(u, category, sub, ctx) != Some(id) {
        ResolvesToShown(u, category, sub, ctx, id);
      }
      forall category, sub, ctx, other: nat | ResolveByName(t, category, sub, ctx) == Some(other) && other != id
        ensures ResolveByName(u, category, sub, ctx) == Some(other)
      {
        OtherStaysShown(t, u, id, category, sub, ctx, other);
      }
    }
  }

  lemma OtherStaysShown(t: Tables, u: Tables, id: nat, category: string, sub: string, ctx: Context, other: nat)
    requires IdsOk(t) && SubOff(t, u, id) && other != id && ResolveByName(t, category, sub, ctx) == Some(other)
    ensures ResolveByName(u, category, sub, ctx) == Some(other)
  {
    ActiveSubsWere(t, u, id);
    var c, s := ShownRow(t, category, sub, ctx, other);
    StaysShown(t, u, category, sub, ctx, c, s);
  }

  lemma StaysShown(t: Tables, u: Tables, category: string, sub: string, ctx: Context, c: Category, s: SubCategory)
    requires IdsOk(u) && Trim(category) != "" && Trim(sub) != ""
    requires ShowsCategory(t, ctx, Trim(category), c) && ShowsSub(t, ctx, c.id, Trim(sub), s)
    requires c in u.categories && s in u.subs
    requires forall d :: d in u.categories && d.active ==> d in t.categories
    requires forall d :: d in u.subs && d.active ==> d in t.subs
    ensures ResolveByName(u, category, sub, ctx) == Some(s.id)
  {
    ShownCategoryStays(t, u, ctx, Trim(category), c);
    ShownSubStays(t, u, ctx, c.id, Trim(sub), s);
    assert Shows(u, category, sub, ctx, s);
    ResolvesToShown(u, category, sub, ctx, s.id);
  }

  /** Only this category was turned off. */
  ghost predicate CategoryOff(t: Tables, u: Tables, id: nat) {
    && 1 <= id <= |t.categories| && u == t.(categories := u.categories) && |u.categories| == |t.categories|
    && (forall i :: 0 <= i < |t.categories| && i != id - 1 ==> u.categories[i] == t.categories[i])
    && u.categories[id - 1].id == t.categories[id - 1].id && !u.categories[id - 1].active
  }

  lemma ActiveCategoriesWere(t: Tables, u: Tables, id: nat)
    requires CategoryOff(t, u, id) && IdsOk(t)
    ensures IdsOk(u)
    ensures forall c :: c in u.categories && c.active ==> c in t.categories && c.id != id
    ensures forall c :: c in t.categories && c.id != id ==> c in u.categories
  {
    forall c | c in t.categories && c.id != id ensures c in u.categories {
      var i :| 0 <= i < |t.categories| && t.categories[i] == c;
      assert u.categories[i] == c;
    }
    forall c | c in u.categories && c.active ensures c in t.categories && c.id != id {
      var i :| 0 <= i < |u.categories| && u.categories[i] == c;
      assert t.categories[i] == c;
    }
  }

  lemma {:induction false} HoldsDirectIs(subs: seq<SubCategory>, categoryId: nat)
    ensures HoldsDirectCard(subs, categoryId) <==>
              exists s :: s in subs && s.categoryId == categoryId && s.systemKey == Some("DIRECT_CARD_BANK_PAYMENT")
  {
    if subs != [] {
      HoldsDirectIs(subs[1..], categoryId);
      assert subs == [subs[0]] + subs[1..];
    }
  }

  /** Nothing under a removed category is resolved to any more, and whatever resolved under another one still does. */
  lemma RemovedCategoryIsGone(t: Tables, id: nat)
    requires IdsOk(t)
    ensures var (u, r) := DeleteCategory(t, id);
            && (r.Ok? <==> 1 <= id <= |t.categories|
                           && forall s :: s in t.subs && s.categoryId == id ==>
                             s.systemKey != Some("DIRECT_CARD_BANK_PAYMENT"))
            && (if r.Ok? then CategoryOff(t, u, id) else u == t)
    ensures DeleteCategory(t, id).1.Ok? ==>
              forall category, sub, ctx, s: nat ::
                ResolveByName(DeleteCategory(t, id).0, category, sub, ctx) == Some(s) ==>
                  1 <= s <= |t.subs| && t.subs[s - 1].categoryId != id
    ensures DeleteCategory(t, id).1.Ok? ==>
              forall category, sub, ctx, s: nat ::
                ResolveByName(t, category, sub, ctx) == Some(s) && 1 <= s <= |t.subs|
                && t.subs[s - 1].categoryId != id ==>
                  ResolveByName(DeleteCategory(t, id).0, category, sub, ctx) == Some(s)
  {
    HoldsDirectIs(t.subs, id);
    var (u, r) := DeleteCategory(t, id);
    if r.Ok? {
      forall category, sub, ctx, s: nat | ResolveByName(u, category, sub, ctx) == Some(s)
        ensures 1 <= s <= |t.subs| && t.subs[s - 1].categoryId != id
      {
        ShownElsewhere(t, u, id, category, sub, ctx, s);
      }
      forall category, sub, ctx, s: nat | && ResolveByName(t, category, sub, ctx) == Some(s)
                                          && 1 <= s <= |t.subs| && t.subs[s - 1].categoryId != id
        ensures ResolveByName(u, category, sub, ctx) == Some(s)
      {
        ElsewhereStaysShown(t, u, id, category, sub, ctx, s);
      }
    }
  }

  /** The category and the row behind a resolution. */
  lemma ShownRow(t: Tables, category: string, sub: string, ctx: Context, k: nat) returns (c: Category, s: SubCategory)
    requires IdsOk(t) && ResolveByName(t, category, sub, ctx) == Some(k)
    ensures Trim(category) != "" && Trim(sub) != ""
    ensures ShowsCategory(t, ctx, Trim(category), c) && ShowsSub(t, ctx, c.id, Trim(sub), s)
    ensures 1 <= k <= |t.subs| && s == t.subs[k - 1] && s.categoryId == c.id
  {
    ResolvesToShown(t, category, sub, ctx, k);
    s :| Shows(t, category, sub, ctx, s) && s.id == k;
    c :| ShowsCategory(t, ctx, Trim(category), c) && ShowsSub(t, ctx, c.id, Trim(sub), s);
    RowAt(t, s);
  }

  lemma ShownElsewhere(t: Tables, u: Tables, id: nat, category: string, sub: string, ctx: Context, k: nat)
    requires IdsOk(t) && CategoryOff(t, u, id) && ResolveByName(u, category, sub, ctx) == Some(k)
    ensures 1 <= k <= |t.subs| && t.subs[k - 1].categoryId != id
  {
    ActiveCategoriesWere(t, u, id);
    var c, s := ShownRow(u, category, sub, ctx, k);
  }

  lemma ElsewhereStaysShown(t: Tables, u: Tables, id: nat, category: string, sub: string, ctx: Context, k: nat)
    requires IdsOk(t) && CategoryOff(t, u, id) && ResolveByName(t, category, sub, ctx) == Some(k)
    requires 1 <= k <= |t.subs| && t.subs[k - 1].categoryId != id
    ensures ResolveByName(u, category, sub, ctx) == Some(k)
  {
    ActiveCategoriesWere(t, u, id);
    var c, s := ShownRow(t, category, sub, ctx, k);
    StaysShown(t, u, category, sub, ctx, c, s);
  }

  lemma RowAt(t: Tables, s: SubCategory)
    requires IdsOk(t) && s in t.subs
    ensures 1 <= s.id <= |t.subs| && t.subs[s.id - 1] == s
  {
  }

  // ---- The section of a new card ----

  /** The oldest active SYSTEM sub-category of this name. */
  ghost predicate IsSystemSub(subs: seq<SubCategory>, name: string, i: int) {
    && 0 <= i < |subs| && subs[i].chart == "SYSTEM" && subs[i].active && subs[i].name == name
    && forall j :: 0 <= j < i ==> !(subs[j].chart == "SYSTEM" && subs[j].active && subs[j].name == name)
  }

  /** The section of this card. */
  predicate CardIsIn(t: Tables, card: Option<nat>, section: nat) {
    card != None && 1 <= card.value <= |t.accounts| && t.accounts[card.value - 1].sectionId == Some(section)
  }

  /** The first active SYSTEM section named like the category. */
  ghost predicate IsNamedSection(t: Tables, category: string, section: nat) {
    && Trim(category) != ""
    && exists i :: && 0 <= i < |t.sections| && t.sections[i].id == section && t.sections[i].chart == "SYSTEM"
                   && t.sections[i].active && t.sections[i].name == Trim(category)
                   && forall j :: 0 <= j < i ==>
                        !(t.sections[j].chart == "SYSTEM" && t.sections[j].active
                          && t.sections[j].name == Trim(category))
  }

  /** The card a new card of this sub-category name is based on: that of the oldest active SYSTEM sub-category of the
      name. */
  ghost predicate IsSystemCard(t: Tables, name: string, base: Option<nat>) {
    || (exists i :: IsSystemSub(t.subs, name, i) && base == t.subs[i].accountId)
    || (base == None && forall i :: !IsSystemSub(t.subs, name, i))
  }

  /** The section for a new card: its base card's, else the SYSTEM section named like the category. */
  ghost predicate IsSectionFor(t: Tables, base: Option<nat>, category: string, section: nat) {
    || CardIsIn(t, base, section)
    || ((forall x: nat :: !CardIsIn(t, base, x)) && IsNamedSection(t, category, section))
  }

  lemma {:induction false} SystemBaseIs(subs: seq<SubCategory>, name: string)
    ensures || (exists i :: IsSystemSub(subs, name, i) && SystemBase(subs, name) == subs[i].accountId)
            || (SystemBase(subs, name) == None && forall i :: !IsSystemSub(subs, name, i))
  {
    if subs != [] {
      SystemBaseIs(subs[1..], name);
      assert forall j :: 0 < j < |subs| ==> subs[j] == subs[1..][j - 1];
      if subs[0].chart == SYSTEM && subs[0].name == name && subs[0].active {
        assert IsSystemSub(subs, name, 0);
      } else if i :| IsSystemSub(subs[1..], name, i) && SystemBase(subs[1..], name) == subs[1..][i].accountId {
        assert IsSystemSub(subs, name, i + 1);
      } else {
        forall i ensures !IsSystemSub(subs, name, i) { assert !IsSystemSub(subs[1..], name, i - 1); }
      }
    }
  }

  lemma {:induction false} SystemSectionIs(sections: seq<Section>, name: string)
    ensures var found := SystemSection(sections, name);
            && (found.Some? ==>
                  exists i :: && 0 <= i < |sections| && sections[i].id == found.value && sections[i].chart == "SYSTEM"
                              && sections[i].active && sections[i].name == name
                              && forall j :: 0 <= j < i ==>
                                   !(sections[j].chart == "SYSTEM" && sections[j].active && sections[j].name == name))
            && (found.None? ==> forall j :: 0 <= j < |sections| ==>
                                  !(sections[j].chart == "SYSTEM" && sections[j].active && sections[j].name == name))
  {
    if sections != [] && !(sections[0].chart == SYSTEM && sections[0].name == name && sections[0].active) {
      SystemSectionIs(sections[1..], name);
      assert forall j :: 0 < j < |sections| ==> sections[j] == sections[1..][j - 1];
      if i :| && 0 <= i < |sections[1..]| && SystemSection(sections, name) == Some(sections[1..][i].id)
              && sections[1..][i].chart == "SYSTEM" && sections[1..][i].active && sections[1..][i].name == name
              && forall j :: 0 <= j < i ==>
                   !(sections[1..][j].chart == "SYSTEM" && sections[1..][j].active && sections[1..][j].name == name)
      {
        assert sections[i + 1] == sections[1..][i];
      }
    }
  }

  lemma SystemCardIs(t: Tables, name: string, base: Option<nat>)
    ensures IsSystemCard(t, name, base) <==> base == SystemBase(t.subs, name)
  {
    SystemBaseIs(t.subs, name);
    forall i, k | IsSystemSub(t.subs, name, i) && IsSystemSub(t.subs, name, k) ensures k == i {}
  }

  lemma NamedSectionIs(t: Tables, category: string, section: nat)
    ensures IsNamedSection(t, category, section) <==>
            Trim(category) != "" && SystemSection(t.sections, Trim(category)) == Some(section)
  {
    SystemSectionIs(t.sections, Trim(category));
  }

  lemma SectionIs(t: Tables, base: Option<nat>, category: string, section: nat)
    ensures VariantSection(t, base, category) == Some(section) <==> IsSectionFor(t, base, category, section)
  {
    NamedSectionIs(t, category, section);
    if base.Some? && 1 <= base.value <= |t.accounts| && t.accounts[base.value - 1].sectionId.Some? {
      assert CardIsIn(t, base, t.accounts[base.value - 1].sectionId.value);
    }
  }

  // ---- Creating a sub-category ----

  /** By law, without a card of its own. */
  predicate ByLaw(input: NewSub) { !input.isPrivate && input.accountId == None && input.law != None }

  /** The chart has an active card of exactly this law. */
  ghost predicate HasCard(t: Tables, chart: string, law: Law) {
    exists a :: a in t.accounts && a.chart == chart && a.active && a.law == Some(law)
  }

  /** The name may be used: it is not blank, and the direct card's name goes with its key in SYSTEM only. */
  predicate MayBeNamed(scope: Scope, name: string, systemKey: Option<string>) {
    && Trim(name) != ""
    && (Trim(name) == "כרטיס דיירקט" ==> scope.owner == System && systemKey == Some("DIRECT_CARD_BANK_PAYMENT"))
  }

  /** No row, active or not, has this place or this key. */
  predicate IsVacant(t: Tables, chart: string, categoryId: nat, name: string, systemKey: Option<string>) {
    forall s :: s in t.subs ==>
      && !(s.chart == chart && s.categoryId == categoryId && s.name == name)
      && (systemKey != None ==> s.systemKey != systemKey)
  }

  /** Every column of a new row; the card of one made by law is that law's. */
  predicate RowIs(s: SubCategory, scope: Scope, categoryId: nat, name: string, input: NewSub) {
    && s.name == Trim(name) && s.categoryId == categoryId && s.chart == scope.chart && s.active
    && s.isPrivate == input.isPrivate && s.systemKey == input.systemKey
    && (input.isPrivate ==> s.accountId == None && s.approval == Approved)
    && (!input.isPrivate && input.accountId != None ==> s.accountId == input.accountId && s.approval == Approved)
    && (!input.isPrivate && input.accountId == None && input.law == None ==> s.accountId == None)
    && (!input.isPrivate && input.accountId == None ==> (s.approval == MissingMapping <==> s.accountId == None))
    && (s.approval == Approved || s.approval == MissingMapping)
  }

  lemma {:induction false} HasKeyIs(subs: seq<SubCategory>, systemKey: Option<string>)
    ensures HasKey(subs, systemKey) <==> exists s :: s in subs && s.systemKey == systemKey
  {
    if subs != [] {
      HasKeyIs(subs[1..], systemKey);
      assert subs == [subs[0]] + subs[1..];
    }
  }

  lemma VacantIs(t: Tables, chart: string, categoryId: nat, name: string, systemKey: Option<string>)
    ensures IsVacant(t, chart, categoryId, name, systemKey) <==>
            FindSub(t.subs, chart, categoryId, name, false).None? && !(systemKey.Some? && HasKey(t.subs, systemKey))
  {
    NoSubFound(t.subs, chart, categoryId, name, false);
    HasKeyIs(t.subs, systemKey);
  }

  /** A card for a law can be had: it is there, no section calls for it, or the chart has a code left. */
  ghost predicate CardCanBeHad(t: Tables, scope: Scope, law: Law, base: Option<nat>, category: string) {
    || HasCard(t, scope.chart, law)
    || (forall x: nat :: !IsSectionFor(t, base, category, x))
    || NextCode(CodesOf(t.accounts, scope.chart), scope.owner, Expense) != None
  }

  /** Five digits, the first 6 for SYSTEM, 7 for accountants and 8 for clients. */
  predicate IsExpenseCode(code: string, owner: Owner) {
    |code| == 5 && code[0] == (match owner case System => '6' case Accountant => '7' case Client => '8')
  }

  /** What a law leaves in the table of cards: nothing new if the chart has a card of it or no section calls for one, else
      one active card of exactly this law, in the section that calls for it. */
  ghost predicate CardAdded(t: Tables, u: Tables, scope: Scope, law: Law, base: Option<nat>, category: string) {
    && u == t.(accounts := u.accounts)
    && if HasCard(t, scope.chart, law) || forall x: nat :: !IsSectionFor(t, base, category, x) then u == t
       else
         && |u.accounts| == |t.accounts| + 1 && u.accounts[..|t.accounts|] == t.accounts
         && var card := u.accounts[|t.accounts|];
            && card.id == |u.accounts| && card.chart == scope.chart && card.active && card.law == Some(law)
            && IsExpenseCode(card.code, scope.owner)
            && (forall a :: a in t.accounts && a.chart == scope.chart ==> a.code != card.code)
            && card.sectionId != None && IsSectionFor(t, base, category, card.sectionId.value)
  }

  lemma VariantAdds(t: Tables, scope: Scope, law: Law, base: Option<nat>, category: string)
    ensures var r := VariantAccount(t, scope, law, base, category);
            && (r.Ok? <==> CardCanBeHad(t, scope, law, base, category))
            && (r.Ok? ==> CardAdded(t, r.value.0, scope, law, base, category))
            && (r.Ok? ==> (r.value.1.None? <==>
                           !HasCard(t, scope.chart, law) && forall x: nat :: !IsSectionFor(t, base, category, x)))
  {
    NoCardFound(t.accounts, scope.chart, law);
    CodesByOwner(CodesOf(t.accounts, scope.chart), scope.owner, Expense);
    FreshCardCode(t, scope);
    forall x: nat ensures VariantSection(t, base, category) == Some(x) <==> IsSectionFor(t, base, category, x) {
      SectionIs(t, base, category, x);
    }
    if HasCard(t, scope.chart, law) {
      var a :| a in t.accounts && a.chart == scope.chart && a.active && a.law == Some(law);
      var i :| 0 <= i < |t.accounts| && t.accounts[i] == a;
    }
  }

  lemma InsertIs(t: Tables, scope: Scope, categoryId: nat, name: string, systemKey: Option<string>, isPrivate: bool,
                 accountId: Option<nat>, approval: Approval)
    ensures var r := InsertSub(t, scope, categoryId, name, systemKey, isPrivate, accountId, approval);
            && (r.Ok? <==> IsVacant(t, scope.chart, categoryId, Trim(name), systemKey)
                           && (!isPrivate && accountId != None ==> 1 <= accountId.value <= |t.accounts|))
            && (r.Ok? ==>
                  && r.value.1 == |t.subs| + 1
                  && r.value.0 == t.(subs := t.subs + [SubCategory(r.value.1, categoryId, Trim(name), isPrivate,
                                                                   if isPrivate then None else accountId, scope.chart,
                                                                   approval, systemKey, true)]))
  {
    VacantIs(t, scope.chart, categoryId, Trim(name), systemKey);
  }

  /** A sub-category is created exactly if its name may be used, its category is there, its place and key are vacant, the
      card it names is there, and a card for its law can be had. It is added at the end, column by column as asked; of
      cards one for its law may be added, in the section that calls for it. */
  lemma CreatedIs(t: Tables, scope: Scope, categoryId: nat, name: string, input: NewSub)
    requires IdsOk(t)
    ensures CreateSub(t, scope, categoryId, name, input).1.Ok? <==> MayCreate(t, scope, categoryId, name, input)
    ensures CreateSub(t, scope, categoryId, name, input).1.Ok? ==>
              IsCreated(t, CreateSub(t, scope, categoryId, name, input).0, scope, categoryId, name, input)
  {
    if MayBeNamed(scope, name, input.systemKey) && 1 <= categoryId <= |t.categories| {
      if ByLaw(input) {
        CreatedByLaw(t, scope, categoryId, name, input);
      } else {
        InsertIs(t, scope, categoryId, name, input.systemKey, input.isPrivate, input.accountId,
                 if input.isPrivate || input.accountId.Some? then Approved else MissingMapping);
      }
    }
  }

  lemma CreatedByLaw(t: Tables, scope: Scope, categoryId: nat, name: string, input: NewSub)
    requires IdsOk(t) && MayBeNamed(scope, name, input.systemKey) && 1 <= categoryId <= |t.categories| && ByLaw(input)
    ensures CreateSub(t, scope, categoryId, name, input).1.Ok? <==> MayCreate(t, scope, categoryId, name, input)
    ensures CreateSub(t, scope, categoryId, name, input).1.Ok? ==>
              IsCreated(t, CreateSub(t, scope, categoryId, name, input).0, scope, categoryId, name, input)
  {
    var category := t.categories[categoryId - 1].name;
    var base := SystemBase(t.subs, Trim(name));
    forall b ensures IsSystemCard(t, Trim(name), b) <==> b == base { SystemCardIs(t, Trim(name), b); }
    VariantAdds(t, scope, input.law.value, base, category);
    var variant := VariantAccount(t, scope, input.law.value, base, category);
    if variant.Ok? {
      var (v, id) := variant.value;
      InsertIs(v, scope, categoryId, name, input.systemKey, false, id, if id.Some? then Approved else MissingMapping);
      InsertedByLaw(t, v, id, base, scope, categoryId, name, input);
    }
  }

  lemma InsertedByLaw(t: Tables, v: Tables, id: Option<nat>, base: Option<nat>, scope: Scope, categoryId: nat,
                      name: string, input: NewSub)
    requires 1 <= categoryId <= |t.categories| && ByLaw(input)
    requires IsSystemCard(t, Trim(name), base)
    requires CardAdded(t, v, scope, input.law.value, base, t.categories[categoryId - 1].name)
    ensures var s := SubCategory(|t.subs| + 1, categoryId, Trim(name), false, id, scope.chart,
                                 if id.Some? then Approved else MissingMapping, input.systemKey, true);
            IsCreated(t, v.(subs := v.subs + [s]), scope, categoryId, name, input)
  {
    var s := SubCategory(|t.subs| + 1, categoryId, Trim(name), false, id, scope.chart,
                         if id.Some? then Approved else MissingMapping, input.systemKey, true);
    assert v.(subs := v.subs + [s]).(subs := t.subs) == v;
  }

  ghost predicate MayCreate(t: Tables, scope: Scope, categoryId: nat, name: string, input: NewSub) {
    && MayBeNamed(scope, name, input.systemKey) && 1 <= categoryId <= |t.categories|
    && IsVacant(t, scope.chart, categoryId, Trim(name), input.systemKey)
    && (!input.isPrivate && input.accountId != None ==> 1 <= input.accountId.value <= |t.accounts|)
    && (ByLaw(input) ==>
          exists base :: && IsSystemCard(t, Trim(name), base)
                         && CardCanBeHad(t, scope, input.law.value, base, t.categories[categoryId - 1].name))
  }

  ghost predicate IsCreated(t: Tables, u: Tables, scope: Scope, categoryId: nat, name: string, input: NewSub)
    requires 1 <= categoryId <= |t.categories|
  {
    && |u.subs| == |t.subs| + 1 && u.subs[..|t.subs|] == t.subs && u.subs[|t.subs|].id == |u.subs|
    && RowIs(u.subs[|t.subs|], scope, categoryId, name, input)
    && if ByLaw(input) then
         exists base :: && IsSystemCard(t, Trim(name), base)
                        && CardAdded(t, u.(subs := t.subs), scope, input.law.value, base,
                                     t.categories[categoryId - 1].name)
       else u == t.(subs := u.subs)
  }

  /** The card a law update starts from: the row's own, else that of the SYSTEM sub-category of its name. */
  ghost predicate IsUpdateBase(t: Tables, subId: nat, base: Option<nat>)
    requires 1 <= subId <= |t.subs|
  {
    if t.subs[subId - 1].accountId != None then base == t.subs[subId - 1].accountId
    else IsSystemCard(t, Trim(t.subs[subId - 1].name), base)
  }

  /** A law update succeeds exactly for a row without a key, if a card for the law can be had. Of cards one for the law
      may be added, in the section that calls for it; of rows only the updated one changes, in its card and approval. */
  lemma UpdatedIs(t: Tables, subId: nat, scope: Scope, law: Law)
    requires IdsOk(t) && LinksOk(t)
    ensures UpdateLaw(t, subId, scope, law).1.Ok? <==>
            && 1 <= subId <= |t.subs| && t.subs[subId - 1].systemKey == None
            && exists base :: IsUpdateBase(t, subId, base)
                              && CardCanBeHad(t, scope, law, base, t.categories[t.subs[subId - 1].categoryId - 1].name)
    ensures var (u, r) := UpdateLaw(t, subId, scope, law);
            r.Ok? ==>
              && |u.subs| == |t.subs| && u.subs[subId - 1].(accountId := None, approval := Approved) ==
                 t.subs[subId - 1].(accountId := None, approval := Approved)
              && (forall i :: 0 <= i < |t.subs| && i != subId - 1 ==> u.subs[i] == t.subs[i])
              && exists base :: IsUpdateBase(t, subId, base)
                                && CardAdded(t, u.(subs := t.subs), scope, law, base,
                                             t.categories[t.subs[subId - 1].categoryId - 1].name)
  {
    if 1 <= subId <= |t.subs| {
      var (base, category) := UpdateBase(t, subId);
      forall b ensures IsUpdateBase(t, subId, b) <==> b == base { SystemCardIs(t, Trim(t.subs[subId - 1].name), b); }
      VariantAdds(t, scope, law, base, category);
      var variant := VariantAccount(t, scope, law, base, category);
      assert category == t.categories[t.subs[subId - 1].categoryId - 1].name && IsUpdateBase(t, subId, base);
      if UpdateLaw(t, subId, scope, law).1.Ok? {
        assert UpdateLaw(t, subId, scope, law).0.(subs := t.subs) == variant.value.0;
      }
    }
  }

  // ---- Repointing ----

  /** A repoint may go ahead exactly for a business and a row and active card that its context sees, if the row is not
      private. */
  lemma MayRepointIff(t: Tables, subId: nat, accountId: nat, ctx: Context)
    ensures MayRepoint(t, subId, accountId, ctx) <==>
            && ctx.business != None
            && 1 <= subId <= |t.subs| && Sees(ctx, t.subs[subId - 1].chart) && !t.subs[subId - 1].isPrivate
            && 1 <= accountId <= |t.accounts| && Sees(ctx, t.accounts[accountId - 1].chart)
            && t.accounts[accountId - 1].active
  {
    if 1 <= subId <= |t.subs| { KeysAreSeen(ctx, t.subs[subId - 1].chart); }
    if 1 <= accountId <= |t.accounts| { KeysAreSeen(ctx, t.accounts[accountId - 1].chart); }
  }

  /** Repointing a row of the client's own changes that row alone, in its card and approval alone. */
  lemma OwnRowIsPointed(t: Tables, subId: nat, accountId: nat, ctx: Context)
    requires MayRepoint(t, subId, accountId, ctx) && t.subs[subId - 1].chart == ClientChart(ctx.business.value)
    ensures var (u, r) := Repoint(t, subId, accountId, ctx);
            && r == Ok(subId) && u == t.(subs := u.subs) && |u.subs| == |t.subs|
            && (forall i :: 0 <= i < |t.subs| && i != subId - 1 ==> u.subs[i] == t.subs[i])
            && u.subs[subId - 1].accountId == Some(accountId) && u.subs[subId - 1].approval == Approved
            && u.subs[subId - 1].(accountId := None, approval := Approved) ==
               t.subs[subId - 1].(accountId := None, approval := Approved)
  {
  }
}
