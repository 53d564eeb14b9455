/** When the apply pass commits, said of the legacy rows and the database before the call. */
module MigrationCommit {
  import opened Common
  import opened Charts
  import opened MigrationSpec
  import opened MigrationPlan

  predicate Kept(rules: Rules, row: LegacySub) { !IsExcluded(rules, row) && !IsMerged(rules, row) }

  predicate SameName(a: LegacySub, b: LegacySub) { a.category == b.category && a.name == b.name }

  /** No two kept default rows have one category and name, none bears the name of a merge group in use under the
      groups' category, and no two CLIENT rows of a business have one category and name. */
  ghost predicate RowsDistinct(rules: Rules, legacy: Legacy) {
    && (forall i, j :: 0 <= i < j < |legacy.subs| && Kept(rules, legacy.subs[i]) && Kept(rules, legacy.subs[j]) ==>
          !SameName(legacy.subs[i], legacy.subs[j]))
    && (forall i ::
          0 <= i < |legacy.subs| && Kept(rules, legacy.subs[i]) && legacy.subs[i].category == rules.mergeParent ==>
          !MergedIn(rules, legacy.subs, legacy.subs[i].name))
    && (forall i, j :: 0 <= i < j < |legacy.userSubs| && legacy.userSubs[i].business == legacy.userSubs[j].business ==>
          !SameName(legacy.userSubs[i], legacy.userSubs[j]))
  }

  /** No two included default categories, nor two of one business, have one name and type, and none is there yet. */
  ghost predicate CategoriesDistinct(rules: Rules, legacy: Legacy, db: Tables) {
    var included := Included(rules, legacy.categories);
    && (forall i, j :: 0 <= i < j < |included| ==>
          !(included[i].name == included[j].name && included[i].isExpense == included[j].isExpense))
    && NoRepeats(legacy.userCategories)
    && (forall c :: c in included || c in legacy.userCategories ==> CategoryOf(c) !in db.categories)
  }

  /** The foreign key from sub-categories to categories. */
  ghost predicate ForeignKeys(db: Tables) {
    forall i :: 0 <= i < |db.subs| ==> db.subs[i].categoryId <= |db.categories|
  }

  // ---- Categories ----

  lemma SameCategoryIff(a: LegacyCategory, b: LegacyCategory)
    ensures CategoryOf(a) == CategoryOf(b) <==> a == b
  {
    if a.business.Some? && b.business.Some? {
      ChartsDiffer(a.business.value, b.business.value);
    } else if a.business.Some? {
      ChartsDiffer(a.business.value, a.business.value);
    } else if b.business.Some? {
      ChartsDiffer(b.business.value, b.business.value);
    }
  }

  lemma {:induction false} CategoriesOfAre(cs: seq<LegacyCategory>)
    ensures |CategoriesOf(cs)| == |cs| && forall i :: 0 <= i < |cs| ==> CategoriesOf(cs)[i] == CategoryOf(cs[i])
  {
    if cs != [] { CategoriesOfAre(cs[..|cs| - 1]); }
  }

  /** The legacy categories that are migrated, in order. */
  function Migrated(rules: Rules, legacy: Legacy): seq<LegacyCategory> {
    Included(rules, legacy.categories) + legacy.userCategories
  }

  lemma NewCategoriesAre(rules: Rules, legacy: Legacy)
    ensures |NewCategories(rules, legacy)| == |Migrated(rules, legacy)|
    ensures forall i :: 0 <= i < |Migrated(rules, legacy)| ==>
              NewCategories(rules, legacy)[i] == CategoryOf(Migrated(rules, legacy)[i])
  {
    CategoriesOfAre(Included(rules, legacy.categories));
    CategoriesOfAre(legacy.userCategories);
  }

  lemma AllNewMeans<T(!new)>(there: seq<T>, added: seq<T>)
    ensures AllNew(there, added) <==>
            NoRepeats(added) && (forall j :: 0 <= j < |added| ==> added[j] !in there)
  {
    if AllNew(there, added) {
      forall i, j | 0 <= i < j < |added| ensures added[i] != added[j] {
        assert added[..j][i] == added[i];
      }
    }
  }

  /** A list whose first part has nothing in common with the rest. */
  lemma DifferOfTwo<T(!new)>(a: seq<T>, b: seq<T>)
    requires forall x :: x in a ==> x !in b
    ensures NoRepeats(a + b) <==> NoRepeats(a) && NoRepeats(b)
  {
    var all := a + b;
    if NoRepeats(all) {
      assert forall i :: 0 <= i < |a| ==> all[i] == a[i];
      assert forall i :: 0 <= i < |b| ==> all[|a| + i] == b[i];
    }
    if NoRepeats(a) && NoRepeats(b) {
      forall i, j | 0 <= i < j < |all| ensures all[i] != all[j] {
        if j < |a| {
          assert a[i] != a[j];
        } else if i < |a| {
          assert a[i] in a && b[j - |a|] in b;
        } else {
          assert b[i - |a|] != b[j - |a|];
        }
      }
    }
  }

  lemma DefaultsDifferIff(cs: seq<LegacyCategory>)
    requires forall i :: 0 <= i < |cs| ==> cs[i].business.None?
    ensures NoRepeats(cs) <==>
            forall i, j :: 0 <= i < j < |cs| ==> !(cs[i].name == cs[j].name && cs[i].isExpense == cs[j].isExpense)
  {
  }

  lemma NewCategoriesDifferIff(rules: Rules, legacy: Legacy)
    requires Proper(legacy)
    ensures NoRepeats(Migrated(rules, legacy)) <==>
            var included := Included(rules, legacy.categories);
            && (forall i, j :: 0 <= i < j < |included| ==>
                  !(included[i].name == included[j].name && included[i].isExpense == included[j].isExpense))
            && NoRepeats(legacy.userCategories)
  {
    var included := Included(rules, legacy.categories);
    IncludedAre(rules, legacy.categories);
    assert forall i :: 0 <= i < |included| ==> included[i] in included;
    DefaultsDifferIff(included);
    DifferOfTwo(included, legacy.userCategories);
  }

  lemma NoneThereIff(rules: Rules, legacy: Legacy, db: Tables)
    ensures (forall j :: 0 <= j < |NewCategories(rules, legacy)| ==>
               NewCategories(rules, legacy)[j] !in db.categories) <==>
            forall c :: c in Included(rules, legacy.categories) || c in legacy.userCategories ==>
              CategoryOf(c) !in db.categories
  {
    var cs, ls := NewCategories(rules, legacy), Migrated(rules, legacy);
    NewCategoriesAre(rules, legacy);
    if forall j :: 0 <= j < |cs| ==> cs[j] !in db.categories {
      forall c | c in Included(rules, legacy.categories) || c in legacy.userCategories
        ensures CategoryOf(c) !in db.categories
      {
        assert c in ls;
        var j :| 0 <= j < |ls| && ls[j] == c;
        assert cs[j] == CategoryOf(c);
      }
    } else {
      var j :| 0 <= j < |cs| && cs[j] in db.categories;
      assert ls[j] in ls && cs[j] == CategoryOf(ls[j]);
    }
  }

  lemma NewDifferIff(rules: Rules, legacy: Legacy)
    ensures NoRepeats(NewCategories(rules, legacy)) <==> NoRepeats(Migrated(rules, legacy))
  {
    var cs, ls := NewCategories(rules, legacy), Migrated(rules, legacy);
    NewCategoriesAre(rules, legacy);
    forall i, j | 0 <= i < j < |ls| ensures cs[i] == cs[j] <==> ls[i] == ls[j] {
      SameCategoryIff(ls[i], ls[j]);
    }
  }

  /** The category inserts succeed exactly when the legacy categories are distinct and new. */
  lemma CategoriesNewIff(rules: Rules, legacy: Legacy, db: Tables)
    requires Proper(legacy)
    ensures AllNew(db.categories, NewCategories(rules, legacy)) <==> CategoriesDistinct(rules, legacy, db)
  {
    AllNewMeans(db.categories, NewCategories(rules, legacy));
    NewDifferIff(rules, legacy);
    NewCategoriesDifferIff(rules, legacy);
    NoneThereIff(rules, legacy, db);
  }

  // ---- Keys of the planned sub-categories ----

  /** Two origins whose inserts would have one key, said of the legacy rows. */
  ghost predicate Clash(rules: Rules, legacy: Legacy, a: Origin, b: Origin) {
    match (a, b)
    case (FromSystem(i), FromSystem(j)) =>
      i < |legacy.subs| && j < |legacy.subs| && SameName(legacy.subs[i], legacy.subs[j])
    case (FromSystem(i), FromMerge(into)) =>
      i < |legacy.subs| && legacy.subs[i].category == rules.mergeParent && legacy.subs[i].name == into
    case (FromMerge(into), FromSystem(i)) =>
      i < |legacy.subs| && legacy.subs[i].category == rules.mergeParent && legacy.subs[i].name == into
    case (FromClient(i), FromClient(j)) =>
      i < |legacy.userSubs| && j < |legacy.userSubs| && legacy.userSubs[i].business == legacy.userSubs[j].business
      && SameName(legacy.userSubs[i], legacy.userSubs[j])
    case _ => false
  }

  /** The category name that a planned insert sits under. */
  function UnderName(rules: Rules, legacy: Legacy, o: Origin): string {
    match o
    case FromSystem(i) => if i < |legacy.subs| then legacy.subs[i].category else ""
    case FromMerge(_) => rules.mergeParent
    case FromClient(i) => if i < |legacy.userSubs| then legacy.userSubs[i].category else ""
  }

  function ChartOf(legacy: Legacy, o: Origin): string {
    if o.FromClient? && o.i < |legacy.userSubs| then ClientChart(legacy.userSubs[o.i].business) else SYSTEM
  }

  function NameOf(legacy: Legacy, o: Origin): string {
    match o
    case FromSystem(i) => if i < |legacy.subs| then legacy.subs[i].name else ""
    case FromMerge(into) => into
    case FromClient(i) => if i < |legacy.userSubs| then legacy.userSubs[i].name else ""
  }

  /** A planned insert's columns, and the id of a new category of the name it sits under. */
  lemma PlannedIs(rules: Rules, look: Lookup, legacy: Legacy, o: Origin)
    requires Planned(rules, look, legacy, o).Some?
    ensures var s := Planned(rules, look, legacy, o).value;
            && s.chart == ChartOf(legacy, o) && s.name == NameOf(legacy, o)
            && look.base < s.categoryId <= look.base + |look.categories|
            && look.categories[s.categoryId - look.base - 1].name == UnderName(rules, legacy, o)
            && Some(s.categoryId) == ParentOf(look.base, look.categories, ChartOf(legacy, o),
                                              UnderName(rules, legacy, o))
  {
    IdOfIs(look.base, look.categories, ChartOf(legacy, o), UnderName(rules, legacy, o));
    IdOfIs(look.base, look.categories, SYSTEM, UnderName(rules, legacy, o));
  }

  lemma KeysEqualIff(rules: Rules, look: Lookup, legacy: Legacy, a: Origin, b: Origin)
    requires Planned(rules, look, legacy, a).Some? && Planned(rules, look, legacy, b).Some? && a != b
    ensures SubKey(Planned(rules, look, legacy, a).value) == SubKey(Planned(rules, look, legacy, b).value) <==>
            Clash(rules, legacy, a, b)
  {
    PlannedIs(rules, look, legacy, a);
    PlannedIs(rules, look, legacy, b);
    if a.FromClient? && b.FromClient? {
      ChartsDiffer(legacy.userSubs[a.i].business, legacy.userSubs[b.i].business);
    } else if a.FromClient? {
      ChartsDiffer(legacy.userSubs[a.i].business, legacy.userSubs[a.i].business);
    } else if b.FromClient? {
      ChartsDiffer(legacy.userSubs[b.i].business, legacy.userSubs[b.i].business);
    }
  }

  lemma {:induction false} SubKeysAre(subs: seq<Sub>)
    ensures |SubKeys(subs)| == |subs| && forall i :: 0 <= i < |subs| ==> SubKeys(subs)[i] == SubKey(subs[i])
  {
    if subs != [] { SubKeysAre(subs[..|subs| - 1]); }
  }

  ghost predicate NoClash(rules: Rules, legacy: Legacy, os: seq<Origin>) {
    forall i, j :: 0 <= i < j < |os| ==> !Clash(rules, legacy, os[i], os[j])
  }

  lemma KeysAt(rules: Rules, look: Lookup, legacy: Legacy, os: seq<Origin>, j: nat)
    requires AllPlanned(rules, look, legacy, os) && j < |os|
    ensures var keys := SubKeys(PlannedSubs(rules, look, legacy, os));
            |keys| == |os| && os[j] in os && keys[j] == SubKey(Planned(rules, look, legacy, os[j]).value)
  {
    PlannedSubsAre(rules, look, legacy, os);
    SubKeysAre(PlannedSubs(rules, look, legacy, os));
  }

  lemma NotThere(rules: Rules, look: Lookup, legacy: Legacy, db: Tables, o: Origin)
    requires Planned(rules, look, legacy, o).Some? && ForeignKeys(db) && look.base == |db.categories|
    ensures SubKey(Planned(rules, look, legacy, o).value) !in SubKeys(db.subs)
  {
    PlannedIs(rules, look, legacy, o);
    SubKeysAre(db.subs);
  }

  lemma KeysDifferIff(rules: Rules, look: Lookup, legacy: Legacy, os: seq<Origin>, keys: seq<(string, nat, string)>)
    requires AllPlanned(rules, look, legacy, os) && NoRepeats(os)
             && keys == SubKeys(PlannedSubs(rules, look, legacy, os))
    ensures NoRepeats(keys) <==> NoClash(rules, legacy, os)
  {
    KeysLength(rules, look, legacy, os);
    forall i, j | 0 <= i < j < |os| ensures keys[i] == keys[j] <==> Clash(rules, legacy, os[i], os[j]) {
      KeysAt(rules, look, legacy, os, i);
      KeysAt(rules, look, legacy, os, j);
      KeysEqualIff(rules, look, legacy, os[i], os[j]);
    }
  }

  /** The planned keys are new exactly when no two origins clash: what is there already sits under other categories. */
  lemma KeysNewIff(rules: Rules, legacy: Legacy, look: Lookup, db: Tables, os: seq<Origin>)
    requires AllPlanned(rules, look, legacy, os) && NoRepeats(os) && ForeignKeys(db) && look.base == |db.categories|
    ensures AllNew(SubKeys(db.subs), SubKeys(PlannedSubs(rules, look, legacy, os))) <==> NoClash(rules, legacy, os)
  {
    var keys := SubKeys(PlannedSubs(rules, look, legacy, os));
    AllNewMeans(SubKeys(db.subs), keys);
    KeysDifferIff(rules, look, legacy, os, keys);
    forall j | 0 <= j < |keys| ensures keys[j] !in SubKeys(db.subs) {
      KeysLength(rules, look, legacy, os);
      KeysAt(rules, look, legacy, os, j);
      NotThere(rules, look, legacy, db, os[j]);
    }
  }

  lemma KeysLength(rules: Rules, look: Lookup, legacy: Legacy, os: seq<Origin>)
    requires AllPlanned(rules, look, legacy, os)
    ensures |SubKeys(PlannedSubs(rules, look, legacy, os))| == |os|
  {
    PlannedSubsAre(rules, look, legacy, os);
    SubKeysAre(PlannedSubs(rules, look, legacy, os));
  }

  lemma ClashIsSymmetric(rules: Rules, legacy: Legacy, a: Origin, b: Origin)
    ensures Clash(rules, legacy, a, b) <==> Clash(rules, legacy, b, a)
  {
  }

  /** Two origins of the plan never clash. */
  lemma NoClashOf(rules: Rules, legacy: Legacy, os: seq<Origin>, a: Origin, b: Origin)
    requires NoClash(rules, legacy, os) && a in os && b in os && a != b
    ensures !Clash(rules, legacy, a, b)
  {
    var i :| 0 <= i < |os| && os[i] == a;
    var j :| 0 <= j < |os| && os[j] == b;
    ClashIsSymmetric(rules, legacy, a, b);
    assert i < j ==> !Clash(rules, legacy, os[i], os[j]);
    assert j < i ==> !Clash(rules, legacy, os[j], os[i]);
  }

  lemma NoClashIff(rules: Rules, legacy: Legacy)
    ensures NoClash(rules, legacy, Origins(rules, legacy)) <==> RowsDistinct(rules, legacy)
  {
    OneInsertEach(rules, legacy);
    if NoClash(rules, legacy, Origins(rules, legacy)) { NoClashMeansDistinct(rules, legacy); }
    if RowsDistinct(rules, legacy) { DistinctMeansNoClash(rules, legacy); }
  }

  lemma NoClashMeansDistinct(rules: Rules, legacy: Legacy)
    requires NoClash(rules, legacy, Origins(rules, legacy))
    ensures RowsDistinct(rules, legacy)
  {
    var os := Origins(rules, legacy);
    OneInsertEach(rules, legacy);
    forall i, j | 0 <= i < j < |legacy.subs| && Kept(rules, legacy.subs[i]) && Kept(rules, legacy.subs[j])
      ensures !SameName(legacy.subs[i], legacy.subs[j])
    {
      NoClashOf(rules, legacy, os, FromSystem(i), FromSystem(j));
    }
    forall i | 0 <= i < |legacy.subs| && Kept(rules, legacy.subs[i]) && legacy.subs[i].category == rules.mergeParent
      ensures !MergedIn(rules, legacy.subs, legacy.subs[i].name)
    {
      if MergedIn(rules, legacy.subs, legacy.subs[i].name) {
        NoClashOf(rules, legacy, os, FromSystem(i), FromMerge(legacy.subs[i].name));
      }
    }
    forall i, j | 0 <= i < j < |legacy.userSubs| && legacy.userSubs[i].business == legacy.userSubs[j].business
      ensures !SameName(legacy.userSubs[i], legacy.userSubs[j])
    {
      NoClashOf(rules, legacy, os, FromClient(i), FromClient(j));
    }
  }

  lemma DistinctMeansNoClash(rules: Rules, legacy: Legacy)
    requires RowsDistinct(rules, legacy)
    ensures NoClash(rules, legacy, Origins(rules, legacy))
  {
    var os := Origins(rules, legacy);
    OneInsertEach(rules, legacy);
    forall i, j | 0 <= i < j < |os| ensures !Clash(rules, legacy, os[i], os[j]) {
      PairDistinct(rules, legacy, os[i], os[j]);
    }
  }

  lemma PairDistinct(rules: Rules, legacy: Legacy, a: Origin, b: Origin)
    requires RowsDistinct(rules, legacy) && a in Origins(rules, legacy) && b in Origins(rules, legacy) && a != b
    ensures !Clash(rules, legacy, a, b)
  {
    OneInsertEach(rules, legacy);
    match (a, b)
    case (FromSystem(i), FromSystem(j)) =>
      assert i < j ==> !SameName(legacy.subs[i], legacy.subs[j]);
      assert j < i ==> !SameName(legacy.subs[j], legacy.subs[i]);
    case (FromClient(i), FromClient(j)) =>
      if legacy.userSubs[i].business == legacy.userSubs[j].business {
        assert i < j ==> !SameName(legacy.userSubs[i], legacy.userSubs[j]);
        assert j < i ==> !SameName(legacy.userSubs[j], legacy.userSubs[i]);
      }
    case _ =>
  }

  // ---- When an apply commits ----

  /** The apply pass commits exactly when the review of the same data is clean, every default row has its default
      category, the cards are there, and the legacy rows and categories are distinct where the unique indexes ask it. */
  lemma CommitsExactlyWhen(rules: Rules, legacy: Legacy, db: Tables, r: Report)
    requires Proper(legacy) && ForeignKeys(db) && IsReview(r, rules, legacy)
    ensures Applicable(rules, legacy, db) <==>
              && IsClean(r) && TechnicalKnown(rules, db.cards)
              && Unreviewed(rules, legacy, EnsureCards(db.cards, rules.technical))
              && CategoriesDistinct(rules, legacy, db) && RowsDistinct(rules, legacy)
  {
    var look := LookupOf(rules, legacy, db);
    CleanMeansReviewed(r, rules, legacy);
    PlannedIffReviewed(rules, legacy, look);
    CategoriesNewIff(rules, legacy, db);
    NoClashIff(rules, legacy);
    OneInsertEach(rules, legacy);
    if AllPlanned(rules, look, legacy, Origins(rules, legacy)) {
      KeysNewIff(rules, legacy, look, db, Origins(rules, legacy));
    }
  }

  /** An apply that commits had a clean review. */
  lemma CommitNeedsCleanReview(rules: Rules, legacy: Legacy, db: Tables, r: Report)
    requires Proper(legacy) && IsReview(r, rules, legacy) && Applicable(rules, legacy, db)
    ensures IsClean(r)
  {
    CleanMeansReviewed(r, rules, legacy);
    PlannedIffReviewed(rules, legacy, LookupOf(rules, legacy, db));
  }
}
