/** Merging rows of the CLIENT, ACCOUNTANT and SYSTEM charts by precedence. */
module Precedence {
  import opened Common
  import opened Charts

  /** What the merges read of a row: its chart and the name, or code, it is merged by. */
  datatype Row = Row(chart: string, name: string, id: nat)

  datatype Context = Context(business: Option<string>, accountantIds: seq<string>, accountantId: Option<string>,
                             businessType: Option<string>)

  function Distinct(keys: seq<string>): seq<string> {
    if keys == [] then []
    else
      var last := keys[|keys| - 1];
      var before := Distinct(keys[..|keys| - 1]);
      if last in before then before else before + [last]
  }

  function AccountantCharts(ids: seq<string>): seq<string> {
    seq(|ids|, (k: nat) requires k < |ids| => AccountantChart(ids[k]))
  }

  /** CLIENT before ACCOUNTANT before SYSTEM, without repetitions. */
  function ChartOwnerKeys(ctx: Context): seq<string> {
    Distinct((if ctx.business.Some? then [ClientChart(ctx.business.value)] else [])
             + AccountantCharts(ctx.accountantIds)
             + (if ctx.accountantId.Some? then [AccountantChart(ctx.accountantId.value)] else [])
             + [SYSTEM])
  }

  lemma {:induction false} DistinctIsDistinct(keys: seq<string>)
    ensures NoRepeats(Distinct(keys))
    ensures forall k :: k in Distinct(keys) <==> k in keys
    ensures keys != [] ==> Distinct(keys) != [] && Distinct(keys)[0] == keys[0]
  {
    if keys != [] {
      DistinctIsDistinct(keys[..|keys| - 1]);
      assert keys == keys[..|keys| - 1] + [keys[|keys| - 1]];
    }
  }

  /** Position of a chart in the precedence order, or its length. */
  function Rank(keys: seq<string>, chart: string): nat {
    if keys == [] then 0 else if keys[0] == chart then 0 else 1 + Rank(keys[1..], chart)
  }

  lemma {:induction false} RankIs(keys: seq<string>, chart: string)
    ensures Rank(keys, chart) <= |keys|
    ensures chart in keys <==> Rank(keys, chart) < |keys|
    ensures chart in keys ==> keys[Rank(keys, chart)] == chart
    ensures forall k :: 0 <= k < Rank(keys, chart) ==> keys[k] != chart
  {
    if keys != [] {
      RankIs(keys[1..], chart);
      assert forall k :: 0 < k < |keys| ==> keys[k] == keys[1..][k - 1];
    }
  }

  function FirstOf(rows: seq<Row>, chart: string): Option<Row> {
    if rows == [] then None else if rows[0].chart == chart then Some(rows[0]) else FirstOf(rows[1..], chart)
  }

  /** pickByPrecedence: for each chart in order, the first row of that chart. */
  function Pick(rows: seq<Row>, keys: seq<string>): Option<Row> {
    if keys == [] then None
    else if FirstOf(rows, keys[0]).Some? then FirstOf(rows, keys[0])
    else Pick(rows, keys[1..])
  }

  /** The row at i is the first of those with the best rank. */
  ghost predicate Best(rows: seq<Row>, keys: seq<string>, i: int) {
    && 0 <= i < |rows|
    && (forall j :: 0 <= j < i ==> Rank(keys, rows[i].chart) < Rank(keys, rows[j].chart))
    && (forall j :: i < j < |rows| ==> Rank(keys, rows[i].chart) <= Rank(keys, rows[j].chart))
  }

  lemma {:induction false} FirstOfIs(rows: seq<Row>, chart: string)
    ensures FirstOf(rows, chart).None? ==> forall r :: r in rows ==> r.chart != chart
    ensures FirstOf(rows, chart).Some? ==>
              exists i :: 0 <= i < |rows| && rows[i] == FirstOf(rows, chart).value && rows[i].chart == chart
                          && forall j :: 0 <= j < i ==> rows[j].chart != chart
  {
    if rows != [] && rows[0].chart != chart {
      FirstOfIs(rows[1..], chart);
      if FirstOf(rows, chart).Some? {
        var i :| 0 <= i < |rows[1..]| && rows[1..][i] == FirstOf(rows[1..], chart).value && rows[1..][i].chart == chart
                 && forall j :: 0 <= j < i ==> rows[1..][j].chart != chart;
        assert rows[i + 1] == rows[1..][i];
        forall j | 0 <= j < i + 1 ensures rows[j].chart != chart {
          if j > 0 { assert rows[j] == rows[1..][j - 1]; }
        }
      }
    } else if rows != [] {
      assert rows[0] == FirstOf(rows, chart).value;
    }
  }

  /** The single lookup picks the first row of the best rank; it finds one whenever a row is in scope. */
  lemma {:induction false} PickIsBest(rows: seq<Row>, keys: seq<string>)
    requires NoRepeats(keys)
    requires forall r :: r in rows ==> r.chart in keys
    ensures rows == [] ==> Pick(rows, keys).None?
    ensures rows != [] ==> Pick(rows, keys).Some? && exists i :: Best(rows, keys, i) && Pick(rows, keys) == Some(rows[i])
  {
    PickFrom(rows, keys, 0);
    assert keys[0..] == keys;
  }

  lemma {:induction false} PickFrom(rows: seq<Row>, keys: seq<string>, from: nat)
    requires NoRepeats(keys) && from <= |keys|
    requires forall r :: r in rows ==> r.chart in keys && Rank(keys, r.chart) >= from
    ensures rows == [] ==> Pick(rows, keys[from..]).None?
    ensures rows != [] ==>
              && Pick(rows, keys[from..]).Some?
              && exists i :: Best(rows, keys, i) && Pick(rows, keys[from..]) == Some(rows[i])
    decreases |keys| - from
  {
    if from == |keys| {
      if rows != [] {
        var r := rows[0];
        assert r in rows;
        RankIs(keys, r.chart);
      }
    } else {
      var key := keys[from];
      assert keys[from..][0] == key && keys[from..][1..] == keys[from + 1..];
      FirstOfIs(rows, key);
      RankIs(keys, key);
      if FirstOf(rows, key).Some? {
        var i :| 0 <= i < |rows| && rows[i] == FirstOf(rows, key).value && rows[i].chart == key
                 && forall j :: 0 <= j < i ==> rows[j].chart != key;
        forall j | 0 <= j < i ensures Rank(keys, key) < Rank(keys, rows[j].chart) {
          assert rows[j] in rows;
          RankIs(keys, rows[j].chart);
        }
        forall j | i < j < |rows| ensures Rank(keys, key) <= Rank(keys, rows[j].chart) {
          assert rows[j] in rows;
        }
        assert Best(rows, keys, i);
      } else {
        forall r | r in rows ensures Rank(keys, r.chart) >= from + 1 {
          RankIs(keys, r.chart);
        }
        PickFrom(rows, keys, from + 1);
      }
    }
  }

  function Named(rows: seq<Row>, name: string): seq<Row> {
    if rows == [] then []
    else Named(rows[..|rows| - 1], name) + (if rows[|rows| - 1].name == name then [rows[|rows| - 1]] else [])
  }

  ghost predicate HasName(rows: seq<Row>, name: string) {
    exists r :: r in rows && r.name == name
  }

  /** One row per name, each the one the single lookup picks for that name. */
  ghost predicate IsMerge(merged: map<string, Row>, rows: seq<Row>, keys: seq<string>) {
    && (forall name :: name in merged <==> HasName(rows, name))
    && (forall name :: name in merged ==> Some(merged[name]) == Pick(Named(rows, name), keys))
  }

  lemma {:induction false} NamedIs(rows: seq<Row>, name: string)
    ensures forall r :: r in Named(rows, name) <==> r in rows && r.name == name
  {
    if rows != [] {
      NamedIs(rows[..|rows| - 1], name);
      assert rows == rows[..|rows| - 1] + [rows[|rows| - 1]];
    }
  }

  lemma BestUnique(rows: seq<Row>, keys: seq<string>, i: int, k: int)
    requires Best(rows, keys, i) && Best(rows, keys, k)
    ensures i == k
  {
    var a, b := rows[i], rows[k];
    assert i < k ==> Rank(keys, b.chart) < Rank(keys, a.chart);
    assert k < i ==> Rank(keys, a.chart) < Rank(keys, b.chart);
    assert i < k ==> Rank(keys, a.chart) <= Rank(keys, b.chart);
  }

  /** Appending a row changes the pick exactly when the row ranks strictly better. */
  lemma PickAppended(rows: seq<Row>, row: Row, keys: seq<string>)
    requires NoRepeats(keys)
    requires row.chart in keys && forall r :: r in rows ==> r.chart in keys
    ensures Pick(rows + [row], keys)
            == var p := Pick(rows, keys);
               if p.None? || Rank(keys, row.chart) < Rank(keys, p.value.chart) then Some(row) else p
  {
    PickIsBest(rows, keys);
    PickIsBest(rows + [row], keys);
    var all := rows + [row];
    var i :| Best(all, keys, i) && Pick(all, keys) == Some(all[i]);
    if rows != [] {
      var k :| Best(rows, keys, k) && Pick(rows, keys) == Some(rows[k]);
      assert forall j :: 0 <= j < |rows| ==> all[j] == rows[j];
      if i < |rows| {
        assert Best(rows, keys, i);
        BestUnique(rows, keys, i, k);
        assert all[|rows|] == row && Rank(keys, all[i].chart) <= Rank(keys, all[|rows|].chart);
      } else {
        assert Rank(keys, all[i].chart) < Rank(keys, all[k].chart);
      }
    }
  }

  lemma NamedAppended(seen: seq<Row>, row: Row, name: string)
    ensures Named(seen + [row], name) == Named(seen, name) + (if row.name == name then [row] else [])
    ensures HasName(seen + [row], name) <==> row.name == name || HasName(seen, name)
    ensures HasName(seen, name) <==> Named(seen, name) != []
  {
    var all := seen + [row];
    assert all[..|seen|] == seen;
    assert row in all && forall r :: r in all <==> r in seen || r == row;
    NamedIs(seen, name);
    if Named(seen, name) != [] { assert Named(seen, name)[0] in Named(seen, name); }
  }

  lemma MergeStep(byName: map<string, Row>, seen: seq<Row>, row: Row, keys: seq<string>)
    requires NoRepeats(keys)
    requires row.chart in keys && forall r :: r in seen ==> r.chart in keys
    requires IsMerge(byName, seen, keys)
    ensures IsMerge(if row.name !in byName || Rank(keys, row.chart) < Rank(keys, byName[row.name].chart)
                    then byName[row.name := row] else byName, seen + [row], keys)
  {
    var next := if row.name !in byName || Rank(keys, row.chart) < Rank(keys, byName[row.name].chart)
                then byName[row.name := row] else byName;
    var mine := Named(seen, row.name);
    NamedIs(seen, row.name);
    PickIsBest(mine, keys);
    PickAppended(mine, row, keys);
    forall name
      ensures name in next <==> HasName(seen + [row], name)
      ensures name in next ==> Some(next[name]) == Pick(Named(seen + [row], name), keys)
    {
      NamedAppended(seen, row, name);
      assert name != row.name ==> Named(seen + [row], name) == Named(seen, name);
    }
  }

  /** The one-pass merge. */
  method MergeByName(rows: seq<Row>, keys: seq<string>) returns (byName: map<string, Row>)
    requires NoRepeats(keys)
    requires forall r :: r in rows ==> r.chart in keys
    ensures IsMerge(byName, rows, keys)
  {
    byName := map[];
    for i := 0 to |rows|
      invariant IsMerge(byName, rows[..i], keys)
    {
      var row := rows[i];
      assert rows[..i + 1] == rows[..i] + [row];
      MergeStep(byName, rows[..i], row, keys);
      if row.name !in byName || Rank(keys, row.chart) < Rank(keys, byName[row.name].chart) {
        byName := byName[row.name := row];
      }
    }
    assert rows[..|rows|] == rows;
  }

  /** (chart, name) is unique. */
  ghost predicate UniquePerChart(rows: seq<Row>) {
    forall i, j :: 0 <= i < j < |rows| ==> !(rows[i].chart == rows[j].chart && rows[i].name == rows[j].name)
  }

  /** With (chart, name) unique, the merge does not depend on the order of the rows. */
  lemma MergeIgnoresOrder(rows: seq<Row>, other: seq<Row>, keys: seq<string>, a: map<string, Row>, b: map<string, Row>)
    requires NoRepeats(keys) && UniquePerChart(rows) && forall r :: r in rows ==> r.chart in keys
    requires forall r :: r in rows <==> r in other
    requires IsMerge(a, rows, keys) && IsMerge(b, other, keys)
    ensures a == b
  {
    forall name | name in a ensures name in b && a[name] == b[name] {
      SameMergedRow(rows, other, keys, a, b, name);
    }
    forall name | name in b ensures name in a {
      MergedIsBest(b, other, keys, name);
    }
  }

  lemma SameMergedRow(rows: seq<Row>, other: seq<Row>, keys: seq<string>, a: map<string, Row>, b: map<string, Row>,
                      name: string)
    requires NoRepeats(keys) && UniquePerChart(rows) && forall r :: r in rows ==> r.chart in keys
    requires forall r :: r in rows <==> r in other
    requires IsMerge(a, rows, keys) && IsMerge(b, other, keys) && name in a
    ensures name in b && a[name] == b[name]
  {
    MergedIsBest(a, rows, keys, name);
    assert HasName(other, name);
    MergedIsBest(b, other, keys, name);
    SameRank(rows, keys, a[name], b[name]);
  }

  lemma SameRank(rows: seq<Row>, keys: seq<string>, x: Row, y: Row)
    requires UniquePerChart(rows) && x in rows && y in rows && x.name == y.name && x.chart in keys && y.chart in keys
    requires Rank(keys, x.chart) == Rank(keys, y.chart)
    ensures x == y
  {
    RankIs(keys, x.chart);
    RankIs(keys, y.chart);
    var i :| 0 <= i < |rows| && rows[i] == x;
    var j :| 0 <= j < |rows| && rows[j] == y;
  }

  lemma BestIsLeast(rows: seq<Row>, keys: seq<string>, i: int, r: Row)
    requires Best(rows, keys, i) && r in rows
    ensures Rank(keys, rows[i].chart) <= Rank(keys, r.chart)
  {
    var j :| 0 <= j < |rows| && rows[j] == r;
  }

  // ---- The order of charts, by owner ----

  /** A chart a context sees: the client's, one of its accountants', or SYSTEM. */
  ghost predicate Sees(ctx: Context, chart: string) {
    || (ctx.business != None && chart == ClientChart(ctx.business.value))
    || (exists k :: 0 <= k < |ctx.accountantIds| && chart == AccountantChart(ctx.accountantIds[k]))
    || (ctx.accountantId != None && chart == AccountantChart(ctx.accountantId.value))
    || chart == SYSTEM
  }

  /** Of these charts, this one has precedence: the client's if it is there, else that of the first accountant in the
      context's order that is, else the context's own accountant's, else SYSTEM. */
  ghost predicate ComesFirst(ctx: Context, there: set<string>, chart: string) {
    && chart in there
    && if ctx.business != None && ClientChart(ctx.business.value) in there then chart == ClientChart(ctx.business.value)
       else if exists k :: 0 <= k < |ctx.accountantIds| && AccountantChart(ctx.accountantIds[k]) in there then
         exists k :: && 0 <= k < |ctx.accountantIds| && chart == AccountantChart(ctx.accountantIds[k])
                     && forall j :: 0 <= j < k ==> AccountantChart(ctx.accountantIds[j]) !in there
       else if ctx.accountantId != None && AccountantChart(ctx.accountantId.value) in there then
         chart == AccountantChart(ctx.accountantId.value)
       else chart == SYSTEM
  }

  /** The first of these keys that is there. */
  ghost predicate FirstKey(keys: seq<string>, there: set<string>, chart: string) {
    exists k :: 0 <= k < |keys| && chart == keys[k] && keys[k] in there && forall j :: 0 <= j < k ==> keys[j] !in there
  }

  lemma FirstOfTwo(a: seq<string>, b: seq<string>, there: set<string>, chart: string)
    ensures FirstKey(a + b, there, chart) <==>
            FirstKey(a, there, chart) || ((forall x :: x in a ==> x !in there) && FirstKey(b, there, chart))
  {
    var c := a + b;
    if FirstKey(c, there, chart) {
      var k :| && 0 <= k < |c| && chart == c[k] && c[k] in there && forall j :: 0 <= j < k ==> c[j] !in there;
      if k < |a| {
        assert forall j :: 0 <= j < k ==> a[j] == c[j];
      } else {
        assert forall j :: 0 <= j < |a| ==> a[j] == c[j];
        assert forall j :: 0 <= j < k - |a| ==> b[j] == c[j + |a|];
        assert chart == b[k - |a|];
      }
    }
    if FirstKey(a, there, chart) {
      var k :| 0 <= k < |a| && chart == a[k] && a[k] in there && forall j :: 0 <= j < k ==> a[j] !in there;
      assert c[k] == a[k] && forall j :: 0 <= j < k ==> c[j] == a[j];
    } else if (forall x :: x in a ==> x !in there) && FirstKey(b, there, chart) {
      var k :| 0 <= k < |b| && chart == b[k] && b[k] in there && forall j :: 0 <= j < k ==> b[j] !in there;
      assert c[|a| + k] == b[k];
      forall j | 0 <= j < |a| + k ensures c[j] !in there {
        assert c[j] == if j < |a| then a[j] else b[j - |a|];
      }
    }
  }

  lemma {:induction false} FirstOfDistinct(keys: seq<string>, there: set<string>, chart: string)
    ensures FirstKey(Distinct(keys), there, chart) <==> FirstKey(keys, there, chart)
  {
    if keys != [] {
      var init, last := keys[..|keys| - 1], keys[|keys| - 1];
      FirstOfDistinct(init, there, chart);
      DistinctIsDistinct(init);
      assert keys == init + [last];
      FirstOfTwo(init, [last], there, chart);
      FirstOfTwo(Distinct(init), [last], there, chart);
      if last in Distinct(init) && FirstKey([last], there, chart) {
        assert last in init && last in there;
      }
    }
  }

  lemma FirstOfOne(key: string, there: set<string>, chart: string)
    ensures FirstKey([key], there, chart) <==> chart == key && key in there
  {
    if chart == key && key in there { assert [key][0] == key; }
  }

  lemma FirstOfNone(there: set<string>, chart: string)
    ensures !FirstKey([], there, chart)
  {
  }

  lemma FirstAccountant(ids: seq<string>, there: set<string>, chart: string)
    ensures FirstKey(AccountantCharts(ids), there, chart) <==>
              exists k :: && 0 <= k < |ids| && chart == AccountantChart(ids[k]) && chart in there
                          && forall j :: 0 <= j < k ==> AccountantChart(ids[j]) !in there
    ensures (forall x :: x in AccountantCharts(ids) ==> x !in there) <==>
            forall k :: 0 <= k < |ids| ==> AccountantChart(ids[k]) !in there
  {
    var charts := AccountantCharts(ids);
    assert forall k :: 0 <= k < |ids| ==> charts[k] == AccountantChart(ids[k]) && charts[k] in charts;
    if FirstKey(charts, there, chart) {
      var k :| && 0 <= k < |charts| && chart == charts[k] && charts[k] in there
               && forall j :: 0 <= j < k ==> charts[j] !in there;
      assert chart == AccountantChart(ids[k]);
      assert forall j :: 0 <= j < k ==> AccountantChart(ids[j]) == charts[j];
    }
    if k :| && 0 <= k < |ids| && chart == AccountantChart(ids[k]) && chart in there
            && forall j :: 0 <= j < k ==> AccountantChart(ids[j]) !in there {
      assert chart == charts[k];
      assert forall j :: 0 <= j < k ==> charts[j] == AccountantChart(ids[j]);
    }
  }

  /** The first key of a context that is there is the chart of precedence. */
  lemma FirstComesFirst(ctx: Context, there: set<string>, chart: string)
    ensures FirstKey(ChartOwnerKeys(ctx), there, chart) <==> ComesFirst(ctx, there, chart)
  {
    var client := if ctx.business.Some? then [ClientChart(ctx.business.value)] else [];
    var listed := AccountantCharts(ctx.accountantIds);
    var mine := if ctx.accountantId.Some? then [AccountantChart(ctx.accountantId.value)] else [];
    FirstOfDistinct(client + listed + mine + [SYSTEM], there, chart);
    FirstOfTwo(client + listed + mine, [SYSTEM], there, chart);
    FirstOfTwo(client + listed, mine, there, chart);
    FirstOfTwo(client, listed, there, chart);
    FirstAccountant(ctx.accountantIds, there, chart);
    FirstOfOne(SYSTEM, there, chart);
    FirstOfNone(there, chart);
    if ctx.business.Some? { FirstOfOne(ClientChart(ctx.business.value), there, chart); }
    if ctx.accountantId.Some? { FirstOfOne(AccountantChart(ctx.accountantId.value), there, chart); }
    AllAbsent(client, listed, mine, there);
  }

  lemma AllAbsent(a: seq<string>, b: seq<string>, c: seq<string>, there: set<string>)
    ensures (forall x :: x in a + b ==> x !in there) <==>
            (forall x :: x in a ==> x !in there) && forall x :: x in b ==> x !in there
    ensures (forall x :: x in a + b + c ==> x !in there) <==>
            (forall x :: x in a + b ==> x !in there) && forall x :: x in c ==> x !in there
  {
    assert forall x :: x in a + b <==> x in a || x in b;
    assert forall x :: x in a + b + c <==> x in a + b || x in c;
  }

  lemma KeysAreSeen(ctx: Context, chart: string)
    ensures chart in ChartOwnerKeys(ctx) <==> Sees(ctx, chart)
  {
    var client := if ctx.business.Some? then [ClientChart(ctx.business.value)] else [];
    var listed := AccountantCharts(ctx.accountantIds);
    var mine := if ctx.accountantId.Some? then [AccountantChart(ctx.accountantId.value)] else [];
    DistinctIsDistinct(client + listed + mine + [SYSTEM]);
    assert chart in client + listed + mine + [SYSTEM] <==>
           chart in client || chart in listed || chart in mine || chart == SYSTEM;
    if k :| 0 <= k < |ctx.accountantIds| && chart == AccountantChart(ctx.accountantIds[k]) {
      assert listed[k] == chart;
    }
  }

  /** Only charts the context sees matter. */
  lemma OnlySeenMatter(ctx: Context, there: set<string>, other: set<string>, chart: string)
    requires forall c :: Sees(ctx, c) ==> (c in there <==> c in other)
    requires ComesFirst(ctx, there, chart)
    ensures ComesFirst(ctx, other, chart)
  {
    var keys := ChartOwnerKeys(ctx);
    FirstComesFirst(ctx, there, chart);
    FirstComesFirst(ctx, other, chart);
    forall k | k in keys ensures k in there <==> k in other { KeysAreSeen(ctx, k); }
    var k :| 0 <= k < |keys| && chart == keys[k] && keys[k] in there && forall j :: 0 <= j < k ==> keys[j] !in there;
    assert forall j :: 0 <= j < |keys| ==> keys[j] in keys;
  }

  function ChartsOf(rows: seq<Row>): set<string> { set r | r in rows :: r.chart }

  lemma {:induction false} PickFirst(rows: seq<Row>, keys: seq<string>)
    ensures Pick(rows, keys).None? <==> forall k :: k in keys ==> k !in ChartsOf(rows)
    ensures Pick(rows, keys).Some? ==>
              var p := Pick(rows, keys).value;
                FirstKey(keys, ChartsOf(rows), p.chart) && FirstOf(rows, p.chart) == Some(p)
  {
    if keys != [] {
      FirstOfIs(rows, keys[0]);
      PickFirst(rows, keys[1..]);
      assert keys == [keys[0]] + keys[1..];
      if Pick(rows, keys).Some? {
        var p := Pick(rows, keys).value;
        assert FirstOf(rows, p.chart) == Some(p);
        FirstOfTwo([keys[0]], keys[1..], ChartsOf(rows), p.chart);
        FirstOfOne(keys[0], ChartsOf(rows), p.chart);
      }
    }
  }

  /** The lookup finds a row exactly when the context sees one; it is the first row of the chart of precedence. */
  lemma PickComesFirst(rows: seq<Row>, ctx: Context)
    ensures var p := Pick(rows, ChartOwnerKeys(ctx));
            && (p.None? <==> forall r :: r in rows ==> !Sees(ctx, r.chart))
            && (p.Some? ==>
                  && ComesFirst(ctx, ChartsOf(rows), p.value.chart)
                  && exists i :: && 0 <= i < |rows| && rows[i] == p.value
                                 && forall j :: 0 <= j < i ==> rows[j].chart != p.value.chart)
  {
    var keys := ChartOwnerKeys(ctx);
    PickFirst(rows, keys);
    forall chart ensures chart in keys <==> Sees(ctx, chart) { KeysAreSeen(ctx, chart); }
    assert (forall k :: k in keys ==> k !in ChartsOf(rows)) <==> forall r :: r in rows ==> r.chart !in keys;
    if Pick(rows, keys).Some? {
      var p := Pick(rows, keys).value;
      FirstComesFirst(ctx, ChartsOf(rows), p.chart);
      FirstOfIs(rows, p.chart);
    }
  }

  // ---- The effective chart of a business ----

  /** A card: its code, and the business types it is visible to. */
  datatype Card = Card(row: Row, active: bool, visibleTo: set<string>)

  predicate Visible(c: Card, businessType: Option<string>) {
    businessType.None? || businessType.value in c.visibleTo
  }

  function InScope(cards: seq<Card>, keys: seq<string>, businessType: Option<string>): seq<Row> {
    if cards == [] then []
    else
      var c := cards[|cards| - 1];
      InScope(cards[..|cards| - 1], keys, businessType)
      + (if c.active && c.row.chart in keys && Visible(c, businessType) then [c.row] else [])
  }

  lemma {:induction false} InScopeIs(cards: seq<Card>, keys: seq<string>, businessType: Option<string>)
    ensures forall r :: r in InScope(cards, keys, businessType) <==>
              exists c :: c in cards && c.row == r && c.active && r.chart in keys && Visible(c, businessType)
  {
    if cards != [] {
      InScopeIs(cards[..|cards| - 1], keys, businessType);
      assert cards == cards[..|cards| - 1] + [cards[|cards| - 1]];
    }
  }

  /** An active card of this code that the context's business type may see. */
  predicate Offers(c: Card, code: string, ctx: Context) {
    c.active && c.row.name == code && (ctx.businessType == None || ctx.businessType.value in c.visibleTo)
  }

  function ChartsWith(cards: seq<Card>, code: string, ctx: Context): set<string> {
    set c | c in cards && Offers(c, code, ctx) :: c.row.chart
  }

  /** The card of each code: of the charts that have a visible active one, the chart of precedence has it. */
  ghost predicate IsEffective(byCode: map<string, Row>, cards: seq<Card>, ctx: Context) {
    && (forall code :: code in byCode <==> exists c :: c in cards && Offers(c, code, ctx) && Sees(ctx, c.row.chart))
    && (forall code :: code in byCode ==>
          && ComesFirst(ctx, ChartsWith(cards, code, ctx), byCode[code].chart)
          && exists c :: c in cards && Offers(c, code, ctx) && c.row == byCode[code])
  }

  lemma MergeIsEffective(byCode: map<string, Row>, cards: seq<Card>, ctx: Context)
    requires IsMerge(byCode, InScope(cards, ChartOwnerKeys(ctx), ctx.businessType), ChartOwnerKeys(ctx))
    ensures IsEffective(byCode, cards, ctx)
  {
    var keys := ChartOwnerKeys(ctx);
    var rows := InScope(cards, keys, ctx.businessType);
    InScopeIs(cards, keys, ctx.businessType);
    forall chart ensures chart in keys <==> Sees(ctx, chart) { KeysAreSeen(ctx, chart); }
    forall code ensures code in byCode <==> exists c :: c in cards && Offers(c, code, ctx) && Sees(ctx, c.row.chart) {
      if c :| c in cards && Offers(c, code, ctx) && Sees(ctx, c.row.chart) { assert c.row in rows; }
    }
    forall code | code in byCode
      ensures ComesFirst(ctx, ChartsWith(cards, code, ctx), byCode[code].chart)
      ensures exists c :: c in cards && Offers(c, code, ctx) && c.row == byCode[code]
    {
      NamedIs(rows, code);
      PickComesFirst(Named(rows, code), ctx);
      NamedCharts(cards, code, ctx);
      OnlySeenMatter(ctx, ChartsOf(Named(rows, code)), ChartsWith(cards, code, ctx), byCode[code].chart);
    }
  }

  lemma NamedCharts(cards: seq<Card>, code: string, ctx: Context)
    ensures var named := Named(InScope(cards, ChartOwnerKeys(ctx), ctx.businessType), code);
            forall chart :: Sees(ctx, chart) ==> (chart in ChartsOf(named) <==> chart in ChartsWith(cards, code, ctx))
  {
    var keys := ChartOwnerKeys(ctx);
    var rows := InScope(cards, keys, ctx.businessType);
    InScopeIs(cards, keys, ctx.businessType);
    NamedIs(rows, code);
    forall chart | Sees(ctx, chart)
      ensures chart in ChartsOf(Named(rows, code)) <==> chart in ChartsWith(cards, code, ctx)
    {
      KeysAreSeen(ctx, chart);
      if c :| c in cards && Offers(c, code, ctx) && c.row.chart == chart {
        assert c.row in Named(rows, code);
      }
    }
  }

  /** getEffectiveAccounts, up to the order of its result: only visible cards take part in the merge by
      code. The card of a code is a visible active one that no visible active card outranks, and every
      code with one has it, so a hidden override shadows nothing. */
  method EffectiveAccounts(cards: seq<Card>, ctx: Context) returns (byCode: map<string, Row>)
    ensures IsEffective(byCode, cards, ctx)
    ensures var keys := ChartOwnerKeys(ctx);
            && (forall c :: c in cards && c.active && c.row.chart in keys && Visible(c, ctx.businessType) ==>
                  c.row.name in byCode && Rank(keys, byCode[c.row.name].chart) <= Rank(keys, c.row.chart))
            && (forall code :: code in byCode ==>
                  && byCode[code].name == code
                  && (exists c ::
                        c in cards && c.row == byCode[code] && c.active && c.row.chart in keys
                        && Visible(c, ctx.businessType)))
  {
    var keys := ChartOwnerKeys(ctx);
    DistinctIsDistinct((if ctx.business.Some? then [ClientChart(ctx.business.value)] else [])
                       + AccountantCharts(ctx.accountantIds)
                       + (if ctx.accountantId.Some? then [AccountantChart(ctx.accountantId.value)] else []) + [SYSTEM]);
    var rows := InScope(cards, keys, ctx.businessType);
    InScopeIs(cards, keys, ctx.businessType);
    byCode := MergeByName(rows, keys);
    MergeIsEffective(byCode, cards, ctx);
    forall code | code in byCode
      ensures byCode[code] in rows && byCode[code].name == code
              && forall r :: r in rows && r.name == code ==> Rank(keys, byCode[code].chart) <= Rank(keys, r.chart)
    {
      MergedIsBest(byCode, rows, keys, code);
    }
    forall c | c in cards && c.active && c.row.chart in keys && Visible(c, ctx.businessType)
      ensures c.row.name in byCode && Rank(keys, byCode[c.row.name].chart) <= Rank(keys, c.row.chart)
    {
      assert c.row in rows;
    }
  }

  lemma MergedIsBest(merged: map<string, Row>, rows: seq<Row>, keys: seq<string>, name: string)
    requires NoRepeats(keys) && (forall r :: r in rows ==> r.chart in keys)
    requires IsMerge(merged, rows, keys) && name in merged
    ensures merged[name] in rows && merged[name].name == name
    ensures forall r :: r in rows && r.name == name ==> Rank(keys, merged[name].chart) <= Rank(keys, r.chart)
  {
    var named := Named(rows, name);
    NamedIs(rows, name);
    var w :| w in rows && w.name == name;
    assert w in named;
    PickIsBest(named, keys);
    var i :| Best(named, keys, i) && Some(named[i]) == Pick(named, keys);
    assert named[i] in named;
    forall r | r in rows && r.name == name ensures Rank(keys, merged[name].chart) <= Rank(keys, r.chart) {
      BestIsLeast(named, keys, i, r);
    }
  }
}
