// The scenario comparison (CompareTab.jsx): one projection per scenario,
// and the chart rows obtained by merging every scenario's yearly snapshots
// into one bucket per age, keyed by scenario name, then sorted by age.

module CompareTab {
  import opened JsMath
  import opened Plan
  import opened FireMath
  import Sorting

  /** One row of `comparisonData`. */
  datatype Entry = Entry(id: string, name: string, scenario: Config, results: ProjectionResult)

  /** Every scenario (an `Object.entries` pair of id and plan) can be projected. */
  ghost predicate AllSane(pow: Pow, scenarios: seq<(string, Config)>)
  {
    forall i :: 0 <= i < |scenarios| ==> Sane(pow, scenarios[i].1)
  }

  /** `comparisonData`: one entry per scenario, in entry order, carrying the
      scenario's id, name and plan (ComparisonDataResults adds its projection). */
  function ComparisonData(pow: Pow, scenarios: seq<(string, Config)>): (r: seq<Entry>)
    requires AllSane(pow, scenarios)
    ensures |r| == |scenarios|
    ensures forall i :: 0 <= i < |r| ==>
              r[i].id == scenarios[i].0 && r[i].name == scenarios[i].1.scenarioName && r[i].scenario == scenarios[i].1
  {
    if scenarios == [] then []
    else
      var n := |scenarios| - 1;
      var s := scenarios[n];
      ComparisonData(pow, scenarios[..n]) + [Entry(s.0, s.1.scenarioName, s.1, Project(pow, s.1))]
  }

  /** Each entry holds calculateProjection of its own scenario. */
  lemma {:induction false} ComparisonDataResults(pow: Pow, scenarios: seq<(string, Config)>, i: nat)
    requires AllSane(pow, scenarios) && i < |scenarios|
    ensures ComparisonData(pow, scenarios)[i].results == Project(pow, scenarios[i].1)
  {
    var n := |scenarios| - 1;
    if i < n {
      ComparisonDataResults(pow, scenarios[..n], i);
    }
  }

  /** The table colours a row as a surplus when its gap is not positive. */
  predicate IsSurplus(r: ProjectionResult)
  {
    r.gap <= 0
  }

  /** A surplus row is one whose corpus at retirement covers the target, and
      then no remedy is proposed. */
  lemma SurplusMeansCovered(pow: Pow, c: Config)
    requires Sane(pow, c)
    ensures IsSurplus(Project(pow, c)) <==> Project(pow, c).corpusAtRetirement >= Project(pow, c).targetAtRetirement
    ensures IsSurplus(Project(pow, c)) ==> Project(pow, c).solutions == Solutions(0, Years(0.0), 0)
  {
  }

  // ------------------------------------------------------------ chart merge

  /** One assignment `dataMap.get(age)[name] = balance`. */
  datatype Write = Write(age: int, name: string, balance: int)

  /** A chart row: the object `{ age }` with one numeric property per
      scenario name. A scenario named "age" writes over the age itself. */
  type Bucket = map<string, int>

  /** The `age` property of a row, which the final sort compares. */
  function AgeField(b: Bucket): int
  {
    if "age" in b then b["age"] else 0
  }

  /** The writes one scenario makes, one per snapshot, in order. */
  function EntryWrites(name: string, ps: seq<Snapshot>): (r: seq<Write>)
    ensures |r| == |ps|
  {
    if ps == [] then [] else EntryWrites(name, ps[..|ps| - 1]) + [Write(ps[|ps| - 1].age, name, ps[|ps| - 1].balance)]
  }

  /** The k-th write of a scenario records its k-th snapshot's age and balance. */
  lemma {:induction false} EntryWritesAt(name: string, ps: seq<Snapshot>)
    ensures forall k :: 0 <= k < |ps| ==> EntryWrites(name, ps)[k] == Write(ps[k].age, name, ps[k].balance)
  {
    if ps != [] {
      EntryWritesAt(name, ps[..|ps| - 1]);
    }
  }

  lemma EntryWritesSnoc(name: string, ps: seq<Snapshot>, k: nat)
    requires k < |ps|
    ensures EntryWrites(name, ps[..k + 1]) == EntryWrites(name, ps[..k]) + [Write(ps[k].age, name, ps[k].balance)]
  {
    assert ps[..k + 1][..k] == ps[..k];
  }

  /** The writes of all scenarios, scenario after scenario. */
  function AllWrites(es: seq<Entry>): seq<Write>
  {
    if es == [] then []
    else AllWrites(es[..|es| - 1]) + EntryWrites(es[|es| - 1].name, es[|es| - 1].results.projection)
  }

  /** A scenario with an empty projection adds nothing to the chart. */
  lemma EmptyProjectionAddsNothing(es: seq<Entry>, e: Entry)
    requires e.results.projection == []
    ensures AllWrites(es + [e]) == AllWrites(es)
  {
    assert (es + [e])[..|es|] == es;
  }

  /** One write: create the row `{ age }` when the age is new, then set the
      scenario's property. */
  function Apply(m: map<int, Bucket>, w: Write): (r: map<int, Bucket>)
    ensures r.Keys == m.Keys + {w.age}
  {
    var b := if w.age in m then m[w.age] else map["age" := w.age];
    m[w.age := b[w.name := w.balance]]
  }

  /** The insertion order of the map's keys after one write. */
  function ApplyOrder(m: map<int, Bucket>, order: seq<int>, w: Write): seq<int>
  {
    if w.age in m then order else order + [w.age]
  }

  /** The map after a sequence of writes. */
  function Merge(ws: seq<Write>): map<int, Bucket>
    decreases |ws|, 1
  {
    if ws == [] then map[] else MergeLast(ws)
  }

  /** The last write applied to the map of the others. */
  function MergeLast(ws: seq<Write>): map<int, Bucket>
    requires ws != []
    decreases |ws|, 0
  {
    Apply(Merge(ws[..|ws| - 1]), ws[|ws| - 1])
  }

  /** Its keys in insertion order. */
  function Order(ws: seq<Write>): seq<int>
  {
    if ws == [] then [] else ApplyOrder(Merge(ws[..|ws| - 1]), Order(ws[..|ws| - 1]), ws[|ws| - 1])
  }

  lemma MergeSnoc(ws: seq<Write>, w: Write)
    ensures Merge(ws + [w]) == Apply(Merge(ws), w)
    ensures Order(ws + [w]) == ApplyOrder(Merge(ws), Order(ws), w)
  {
    assert (ws + [w])[..|ws|] == ws;
  }

  predicate Distinct<T(==)>(s: seq<T>)
  {
    forall i, j :: 0 <= i < j < |s| ==> s[i] != s[j]
  }

  /** The map holds a row exactly for each age written. */
  lemma {:induction false} MergeDomain(ws: seq<Write>)
    ensures forall a :: a in Merge(ws) <==> exists k :: 0 <= k < |ws| && ws[k].age == a
  {
    if ws != [] {
      var init, w := ws[..|ws| - 1], ws[|ws| - 1];
      MergeDomain(init);
      assert Merge(ws).Keys == Merge(init).Keys + {w.age};
      forall a | a in Merge(ws)
        ensures exists k :: 0 <= k < |ws| && ws[k].age == a
      {
        if a != w.age {
          var k :| 0 <= k < |init| && init[k].age == a;
          assert ws[k] == init[k];
        }
      }
      forall a | exists k :: 0 <= k < |ws| && ws[k].age == a
        ensures a in Merge(ws)
      {
        var k :| 0 <= k < |ws| && ws[k].age == a;
        if k < |init| {
          assert init[k] == ws[k];
        }
      }
    }
  }

  /** Lists the keys of a map, each once. */
  ghost predicate ListsKeys(order: seq<int>, m: map<int, Bucket>)
  {
    (forall a :: a in order <==> a in m) && Distinct(order)
  }

  lemma ApplyListsKeys(m: map<int, Bucket>, order: seq<int>, w: Write)
    requires ListsKeys(order, m)
    ensures ListsKeys(ApplyOrder(m, order, w), Apply(m, w))
  {
  }

  lemma {:induction false} OrderListsKeys(ws: seq<Write>)
    ensures ListsKeys(Order(ws), Merge(ws))
  {
    if ws != [] {
      var init, w := ws[..|ws| - 1], ws[|ws| - 1];
      OrderListsKeys(init);
      ApplyListsKeys(Merge(init), Order(init), w);
    }
  }

  /** The map holds a row exactly for each age written, and the insertion
      order lists each of those ages once. */
  lemma MergeKeys(ws: seq<Write>)
    ensures forall a :: a in Merge(ws) <==> exists k :: 0 <= k < |ws| && ws[k].age == a
    ensures forall a :: a in Order(ws) <==> a in Merge(ws)
    ensures forall i :: 0 <= i < |Order(ws)| ==> Order(ws)[i] in Merge(ws)
    ensures Distinct(Order(ws))
  {
    MergeDomain(ws);
    OrderListsKeys(ws);
  }

  /** `k` is the last write of scenario `name` at age `a`. */
  predicate LastWriteAt(ws: seq<Write>, k: int, a: int, name: string)
  {
    0 <= k < |ws| && ws[k].age == a && ws[k].name == name
    && forall l :: k < l < |ws| ==> !(ws[l].age == a && ws[l].name == name)
  }

  /** In the row for age `a`, a scenario's property is present exactly when
      that scenario has a snapshot at age `a`, and holds the balance of the
      last such write: a later scenario of the same name overwrites an
      earlier one. */
  lemma {:induction false} MergeBalances(ws: seq<Write>, a: int, name: string)
    requires a in Merge(ws) && name != "age"
    ensures name in Merge(ws)[a] <==> exists k :: 0 <= k < |ws| && ws[k].age == a && ws[k].name == name
    ensures name in Merge(ws)[a] ==>
              exists k :: LastWriteAt(ws, k, a, name) && ws[k].balance == Merge(ws)[a][name]
  {
    var init, w := ws[..|ws| - 1], ws[|ws| - 1];
    var m := Merge(init);
    assert Merge(ws) == Apply(m, w);
    if w.age == a && w.name == name {
      assert LastWriteAt(ws, |ws| - 1, a, name);
    } else {
      var b0 := if a in m then m[a] else map["age" := a];
      assert name in Merge(ws)[a] <==> name in b0;
      assert name in b0 ==> Merge(ws)[a][name] == b0[name];
      if a in m {
        MergeBalances(init, a, name);
        if name in m[a] {
          var k :| LastWriteAt(init, k, a, name) && init[k].balance == m[a][name];
          assert LastWriteAt(ws, k, a, name);
        }
      } else {
        MergeKeys(init);
      }
      if exists k :: 0 <= k < |ws| && ws[k].age == a && ws[k].name == name {
        var k :| 0 <= k < |ws| && ws[k].age == a && ws[k].name == name;
        assert k < |init| && init[k] == ws[k];
      }
    }
  }

  predicate NoAgeName(ws: seq<Write>)
  {
    forall k :: 0 <= k < |ws| ==> ws[k].name != "age"
  }

  /** Unless a scenario is named "age", each row's age property is its key. */
  lemma {:induction false} MergeAgeField(ws: seq<Write>)
    requires NoAgeName(ws)
    ensures forall a :: a in Merge(ws) ==> "age" in Merge(ws)[a] && Merge(ws)[a]["age"] == a
  {
    if ws != [] {
      var init := ws[..|ws| - 1];
      assert NoAgeName(init) by {
        forall k | 0 <= k < |init| ensures init[k].name != "age" {
          assert init[k] == ws[k];
        }
      }
      MergeAgeField(init);
      assert Merge(ws) == Apply(Merge(init), ws[|ws| - 1]);
    }
  }

  /** A scenario named "age" replaces the row's age by its balance. */
  lemma AgeNamedScenarioOverwritesAge()
    ensures Merge([Write(40, "age", 5000)])[40]["age"] == 5000
  {
    assert [Write(40, "age", 5000)][..0] == [];
  }

  /** `Array.from(dataMap.values())`: the rows in key insertion order. */
  function ValuesIn(m: map<int, Bucket>, keys: seq<int>): (r: seq<Bucket>)
    requires forall i :: 0 <= i < |keys| ==> keys[i] in m
    ensures |r| == |keys|
    ensures forall i :: 0 <= i < |keys| ==> r[i] == m[keys[i]]
  {
    if keys == [] then [] else ValuesIn(m, keys[..|keys| - 1]) + [m[keys[|keys| - 1]]]
  }

  /** The unsorted chart rows of a sequence of writes. */
  function Rows(ws: seq<Write>): seq<Bucket>
  {
    MergeKeys(ws);
    ValuesIn(Merge(ws), Order(ws))
  }

  /** One snapshot of one scenario: `dataMap.has`, `set` and `get`. */
  method MergeSnapshot(dataMap: map<int, Bucket>, order: seq<int>, w: Write, ghost done: seq<Write>)
    returns (dataMap': map<int, Bucket>, order': seq<int>)
    requires dataMap == Merge(done) && order == Order(done)
    ensures dataMap' == Merge(done + [w]) && order' == Order(done + [w])
  {
    MergeSnoc(done, w);
    var bucket := map["age" := w.age];
    order' := order;
    if w.age in dataMap {
      bucket := dataMap[w.age];
    } else {
      order' := order + [w.age];
    }
    dataMap' := dataMap[w.age := bucket[w.name := w.balance]];
  }

  /** The inner `forEach`: one scenario's snapshots written into the map. */
  method MergeScenario(dataMap: map<int, Bucket>, order: seq<int>, name: string, ps: seq<Snapshot>,
                       ghost done: seq<Write>)
    returns (dataMap': map<int, Bucket>, order': seq<int>)
    requires dataMap == Merge(done) && order == Order(done)
    ensures dataMap' == Merge(done + EntryWrites(name, ps)) && order' == Order(done + EntryWrites(name, ps))
  {
    dataMap', order' := dataMap, order;
    ghost var cur := done;
    for k := 0 to |ps|
      invariant cur == done + EntryWrites(name, ps[..k])
      invariant dataMap' == Merge(cur) && order' == Order(cur)
    {
      var w := Write(ps[k].age, name, ps[k].balance);
      dataMap', order' := MergeSnapshot(dataMap', order', w, cur);
      EntryWritesSnoc(name, ps, k);
      cur := cur + [w];
    }
    assert ps[..|ps|] == ps;
  }

  /** `Array.from(...).sort((a, b) => a.age - b.age)`. */
  method SortRows(rows: seq<Bucket>) returns (chart: seq<Bucket>)
    ensures multiset(chart) == multiset(rows)
    ensures Sorting.SortedBy(chart, AgeField)
  {
    var a := new Bucket[|rows|](j requires 0 <= j < |rows| => rows[j]);
    assert a[..] == rows;
    Sorting.InsertionSort(a, AgeField);
    chart := a[..];
  }

  /** `chartData`: merges every scenario's snapshots into per-age rows
      (`dataMap` and its insertion order), then sorts the rows by their age
      property. The result is a rearrangement of the merged rows, ordered by
      age. */
  method ChartData(entries: seq<Entry>) returns (chart: seq<Bucket>)
    ensures multiset(chart) == multiset(Rows(AllWrites(entries)))
    ensures Sorting.SortedBy(chart, AgeField)
  {
    var dataMap: map<int, Bucket> := map[];
    var order: seq<int> := [];
    for i := 0 to |entries|
      invariant dataMap == Merge(AllWrites(entries[..i])) && order == Order(AllWrites(entries[..i]))
    {
      assert entries[..i + 1][..i] == entries[..i];
      dataMap, order := MergeScenario(dataMap, order, entries[i].name, entries[i].results.projection,
                                      AllWrites(entries[..i]));
    }
    assert entries[..|entries|] == entries;
    MergeKeys(AllWrites(entries));
    chart := SortRows(ValuesIn(dataMap, order));
  }

  // ------------------------------------------------------------ chart facts

  lemma {:induction false} DistinctCounts<T>(s: seq<T>, x: T)
    requires Distinct(s)
    ensures multiset(s)[x] <= 1
  {
    if s != [] {
      var init := s[..|s| - 1];
      assert s == init + [s[|s| - 1]];
      DistinctCounts(init, x);
      if x == s[|s| - 1] {
        assert x !in init;
      }
    }
  }

  /** Two equal elements at distinct positions count twice. */
  lemma RepeatCounts<T>(s: seq<T>, i: int, j: int)
    requires 0 <= i < j < |s| && s[i] == s[j]
    ensures multiset(s)[s[i]] >= 2
  {
    assert s == s[..j] + s[j..];
    assert s[i] in s[..j];
    assert s[j..][0] == s[j];
  }

  /** Every row appears once among the unsorted rows. */
  lemma RowsOnce(ws: seq<Write>, b: Bucket)
    requires NoAgeName(ws)
    ensures multiset(Rows(ws))[b] <= 1
  {
    MergeKeys(ws);
    MergeAgeField(ws);
    var order := Order(ws);
    var rows := Rows(ws);
    forall i, j | 0 <= i < j < |rows|
      ensures rows[i] != rows[j]
    {
      assert AgeField(rows[i]) == order[i] && AgeField(rows[j]) == order[j];
    }
    DistinctCounts(rows, b);
  }

  /** Unless a scenario is named "age": the chart holds exactly one row per
      distinct age written, strictly ascending by age, and the row of age `a`
      is the merged row for `a` (so MergeBalances describes its contents). */
  lemma ChartRows(ws: seq<Write>, chart: seq<Bucket>)
    requires NoAgeName(ws)
    requires multiset(chart) == multiset(Rows(ws)) && Sorting.SortedBy(chart, AgeField)
    ensures forall i :: 0 <= i < |chart| ==> AgeField(chart[i]) in Merge(ws) && chart[i] == Merge(ws)[AgeField(chart[i])]
    ensures forall a :: a in Merge(ws) <==> exists i :: 0 <= i < |chart| && AgeField(chart[i]) == a
    ensures forall i, j :: 0 <= i < j < |chart| ==> AgeField(chart[i]) < AgeField(chart[j])
  {
    MergeKeys(ws);
    MergeAgeField(ws);
    var m := Merge(ws);
    var order := Order(ws);
    var rows := Rows(ws);
    forall i | 0 <= i < |chart|
      ensures AgeField(chart[i]) in m && chart[i] == m[AgeField(chart[i])]
    {
      assert chart[i] in multiset(rows);
      var k :| 0 <= k < |rows| && rows[k] == chart[i];
    }
    forall a | a in m
      ensures exists i :: 0 <= i < |chart| && AgeField(chart[i]) == a
    {
      var k :| 0 <= k < |order| && order[k] == a;
      assert rows[k] in multiset(chart);
      var i :| 0 <= i < |chart| && chart[i] == rows[k];
      assert AgeField(chart[i]) == a;
    }
    forall i, j | 0 <= i < j < |chart|
      ensures AgeField(chart[i]) < AgeField(chart[j])
    {
      if AgeField(chart[i]) == AgeField(chart[j]) {
        RepeatCounts(chart, i, j);
        RowsOnce(ws, chart[i]);
      }
    }
  }

  /** The chart of the comparison: exactly one row per age at which some
      scenario has a snapshot, strictly ascending by age. */
  method CompareChart(pow: Pow, scenarios: seq<(string, Config)>) returns (chart: seq<Bucket>)
    requires AllSane(pow, scenarios)
    requires forall i :: 0 <= i < |scenarios| ==> scenarios[i].1.scenarioName != "age"
    ensures forall i, j :: 0 <= i < j < |chart| ==> AgeField(chart[i]) < AgeField(chart[j])
    ensures forall a :: a in Merge(AllWrites(ComparisonData(pow, scenarios))) <==>
                        exists i :: 0 <= i < |chart| && AgeField(chart[i]) == a
    ensures forall i :: 0 <= i < |chart| ==>
              AgeField(chart[i]) in Merge(AllWrites(ComparisonData(pow, scenarios)))
              && chart[i] == Merge(AllWrites(ComparisonData(pow, scenarios)))[AgeField(chart[i])]
  {
    var entries := ComparisonData(pow, scenarios);
    chart := ChartData(entries);
    NoAgeNameOfEntries(entries);
    ChartRows(AllWrites(entries), chart);
  }

  lemma {:induction false} NoAgeNameOfEntries(es: seq<Entry>)
    requires forall i :: 0 <= i < |es| ==> es[i].name != "age"
    ensures NoAgeName(AllWrites(es))
  {
    if es != [] {
      NoAgeNameOfEntries(es[..|es| - 1]);
      EntryWritesAt(es[|es| - 1].name, es[|es| - 1].results.projection);
    }
  }
}
