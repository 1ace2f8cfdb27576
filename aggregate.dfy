/**
 * The summaries drawn from the filtered records: the per-model table with
 * its grand-total footer and averages, the KPI figures, the top-15 cost
 * bar series and the hourly cost series.
 */
module Aggregate {
  import opened Text
  import opened LocalTime
  import opened Records

  /** The accumulator `{ total, web, cache, file, byok, tp, tc, tokenOutput, tr, req, genTime, ttft }`. */
  datatype Rollup = Rollup(
    req: int, total: real, web: real, cache: real, file: real, byok: real,
    tp: int, tc: int, tokenOutput: int, tr: int, genTime: real, ttft: real)

  const Zero := Rollup(0, 0.0, 0.0, 0.0, 0.0, 0.0, 0, 0, 0, 0, 0.0, 0.0)

  /** One record's contribution, as the aggregation loop adds it. */
  function Add(m: Rollup, r: Row): Rollup {
    Rollup(
      m.req + 1, m.total + r.total, m.web + r.web, m.cache + r.cache, m.file + r.file, m.byok + r.byok,
      m.tp + r.tp, m.tc + r.tc, m.tokenOutput + (r.tc - r.tr), m.tr + r.tr,
      m.genTime + r.genTime, m.ttft + r.ttft)
  }

  /** Field-by-field sum, as the footer loop adds one rollup into `totals`. */
  function Plus(a: Rollup, b: Rollup): Rollup {
    Rollup(
      a.req + b.req, a.total + b.total, a.web + b.web, a.cache + b.cache, a.file + b.file, a.byok + b.byok,
      a.tp + b.tp, a.tc + b.tc, a.tokenOutput + b.tokenOutput, a.tr + b.tr,
      a.genTime + b.genTime, a.ttft + b.ttft)
  }

  /** The rollup of a sequence of records, accumulated in order. */
  function Summarize(rows: seq<Row>): Rollup {
    if rows == [] then Zero else Add(Summarize(rows[..|rows| - 1]), rows[|rows| - 1])
  }

  lemma SummarizeSnoc(rows: seq<Row>, r: Row)
    ensures Summarize(rows + [r]) == Add(Summarize(rows), r)
  {
    assert (rows + [r])[..|rows|] == rows;
  }

  // ---------------------------------------------------------------------
  // Independent reference: one `reduce` per field
  // ---------------------------------------------------------------------

  function TotalOf(r: Row): real { r.total }
  function WebOf(r: Row): real { r.web }
  function CacheOf(r: Row): real { r.cache }
  function FileOf(r: Row): real { r.file }
  function ByokOf(r: Row): real { r.byok }
  function GenTimeOf(r: Row): real { r.genTime }
  function TtftOf(r: Row): real { r.ttft }
  function TpOf(r: Row): int { r.tp }
  function TcOf(r: Row): int { r.tc }
  function TrOf(r: Row): int { r.tr }

  /** `rows.reduce((s, r) => s + f(r), 0)`. */
  function SumReal(rows: seq<Row>, f: Row -> real): real {
    if rows == [] then 0.0 else SumReal(rows[..|rows| - 1], f) + f(rows[|rows| - 1])
  }

  function SumInt(rows: seq<Row>, f: Row -> int): int {
    if rows == [] then 0 else SumInt(rows[..|rows| - 1], f) + f(rows[|rows| - 1])
  }

  /**
   * What a rollup holds: the number of records, each field's sum, and the
   * token output, which is completion tokens minus reasoning tokens summed.
   */
  lemma {:induction false} SummarizeFields(rows: seq<Row>)
    ensures Summarize(rows) == Rollup(
      |rows|, SumReal(rows, TotalOf), SumReal(rows, WebOf), SumReal(rows, CacheOf),
      SumReal(rows, FileOf), SumReal(rows, ByokOf),
      SumInt(rows, TpOf), SumInt(rows, TcOf), SumInt(rows, TcOf) - SumInt(rows, TrOf), SumInt(rows, TrOf),
      SumReal(rows, GenTimeOf), SumReal(rows, TtftOf))
  {
    if rows != [] {
      SummarizeFields(rows[..|rows| - 1]);
    }
  }

  // ---------------------------------------------------------------------
  // Grouping by a key (the model, or the hour bucket)
  // ---------------------------------------------------------------------

  function ModelOf(r: Row): string { r.model }

  function HourOf(r: Row): string { HourKey(r.date) }

  /** The records whose key is `k`, in order. */
  function Group(rows: seq<Row>, key: Row -> string, k: string): (g: seq<Row>)
    ensures |g| <= |rows|
  {
    if rows == [] then []
    else
      var g := Group(rows[..|rows| - 1], key, k);
      if key(rows[|rows| - 1]) == k then g + [rows[|rows| - 1]] else g
  }

  lemma GroupSnoc(rows: seq<Row>, r: Row, key: Row -> string, k: string)
    ensures Group(rows + [r], key, k) == if key(r) == k then Group(rows, key, k) + [r] else Group(rows, key, k)
  {
    assert (rows + [r])[..|rows|] == rows;
  }

  predicate Distinct(ks: seq<string>) {
    forall i, j :: 0 <= i < j < |ks| ==> ks[i] != ks[j]
  }

  /** The distinct keys in order of first appearance: the iteration order of a JavaScript `Map`. */
  function FirstKeys(rows: seq<Row>, key: Row -> string): (ks: seq<string>)
    ensures Distinct(ks)
  {
    if rows == [] then []
    else
      var ks := FirstKeys(rows[..|rows| - 1], key);
      var k := key(rows[|rows| - 1]);
      if k in ks then ks else ks + [k]
  }

  /** The first-seen keys are exactly the keys of the records. */
  lemma {:induction false} FirstKeysMembers(rows: seq<Row>, key: Row -> string)
    ensures forall k :: k in FirstKeys(rows, key) <==> exists r :: r in rows && key(r) == k
  {
    if rows != [] {
      var front, last := rows[..|rows| - 1], rows[|rows| - 1];
      FirstKeysMembers(front, key);
      assert rows == front + [last];
      assert forall r :: r in rows <==> r in front || r == last;
    }
  }

  /** Every record's key is among the first-seen keys. */
  lemma KeysCover(rows: seq<Row>, key: Row -> string)
    ensures forall r :: r in rows ==> key(r) in FirstKeys(rows, key)
  {
    FirstKeysMembers(rows, key);
  }

  lemma FirstKeysSnoc(rows: seq<Row>, r: Row, key: Row -> string)
    ensures FirstKeys(rows + [r], key)
      == if key(r) in FirstKeys(rows, key) then FirstKeys(rows, key) else FirstKeys(rows, key) + [key(r)]
  {
    assert (rows + [r])[..|rows|] == rows;
  }

  /** The first-seen models are exactly the models that occur. */
  lemma ModelKeys(rows: seq<Row>)
    ensures forall m :: m in FirstKeys(rows, ModelOf) <==> m in ModelSet(rows)
  {
    FirstKeysMembers(rows, ModelOf);
    forall m | m in ModelSet(rows) ensures m in FirstKeys(rows, ModelOf) {
      var r :| r in rows && r.model == m;
      var key := ModelOf;
      assert key(r) == m;
    }
  }

  /** A key no record carries has an empty group. */
  lemma {:induction false} GroupAbsent(rows: seq<Row>, key: Row -> string, k: string)
    requires forall r :: r in rows ==> key(r) != k
    ensures Group(rows, key, k) == []
  {
    if rows != [] {
      GroupAbsent(rows[..|rows| - 1], key, k);
    }
  }

  /** The rollups of the groups of `ks`, added up in order. */
  function SumGroups(rows: seq<Row>, key: Row -> string, ks: seq<string>): Rollup {
    if ks == [] then Zero
    else Plus(SumGroups(rows, key, ks[..|ks| - 1]), Summarize(Group(rows, key, ks[|ks| - 1])))
  }

  lemma {:induction false} SumGroupsEmpty(key: Row -> string, ks: seq<string>)
    ensures SumGroups([], key, ks) == Zero
  {
    if ks != [] { SumGroupsEmpty(key, ks[..|ks| - 1]); }
  }

  lemma {:induction false} SumGroupsAbsent(rows: seq<Row>, r: Row, key: Row -> string, ks: seq<string>)
    requires key(r) !in ks
    ensures SumGroups(rows + [r], key, ks) == SumGroups(rows, key, ks)
  {
    if ks != [] {
      SumGroupsAbsent(rows, r, key, ks[..|ks| - 1]);
      GroupSnoc(rows, r, key, ks[|ks| - 1]);
    }
  }

  lemma PlusAddRight(a: Rollup, b: Rollup, r: Row)
    ensures Plus(a, Add(b, r)) == Add(Plus(a, b), r)
  {
  }

  lemma PlusAddLeft(a: Rollup, b: Rollup, r: Row)
    ensures Plus(Add(a, r), b) == Add(Plus(a, b), r)
  {
  }

  /** Appending a record changes only the rollup of its own group. */
  lemma GroupStep(rows: seq<Row>, r: Row, key: Row -> string, k: string)
    ensures Summarize(Group(rows + [r], key, k))
      == if key(r) == k then Add(Summarize(Group(rows, key, k)), r) else Summarize(Group(rows, key, k))
  {
    GroupSnoc(rows, r, key, k);
    SummarizeSnoc(Group(rows, key, k), r);
  }

  /** `acc` maps exactly the keys seen so far, each to its group's rollup. */
  ghost predicate HoldsRollups(acc: map<string, Rollup>, rows: seq<Row>, key: Row -> string) {
    && (forall k :: k in acc <==> k in FirstKeys(rows, key))
    && (forall k :: k in acc ==> acc[k] == Summarize(Group(rows, key, k)))
  }

  /** `acc` maps exactly the keys seen so far, each to its group's summed cost. */
  ghost predicate HoldsCosts(acc: map<string, real>, rows: seq<Row>, key: Row -> string) {
    && (forall k :: k in acc <==> k in FirstKeys(rows, key))
    && (forall k :: k in acc ==> acc[k] == Summarize(Group(rows, key, k)).total)
  }

  /** A key not yet seen has an empty group. */
  lemma GroupUnseen(rows: seq<Row>, key: Row -> string, k: string)
    requires k !in FirstKeys(rows, key)
    ensures Group(rows, key, k) == []
  {
    FirstKeysMembers(rows, key);
    GroupAbsent(rows, key, k);
  }

  /** One step of a rollup loop: `map.set(k, add(map.get(k) || zero, r))`. */
  lemma RollupStep(rows: seq<Row>, r: Row, key: Row -> string, k: string, acc: map<string, Rollup>)
    requires HoldsRollups(acc, rows, key) && k == key(r)
    ensures HoldsRollups(acc[k := Add(if k in acc then acc[k] else Zero, r)], rows + [r], key)
  {
    var acc' := acc[k := Add(if k in acc then acc[k] else Zero, r)];
    FirstKeysSnoc(rows, r, key);
    if k !in acc {
      GroupUnseen(rows, key, k);
    }
    forall j | j in acc' ensures acc'[j] == Summarize(Group(rows + [r], key, j)) {
      GroupStep(rows, r, key, j);
    }
  }

  /** One step of a cost loop: `map.set(k, (map.get(k) || 0) + r.total)`. */
  lemma CostStep(rows: seq<Row>, r: Row, key: Row -> string, k: string, acc: map<string, real>)
    requires HoldsCosts(acc, rows, key) && k == key(r)
    ensures HoldsCosts(acc[k := (if k in acc then acc[k] else 0.0) + r.total], rows + [r], key)
  {
    var acc' := acc[k := (if k in acc then acc[k] else 0.0) + r.total];
    FirstKeysSnoc(rows, r, key);
    if k !in acc {
      GroupUnseen(rows, key, k);
    }
    forall j | j in acc' ensures acc'[j] == Summarize(Group(rows + [r], key, j)).total {
      GroupStep(rows, r, key, j);
    }
  }

  lemma {:induction false} SumGroupsOnce(rows: seq<Row>, r: Row, key: Row -> string, ks: seq<string>)
    requires Distinct(ks) && key(r) in ks
    ensures SumGroups(rows + [r], key, ks) == Add(SumGroups(rows, key, ks), r)
  {
    var front, last := ks[..|ks| - 1], ks[|ks| - 1];
    assert ks == front + [last];
    GroupStep(rows, r, key, last);
    var a := SumGroups(rows, key, front);
    var b := Summarize(Group(rows, key, last));
    if last == key(r) {
      SumGroupsAbsent(rows, r, key, front);
      PlusAddRight(a, b, r);
    } else {
      SumGroupsOnce(rows, r, key, front);
      PlusAddLeft(a, b, r);
    }
  }

  /**
   * Conservation: splitting the records into groups by any covering set of
   * distinct keys and adding the group rollups gives the rollup of all
   * records. Nothing is counted twice and nothing is lost.
   */
  lemma {:induction false} Partition(rows: seq<Row>, key: Row -> string, ks: seq<string>)
    requires Distinct(ks)
    requires forall r :: r in rows ==> key(r) in ks
    ensures SumGroups(rows, key, ks) == Summarize(rows)
  {
    if rows == [] {
      SumGroupsEmpty(key, ks);
    } else {
      var front, last := rows[..|rows| - 1], rows[|rows| - 1];
      assert rows == front + [last];
      Partition(front, key, ks);
      SumGroupsOnce(front, last, key, ks);
    }
  }

  // ---------------------------------------------------------------------
  // Sorting by a cost, descending: `sort((a, b) => b.v - a.v)`, stable
  // ---------------------------------------------------------------------

  predicate Descending<T>(s: seq<T>, cost: T -> real) {
    forall i, j :: 0 <= i < j < |s| ==> cost(s[i]) >= cost(s[j])
  }

  function InsertDesc<T(==,!new)>(s: seq<T>, x: T, cost: T -> real): (r: seq<T>)
    requires Descending(s, cost)
    ensures Descending(r, cost)
    ensures multiset(r) == multiset(s) + multiset{x}
  {
    if s == [] then [x]
    else
      var front, last := s[..|s| - 1], s[|s| - 1];
      assert s == front + [last];
      DescendingLast(s, cost);
      if cost(last) >= cost(x) then
        DescendingSnoc(s, x, cost);
        s + [x]
      else
        var init := InsertDesc(front, x, cost);
        assert forall e :: e in init ==> cost(e) >= cost(last) by {
          forall e | e in init ensures cost(e) >= cost(last) {
            assert e in multiset(init);
          }
        }
        DescendingSnoc(init, last, cost);
        init + [last]
  }

  /** In a descending sequence every element costs at least as much as the last. */
  lemma DescendingLast<T>(s: seq<T>, cost: T -> real)
    requires Descending(s, cost) && s != []
    ensures forall e :: e in s ==> cost(e) >= cost(s[|s| - 1])
  {
    forall e | e in s ensures cost(e) >= cost(s[|s| - 1]) {
      var i :| 0 <= i < |s| && s[i] == e;
    }
  }

  /** Appending an element that costs no more than any other keeps the sequence descending. */
  lemma DescendingSnoc<T>(s: seq<T>, y: T, cost: T -> real)
    requires Descending(s, cost)
    requires forall e :: e in s ==> cost(e) >= cost(y)
    ensures Descending(s + [y], cost)
  {
    forall i, j | 0 <= i < j < |s| + 1 ensures cost((s + [y])[i]) >= cost((s + [y])[j]) {
      if j == |s| {
        assert s[i] in s;
      } else {
        assert (s + [y])[i] == s[i] && (s + [y])[j] == s[j];
      }
    }
  }

  /** Insertion sort, most expensive first; equal costs keep their order (`SortDescStable`). */
  function SortDesc<T(==,!new)>(s: seq<T>, cost: T -> real): (r: seq<T>)
    ensures Descending(r, cost)
    ensures multiset(r) == multiset(s)
    ensures |r| == |s|
  {
    if s == [] then []
    else
      assert s == s[..|s| - 1] + [s[|s| - 1]];
      var r := InsertDesc(SortDesc(s[..|s| - 1], cost), s[|s| - 1], cost);
      assert |r| == |multiset(r)|;
      r
  }

  // Stability: elements of equal cost leave the sort in the order they came in.

  /** The elements costing exactly `c`, in their order. */
  function WithCost<T>(s: seq<T>, cost: T -> real, c: real): (r: seq<T>)
    ensures |r| <= |s|
    ensures forall e :: e in r ==> e in s && cost(e) == c
  {
    if s == [] then []
    else
      var last := s[|s| - 1];
      WithCost(s[..|s| - 1], cost, c) + (if cost(last) == c then [last] else [])
  }

  lemma WithCostSnoc<T>(s: seq<T>, y: T, cost: T -> real, c: real)
    ensures WithCost(s + [y], cost, c) == WithCost(s, cost, c) + (if cost(y) == c then [y] else [])
  {
    assert (s + [y])[..|s|] == s;
  }

  lemma InsertDescAtEnd<T(!new)>(s: seq<T>, x: T, cost: T -> real)
    requires Descending(s, cost)
    requires s == [] || cost(s[|s| - 1]) >= cost(x)
    ensures InsertDesc(s, x, cost) == s + [x]
  {
  }

  lemma InsertDescBeforeLast<T(!new)>(s: seq<T>, x: T, cost: T -> real)
    requires Descending(s, cost) && s != []
    requires cost(s[|s| - 1]) < cost(x)
    ensures Descending(s[..|s| - 1], cost)
    ensures InsertDesc(s, x, cost) == InsertDesc(s[..|s| - 1], x, cost) + [s[|s| - 1]]
  {
    var front := s[..|s| - 1];
    forall i, j | 0 <= i < j < |front| ensures cost(front[i]) >= cost(front[j]) {
      assert front[i] == s[i] && front[j] == s[j];
    }
  }

  /** Inserting `x` puts it after the elements of its own cost and leaves every other cost's elements as they were. */
  lemma {:induction false} InsertDescStable<T(!new)>(s: seq<T>, x: T, cost: T -> real, c: real)
    requires Descending(s, cost)
    ensures WithCost(InsertDesc(s, x, cost), cost, c) == WithCost(s, cost, c) + (if cost(x) == c then [x] else [])
  {
    if s == [] || cost(s[|s| - 1]) >= cost(x) {
      InsertDescAtEnd(s, x, cost);
      WithCostSnoc(s, x, cost, c);
    } else {
      var front, last := s[..|s| - 1], s[|s| - 1];
      InsertDescBeforeLast(s, x, cost);
      var inserted := InsertDesc(front, x, cost);
      var here: seq<T> := if cost(x) == c then [x] else [];
      var there: seq<T> := if cost(last) == c then [last] else [];
      WithCostSnoc(inserted, last, cost, c);
      InsertDescStable(front, x, cost, c);
      AppendSwap(WithCost(front, cost, c), here, there);
    }
  }

  /** The sort is stable: for every cost, the elements of that cost keep their original order. */
  lemma {:induction false} SortDescStable<T(!new)>(s: seq<T>, cost: T -> real, c: real)
    ensures WithCost(SortDesc(s, cost), cost, c) == WithCost(s, cost, c)
  {
    if s != [] {
      var init, last := s[..|s| - 1], s[|s| - 1];
      SortDescStable(init, cost, c);
      InsertDescStable(SortDesc(init, cost), last, cost, c);
    }
  }

  // ---------------------------------------------------------------------
  // The per-model table
  // ---------------------------------------------------------------------

  /** One `[model, rollup]` entry of `byModel`. */
  datatype Entry = Entry(model: string, sums: Rollup)

  function EntryTotal(e: Entry): real { e.sums.total }

  /** The entries for `ks`, each with its group's rollup. */
  function Entries(rows: seq<Row>, key: Row -> string, ks: seq<string>): (es: seq<Entry>)
    ensures |es| == |ks|
    ensures forall j :: 0 <= j < |ks| ==> es[j] == Entry(ks[j], Summarize(Group(rows, key, ks[j])))
  {
    seq(|ks|, j requires 0 <= j < |ks| => Entry(ks[j], Summarize(Group(rows, key, ks[j]))))
  }

  function SumEntries(es: seq<Entry>): Rollup {
    if es == [] then Zero else Plus(SumEntries(es[..|es| - 1]), es[|es| - 1].sums)
  }

  lemma {:induction false} SumEntriesGroups(rows: seq<Row>, key: Row -> string, ks: seq<string>)
    ensures SumEntries(Entries(rows, key, ks)) == SumGroups(rows, key, ks)
  {
    if ks != [] {
      var front := ks[..|ks| - 1];
      assert Entries(rows, key, ks)[..|ks| - 1] == Entries(rows, key, front);
      SumEntriesGroups(rows, key, front);
    }
  }

  lemma PlusSwap(a: Rollup, b: Rollup, c: Rollup)
    ensures Plus(Plus(a, b), c) == Plus(Plus(a, c), b)
  {
  }

  lemma SumEntriesSnoc(es: seq<Entry>, x: Entry)
    ensures SumEntries(es + [x]) == Plus(SumEntries(es), x.sums)
  {
    assert (es + [x])[..|es|] == es;
  }

  lemma {:induction false} SumEntriesInsert(es: seq<Entry>, x: Entry)
    requires Descending(es, EntryTotal)
    ensures SumEntries(InsertDesc(es, x, EntryTotal)) == Plus(SumEntries(es), x.sums)
  {
    if es != [] && EntryTotal(es[|es| - 1]) < EntryTotal(x) {
      var front, last := es[..|es| - 1], es[|es| - 1];
      SumEntriesInsert(front, x);
      var init := InsertDesc(front, x, EntryTotal);
      assert InsertDesc(es, x, EntryTotal) == init + [last];
      SumEntriesSnoc(init, last);
      PlusSwap(SumEntries(front), x.sums, last.sums);
    } else {
      SumEntriesSnoc(es, x);
    }
  }

  /** Sorting the entries does not change their sum. */
  lemma {:induction false} SumEntriesSort(es: seq<Entry>)
    ensures SumEntries(SortDesc(es, EntryTotal)) == SumEntries(es)
  {
    if es != [] {
      var front := es[..|es| - 1];
      SumEntriesSort(front);
      SumEntriesInsert(SortDesc(front, EntryTotal), es[|es| - 1]);
    }
  }

  /** `v.req > 0 ? Math.round(sum / v.req) : 0`, where `Math.round` rounds halves up. */
  function AvgRound(sum: real, req: int): (a: int)
    ensures req > 0 ==> a as real - 0.5 <= sum / req as real < a as real + 0.5
    ensures req <= 0 ==> a == 0
  {
    if req > 0 then (sum / req as real + 0.5).Floor else 0
  }

  /** `v.req > 0 ? v.tokenOutput / v.req : 0`, not rounded. */
  function AvgExact(sum: real, req: int): (a: real)
    ensures req > 0 ==> a * req as real == sum
    ensures req <= 0 ==> a == 0.0
  {
    if req > 0 then sum / req as real else 0.0
  }

  datatype Averages = Averages(tp: int, tokenOutput: real, tr: int, genTime: int, ttft: int)

  /** The derived averages of a rollup: per request, and 0 for a rollup without requests. */
  function AveragesOf(v: Rollup): (a: Averages)
    ensures v.req > 0 ==> a.tokenOutput * v.req as real == v.tokenOutput as real
    ensures v.req > 0 ==> a.tp as real - 0.5 <= v.tp as real / v.req as real < a.tp as real + 0.5
    ensures v.req > 0 ==> a.tr as real - 0.5 <= v.tr as real / v.req as real < a.tr as real + 0.5
    ensures v.req > 0 ==> a.genTime as real - 0.5 <= v.genTime / v.req as real < a.genTime as real + 0.5
    ensures v.req > 0 ==> a.ttft as real - 0.5 <= v.ttft / v.req as real < a.ttft as real + 0.5
    ensures v.req <= 0 ==> a == Averages(0, 0.0, 0, 0, 0)
  {
    Averages(
      AvgRound(v.tp as real, v.req), AvgExact(v.tokenOutput as real, v.req), AvgRound(v.tr as real, v.req),
      AvgRound(v.genTime, v.req), AvgRound(v.ttft, v.req))
  }

  datatype TableLine = TableLine(model: string, sums: Rollup, avg: Averages)

  /** The table body, one line per model, and the `TOTAL (n models)` footer. */
  datatype Table = Table(lines: seq<TableLine>, models: int, totals: Rollup, avg: Averages)

  /**
   * The aggregation loop of `renderTable`, for the key it is given (the
   * model): a map from each key to its rollup, and the keys in order of first
   * appearance (the map's iteration order).
   */
  method RollupByKey(rows: seq<Row>, key: Row -> string) returns (acc: map<string, Rollup>, order: seq<string>)
    ensures order == FirstKeys(rows, key)
    ensures forall k :: k in acc <==> k in order
    ensures forall k :: k in acc ==> acc[k] == Summarize(Group(rows, key, k))
  {
    acc, order := map[], [];
    ghost var seen: seq<Row> := [];
    for i := 0 to |rows|
      invariant seen == rows[..i]
      invariant order == FirstKeys(seen, key)
      invariant HoldsRollups(acc, seen, key)
    {
      var r := rows[i];
      var k := key(r);
      PrefixSnoc(rows, i);
      FirstKeysSnoc(seen, r, key);
      RollupStep(seen, r, key, k, acc);
      var m := if k in acc then acc[k] else Zero;
      if k !in acc {
        order := order + [k];
      }
      acc := acc[k := Add(m, r)];
      seen := seen + [r];
    }
    assert seen == rows;
  }

  /** The footer loop: `totals` gathers every entry's rollup. */
  method AddUp(es: seq<Entry>) returns (totals: Rollup)
    ensures totals == SumEntries(es)
  {
    totals := Zero;
    for k := 0 to |es|
      invariant totals == SumEntries(es[..k])
    {
      SumEntriesSnoc(es[..k], es[k]);
      assert es[..k + 1] == es[..k] + [es[k]];
      totals := Plus(totals, es[k].sums);
    }
    assert es[..|es|] == es;
  }

  /** A rearrangement of the entries still has one entry per key seen, each with its group's rollup. */
  lemma SortedEntries(rows: seq<Row>, key: Row -> string, sorted: seq<Entry>)
    requires multiset(sorted) == multiset(Entries(rows, key, FirstKeys(rows, key)))
    ensures forall k :: k in FirstKeys(rows, key) <==> exists j :: 0 <= j < |sorted| && sorted[j].model == k
    ensures forall j :: 0 <= j < |sorted| ==> sorted[j].sums == Summarize(Group(rows, key, sorted[j].model))
  {
    var order := FirstKeys(rows, key);
    var entries := Entries(rows, key, order);
    forall k | k in order
      ensures exists j :: 0 <= j < |sorted| && sorted[j].model == k
    {
      var j :| 0 <= j < |order| && order[j] == k;
      assert entries[j] in multiset(sorted);
      var q :| 0 <= q < |sorted| && sorted[q] == entries[j];
    }
    forall j | 0 <= j < |sorted|
      ensures sorted[j].model in order
      ensures sorted[j].sums == Summarize(Group(rows, key, sorted[j].model))
    {
      assert sorted[j] in multiset(entries);
      var q :| 0 <= q < |entries| && entries[q] == sorted[j];
      assert order[q] in order;
    }
  }

  /** The table lines of sorted entries. */
  function Lines(es: seq<Entry>): (ls: seq<TableLine>)
    ensures |ls| == |es|
    ensures forall j :: 0 <= j < |es| ==> ls[j] == TableLine(es[j].model, es[j].sums, AveragesOf(es[j].sums))
  {
    seq(|es|, j requires 0 <= j < |es| => TableLine(es[j].model, es[j].sums, AveragesOf(es[j].sums)))
  }

  /** The model entries, most expensive first. */
  function SortedEntriesOf(rows: seq<Row>): seq<Entry> {
    SortDesc(Entries(rows, ModelOf, FirstKeys(rows, ModelOf)), EntryTotal)
  }

  /** What `renderTable` shows for `rows`: the sorted model lines and the footer of their sum. */
  function TableOf(rows: seq<Row>): Table {
    var es := SortedEntriesOf(rows);
    Table(Lines(es), |es|, SumEntries(es), AveragesOf(SumEntries(es)))
  }

  /** `renderTable`'s computation: the aggregation loop, the sort and the footer loop. */
  method RenderTable(rows: seq<Row>) returns (t: Table)
    ensures t == TableOf(rows)
  {
    var byModel, order := RollupByKey(rows, ModelOf);
    var entries := seq(|order|, j requires 0 <= j < |order| => Entry(order[j], byModel[order[j]]));
    assert entries == Entries(rows, ModelOf, order);
    var sorted := SortDesc(entries, EntryTotal);
    var totals := AddUp(sorted);
    t := Table(Lines(sorted), |sorted|, totals, AveragesOf(totals));
  }

  /** The lines are ordered by total cost, most expensive first. */
  lemma TableOrdered(rows: seq<Row>)
    ensures var ls := TableOf(rows).lines;
      forall i, j :: 0 <= i < j < |ls| ==> ls[i].sums.total >= ls[j].sums.total
  {
    var es := SortedEntriesOf(rows);
    assert forall i, j :: 0 <= i < j < |es| ==> EntryTotal(es[i]) >= EntryTotal(es[j]);
  }

  /** One line per model that occurs, each holding that model's rollup and averages. */
  lemma TableLines(rows: seq<Row>)
    ensures var ls := TableOf(rows).lines;
      && (forall m :: m in ModelSet(rows) <==> exists j :: 0 <= j < |ls| && ls[j].model == m)
      && (forall j :: 0 <= j < |ls| ==> ls[j].sums == Summarize(Group(rows, ModelOf, ls[j].model)))
      && (forall j :: 0 <= j < |ls| ==> ls[j].avg == AveragesOf(ls[j].sums))
  {
    SortedEntries(rows, ModelOf, SortedEntriesOf(rows));
    ModelKeys(rows);
  }

  /**
   * The footer: `TOTAL (n models)` counts the distinct models, and its sums
   * are those of all the records, so its request count is the record count.
   */
  lemma TableFooter(rows: seq<Row>)
    ensures TableOf(rows).models == |TableOf(rows).lines| == |ModelSet(rows)|
    ensures TableOf(rows).totals == Summarize(rows)
    ensures TableOf(rows).totals.req == |rows|
  {
    var order := FirstKeys(rows, ModelOf);
    ModelKeys(rows);
    SumEntriesSort(Entries(rows, ModelOf, order));
    SumEntriesGroups(rows, ModelOf, order);
    KeysCover(rows, ModelOf);
    Partition(rows, ModelOf, order);
    DistinctCount(order, ModelSet(rows));
    SummarizeFields(rows);
  }

  /** A duplicate-free sequence has as many elements as the set of its members. */
  lemma {:induction false} DistinctCount(ks: seq<string>, s: set<string>)
    requires Distinct(ks)
    requires forall k :: k in ks <==> k in s
    ensures |ks| == |s|
  {
    if ks != [] {
      var last := ks[|ks| - 1];
      var front := ks[..|ks| - 1];
      assert forall k :: k in ks <==> k in front || k == last by { assert ks == front + [last]; }
      DistinctCount(front, s - {last});
    }
  }

  // ---------------------------------------------------------------------
  // KPIs
  // ---------------------------------------------------------------------

  datatype Kpis = Kpis(count: int, openRouter: real, totalCost: real, avg: real, first: Timestamp, last: Timestamp)

  /**
   * `renderKPIs` (called only with records): five cost reductions, their
   * sum, the mean OpenRouter cost per request, and the dates of the first
   * and last record as the time window.
   */
  function KpisOf(rows: seq<Row>): (k: Kpis)
    requires |rows| > 0
    ensures k.count == |rows|
    ensures k.openRouter == SumReal(rows, TotalOf)
    ensures k.totalCost == k.openRouter + SumReal(rows, ByokOf) + SumReal(rows, WebOf)
      + SumReal(rows, FileOf) + SumReal(rows, CacheOf)
    ensures k.avg * k.count as real == k.openRouter
    ensures k.first == rows[0].date && k.last == rows[|rows| - 1].date
  {
    var openRouter := SumReal(rows, TotalOf);
    var totalCost := openRouter + SumReal(rows, ByokOf) + SumReal(rows, WebOf) + SumReal(rows, FileOf) + SumReal(rows, CacheOf);
    Kpis(|rows|, openRouter, totalCost, openRouter / |rows| as real, rows[0].date, rows[|rows| - 1].date)
  }

  /** The KPI cards and the table footer agree on the request count and the OpenRouter cost. */
  lemma KpisAgreeWithTable(rows: seq<Row>)
    requires |rows| > 0
    ensures KpisOf(rows).count == Summarize(rows).req
    ensures KpisOf(rows).openRouter == Summarize(rows).total
    ensures KpisOf(rows).totalCost == Summarize(rows).total + Summarize(rows).byok + Summarize(rows).web
      + Summarize(rows).file + Summarize(rows).cache
  {
    SummarizeFields(rows);
  }

  /** On date-sorted records the window spans every record. */
  lemma KpiWindow(rows: seq<Row>)
    requires |rows| > 0 && SortedByDate(rows)
    ensures forall r :: r in rows ==> AtOrBefore(KpisOf(rows).first, r.date) && AtOrBefore(r.date, KpisOf(rows).last)
  {
    forall r | r in rows
      ensures AtOrBefore(rows[0].date, r.date) && AtOrBefore(r.date, rows[|rows| - 1].date)
    {
      var i :| 0 <= i < |rows| && rows[i] == r;
      if i > 0 { assert AtOrBefore(rows[0].date, rows[i].date); }
      if i < |rows| - 1 { assert AtOrBefore(rows[i].date, rows[|rows| - 1].date); }
    }
  }

  // ---------------------------------------------------------------------
  // Bar chart: top 15 models by cost
  // ---------------------------------------------------------------------

  datatype Bar = Bar(model: string, cost: real)

  function BarCost(b: Bar): real { b.cost }

  const TopModels := 15

  /** The per-key costs, in order of first appearance. */
  function Bars(rows: seq<Row>, key: Row -> string): (bs: seq<Bar>)
    ensures var ks := FirstKeys(rows, key);
      && |bs| == |ks|
      && forall j :: 0 <= j < |ks| ==> bs[j] == Bar(ks[j], Summarize(Group(rows, key, ks[j])).total)
  {
    var ks := FirstKeys(rows, key);
    seq(|ks|, j requires 0 <= j < |ks| => Bar(ks[j], Summarize(Group(rows, key, ks[j])).total))
  }

  function SortedBarsOf(rows: seq<Row>): seq<Bar> {
    SortDesc(Bars(rows, ModelOf), BarCost)
  }

  /** What `renderBarByModel` plots: the 15 most expensive models, or all of them when fewer. */
  function TopBarsOf(rows: seq<Row>): seq<Bar> {
    var sorted := SortedBarsOf(rows);
    sorted[..if |sorted| < TopModels then |sorted| else TopModels]
  }

  /**
   * The aggregation loop of `renderBarByModel` and `renderLineOverTime`, for
   * the key it is given (the model, the hour): each key's summed cost, and
   * the keys in order of first appearance.
   */
  method CostByKey(rows: seq<Row>, key: Row -> string) returns (acc: map<string, real>, order: seq<string>)
    ensures order == FirstKeys(rows, key)
    ensures forall k :: k in acc <==> k in order
    ensures forall k :: k in acc ==> acc[k] == Summarize(Group(rows, key, k)).total
  {
    acc, order := map[], [];
    ghost var seen: seq<Row> := [];
    for i := 0 to |rows|
      invariant seen == rows[..i]
      invariant order == FirstKeys(seen, key)
      invariant HoldsCosts(acc, seen, key)
    {
      var r := rows[i];
      var k := key(r);
      PrefixSnoc(rows, i);
      FirstKeysSnoc(seen, r, key);
      CostStep(seen, r, key, k, acc);
      var c := if k in acc then acc[k] else 0.0;
      if k !in acc {
        order := order + [k];
      }
      acc := acc[k := c + r.total];
      seen := seen + [r];
    }
    assert seen == rows;
  }

  /** `renderBarByModel`'s data: the aggregation loop, the sort and the cut to 15. */
  method BarByModel(rows: seq<Row>) returns (top: seq<Bar>)
    ensures top == TopBarsOf(rows)
  {
    var totals, order := CostByKey(rows, ModelOf);
    var bars := seq(|order|, j requires 0 <= j < |order| => Bar(order[j], totals[order[j]]));
    assert bars == Bars(rows, ModelOf);
    var sorted := SortDesc(bars, BarCost);
    top := sorted[..if |sorted| < TopModels then |sorted| else TopModels];
  }

  /** A rearrangement of the bars has one bar per key seen, with its group's cost. */
  lemma SortedBars(rows: seq<Row>, key: Row -> string, sorted: seq<Bar>)
    requires multiset(sorted) == multiset(Bars(rows, key))
    ensures |sorted| == |FirstKeys(rows, key)|
    ensures forall k :: k in FirstKeys(rows, key) <==> exists j :: 0 <= j < |sorted| && sorted[j].model == k
    ensures forall j :: 0 <= j < |sorted| ==> sorted[j].cost == Summarize(Group(rows, key, sorted[j].model)).total
  {
    var order := FirstKeys(rows, key);
    var bars := Bars(rows, key);
    assert |sorted| == |multiset(sorted)| == |bars|;
    forall k | k in order
      ensures exists j :: 0 <= j < |sorted| && sorted[j].model == k
    {
      var p :| 0 <= p < |order| && order[p] == k;
      assert bars[p] in multiset(sorted);
      var q :| 0 <= q < |sorted| && sorted[q] == bars[p];
    }
    forall j | 0 <= j < |sorted|
      ensures sorted[j].model in order
      ensures sorted[j].cost == Summarize(Group(rows, key, sorted[j].model)).total
    {
      assert sorted[j] in multiset(bars);
      var q :| 0 <= q < |bars| && bars[q] == sorted[j];
      assert order[q] in order;
    }
  }

  /** A rearrangement of bars with distinct models still has distinct models. */
  lemma PermutedBarsDistinct(bars: seq<Bar>, sorted: seq<Bar>)
    requires multiset(sorted) == multiset(bars)
    requires forall i, j :: 0 <= i < j < |bars| ==> bars[i].model != bars[j].model
    ensures forall i, j :: 0 <= i < j < |sorted| ==> sorted[i].model != sorted[j].model
  {
    forall i, j | 0 <= i < j < |sorted| ensures sorted[i].model != sorted[j].model {
      assert sorted[i] in multiset(bars) && sorted[j] in multiset(bars);
      var p :| 0 <= p < |bars| && bars[p] == sorted[i];
      var q :| 0 <= q < |bars| && bars[q] == sorted[j];
      if p == q {
        MultisetTwoPositions(sorted, i, j);
        DistinctOnce(bars, p);
      }
    }
  }

  /** Every model's bar, with its model's summed cost, and no model twice. */
  lemma SortedBarsFacts(rows: seq<Row>)
    ensures var sb := SortedBarsOf(rows);
      && |sb| == |ModelSet(rows)|
      && (forall m :: m in ModelSet(rows) <==> exists j :: 0 <= j < |sb| && sb[j].model == m)
      && (forall j :: 0 <= j < |sb| ==> sb[j].cost == Summarize(Group(rows, ModelOf, sb[j].model)).total)
      && (forall i, j :: 0 <= i < j < |sb| ==> sb[i].model != sb[j].model)
  {
    SortedBars(rows, ModelOf, SortedBarsOf(rows));
    PermutedBarsDistinct(Bars(rows, ModelOf), SortedBarsOf(rows));
    ModelKeys(rows);
    DistinctCount(FirstKeys(rows, ModelOf), ModelSet(rows));
  }

  /**
   * The plotted bars: as many as there are models up to 15, most expensive
   * first, each a model that occurs with its summed cost, no model twice.
   */
  lemma TopBars(rows: seq<Row>)
    ensures var top := TopBarsOf(rows);
      && |top| == (if |ModelSet(rows)| < TopModels then |ModelSet(rows)| else TopModels)
      && Descending(top, BarCost)
      && (forall j :: 0 <= j < |top| ==> top[j].model in ModelSet(rows))
      && (forall j :: 0 <= j < |top| ==> top[j].cost == Summarize(Group(rows, ModelOf, top[j].model)).total)
      && (forall i, j :: 0 <= i < j < |top| ==> top[i].model != top[j].model)
  {
    SortedBarsFacts(rows);
    var sorted := SortedBarsOf(rows);
    var top := TopBarsOf(rows);
    forall j | 0 <= j < |top| ensures top[j].model in ModelSet(rows) {
      assert top[j] == sorted[j];
    }
  }

  /** A model left out of the chart costs no more than any model shown. */
  lemma TopBarsDominate(rows: seq<Row>, m: string)
    requires m in ModelSet(rows)
    requires forall b :: b in TopBarsOf(rows) ==> b.model != m
    ensures forall b :: b in TopBarsOf(rows) ==> Summarize(Group(rows, ModelOf, m)).total <= b.cost
  {
    SortedBarsFacts(rows);
    var sorted := SortedBarsOf(rows);
    var top := TopBarsOf(rows);
    var q :| 0 <= q < |sorted| && sorted[q].model == m;
    forall b | b in top ensures Summarize(Group(rows, ModelOf, m)).total <= b.cost {
      var j :| 0 <= j < |top| && top[j] == b;
      assert BarCost(sorted[j]) >= BarCost(sorted[q]);
    }
  }

  /** A prefix one longer is the prefix and the next element. */
  lemma PrefixSnoc<T>(s: seq<T>, i: int)
    requires 0 <= i < |s|
    ensures s[..i + 1] == s[..i] + [s[i]]
  {
  }

  /** Two positions holding the same value count twice in the multiset. */
  lemma MultisetTwoPositions<T>(s: seq<T>, i: int, j: int)
    requires 0 <= i < j < |s| && s[i] == s[j]
    ensures multiset(s)[s[i]] >= 2
  {
    assert s == s[..i] + [s[i]] + s[i + 1..j] + [s[j]] + s[j + 1..];
  }

  /** In a list with distinct models each bar occurs once. */
  lemma DistinctOnce(bars: seq<Bar>, p: int)
    requires 0 <= p < |bars|
    requires forall i, j :: 0 <= i < j < |bars| ==> bars[i].model != bars[j].model
    ensures multiset(bars)[bars[p]] == 1
  {
    var b := bars[p];
    var before, after := bars[..p], bars[p + 1..];
    assert bars == before + [b] + after;
    assert b !in before by {
      forall e | e in before ensures e != b {
        var i :| 0 <= i < p && bars[i] == e;
      }
    }
    assert b !in after by {
      forall e | e in after ensures e != b {
        var i :| p < i < |bars| && bars[i] == e;
      }
    }
  }

  // ---------------------------------------------------------------------
  // Line chart: cost per local hour
  // ---------------------------------------------------------------------

  function SumCosts(cs: seq<real>): real {
    if cs == [] then 0.0 else SumCosts(cs[..|cs| - 1]) + cs[|cs| - 1]
  }

  /** The per-key group costs of `ks`, added up. */
  lemma {:induction false} SumCostsGroups(rows: seq<Row>, key: Row -> string, ks: seq<string>, cs: seq<real>)
    requires |cs| == |ks|
    requires forall j :: 0 <= j < |ks| ==> cs[j] == Summarize(Group(rows, key, ks[j])).total
    ensures SumCosts(cs) == SumGroups(rows, key, ks).total
  {
    if ks != [] {
      SumCostsGroups(rows, key, ks[..|ks| - 1], cs[..|cs| - 1]);
    }
  }

  /**
   * The per-key series: one label per key that occurs, in ascending order,
   * each with its group's summed cost.
   */
  method SeriesByKey(rows: seq<Row>, key: Row -> string) returns (labels: seq<string>, data: seq<real>)
    ensures StrictlyAscending(labels)
    ensures forall k :: k in labels <==> k in FirstKeys(rows, key)
    ensures |data| == |labels|
    ensures forall j :: 0 <= j < |labels| ==> data[j] == Summarize(Group(rows, key, labels[j])).total
  {
    var bucket, _ := CostByKey(rows, key);
    labels := SortStrings(bucket.Keys);
    data := seq(|labels|, j requires 0 <= j < |labels| => bucket[labels[j]]);
  }

  /**
   * `renderLineOverTime`'s data: one label per hour that has records, in
   * ascending key order, each with the summed cost of its records; the
   * series adds up to the cost of all the records.
   */
  method LineOverTime(rows: seq<Row>) returns (labels: seq<string>, data: seq<real>)
    ensures StrictlyAscending(labels)
    ensures |data| == |labels|
    ensures forall k :: k in labels <==> exists r :: r in rows && HourKey(r.date) == k
    ensures forall j :: 0 <= j < |labels| ==> data[j] == Summarize(Group(rows, HourOf, labels[j])).total
    ensures SumCosts(data) == SumReal(rows, TotalOf)
  {
    labels, data := SeriesByKey(rows, HourOf);
    assert forall k :: k in labels <==> exists r :: r in rows && HourKey(r.date) == k by {
      HourKeys(rows);
    }
    assert SumCosts(data) == SumReal(rows, TotalOf) by {
      LineTotal(rows, labels, data);
    }
  }

  /** The first-seen hour keys are exactly the hours that have records. */
  lemma HourKeys(rows: seq<Row>)
    ensures forall k :: k in FirstKeys(rows, HourOf) <==> exists r :: r in rows && HourKey(r.date) == k
  {
    FirstKeysMembers(rows, HourOf);
    forall k | k in FirstKeys(rows, HourOf) ensures exists r :: r in rows && HourKey(r.date) == k {
      var key := HourOf;
      var r :| r in rows && key(r) == k;
      assert HourKey(r.date) == k;
    }
    forall k | exists r :: r in rows && HourKey(r.date) == k ensures k in FirstKeys(rows, HourOf) {
      var r :| r in rows && HourKey(r.date) == k;
      var key := HourOf;
      assert key(r) == k;
    }
  }

  /** Bucket costs over distinct labels covering every record add up to the total cost. */
  lemma LineTotal(rows: seq<Row>, labels: seq<string>, data: seq<real>)
    requires StrictlyAscending(labels)
    requires forall k :: k in FirstKeys(rows, HourOf) ==> k in labels
    requires |data| == |labels|
    requires forall j :: 0 <= j < |labels| ==> data[j] == Summarize(Group(rows, HourOf, labels[j])).total
    ensures SumCosts(data) == SumReal(rows, TotalOf)
  {
    assert Distinct(labels) by {
      forall i, j | 0 <= i < j < |labels| ensures labels[i] != labels[j] {
        if labels[i] == labels[j] { StrLtIrreflexive(labels[i]); }
      }
    }
    FirstKeysMembers(rows, HourOf);
    forall r | r in rows ensures HourOf(r) in labels {
      var key := HourOf;
      assert key(r) in FirstKeys(rows, HourOf);
    }
    SumCostsGroups(rows, HourOf, labels, data);
    Partition(rows, HourOf, labels);
    SummarizeFields(rows);
  }
}
