/**
 * The pure half of the filter bar: the model button's caption, the
 * effective model selection, and the row predicate `applyFilters` keeps
 * rows by, with the order-preserving filter it drives.
 */
module Filters {
  import opened Wrappers
  import opened Text
  import opened LocalTime
  import opened Records

  // ---------------------------------------------------------------------
  // Captions built from a count
  // ---------------------------------------------------------------------

  /** `updateModelButtonCaption`: 'All models', '1 model selected' or 'n models selected'. */
  function ModelButtonCaption(n: nat): (s: string)
    ensures n == 0 ==> s == "All models"
    ensures n == 1 ==> s == "1 model selected"
    ensures n > 1 ==> s == NatToString(n) + " models selected"
  {
    if n == 0 then "All models" else NatToString(n) + " model" + (if n > 1 then "s" else "") + " selected"
  }

  /** The button caption tells the number of selected models exactly. */
  lemma ModelButtonCaptionInjective(a: nat, b: nat)
    requires ModelButtonCaption(a) == ModelButtonCaption(b)
    ensures a == b
  {
    if a != 0 && b != 0 {
      var ra := " model" + (if a > 1 then "s" else "") + " selected";
      var rb := " model" + (if b > 1 then "s" else "") + " selected";
      assert ModelButtonCaption(a) == NatToString(a) + ra;
      assert ModelButtonCaption(b) == NatToString(b) + rb;
      CountPrefixInjective(a, ra, b, rb);
    }
  }

  // ---------------------------------------------------------------------
  // The selection and the row predicate
  // ---------------------------------------------------------------------

  /**
   * `getSelectedModels`: the checkbox selection when it is non-empty, else
   * the values chosen in the legacy select, else nothing. The result is
   * only ever tested for emptiness and membership, so it is kept as a set.
   */
  function SelectedModels(selection: set<string>, legacy: seq<string>): (sel: set<string>)
    ensures selection != {} ==> sel == selection
    ensures selection == {} ==> forall m :: m in sel <==> m in legacy
    ensures sel == {} <==> selection == {} && legacy == []
  {
    if selection != {} then selection
    else
      assert legacy != [] ==> legacy[0] in (set m | m in legacy);
      set m | m in legacy
  }

  /** The row test of `applyFilters`: model chosen (or no choice made), and the date inside the inclusive bounds. */
  predicate Keep(r: Row, sel: set<string>, from: Option<DateTime>, to: Option<DateTime>) {
    && (sel == {} || r.model in sel)
    && (from.None? || !Before(r.date, from.value))
    && (to.None? || !Before(to.value, r.date))
  }

  /** `rows.filter(r => Keep(r, …))`. */
  function FilterRows(rows: seq<Row>, sel: set<string>, from: Option<DateTime>, to: Option<DateTime>): (out: seq<Row>)
    ensures |out| <= |rows|
  {
    if rows == [] then []
    else
      var init := FilterRows(rows[..|rows| - 1], sel, from, to);
      var last := rows[|rows| - 1];
      if Keep(last, sel, from, to) then init + [last] else init
  }

  /** Filtering keeps the rows it keeps in their original order. */
  lemma {:induction false} FilterSubsequence(rows: seq<Row>, sel: set<string>, from: Option<DateTime>, to: Option<DateTime>)
    ensures Subsequence(FilterRows(rows, sel, from, to), rows)
  {
    if rows != [] {
      var init := rows[..|rows| - 1];
      FilterSubsequence(init, sel, from, to);
      var out := FilterRows(rows, sel, from, to);
      if !Keep(rows[|rows| - 1], sel, from, to) {
        SubsequenceDropLast(out, rows);
      } else {
        assert out[..|out| - 1] == FilterRows(init, sel, from, to);
      }
    }
  }

  /** Every element of a subsequence of date-sorted records is at or after those before it: sortedness survives. */
  lemma {:induction false} SubsequenceSorted(xs: seq<Row>, ys: seq<Row>)
    requires Subsequence(xs, ys) && SortedByDate(ys)
    ensures SortedByDate(xs)
  {
    if xs != [] {
      var ys' := ys[..|ys| - 1];
      assert SortedByDate(ys');
      if xs[|xs| - 1] == ys[|ys| - 1] {
        var xs' := xs[..|xs| - 1];
        SubsequenceSorted(xs', ys');
        SubsequenceMembers(xs', ys');
        forall e | e in xs' ensures AtOrBefore(e.date, ys[|ys| - 1].date) {
          var k :| 0 <= k < |ys'| && ys'[k] == e;
          assert ys[k] == e;
        }
        SortedSnoc(xs', ys[|ys| - 1]);
        assert xs == xs' + [ys[|ys| - 1]];
      } else {
        SubsequenceSorted(xs, ys');
      }
    }
  }

  /** Filtering date-sorted rows gives date-sorted rows, so the charts see them in time order. */
  lemma FilterSorted(rows: seq<Row>, sel: set<string>, from: Option<DateTime>, to: Option<DateTime>)
    requires SortedByDate(rows)
    ensures SortedByDate(FilterRows(rows, sel, from, to))
  {
    FilterSubsequence(rows, sel, from, to);
    SubsequenceSorted(FilterRows(rows, sel, from, to), rows);
  }

  /** With no model chosen and no date bounds, every row is kept, in its place. */
  lemma {:induction false} FilterNoCriteria(rows: seq<Row>)
    ensures FilterRows(rows, {}, None, None) == rows
  {
    if rows != [] {
      FilterNoCriteria(rows[..|rows| - 1]);
      assert rows == rows[..|rows| - 1] + [rows[|rows| - 1]];
    }
  }

  /** A record is kept exactly as often as it occurs, when it passes, and never otherwise. */
  lemma {:induction false} FilterCounts(rows: seq<Row>, sel: set<string>, from: Option<DateTime>, to: Option<DateTime>, r: Row)
    ensures multiset(FilterRows(rows, sel, from, to))[r] == if Keep(r, sel, from, to) then multiset(rows)[r] else 0
  {
    if rows != [] {
      var init := rows[..|rows| - 1];
      FilterCounts(init, sel, from, to, r);
      assert rows == init + [rows[|rows| - 1]];
    }
  }

  /** The rows kept are exactly the rows that pass the test. */
  lemma FilterMembers(rows: seq<Row>, sel: set<string>, from: Option<DateTime>, to: Option<DateTime>)
    ensures forall r :: r in FilterRows(rows, sel, from, to) <==> r in rows && Keep(r, sel, from, to)
  {
    forall r ensures r in FilterRows(rows, sel, from, to) <==> r in rows && Keep(r, sel, from, to) {
      FilterCounts(rows, sel, from, to, r);
    }
  }

  /** With the bounds of one day (as the date inputs give them), the rows kept are exactly those of that day. */
  lemma OneDayFilter(rows: seq<Row>, d: Day)
    requires ValidDay(d) && 0 <= d.year < 10000
    ensures var out := FilterRows(rows, {}, DateStartInclusive(FormatDay(d)), DateEndInclusive(FormatDay(d)));
      forall r :: r in out <==> r in rows && DayOf(r.date) == d
  {
    FilterMembers(rows, {}, DateStartInclusive(FormatDay(d)), DateEndInclusive(FormatDay(d)));
    forall r | r in rows
      ensures Keep(r, {}, DateStartInclusive(FormatDay(d)), DateEndInclusive(FormatDay(d))) <==> DayOf(r.date) == d
    {
      DayBoundsOfText(d, r.date);
    }
  }
}
