/**
 * Reading the usage export: the header's column map, the coercion of one
 * comma-split line into a usage record (or its rejection), the accepted
 * records of a whole export, and their stable ascending sort by date.
 */
module Records {
  import opened Wrappers
  import opened Text
  import opened LocalTime

  /**
   * The two conversions the browser performs and the model leaves abstract:
   * `number(s)` is `Number(s)` when that is finite (None for NaN and the
   * infinities), `timestamp(s)` is `new Date(s)` read in local time (None
   * for an Invalid Date).
   */
  datatype Parsers = Parsers(number: string -> Option<real>, timestamp: string -> Option<Timestamp>)

  /** Position of each recognised column in the header, -1 when it is absent. */
  datatype ColumnMap = ColumnMap(
    id: int, created: int, total: int, web: int, cache: int, file: int, byok: int,
    tokPrompt: int, tokCompletion: int, tokReasoning: int, model: int, provider: int,
    genTime: int, ttft: int)

  /** One accepted usage record. Costs and latencies are exact reals, tokens integers. */
  datatype Row = Row(
    id: Option<string>, date: Timestamp, model: string,
    total: real, web: real, cache: real, file: real, byok: real,
    tp: int, tc: int, tr: int, genTime: real, ttft: real)

  // ---------------------------------------------------------------------
  // Column map
  // ---------------------------------------------------------------------

  /** `idx` is where `header.indexOf(name)` points: the first exact match, or -1. */
  predicate Resolves(header: seq<string>, name: string, idx: int) {
    if name in header then 0 <= idx < |header| && header[idx] == name && name !in header[..idx]
    else idx == -1
  }

  /** `lines[0].split(',').map(col => col.trim())`. */
  function HeaderNames(headerLine: string): (names: seq<string>)
    ensures |names| == |Split(headerLine, ',')|
    ensures forall i :: 0 <= i < |names| ==> names[i] == Trim(Split(headerLine, ',')[i])
  {
    var parts := Split(headerLine, ',');
    seq(|parts|, i requires 0 <= i < |parts| => Trim(parts[i]))
  }

  /** `header.indexOf(name)` for one recognised column. */
  function Resolve(header: seq<string>, name: string): (idx: int)
    ensures Resolves(header, name, idx)
  {
    IndexOf(header, name)
  }

  /** The column map `COL` built from the header line. */
  function BuildColumnMap(headerLine: string): (col: ColumnMap)
    ensures var h := HeaderNames(headerLine);
      && Resolves(h, "generation_id", col.id)
      && Resolves(h, "created_at", col.created)
      && Resolves(h, "cost_total", col.total)
      && Resolves(h, "cost_web_search", col.web)
      && Resolves(h, "cost_cache", col.cache)
      && Resolves(h, "cost_file_processing", col.file)
      && Resolves(h, "byok_usage_inference", col.byok)
      && Resolves(h, "tokens_prompt", col.tokPrompt)
      && Resolves(h, "tokens_completion", col.tokCompletion)
      && Resolves(h, "tokens_reasoning", col.tokReasoning)
      && Resolves(h, "model_permaslug", col.model)
      && Resolves(h, "provider_name", col.provider)
      && Resolves(h, "generation_time_ms", col.genTime)
      && Resolves(h, "time_to_first_token_ms", col.ttft)
  {
    var h := HeaderNames(headerLine);
    ColumnMap(
      Resolve(h, "generation_id"), Resolve(h, "created_at"), Resolve(h, "cost_total"),
      Resolve(h, "cost_web_search"), Resolve(h, "cost_cache"), Resolve(h, "cost_file_processing"),
      Resolve(h, "byok_usage_inference"), Resolve(h, "tokens_prompt"), Resolve(h, "tokens_completion"),
      Resolve(h, "tokens_reasoning"), Resolve(h, "model_permaslug"), Resolve(h, "provider_name"),
      Resolve(h, "generation_time_ms"), Resolve(h, "time_to_first_token_ms"))
  }

  // ---------------------------------------------------------------------
  // Coercion of one line
  // ---------------------------------------------------------------------

  /** `parts[idx]`: undefined for -1 and for positions past the end of the line. */
  function Field(parts: seq<string>, idx: int): Option<string> {
    if 0 <= idx < |parts| then Some(parts[idx]) else None
  }

  /** `toNum`: 0 for a missing or empty field and for text that is not a finite number. */
  function ToNum(v: Option<string>, p: Parsers): (n: real)
    ensures v.None? || v == Some("") ==> n == 0.0
    ensures v.Some? && v.value != "" && p.number(v.value).Some? ==> n == p.number(v.value).value
    ensures v.Some? && p.number(v.value).None? ==> n == 0.0
  {
    if v.None? || v.value == "" then 0.0
    else p.number(v.value).GetOr(0.0)
  }

  /** `Math.trunc`: drops the fraction, towards zero. */
  function Trunc(x: real): (r: int)
    ensures x >= 0.0 ==> 0 <= r && r as real <= x < r as real + 1.0
    ensures x < 0.0 ==> r <= 0 && r as real - 1.0 < x <= r as real
  {
    if x >= 0.0 then x.Floor else -((-x).Floor)
  }

  /** The text a line's `created_at` field gives `new Date`, when it is present and non-blank. */
  function TimestampText(parts: seq<string>, col: ColumnMap): Option<string> {
    match Field(parts, col.created)
    case None => None
    case Some(ts) => if Trim(ts) == "" then None else Some(ReplaceFirst(Trim(ts), ' ', 'T'))
  }

  /** `(parts[COL.model] || '').trim()`. */
  function ModelText(parts: seq<string>, col: ColumnMap): string {
    Trim(Field(parts, col.model).GetOr(""))
  }

  /**
   * `parseLine` followed by the load loop's check: the record a line
   * yields, or None when its date is missing or invalid or its model is
   * empty. Every other field is coerced, never rejected.
   */
  function ParseLine(line: string, col: ColumnMap, p: Parsers): (r: Option<Row>)
    ensures var parts := Split(line, ',');
      r.None? <==>
        || TimestampText(parts, col).None?
        || p.timestamp(TimestampText(parts, col).value).None?
        || ModelText(parts, col) == ""
    ensures r.Some? ==> r.value.model == ModelText(Split(line, ','), col) != ""
  {
    var parts := Split(line, ',');
    var ts := TimestampText(parts, col);
    var d := if ts.None? then None else p.timestamp(ts.value);
    var model := ModelText(parts, col);
    if d.None? || model == "" then None
    else Some(Coerce(parts, col, d.value, model, p))
  }

  /** The record `parseLine` builds once its date and model are known. */
  function Coerce(parts: seq<string>, col: ColumnMap, date: Timestamp, model: string, p: Parsers): Row {
    Row(
      Field(parts, col.id), date, model,
      NumAt(parts, col.total, p), NumAt(parts, col.web, p), NumAt(parts, col.cache, p),
      NumAt(parts, col.file, p), NumAt(parts, col.byok, p),
      Trunc(NumAt(parts, col.tokPrompt, p)), Trunc(NumAt(parts, col.tokCompletion, p)),
      Trunc(NumAt(parts, col.tokReasoning, p)),
      NumAt(parts, col.genTime, p), NumAt(parts, col.ttft, p))
  }

  /** The numeric value `toNum` reads at a column of a split line. */
  function NumAt(parts: seq<string>, idx: int, p: Parsers): real {
    ToNum(Field(parts, idx), p)
  }

  /**
   * The coercion rules of an accepted line: an absent column (-1) or one
   * past the end of the line reads as 0, and token counts are the
   * truncations of their numeric values.
   */
  lemma CoercionRules(line: string, col: ColumnMap, p: Parsers)
    requires ParseLine(line, col, p).Some?
    ensures var parts := Split(line, ','); var r := ParseLine(line, col, p).value;
      && (forall idx :: (idx < 0 || idx >= |parts|) ==> NumAt(parts, idx, p) == 0.0)
      && r.total == NumAt(parts, col.total, p) && r.web == NumAt(parts, col.web, p)
      && r.cache == NumAt(parts, col.cache, p) && r.file == NumAt(parts, col.file, p)
      && r.byok == NumAt(parts, col.byok, p)
      && r.genTime == NumAt(parts, col.genTime, p) && r.ttft == NumAt(parts, col.ttft, p)
      && r.tp == Trunc(NumAt(parts, col.tokPrompt, p))
      && r.tc == Trunc(NumAt(parts, col.tokCompletion, p))
      && r.tr == Trunc(NumAt(parts, col.tokReasoning, p))
      && r.model == ModelText(parts, col)
      && Some(r.date) == p.timestamp(TimestampText(parts, col).value)
  {
  }

  /** A header without `created_at` or without `model_permaslug` rejects every line. */
  lemma MissingKeyColumnRejects(line: string, col: ColumnMap, p: Parsers)
    requires col.created == -1 || col.model == -1
    ensures ParseLine(line, col, p).None?
  {
  }

  // ---------------------------------------------------------------------
  // Whole export
  // ---------------------------------------------------------------------

  /** The records the load loop keeps from the data lines, in line order; blank lines are skipped. */
  function AcceptedRows(lines: seq<string>, col: ColumnMap, p: Parsers): seq<Row> {
    if lines == [] then []
    else AcceptedRows(lines[..|lines| - 1], col, p) + LineRows(lines[|lines| - 1], col, p)
  }

  /** What one line contributes: nothing when it is blank after trimming or does not parse. */
  function LineRows(line: string, col: ColumnMap, p: Parsers): (rs: seq<Row>)
    ensures |rs| <= 1
    ensures forall r :: r in rs ==> Trim(line) != "" && ParseLine(Trim(line), col, p) == Some(r)
    ensures Trim(line) != "" && ParseLine(Trim(line), col, p).Some? ==> rs == [ParseLine(Trim(line), col, p).value]
  {
    TrimmedRows(Trim(line), col, p)
  }

  /** The record of an already trimmed line, if it is non-blank and parses. */
  function TrimmedRows(t: string, col: ColumnMap, p: Parsers): (rs: seq<Row>)
    ensures |rs| <= 1
    ensures forall r :: r in rs ==> t != "" && ParseLine(t, col, p) == Some(r)
    ensures t != "" && ParseLine(t, col, p).Some? ==> rs == [ParseLine(t, col, p).value]
  {
    if t == "" then []
    else
      var parsed := ParseLine(t, col, p);
      if parsed.Some? then [parsed.value] else []
  }

  /** Every kept record comes from a non-blank line that parses, and there are no more records than lines. */
  lemma {:induction false} AcceptedRowsSound(lines: seq<string>, col: ColumnMap, p: Parsers)
    ensures |AcceptedRows(lines, col, p)| <= |lines|
    ensures forall r :: r in AcceptedRows(lines, col, p) ==>
      exists i :: 0 <= i < |lines| && Trim(lines[i]) != "" && ParseLine(Trim(lines[i]), col, p) == Some(r)
  {
    if lines != [] {
      var init, last := lines[..|lines| - 1], lines[|lines| - 1];
      AcceptedRowsSound(init, col, p);
      var before := AcceptedRows(init, col, p);
      forall r | r in AcceptedRows(lines, col, p)
        ensures exists i :: 0 <= i < |lines| && Trim(lines[i]) != "" && ParseLine(Trim(lines[i]), col, p) == Some(r)
      {
        if r in before {
          var i :| 0 <= i < |init| && Trim(init[i]) != "" && ParseLine(Trim(init[i]), col, p) == Some(r);
          assert lines[i] == init[i];
        } else {
          assert r in LineRows(last, col, p);
        }
      }
    }
  }

  /** Every non-blank line that parses has its record kept. */
  lemma {:induction false} AcceptedRowsComplete(lines: seq<string>, col: ColumnMap, p: Parsers, i: int)
    requires 0 <= i < |lines| && Trim(lines[i]) != "" && ParseLine(Trim(lines[i]), col, p).Some?
    ensures ParseLine(Trim(lines[i]), col, p).value in AcceptedRows(lines, col, p)
  {
    var init, last := lines[..|lines| - 1], lines[|lines| - 1];
    if i < |lines| - 1 {
      assert init[i] == lines[i];
      AcceptedRowsComplete(init, col, p, i);
    } else {
      assert LineRows(last, col, p) == [ParseLine(Trim(lines[i]), col, p).value];
    }
  }

  /** A header lacking the date or the model column yields no records at all. */
  lemma {:induction false} MissingKeyColumnDropsAll(lines: seq<string>, col: ColumnMap, p: Parsers)
    requires col.created == -1 || col.model == -1
    ensures AcceptedRows(lines, col, p) == []
  {
    if lines != [] {
      MissingKeyColumnDropsAll(lines[..|lines| - 1], col, p);
      MissingKeyColumnRejects(Trim(lines[|lines| - 1]), col, p);
    }
  }

  /** The distinct models of a sequence of records. */
  function ModelSet(rows: seq<Row>): (ms: set<string>)
    ensures forall m :: m in ms <==> exists r :: r in rows && r.model == m
  {
    set r | r in rows :: r.model
  }

  // ---------------------------------------------------------------------
  // Sorting by date: `rows.sort((a, b) => a.date - b.date)`, a stable sort
  // ---------------------------------------------------------------------

  predicate SortedByDate(rows: seq<Row>) {
    forall i, j :: 0 <= i < j < |rows| ==> AtOrBefore(rows[i].date, rows[j].date)
  }

  /** In date-sorted records every record is at or before the last one. */
  lemma SortedLast(s: seq<Row>)
    requires SortedByDate(s) && s != []
    ensures forall e :: e in s ==> AtOrBefore(e.date, s[|s| - 1].date)
  {
    forall e | e in s ensures AtOrBefore(e.date, s[|s| - 1].date) {
      var i :| 0 <= i < |s| && s[i] == e;
      if i < |s| - 1 {
        assert AtOrBefore(s[i].date, s[|s| - 1].date);
      }
    }
  }

  /** Appending a record no earlier than every other keeps the records sorted. */
  lemma SortedSnoc(s: seq<Row>, y: Row)
    requires SortedByDate(s)
    requires forall e :: e in s ==> AtOrBefore(e.date, y.date)
    ensures SortedByDate(s + [y])
  {
    forall i, j | 0 <= i < j < |s| + 1 ensures AtOrBefore((s + [y])[i].date, (s + [y])[j].date) {
      if j == |s| {
        assert s[i] in s;
      } else {
        assert (s + [y])[i] == s[i] && (s + [y])[j] == s[j];
      }
    }
  }

  /** Places `x` after every record not later than it (so after its equals). */
  function InsertByDate(s: seq<Row>, x: Row): (r: seq<Row>)
    requires SortedByDate(s)
    ensures SortedByDate(r)
    ensures multiset(r) == multiset(s) + multiset{x}
  {
    if s == [] then [x]
    else
      var front, last := s[..|s| - 1], s[|s| - 1];
      assert s == front + [last];
      SortedLast(s);
      if AtOrBefore(last.date, x.date) then
        SortedSnoc(s, x);
        s + [x]
      else
        BeforeTotal(x.date, last.date);
        var init := InsertByDate(front, x);
        assert forall e :: e in init ==> AtOrBefore(e.date, last.date) by {
          forall e | e in init ensures AtOrBefore(e.date, last.date) {
            assert e in multiset(init);
          }
        }
        SortedSnoc(init, last);
        init + [last]
  }

  /** The load's sort: stable insertion, one record at a time, in their original order. */
  function SortByDate(rows: seq<Row>): (r: seq<Row>)
    ensures SortedByDate(r)
    ensures multiset(r) == multiset(rows)
  {
    if rows == [] then []
    else
      assert rows == rows[..|rows| - 1] + [rows[|rows| - 1]];
      InsertByDate(SortByDate(rows[..|rows| - 1]), rows[|rows| - 1])
  }

  // Stability: records with the same date leave the sort in the order they
  // came in.

  /** The records dated exactly `d`, in their order. */
  function OnDate(rows: seq<Row>, d: Timestamp): (r: seq<Row>)
    ensures |r| <= |rows|
    ensures forall e :: e in r ==> e in rows && e.date == d
  {
    if rows == [] then []
    else
      var last := rows[|rows| - 1];
      OnDate(rows[..|rows| - 1], d) + (if last.date == d then [last] else [])
  }

  /** Inserting `x` appends it after the records that share its date and leaves every other date's records as they were. */
  lemma {:induction false} InsertStable(s: seq<Row>, x: Row, d: Timestamp)
    requires SortedByDate(s)
    ensures OnDate(InsertByDate(s, x), d) == OnDate(s, d) + (if x.date == d then [x] else [])
  {
    if s == [] || AtOrBefore(s[|s| - 1].date, x.date) {
      InsertAtEnd(s, x);
      OnDateSnoc(s, x, d);
    } else {
      var front, last := s[..|s| - 1], s[|s| - 1];
      InsertBeforeLast(s, x);
      var inserted := InsertByDate(front, x);
      var here: seq<Row> := if x.date == d then [x] else [];
      var there: seq<Row> := if last.date == d then [last] else [];
      OnDateSnoc(inserted, last, d);
      OnDateSnoc(front, last, d);
      InsertStable(front, x, d);
      assert here == [] || there == [] by {
        assert x.date != last.date;
      }
      AppendSwap(OnDate(front, d), here, there);
    }
  }

  lemma InsertAtEnd(s: seq<Row>, x: Row)
    requires SortedByDate(s)
    requires s == [] || AtOrBefore(s[|s| - 1].date, x.date)
    ensures InsertByDate(s, x) == s + [x]
  {
  }

  lemma InsertBeforeLast(s: seq<Row>, x: Row)
    requires SortedByDate(s) && s != []
    requires !AtOrBefore(s[|s| - 1].date, x.date)
    ensures SortedByDate(s[..|s| - 1])
    ensures s == s[..|s| - 1] + [s[|s| - 1]]
    ensures Before(x.date, s[|s| - 1].date)
    ensures InsertByDate(s, x) == InsertByDate(s[..|s| - 1], x) + [s[|s| - 1]]
  {
  }

  lemma OnDateSnoc(t: seq<Row>, y: Row, d: Timestamp)
    ensures OnDate(t + [y], d) == OnDate(t, d) + (if y.date == d then [y] else [])
  {
    assert (t + [y])[..|t|] == t;
  }

  /** The sort keeps, for every date, the records of that date in their original order. */
  lemma {:induction false} SortByDateStable(rows: seq<Row>, d: Timestamp)
    ensures OnDate(SortByDate(rows), d) == OnDate(rows, d)
  {
    if rows != [] {
      var init, last := rows[..|rows| - 1], rows[|rows| - 1];
      SortByDateStable(init, d);
      InsertStable(SortByDate(init), last, d);
    }
  }
}
