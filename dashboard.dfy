/**
 * The dashboard's shared state and the handlers that update it in place:
 * loading an export, applying and resetting the filters, and the model
 * checkboxes with their "all" and "none" buttons.
 */
module Dashboard {
  import opened Wrappers
  import opened Text
  import opened LocalTime
  import opened Records
  import opened Filters

  /**
   * The load loop: every data line (from the second on) is trimmed, skipped
   * when blank, parsed, and kept when it parses; the models of the kept
   * records are collected as it goes.
   */
  method CollectRows(lines: seq<string>, col: ColumnMap, p: Parsers) returns (rows: seq<Row>, models: set<string>)
    requires |lines| >= 1
    ensures rows == AcceptedRows(lines[1..], col, p)
    ensures models == ModelSet(rows)
  {
    rows, models := [], {};
    var i := 1;
    while i < |lines|
      invariant 1 <= i <= |lines|
      invariant rows == AcceptedRows(lines[1..i], col, p)
      invariant models == ModelsInOrder(rows)
    {
      AcceptedSnoc(lines, i, col, p);
      var line := Trim(lines[i]);
      if line != "" {
        var parsed := ParseLine(line, col, p);
        if parsed.Some? {
          ModelsInOrderSnoc(rows, parsed.value);
          rows := rows + [parsed.value];
          models := models + {parsed.value.model};
        }
      }
      i := i + 1;
    }
    assert lines[1..i] == lines[1..];
    ModelsInOrderSet(rows);
  }

  /** The models of `rows` added one record at a time, as the load loop adds them. */
  function ModelsInOrder(rows: seq<Row>): set<string> {
    if rows == [] then {} else ModelsInOrder(rows[..|rows| - 1]) + {rows[|rows| - 1].model}
  }

  lemma ModelsInOrderSnoc(rows: seq<Row>, r: Row)
    ensures ModelsInOrder(rows + [r]) == ModelsInOrder(rows) + {r.model}
  {
    assert (rows + [r])[..|rows|] == rows;
  }

  lemma {:induction false} ModelsInOrderSet(rows: seq<Row>)
    ensures ModelsInOrder(rows) == ModelSet(rows)
  {
    if rows != [] {
      var init, last := rows[..|rows| - 1], rows[|rows| - 1];
      ModelsInOrderSet(init);
      assert rows == init + [last];
      ModelSetSnoc(init, last);
    }
  }

  /** One more data line adds what that line contributes, at the end. */
  lemma AcceptedSnoc(lines: seq<string>, i: int, col: ColumnMap, p: Parsers)
    requires 1 <= i < |lines|
    ensures AcceptedRows(lines[1..i + 1], col, p) == AcceptedRows(lines[1..i], col, p) + LineRows(lines[i], col, p)
  {
    var ls := lines[1..i + 1];
    assert ls[..|ls| - 1] == lines[1..i] && ls[|ls| - 1] == lines[i];
  }

  lemma ModelSetSnoc(rows: seq<Row>, r: Row)
    ensures ModelSet(rows + [r]) == ModelSet(rows) + {r.model}
  {
    assert r in rows + [r];
    forall x | x in rows ensures x in rows + [x] {}
  }

  class State {
    /** `state.rows`: the records of the last load, sorted by date. */
    var rows: seq<Row>
    /** `state.filtered`: what the table and the charts show. */
    var filtered: seq<Row>
    /** `state.models`: the distinct models of `rows`. */
    var models: set<string>
    /** `state.selectedModels`: the models ticked in the dropdown. */
    var selectedModels: set<string>
    /** The dropdown's checkboxes, in list order, and whether each is ticked. */
    var listed: seq<string>
    var checked: map<string, bool>
    /** The model button's text. */
    var modelCaption: string
    /** The values chosen in the legacy `<select>`, if the page has one. */
    var legacySelected: seq<string>
    /** The text of the `from` and `to` date inputs (`YYYY-MM-DD` or empty). */
    var fromValue: string
    var toValue: string

    /**
     * The dropdown lists exactly the loaded models, the selection lies
     * within them, a box is ticked exactly when its model is selected, and
     * the button counts the selection.
     */
    ghost predicate Consistent()
      reads this
    {
      && checked.Keys == models
      && (forall m :: m in listed <==> m in models)
      && selectedModels <= models
      && (forall m :: m in checked ==> (checked[m] <==> m in selectedModels))
      && modelCaption == ModelButtonCaption(|selectedModels|)
    }

    /** The records `applyFilters` keeps for the current selection and date inputs. */
    function Shown(): seq<Row>
      reads this
    {
      FilterRows(rows, SelectedModels(selectedModels, legacySelected),
                 DateStartInclusive(fromValue), DateEndInclusive(toValue))
    }

    /** The page as it first loads: no data, no filters. */
    constructor ()
      ensures rows == [] && filtered == [] && models == {} && selectedModels == {}
      ensures listed == [] && checked == map[] && legacySelected == []
      ensures fromValue == "" && toValue == "" && modelCaption == "All models"
      ensures Consistent()
    {
      rows, filtered, models, selectedModels := [], [], {}, {};
      listed, checked, legacySelected := [], map[], [];
      fromValue, toValue := "", "";
      modelCaption := ModelButtonCaption(0);
    }

    /**
     * `applyFilters`: with no records nothing is assigned; otherwise
     * `filtered` becomes the records passing the model and date test, in
     * their order.
     */
    method ApplyFilters()
      modifies this
      ensures filtered == if rows == [] then old(filtered) else Shown()
      ensures rows == old(rows) && models == old(models) && selectedModels == old(selectedModels)
      ensures listed == old(listed) && checked == old(checked) && modelCaption == old(modelCaption)
      ensures legacySelected == old(legacySelected) && fromValue == old(fromValue) && toValue == old(toValue)
    {
      if |rows| == 0 {
        return;
      }
      var sel := SelectedModels(selectedModels, legacySelected);
      var from := DateStartInclusive(fromValue);
      var to := DateEndInclusive(toValue);
      filtered := FilterRows(rows, sel, from, to);
    }

    /** `resetFilters`: both dates and both selections cleared, every box unticked, all records shown. */
    method ResetFilters()
      modifies this
      ensures fromValue == "" && toValue == ""
      ensures legacySelected == [] && selectedModels == {} && modelCaption == "All models"
      ensures checked == map m | m in old(checked) :: false
      ensures filtered == rows
      ensures rows == old(rows) && models == old(models) && listed == old(listed)
      ensures old(Consistent()) ==> Consistent()
    {
      fromValue, toValue := "", "";
      legacySelected := [];
      selectedModels := {};
      checked := map m | m in checked :: false;
      modelCaption := ModelButtonCaption(0);
      filtered := rows;
    }

    /**
     * A box's change handler: ticking adds exactly its model to the
     * selection, unticking removes exactly it; then the caption is
     * refreshed and the filters applied.
     */
    method SetChecked(m: string, on: bool)
      requires m in checked
      modifies this
      ensures selectedModels == if on then old(selectedModels) + {m} else old(selectedModels) - {m}
      ensures checked == old(checked)[m := on]
      ensures modelCaption == ModelButtonCaption(|selectedModels|)
      ensures filtered == if rows == [] then old(filtered) else Shown()
      ensures rows == old(rows) && models == old(models) && listed == old(listed)
      ensures legacySelected == old(legacySelected) && fromValue == old(fromValue) && toValue == old(toValue)
      ensures old(Consistent()) ==> Consistent()
    {
      checked := checked[m := on];
      selectedModels := if on then selectedModels + {m} else selectedModels - {m};
      modelCaption := ModelButtonCaption(|selectedModels|);
      ApplyFilters();
    }

    /** "All": every listed model selected and every box ticked, then the filters applied. */
    method SelectAll()
      modifies this
      ensures selectedModels == set m | m in listed
      ensures checked == map m | m in old(checked) :: true
      ensures modelCaption == ModelButtonCaption(|selectedModels|)
      ensures filtered == if rows == [] then old(filtered) else Shown()
      ensures rows == old(rows) && models == old(models) && listed == old(listed)
      ensures legacySelected == old(legacySelected) && fromValue == old(fromValue) && toValue == old(toValue)
      ensures old(Consistent()) ==> Consistent() && selectedModels == models
    {
      selectedModels := set m | m in listed;
      checked := map m | m in checked :: true;
      modelCaption := ModelButtonCaption(|selectedModels|);
      ApplyFilters();
    }

    /** "None": the selection emptied and every box unticked, then the filters applied. */
    method SelectNone()
      modifies this
      ensures selectedModels == {} && modelCaption == "All models"
      ensures checked == map m | m in old(checked) :: false
      ensures filtered == if rows == [] then old(filtered) else Shown()
      ensures rows == old(rows) && models == old(models) && listed == old(listed)
      ensures legacySelected == old(legacySelected) && fromValue == old(fromValue) && toValue == old(toValue)
      ensures old(Consistent()) ==> Consistent()
    {
      selectedModels := {};
      checked := map m | m in checked :: false;
      modelCaption := ModelButtonCaption(0);
      ApplyFilters();
    }

    /**
     * `populateModelFilter(ms)`: one fresh, unticked box per model, in
     * ascending order. The selection itself is left as it is.
     */
    method PopulateModelFilter(ms: set<string>)
      modifies this
      ensures StrictlyAscending(listed) && |listed| == |ms| && (forall m :: m in listed <==> m in ms)
      ensures checked == map m | m in ms :: false
      ensures rows == old(rows) && filtered == old(filtered) && models == old(models)
      ensures selectedModels == old(selectedModels) && modelCaption == old(modelCaption)
      ensures legacySelected == old(legacySelected) && fromValue == old(fromValue) && toValue == old(toValue)
    {
      listed := SortStrings(ms);
      checked := map m | m in ms :: false;
    }

    // The same controls as the filters component builds them: a box or
    // "none" only updates the selection and the caption, "all" does nothing
    // while there are no models, and repopulating keeps the selected models
    // that survive.

    /** The component's box handler: the selection and the caption change, nothing is re-filtered. */
    method ComponentSetChecked(m: string, on: bool)
      requires m in checked
      modifies this
      ensures selectedModels == if on then old(selectedModels) + {m} else old(selectedModels) - {m}
      ensures checked == old(checked)[m := on]
      ensures modelCaption == ModelButtonCaption(|selectedModels|)
      ensures rows == old(rows) && filtered == old(filtered) && models == old(models) && listed == old(listed)
      ensures legacySelected == old(legacySelected) && fromValue == old(fromValue) && toValue == old(toValue)
      ensures old(Consistent()) ==> Consistent()
    {
      checked := checked[m := on];
      selectedModels := if on then selectedModels + {m} else selectedModels - {m};
      modelCaption := ModelButtonCaption(|selectedModels|);
    }

    /** The component's "all": with no models nothing happens; otherwise every model is selected and every box ticked. */
    method ComponentSelectAll()
      modifies this
      ensures old(models) == {} ==> unchanged(this)
      ensures old(models) != {} ==>
        && selectedModels == models
        && checked == (map m | m in old(checked) :: true)
        && modelCaption == ModelButtonCaption(|models|)
      ensures rows == old(rows) && filtered == old(filtered) && models == old(models) && listed == old(listed)
      ensures legacySelected == old(legacySelected) && fromValue == old(fromValue) && toValue == old(toValue)
      ensures old(Consistent()) ==> Consistent()
    {
      if |models| > 0 {
        selectedModels := models;
        checked := map m | m in checked :: true;
        modelCaption := ModelButtonCaption(|selectedModels|);
      }
    }

    /** The component's "none": the selection emptied and every box unticked, nothing re-filtered. */
    method ComponentSelectNone()
      modifies this
      ensures selectedModels == {} && modelCaption == "All models"
      ensures checked == map m | m in old(checked) :: false
      ensures rows == old(rows) && filtered == old(filtered) && models == old(models) && listed == old(listed)
      ensures legacySelected == old(legacySelected) && fromValue == old(fromValue) && toValue == old(toValue)
      ensures old(Consistent()) ==> Consistent()
    {
      selectedModels := {};
      checked := map m | m in checked :: false;
      modelCaption := ModelButtonCaption(0);
    }

    /**
     * The component's `populateModelFilter(ms)`: one box per model in
     * ascending order, the selection cut down to the models in `ms`, each
     * box ticked exactly when its model stays selected, and the caption
     * counting what stays. Given the loaded models, it leaves the state
     * consistent.
     */
    method ComponentPopulateModelFilter(ms: set<string>)
      modifies this
      ensures StrictlyAscending(listed) && |listed| == |ms| && (forall m :: m in listed <==> m in ms)
      ensures selectedModels == old(selectedModels) * ms
      ensures checked == map m | m in ms :: m in selectedModels
      ensures modelCaption == ModelButtonCaption(|selectedModels|)
      ensures rows == old(rows) && filtered == old(filtered) && models == old(models)
      ensures legacySelected == old(legacySelected) && fromValue == old(fromValue) && toValue == old(toValue)
      ensures ms == models ==> Consistent()
    {
      var sorted := SortStrings(ms);
      var kept := PruneSelection(selectedModels, ms);
      var boxes := TickBoxes(sorted, kept);
      TickedBoxes(sorted, ms, kept, boxes);
      listed, selectedModels, checked := sorted, kept, boxes;
      modelCaption := ModelButtonCaption(|kept|);
    }

    /**
     * `parseCSV`: with at least a header and one more line, the records are
     * replaced by the accepted ones sorted by date, the model list rebuilt
     * with every box unticked, every filter cleared and the filters applied;
     * shorter input changes nothing.
     */
    method LoadCsv(text: string, p: Parsers)
      modifies this
      ensures |ExportLines(text)| < 2 ==> unchanged(this)
      ensures |ExportLines(text)| >= 2 ==>
        && rows == LoadedRows(ExportLines(text), p)
        && models == ModelSet(rows)
        && StrictlyAscending(listed) && (forall m :: m in listed <==> m in models)
        && checked == (map m | m in models :: false)
        && selectedModels == {} && legacySelected == [] && fromValue == "" && toValue == ""
        && filtered == (if rows == [] then old(filtered) else rows)
        && Consistent()
    {
      var lines := ExportLines(text);
      if |lines| < 2 {
        return;
      }
      var sorted, ms := ReadExport(lines, p);
      Install(sorted, ms);
      ApplyFilters();
      if rows != [] {
        FilterNoCriteria(rows);
      }
    }

    /** The state right after a load and before its filters apply: new records and models, nothing chosen. */
    method Install(sorted: seq<Row>, ms: set<string>)
      modifies this
      ensures rows == sorted && models == ms && filtered == old(filtered)
      ensures StrictlyAscending(listed) && (forall m :: m in listed <==> m in ms)
      ensures checked == (map m | m in ms :: false)
      ensures selectedModels == {} && legacySelected == [] && fromValue == "" && toValue == ""
      ensures Consistent()
    {
      rows, models := sorted, ms;
      PopulateModelFilter(ms);
      fromValue, toValue := "", "";
      selectedModels := {};
      legacySelected := [];
      modelCaption := ModelButtonCaption(0);
    }
  }

  /** The loop keeping only the selected models that are still loaded. */
  method PruneSelection(selected: set<string>, ms: set<string>) returns (kept: set<string>)
    ensures kept == selected * ms
  {
    kept := {};
    var rest := selected;
    while rest != {}
      invariant rest <= selected
      invariant kept == (selected - rest) * ms
      decreases |rest|
    {
      var s :| s in rest;
      if s in ms {
        kept := kept + {s};
      }
      rest := rest - {s};
    }
  }

  /** The loop over the listed boxes, ticking each exactly when its model is selected. */
  method TickBoxes(listed: seq<string>, selected: set<string>) returns (checked: map<string, bool>)
    ensures checked.Keys == set m | m in listed
    ensures forall m :: m in checked ==> (checked[m] <==> m in selected)
  {
    checked := map[];
    var i := 0;
    while i < |listed|
      invariant 0 <= i <= |listed|
      invariant checked.Keys == set m | m in listed[..i]
      invariant forall m :: m in checked ==> (checked[m] <==> m in selected)
    {
      assert listed[..i + 1] == listed[..i] + [listed[i]];
      checked := checked[listed[i] := listed[i] in selected];
      i := i + 1;
    }
    assert listed[..i] == listed;
  }

  /** Boxes built over a list of exactly the models `ms` form the map from each of them to its tick. */
  lemma TickedBoxes(listed: seq<string>, ms: set<string>, selected: set<string>, checked: map<string, bool>)
    requires forall m :: m in listed <==> m in ms
    requires checked.Keys == set m | m in listed
    requires forall m :: m in checked ==> (checked[m] <==> m in selected)
    ensures checked == map m | m in ms :: m in selected
  {
  }

  /** `csvText.trim().split('\n')`. */
  function ExportLines(text: string): (lines: seq<string>)
    ensures |lines| >= 1
    ensures Join(lines, '\n') == Trim(text)
  {
    JoinSplit(Trim(text), '\n');
    Split(Trim(text), '\n')
  }

  /** The records a load keeps: the accepted data lines under the header's column map, sorted by date. */
  function LoadedRows(lines: seq<string>, p: Parsers): (rows: seq<Row>)
    requires |lines| >= 1
    ensures SortedByDate(rows)
    ensures multiset(rows) == multiset(AcceptedRows(lines[1..], BuildColumnMap(lines[0]), p))
  {
    SortByDate(AcceptedRows(lines[1..], BuildColumnMap(lines[0]), p))
  }

  /** The load's loop followed by its sort: the records kept and their models. */
  method ReadExport(lines: seq<string>, p: Parsers) returns (rows: seq<Row>, models: set<string>)
    requires |lines| >= 1
    ensures rows == LoadedRows(lines, p)
    ensures models == ModelSet(rows)
  {
    var col := BuildColumnMap(lines[0]);
    var accepted, ms := CollectRows(lines, col, p);
    rows := SortByDate(accepted);
    models := ms;
    SortedModels(accepted, rows);
  }

  /** Reordering records does not change their set of models. */
  lemma SortedModels(before: seq<Row>, after: seq<Row>)
    requires multiset(after) == multiset(before)
    ensures ModelSet(after) == ModelSet(before)
  {
    forall r | r in before ensures r in after {
      assert r in multiset(before);
    }
    forall r | r in after ensures r in before {
      assert r in multiset(after);
    }
  }
}
