/**
 * The registry of loaded export files behind the drop zone: entries are
 * appended when a file is read, dropped by id, or cleared all at once;
 * only `.csv` names are admitted, and two captions report counts.
 */
module FilesControl {
  import opened Text
  import opened Records

  /** One registered file: its generated id, its name and the records read from it. */
  datatype FileEntry = FileEntry(id: string, name: string, data: seq<Row>)

  /**
   * A file handed to the control. The id (made from the clock and a random
   * suffix) and the records (read by the export parser once the file's
   * text arrives) are supplied with it.
   */
  datatype Upload = Upload(name: string, id: string, rows: seq<Row>)

  /** `name.toLowerCase().endsWith('.csv')`. */
  predicate IsCsvName(name: string) {
    EndsWith(AsciiLower(name), ".csv")
  }

  /** A name passes the gate exactly when its last four characters are a dot and c, s, v in either case. */
  lemma CsvNameChars(name: string)
    ensures IsCsvName(name) <==>
      && |name| >= 4
      && name[|name| - 4] == '.'
      && (name[|name| - 3] == 'c' || name[|name| - 3] == 'C')
      && (name[|name| - 2] == 's' || name[|name| - 2] == 'S')
      && (name[|name| - 1] == 'v' || name[|name| - 1] == 'V')
  {
    var low := AsciiLower(name);
    if |name| >= 4 {
      var n := |name|;
      assert low[n - 4..] == [low[n - 4], low[n - 3], low[n - 2], low[n - 1]];
    }
  }

  // ---------------------------------------------------------------------
  // Captions
  // ---------------------------------------------------------------------

  /** The files-count caption: 'n file' for one file, 'n files' otherwise. */
  function FilesCountCaption(n: nat): (s: string)
    ensures n == 1 ==> s == "1 file"
    ensures n != 1 ==> s == NatToString(n) + " files"
  {
    NatToString(n) + " file" + (if n != 1 then "s" else "")
  }

  /** The files-count caption tells the number of files exactly. */
  lemma FilesCountCaptionInjective(a: nat, b: nat)
    requires FilesCountCaption(a) == FilesCountCaption(b)
    ensures a == b
  {
    var ra := " file" + (if a != 1 then "s" else "");
    var rb := " file" + (if b != 1 then "s" else "");
    assert FilesCountCaption(a) == NatToString(a) + ra;
    assert FilesCountCaption(b) == NatToString(b) + rb;
    CountPrefixInjective(a, ra, b, rb);
  }

  /** `updateDropZoneState`: the drop zone's first line for a count of dropped files. */
  function DropZoneCaption(count: nat): (s: string)
    ensures count == 0 ==> s == "Drop CSV files here"
    ensures count == 1 ==> s == "Add more files"
    ensures count > 1 ==> s == NatToString(count) + " files added"
  {
    if count > 0 then (if count == 1 then "Add more files" else NatToString(count) + " files added")
    else "Drop CSV files here"
  }

  /** Different counts give different drop-zone captions. */
  lemma DropZoneCaptionInjective(a: nat, b: nat)
    requires DropZoneCaption(a) == DropZoneCaption(b)
    ensures a == b
  {
    DropZoneCaptionLead(a);
    DropZoneCaptionLead(b);
    if a > 1 && b > 1 {
      CountPrefixInjective(a, " files added", b, " files added");
    }
  }

  /** Only the caption for more than one file starts with a digit. */
  lemma DropZoneCaptionLead(n: nat)
    ensures IsDigit(DropZoneCaption(n)[0]) <==> n > 1
  {
    if n > 1 {
      assert DropZoneCaption(n)[0] == NatToString(n)[0];
    }
  }

  // ---------------------------------------------------------------------
  // The registry contents
  // ---------------------------------------------------------------------

  /** The entry `addFile` pushes for an upload. */
  function EntryOf(u: Upload): (f: FileEntry)
    ensures f.id == u.id && f.name == u.name && f.data == u.rows
  {
    FileEntry(u.id, u.name, u.rows)
  }

  /** The entries a batch adds: one per `.csv` upload, in the batch's order. */
  function Admitted(batch: seq<Upload>): (fs: seq<FileEntry>)
    ensures |fs| <= |batch|
  {
    if batch == [] then []
    else
      var last := batch[|batch| - 1];
      Admitted(batch[..|batch| - 1]) + (if IsCsvName(last.name) then [EntryOf(last)] else [])
  }

  lemma AdmittedSnoc(batch: seq<Upload>, i: int)
    requires 0 <= i < |batch|
    ensures Admitted(batch[..i + 1]) == Admitted(batch[..i]) + (if IsCsvName(batch[i].name) then [EntryOf(batch[i])] else [])
  {
    assert batch[..i + 1][..i] == batch[..i];
  }

  /** An entry is added exactly for an upload of the batch whose name passes the gate. */
  lemma {:induction false} AdmittedMembers(batch: seq<Upload>)
    ensures forall f :: f in Admitted(batch) <==> exists u :: u in batch && IsCsvName(u.name) && f == EntryOf(u)
  {
    if batch != [] {
      var init, last := batch[..|batch| - 1], batch[|batch| - 1];
      AdmittedMembers(init);
      assert batch == init + [last];
      forall f | f in Admitted(batch) ensures exists u :: u in batch && IsCsvName(u.name) && f == EntryOf(u) {
        if f in Admitted(init) {
          var u :| u in init && IsCsvName(u.name) && f == EntryOf(u);
          assert u in batch;
        } else {
          assert last in batch;
        }
      }
    }
  }

  /** The uploads of a batch whose names pass the gate, in the batch's order. */
  function CsvUploads(batch: seq<Upload>): (us: seq<Upload>)
    ensures forall u :: u in us ==> IsCsvName(u.name)
  {
    if batch == [] then []
    else
      var last := batch[|batch| - 1];
      CsvUploads(batch[..|batch| - 1]) + (if IsCsvName(last.name) then [last] else [])
  }

  /** The entries come in batch order: one per `.csv` upload, taken from a subsequence of the batch. */
  lemma {:induction false} AdmittedOrder(batch: seq<Upload>)
    ensures Subsequence(CsvUploads(batch), batch)
    ensures |Admitted(batch)| == |CsvUploads(batch)|
    ensures forall j :: 0 <= j < |CsvUploads(batch)| ==> Admitted(batch)[j] == EntryOf(CsvUploads(batch)[j])
  {
    if batch != [] {
      var init, last := batch[..|batch| - 1], batch[|batch| - 1];
      AdmittedOrder(init);
      var us := CsvUploads(batch);
      if IsCsvName(last.name) {
        assert us == CsvUploads(init) + [last];
        assert us[..|us| - 1] == CsvUploads(init);
      } else {
        assert us == CsvUploads(init);
        SubsequenceDropLast(us, batch);
      }
    }
  }

  /** Whether `addFile` runs for upload `u` and pushes entry `f`. */
  predicate AddsEntry(u: Upload, f: FileEntry) {
    IsCsvName(u.name) && EntryOf(u) == f
  }

  /** The positions among the first `k` of a batch whose upload adds entry `f`. */
  function Slots(batch: seq<Upload>, k: int, f: FileEntry): set<int>
    requires 0 <= k <= |batch|
  {
    set j | 0 <= j < k && AddsEntry(batch[j], f)
  }

  /** An entry is added as many times as the batch holds a `.csv` upload with that entry. */
  lemma AdmittedCounts(batch: seq<Upload>, f: FileEntry)
    ensures multiset(Admitted(batch))[f] == |Slots(batch, |batch|, f)|
  {
    AdmittedCountsUpTo(batch, |batch|, f);
    assert batch[..|batch|] == batch;
  }

  lemma {:induction false} AdmittedCountsUpTo(batch: seq<Upload>, k: int, f: FileEntry)
    requires 0 <= k <= |batch|
    ensures multiset(Admitted(batch[..k]))[f] == |Slots(batch, k, f)|
  {
    if k > 0 {
      AdmittedCountsUpTo(batch, k - 1, f);
      AdmittedSnoc(batch, k - 1);
      SlotsSnoc(batch, k - 1, f);
    }
  }

  lemma SlotsSnoc(batch: seq<Upload>, k: int, f: FileEntry)
    requires 0 <= k < |batch|
    ensures |Slots(batch, k + 1, f)| == |Slots(batch, k, f)| + (if AddsEntry(batch[k], f) then 1 else 0)
  {
    var extra: set<int> := if AddsEntry(batch[k], f) then {k} else {};
    assert Slots(batch, k + 1, f) == Slots(batch, k, f) + extra;
    assert Slots(batch, k, f) !! extra;
  }

  /** `files.filter(f => f.id !== id)`. */
  function WithoutId(files: seq<FileEntry>, id: string): (r: seq<FileEntry>)
    ensures |r| <= |files|
  {
    if files == [] then []
    else
      var last := files[|files| - 1];
      WithoutId(files[..|files| - 1], id) + (if last.id != id then [last] else [])
  }

  /** Removal drops every entry with that id and keeps every other entry. */
  lemma {:induction false} WithoutIdMembers(files: seq<FileEntry>, id: string)
    ensures forall f :: f in WithoutId(files, id) <==> f in files && f.id != id
  {
    if files != [] {
      var init, last := files[..|files| - 1], files[|files| - 1];
      WithoutIdMembers(init, id);
      assert files == init + [last];
    }
  }

  /** An entry is kept exactly as often as it occurs when its id differs, and never otherwise. */
  lemma {:induction false} WithoutIdCounts(files: seq<FileEntry>, id: string, f: FileEntry)
    ensures multiset(WithoutId(files, id))[f] == if f.id != id then multiset(files)[f] else 0
  {
    if files != [] {
      var init := files[..|files| - 1];
      WithoutIdCounts(init, id, f);
      assert files == init + [files[|files| - 1]];
    }
  }

  /** The entries kept stay in their original order. */
  lemma {:induction false} WithoutIdOrder(files: seq<FileEntry>, id: string)
    ensures Subsequence(WithoutId(files, id), files)
  {
    if files != [] {
      var init, last := files[..|files| - 1], files[|files| - 1];
      WithoutIdOrder(init, id);
      var r := WithoutId(files, id);
      if last.id == id {
        assert r == WithoutId(init, id);
        SubsequenceDropLast(r, files);
      } else {
        assert r == WithoutId(init, id) + [last];
        assert r[..|r| - 1] == WithoutId(init, id);
      }
    }
  }

  /** Removing an id that no entry carries changes nothing. */
  lemma {:induction false} WithoutAbsentId(files: seq<FileEntry>, id: string)
    requires forall f :: f in files ==> f.id != id
    ensures WithoutId(files, id) == files
  {
    if files != [] {
      var init, last := files[..|files| - 1], files[|files| - 1];
      assert files == init + [last];
      assert last in files;
      assert forall f :: f in init ==> f in files;
      WithoutAbsentId(init, id);
    }
  }

  // ---------------------------------------------------------------------
  // The control's state
  // ---------------------------------------------------------------------

  class Registry {
    /** `state.files`. */
    var files: seq<FileEntry>
    /** The files-count label, and the drop zone's first line. */
    var countCaption: string
    var dropCaption: string

    /** The count label always matches the registry. */
    predicate CaptionCurrent()
      reads this
    {
      countCaption == FilesCountCaption(|files|)
    }

    /** The control as `initFilesControl` leaves it, over an empty registry. */
    constructor ()
      ensures files == [] && countCaption == "0 files" && dropCaption == "Drop CSV files here"
      ensures CaptionCurrent()
    {
      files := [];
      countCaption := FilesCountCaption(0);
      dropCaption := DropZoneCaption(0);
    }

    /** `addFile`, once the file is read: exactly one entry appended, the earlier ones untouched. */
    method AddFile(u: Upload)
      modifies this
      ensures files == old(files) + [EntryOf(u)]
      ensures countCaption == FilesCountCaption(|old(files)| + 1)
      ensures dropCaption == old(dropCaption)
    {
      files := files + [EntryOf(u)];
      countCaption := FilesCountCaption(|files|);
    }

    /** A file's remove button: every entry with that id dropped, the drop zone reset once none is left. */
    method RemoveFile(id: string)
      modifies this
      ensures files == WithoutId(old(files), id)
      ensures CaptionCurrent()
      ensures dropCaption == if files == [] then DropZoneCaption(0) else old(dropCaption)
    {
      files := WithoutId(files, id);
      countCaption := FilesCountCaption(|files|);
      if |files| == 0 {
        dropCaption := DropZoneCaption(0);
      }
    }

    /** `clearAllFiles`: the registry emptied and both captions reset. */
    method ClearAllFiles()
      modifies this
      ensures files == []
      ensures countCaption == "0 files" && dropCaption == "Drop CSV files here"
    {
      files := [];
      countCaption := FilesCountCaption(0);
      dropCaption := DropZoneCaption(0);
    }

    /**
     * `handleFiles`: an empty batch is ignored; otherwise each `.csv` upload
     * is added in turn and the drop zone counts the whole batch, names that
     * failed the gate included.
     */
    method HandleFiles(batch: seq<Upload>)
      modifies this
      ensures batch == [] ==> files == old(files) && countCaption == old(countCaption) && dropCaption == old(dropCaption)
      ensures batch != [] ==> files == old(files) + Admitted(batch) && dropCaption == DropZoneCaption(|batch|)
      ensures old(CaptionCurrent()) ==> CaptionCurrent()
    {
      if |batch| == 0 {
        return;
      }
      var i := 0;
      while i < |batch|
        invariant 0 <= i <= |batch|
        invariant files == old(files) + Admitted(batch[..i])
        invariant old(CaptionCurrent()) ==> CaptionCurrent()
      {
        AdmittedSnoc(batch, i);
        if IsCsvName(batch[i].name) {
          AddFile(batch[i]);
        }
        i := i + 1;
      }
      assert batch[..i] == batch;
      dropCaption := DropZoneCaption(|batch|);
    }
  }

  /** Dropping one `.csv` file and one other file registers one entry, yet the drop zone reads '2 files added'. */
  lemma MixedBatchCaption(csv: Upload, other: Upload)
    requires IsCsvName(csv.name) && !IsCsvName(other.name)
    ensures Admitted([csv, other]) == [EntryOf(csv)]
    ensures DropZoneCaption(|[csv, other]|) == "2 files added"
  {
    assert [csv, other][..1] == [csv];
    assert [csv][..0] == [];
  }
}
