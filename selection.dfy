/**
 * The selection state of the viewer: the file map built when files are
 * chosen, the per-file, per-sheet inclusion flags, the checkbox toggle and
 * the "anything selected?" predicate that gates processing.
 */
module Selection {
  import opened Options
  import opened Workbook

  /**
   * One file handed over by the file picker: its name and what decoding its
   * bytes gives, None when the decoder throws on them.
   */
  datatype Upload = Upload(name: string, decoded: Option<seq<Sheet>>)

  /** One entry of the file map: a file name and its sheets in workbook order. */
  datatype FileEntry = FileEntry(name: string, sheets: seq<Sheet>)

  /** File name to (sheet name to inclusion flag). */
  type CheckedSheets = map<string, map<string, bool>>

  /** The state a file selection produces: the file map, in insertion order, and the flags. */
  datatype Session = Session(files: seq<FileEntry>, checked: CheckedSheets)

  /** `checkedSheets[fileName]?.[sheetName]`: a missing file or sheet reads as unchecked. */
  predicate Flag(checked: CheckedSheets, fileName: string, sheetName: string)
  {
    fileName in checked && sheetName in checked[fileName] && checked[fileName][sheetName]
  }

  /** The gating predicate: some file has some flag that is true. */
  predicate AnyChecked(checked: CheckedSheets)
  {
    exists fileName :: fileName in checked && true in checked[fileName].Values
  }

  /** The gating predicate holds exactly when some (file, sheet) flag is set. */
  lemma AnyCheckedIff(checked: CheckedSheets)
    ensures AnyChecked(checked) <==> exists f, s :: Flag(checked, f, s)
  {
    if AnyChecked(checked) {
      var f :| f in checked && true in checked[f].Values;
      var s :| s in checked[f] && checked[f][s];
      assert Flag(checked, f, s);
    }
  }

  /**
   * The checkbox handler: a new map in which the one flag is negated, a
   * missing sheet reading as unchecked; None when the file has no entry at
   * all, where reading its sheet throws.
   */
  function Toggle(checked: CheckedSheets, fileName: string, sheetName: string): Option<CheckedSheets>
  {
    if fileName !in checked then None
    else Some(checked[fileName := checked[fileName][sheetName := !Flag(checked, fileName, sheetName)]])
  }

  /**
   * Toggling flips exactly the one flag and leaves every other flag, every
   * other file's map and the set of files as they were; it fails only for a
   * file without an entry.
   */
  lemma ToggleFlips(checked: CheckedSheets, fileName: string, sheetName: string)
    ensures Toggle(checked, fileName, sheetName).None? <==> fileName !in checked
    ensures Toggle(checked, fileName, sheetName).Some? ==>
              var c := Toggle(checked, fileName, sheetName).value;
              && Flag(c, fileName, sheetName) == !Flag(checked, fileName, sheetName)
              && (forall f, s :: (f, s) != (fileName, sheetName) ==> Flag(c, f, s) == Flag(checked, f, s))
              && c.Keys == checked.Keys
              && c[fileName].Keys == checked[fileName].Keys + {sheetName}
              && (forall f :: f in checked && f != fileName ==> c[f] == checked[f])
  {
  }

  /**
   * Toggling twice restores every flag; when the sheet already had an entry
   * it restores the map itself.
   */
  lemma ToggleTwice(checked: CheckedSheets, fileName: string, sheetName: string)
    requires fileName in checked
    ensures Toggle(checked, fileName, sheetName).Some?
    ensures var once := Toggle(checked, fileName, sheetName).value;
            && Toggle(once, fileName, sheetName).Some?
            && var twice := Toggle(once, fileName, sheetName).value;
               && (forall f, s :: Flag(twice, f, s) == Flag(checked, f, s))
               && (sheetName in checked[fileName] ==> twice == checked)
  {
    var once := Toggle(checked, fileName, sheetName).value;
    var twice := Toggle(once, fileName, sheetName).value;
    ToggleFlips(checked, fileName, sheetName);
    ToggleFlips(once, fileName, sheetName);
    if sheetName in checked[fileName] {
      assert twice[fileName] == checked[fileName];
      assert twice == checked;
    }
  }

  /** The names of a workbook's sheets, as a set. */
  function SheetNameSet(sheets: seq<Sheet>): set<string>
  {
    set sh | sh in sheets :: sh.name
  }

  /** The flags of a freshly decoded workbook: one per sheet name, all false. */
  function Unchecked(sheets: seq<Sheet>): map<string, bool>
  {
    map n | n in SheetNameSet(sheets) :: false
  }

  /**
   * The `forEach` that fills a file's flags: every sheet name of the
   * workbook, in order, set to false.
   */
  method UncheckAll(sheets: seq<Sheet>) returns (flags: map<string, bool>)
    ensures flags == Unchecked(sheets)
  {
    flags := map[];
    var j := 0;
    while j < |sheets|
      invariant j <= |sheets|
      invariant flags == Unchecked(sheets[..j])
    {
      assert SheetNameSet(sheets[..j + 1]) == SheetNameSet(sheets[..j]) + {sheets[j].name} by {
        assert sheets[..j + 1] == sheets[..j] + [sheets[j]];
      }
      flags := flags[sheets[j].name := false];
      j := j + 1;
    }
    assert sheets[..j] == sheets;
  }

  /** The names of the file map's entries, as a set. */
  function FileNameSet(files: seq<FileEntry>): set<string>
  {
    set e | e in files :: e.name
  }

  /** No two entries of the file map share a name. */
  predicate UniqueNames(files: seq<FileEntry>)
  {
    forall i, j :: 0 <= i < j < |files| ==> files[i].name != files[j].name
  }

  /** The index of the entry with the given name, if there is one. */
  function FindFile(files: seq<FileEntry>, name: string): (r: Option<nat>)
    ensures r.Some? ==> r.value < |files| && files[r.value].name == name
    ensures r.None? <==> name !in FileNameSet(files)
  {
    if files == [] then None
    else if files[0].name == name then Some(0)
    else match FindFile(files[1..], name)
      case None => (assert FileNameSet(files) == {files[0].name} + FileNameSet(files[1..]) by {
                      assert files == [files[0]] + files[1..];
                    }
                    None)
      case Some(i) => Some(i + 1)
  }

  /**
   * `map[file.name] = ...` on an object: an existing key keeps its position
   * and takes the new value, a new key is added at the end.
   */
  function PutFile(files: seq<FileEntry>, entry: FileEntry): seq<FileEntry>
  {
    match FindFile(files, entry.name)
    case Some(i) => files[i := entry]
    case None => files + [entry]
  }

  /**
   * Putting an entry adds it, keeps every entry with another name in its
   * place, and drops only the entry it replaces.
   */
  lemma PutFileEntries(files: seq<FileEntry>, entry: FileEntry)
    requires UniqueNames(files)
    ensures entry in PutFile(files, entry)
    ensures forall i :: 0 <= i < |files| && files[i].name != entry.name ==> PutFile(files, entry)[i] == files[i]
    ensures forall e :: e in PutFile(files, entry) ==> e == entry || (e in files && e.name != entry.name)
  {
    var r := PutFile(files, entry);
    match FindFile(files, entry.name)
    case Some(i) =>
      assert r[i] == entry;
      forall e | e in r
        ensures e == entry || (e in files && e.name != entry.name)
      {
        var k :| 0 <= k < |r| && r[k] == e;
        if k != i {
          assert r[k] == files[k];
          assert files[k].name != files[i].name by {
            if k < i {
              assert files[k].name != files[i].name;
            } else {
              assert files[i].name != files[k].name;
            }
          }
        }
      }
    case None =>
      assert r[|files|] == entry;
  }

  /** Putting an entry adds its name to the names and every other name stays. */
  lemma PutFileNames(files: seq<FileEntry>, entry: FileEntry)
    requires UniqueNames(files)
    ensures FileNameSet(PutFile(files, entry)) == FileNameSet(files) + {entry.name}
  {
    var r := PutFile(files, entry);
    PutFileEntries(files, entry);
    forall e | e in FileNameSet(files)
      ensures e in FileNameSet(r)
    {
      var x :| x in files && x.name == e;
      var k :| 0 <= k < |files| && files[k] == x;
      if e != entry.name {
        assert r[k] == x;
      }
    }
  }

  /** Putting an entry keeps names unique and grows the map only for a new name. */
  lemma PutFileUnique(files: seq<FileEntry>, entry: FileEntry)
    requires UniqueNames(files)
    ensures UniqueNames(PutFile(files, entry))
    ensures |PutFile(files, entry)| == if entry.name in FileNameSet(files) then |files| else |files| + 1
  {
    var r := PutFile(files, entry);
    match FindFile(files, entry.name)
    case Some(i) =>
      forall a, b | 0 <= a < b < |r|
        ensures r[a].name != r[b].name
      {
        if a != i && b != i {
          assert r[a] == files[a] && r[b] == files[b];
        } else if a == i {
          assert r[b] == files[b] && files[i].name == entry.name;
        } else {
          assert r[a] == files[a] && files[i].name == entry.name;
        }
      }
    case None =>
      forall a, b | 0 <= a < b < |r|
        ensures r[a].name != r[b].name
      {
        if b == |files| {
          assert files[a] in files;
        }
      }
  }

  /**
   * What the file-selection handler builds: one entry per file name, the
   * later of two same-named files winning, and every sheet's flag false;
   * None as soon as one file fails to decode.
   */
  function Loaded(uploads: seq<Upload>): Option<Session>
  {
    if uploads == [] then Some(Session([], map[]))
    else
      var u := uploads[|uploads| - 1];
      match Loaded(uploads[..|uploads| - 1])
      case None => None
      case Some(s) =>
        match u.decoded
        case None => None
        case Some(sheets) =>
          Some(Session(PutFile(s.files, FileEntry(u.name, sheets)), s.checked[u.name := Unchecked(sheets)]))
  }

  /** Once a prefix of the batch has failed, the whole batch fails. */
  lemma {:induction false} LoadedFailureSticks(uploads: seq<Upload>, n: nat)
    requires n <= |uploads| && Loaded(uploads[..n]).None?
    ensures Loaded(uploads).None?
    decreases |uploads| - n
  {
    if n < |uploads| {
      assert uploads[..n + 1][..n] == uploads[..n];
      LoadedFailureSticks(uploads, n + 1);
    } else {
      assert uploads[..n] == uploads;
    }
  }

  /**
   * The loop of the file-selection handler: each file decoded in turn, its
   * entry put into the file map and its flags filled in; the first decode
   * failure abandons the batch.
   */
  method LoadFiles(uploads: seq<Upload>) returns (res: Option<Session>)
    ensures res == Loaded(uploads)
  {
    var files: seq<FileEntry> := [];
    var checked: CheckedSheets := map[];
    var n := 0;
    while n < |uploads|
      invariant n <= |uploads|
      invariant Loaded(uploads[..n]) == Some(Session(files, checked))
    {
      var u := uploads[n];
      assert uploads[..n + 1][..n] == uploads[..n] && uploads[..n + 1][n] == u;
      if u.decoded.None? {
        LoadedFailureSticks(uploads, n + 1);
        return None;
      }
      var sheets := u.decoded.value;
      files := PutFile(files, FileEntry(u.name, sheets));
      var flags := UncheckAll(sheets);
      checked := checked[u.name := flags];
      n := n + 1;
    }
    assert uploads[..n] == uploads;
    return Some(Session(files, checked));
  }

  /** A batch load fails exactly when some file of the batch fails to decode. */
  lemma {:induction false} LoadedNoneIff(uploads: seq<Upload>)
    ensures Loaded(uploads).None? <==> exists i :: 0 <= i < |uploads| && uploads[i].decoded.None?
  {
    if uploads != [] {
      var prefix := uploads[..|uploads| - 1];
      LoadedNoneIff(prefix);
      if exists i :: 0 <= i < |prefix| && prefix[i].decoded.None? {
        var i :| 0 <= i < |prefix| && prefix[i].decoded.None?;
        assert uploads[i] == prefix[i];
      }
      if exists i :: 0 <= i < |uploads| && uploads[i].decoded.None? {
        var i :| 0 <= i < |uploads| && uploads[i].decoded.None?;
        if i < |prefix| {
          assert prefix[i] == uploads[i];
        }
      }
    }
  }

  /** The names of a batch of uploads, as a set. */
  function UploadNames(uploads: seq<Upload>): set<string>
  {
    set u | u in uploads :: u.name
  }

  /** The last upload of the batch with the given name, if any. */
  function LastWith(uploads: seq<Upload>, name: string): Option<Upload>
  {
    if uploads == [] then None
    else if uploads[|uploads| - 1].name == name then Some(uploads[|uploads| - 1])
    else LastWith(uploads[..|uploads| - 1], name)
  }

  /**
   * The invariant of the selection state: entry names are unique, the flag
   * map has exactly one entry per file, and every sheet of a file has a flag.
   */
  predicate WellFormed(s: Session)
  {
    && UniqueNames(s.files)
    && s.checked.Keys == FileNameSet(s.files)
    && forall e :: e in s.files ==> SheetNameSet(e.sheets) <= s.checked[e.name].Keys
  }

  /**
   * After a successful load each entry holds the sheets of the last file
   * chosen under its name, and all of that entry's flags are false.
   */
  lemma {:induction false} LoadedEntries(uploads: seq<Upload>)
    requires Loaded(uploads).Some?
    ensures forall e :: e in Loaded(uploads).value.files ==>
              && LastWith(uploads, e.name) == Some(Upload(e.name, Some(e.sheets)))
              && e.name in Loaded(uploads).value.checked
              && Loaded(uploads).value.checked[e.name] == Unchecked(e.sheets)
  {
    if uploads != [] {
      var prefix := uploads[..|uploads| - 1];
      var u := uploads[|uploads| - 1];
      LoadedEntries(prefix);
      LoadedUnique(prefix);
      var s := Loaded(prefix).value;
      var entry := FileEntry(u.name, u.decoded.value);
      PutFileEntries(s.files, entry);
    }
  }

  /** After a successful load no two entries share a name. */
  lemma {:induction false} LoadedUnique(uploads: seq<Upload>)
    requires Loaded(uploads).Some?
    ensures UniqueNames(Loaded(uploads).value.files)
  {
    if uploads != [] {
      var prefix := uploads[..|uploads| - 1];
      var u := uploads[|uploads| - 1];
      LoadedUnique(prefix);
      PutFileUnique(Loaded(prefix).value.files, FileEntry(u.name, u.decoded.value));
    }
  }

  /** The last upload of a non-empty batch adds its name to the names of the rest. */
  lemma UploadNamesSnoc(uploads: seq<Upload>)
    requires uploads != []
    ensures UploadNames(uploads) == UploadNames(uploads[..|uploads| - 1]) + {uploads[|uploads| - 1].name}
  {
    assert uploads == uploads[..|uploads| - 1] + [uploads[|uploads| - 1]];
  }

  /** After a successful load there is one entry per distinct file name of the batch. */
  lemma {:induction false} LoadedFileNames(uploads: seq<Upload>)
    requires Loaded(uploads).Some?
    ensures FileNameSet(Loaded(uploads).value.files) == UploadNames(uploads)
  {
    if uploads != [] {
      var prefix := uploads[..|uploads| - 1];
      var u := uploads[|uploads| - 1];
      LoadedFileNames(prefix);
      LoadedUnique(prefix);
      PutFileNames(Loaded(prefix).value.files, FileEntry(u.name, u.decoded.value));
      UploadNamesSnoc(uploads);
    }
  }

  /** After a successful load there is one flag map per distinct file name of the batch. */
  lemma {:induction false} LoadedCheckedKeys(uploads: seq<Upload>)
    requires Loaded(uploads).Some?
    ensures Loaded(uploads).value.checked.Keys == UploadNames(uploads)
  {
    if uploads != [] {
      LoadedCheckedKeys(uploads[..|uploads| - 1]);
      UploadNamesSnoc(uploads);
    }
  }

  /** A successful load yields a well-formed selection state. */
  lemma LoadedWellFormed(uploads: seq<Upload>)
    requires Loaded(uploads).Some?
    ensures WellFormed(Loaded(uploads).value)
  {
    LoadedUnique(uploads);
    LoadedFileNames(uploads);
    LoadedCheckedKeys(uploads);
    LoadedEntries(uploads);
  }

  /** Right after a load nothing is checked, so processing is disabled. */
  lemma LoadedNothingChecked(uploads: seq<Upload>)
    requires Loaded(uploads).Some?
    ensures forall f, s :: !Flag(Loaded(uploads).value.checked, f, s)
    ensures !AnyChecked(Loaded(uploads).value.checked)
  {
    var c := Loaded(uploads).value.checked;
    LoadedFileNames(uploads);
    LoadedCheckedKeys(uploads);
    LoadedEntries(uploads);
    forall f, s
      ensures !Flag(c, f, s)
    {
      if f in c {
        assert f in FileNameSet(Loaded(uploads).value.files);
        var e :| e in Loaded(uploads).value.files && e.name == f;
        assert c[f] == Unchecked(e.sheets);
      }
    }
    AnyCheckedIff(c);
  }

  /** The names of the file map's entries, in map order: the order `for...in` visits them. */
  function EntryNames(files: seq<FileEntry>): seq<string>
  {
    seq(|files|, i requires 0 <= i < |files| => files[i].name)
  }

  /**
   * Putting an entry leaves the order of names alone when its name is
   * already there, and appends its name otherwise.
   */
  lemma PutFileOrder(files: seq<FileEntry>, entry: FileEntry)
    ensures EntryNames(PutFile(files, entry)) ==
              if entry.name in FileNameSet(files) then EntryNames(files) else EntryNames(files) + [entry.name]
  {
    match FindFile(files, entry.name)
    case Some(i) =>
      assert EntryNames(files[i := entry]) == EntryNames(files);
    case None =>
      assert EntryNames(files + [entry]) == EntryNames(files) + [entry.name];
  }

  /** The distinct names of a batch, each at the place it first occurs. */
  function FileOrder(uploads: seq<Upload>): seq<string>
  {
    if uploads == [] then []
    else
      var rest := FileOrder(uploads[..|uploads| - 1]);
      var name := uploads[|uploads| - 1].name;
      if name in rest then rest else rest + [name]
  }

  /** The first-occurrence order lists every name of the batch once and nothing else. */
  lemma {:induction false} FileOrderFacts(uploads: seq<Upload>)
    ensures forall x :: x in FileOrder(uploads) <==> x in UploadNames(uploads)
    ensures forall i, j :: 0 <= i < j < |FileOrder(uploads)| ==> FileOrder(uploads)[i] != FileOrder(uploads)[j]
  {
    if uploads != [] {
      FileOrderFacts(uploads[..|uploads| - 1]);
      UploadNamesSnoc(uploads);
    }
  }

  /**
   * After a successful load the entries of the file map are in the order
   * in which their names first occur in the batch.
   */
  lemma {:induction false} LoadedOrder(uploads: seq<Upload>)
    requires Loaded(uploads).Some?
    ensures EntryNames(Loaded(uploads).value.files) == FileOrder(uploads)
  {
    if uploads != [] {
      var prefix := uploads[..|uploads| - 1];
      var u := uploads[|uploads| - 1];
      var files := Loaded(prefix).value.files;
      LoadedOrder(prefix);
      PutFileOrder(files, FileEntry(u.name, u.decoded.value));
      assert u.name in FileNameSet(files) <==> u.name in EntryNames(files) by {
        if u.name in FileNameSet(files) {
          var e :| e in files && e.name == u.name;
          var k :| 0 <= k < |files| && files[k] == e;
          assert EntryNames(files)[k] == u.name;
        }
      }
    }
  }

  /**
   * In a well-formed state the toggle of a sheet of a file in the map never
   * takes the throwing path.
   */
  lemma ToggleDefined(s: Session, fileName: string, sheetName: string)
    requires WellFormed(s) && fileName in FileNameSet(s.files)
    ensures Toggle(s.checked, fileName, sheetName).Some?
  {
  }

  /** A toggle that succeeds keeps the selection state well formed. */
  lemma ToggleWellFormed(s: Session, fileName: string, sheetName: string)
    requires WellFormed(s) && Toggle(s.checked, fileName, sheetName).Some?
    ensures WellFormed(Session(s.files, Toggle(s.checked, fileName, sheetName).value))
  {
    ToggleFlips(s.checked, fileName, sheetName);
  }
}
