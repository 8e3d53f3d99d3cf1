/**
 * The processing handler: every file of the file map in order, every sheet
 * of a file in workbook order, and for each checked sheet the rows of the
 * per-sheet scan pushed onto one accumulated result.
 */
module Processing {
  import opened Workbook
  import opened SheetScan
  import opened SheetFacts
  import opened Selection

  /** What one file contributes: the outputs of its checked sheets, in workbook order. */
  function FileOutput(fileName: string, sheets: seq<Sheet>, checked: CheckedSheets): seq<ProcessedRow>
  {
    if sheets == [] then []
    else
      var sh := sheets[|sheets| - 1];
      if Flag(checked, fileName, sh.name) then FileOutput(fileName, sheets[..|sheets| - 1], checked) + SheetOutput(sh.name, sh.grid)
      else FileOutput(fileName, sheets[..|sheets| - 1], checked)
  }

  /** The processed data: the outputs of all files, in file-map order. */
  function Flatten(files: seq<FileEntry>, checked: CheckedSheets): seq<ProcessedRow>
  {
    if files == [] then []
    else
      var e := files[|files| - 1];
      Flatten(files[..|files| - 1], checked) + FileOutput(e.name, e.sheets, checked)
  }

  /**
   * The file loop of the processing handler: for each file of the file map,
   * in order, the rows of its checked sheets are pushed onto `allData`.
   */
  method ProcessFiles(files: seq<FileEntry>, checked: CheckedSheets) returns (allData: seq<ProcessedRow>)
    ensures allData == Flatten(files, checked)
  {
    allData := [];
    var i := 0;
    while i < |files|
      invariant i <= |files|
      invariant allData == Flatten(files[..i], checked)
    {
      assert files[..i + 1][..i] == files[..i] && files[..i + 1][i] == files[i];
      allData := ProcessFile(allData, files[i], checked);
      i := i + 1;
    }
    assert files[..i] == files;
  }

  /**
   * The sheet loop of the processing handler: for each sheet of one file,
   * in workbook order, whose flag is set, the sheet's rows and separator are
   * pushed onto `allData`.
   */
  method ProcessFile(allData0: seq<ProcessedRow>, entry: FileEntry, checked: CheckedSheets) returns (allData: seq<ProcessedRow>)
    ensures allData == allData0 + FileOutput(entry.name, entry.sheets, checked)
  {
    allData := allData0;
    var j := 0;
    while j < |entry.sheets|
      invariant j <= |entry.sheets|
      invariant allData == allData0 + FileOutput(entry.name, entry.sheets[..j], checked)
    {
      var sheet := entry.sheets[j];
      assert entry.sheets[..j + 1][..j] == entry.sheets[..j] && entry.sheets[..j + 1][j] == sheet;
      if Flag(checked, entry.name, sheet.name) {
        var rows := ScanSheet(sheet.name, sheet.grid);
        assert (allData0 + FileOutput(entry.name, entry.sheets[..j], checked)) + rows
            == allData0 + (FileOutput(entry.name, entry.sheets[..j], checked) + rows);
        allData := allData + rows;
      }
      j := j + 1;
    }
    assert entry.sheets[..j] == entry.sheets;
  }

  /** The sheets of one file are visited in order: the output of a split list is the concatenation. */
  lemma {:induction false} FileOutputAppend(fileName: string, s1: seq<Sheet>, s2: seq<Sheet>, checked: CheckedSheets)
    ensures FileOutput(fileName, s1 + s2, checked) == FileOutput(fileName, s1, checked) + FileOutput(fileName, s2, checked)
    decreases |s2|
  {
    if s2 == [] {
      assert s1 + s2 == s1;
    } else {
      var prefix := s2[..|s2| - 1];
      var sh := s2[|s2| - 1];
      FileOutputAppend(fileName, s1, prefix, checked);
      assert (s1 + s2)[..|s1 + s2| - 1] == s1 + prefix;
      assert (s1 + s2)[|s1 + s2| - 1] == sh;
      if Flag(checked, fileName, sh.name) {
        calc {
          FileOutput(fileName, s1 + s2, checked);
          FileOutput(fileName, s1 + prefix, checked) + SheetOutput(sh.name, sh.grid);
          (FileOutput(fileName, s1, checked) + FileOutput(fileName, prefix, checked)) + SheetOutput(sh.name, sh.grid);
          FileOutput(fileName, s1, checked) + (FileOutput(fileName, prefix, checked) + SheetOutput(sh.name, sh.grid));
        }
      }
    }
  }

  /** Files are visited in file-map order: the output of a split file map is the concatenation. */
  lemma {:induction false} FlattenAppend(f1: seq<FileEntry>, f2: seq<FileEntry>, checked: CheckedSheets)
    ensures Flatten(f1 + f2, checked) == Flatten(f1, checked) + Flatten(f2, checked)
    decreases |f2|
  {
    if f2 == [] {
      assert f1 + f2 == f1;
    } else {
      var prefix := f2[..|f2| - 1];
      var e := f2[|f2| - 1];
      FlattenAppend(f1, prefix, checked);
      assert (f1 + f2)[..|f1 + f2| - 1] == f1 + prefix;
      assert (f1 + f2)[|f1 + f2| - 1] == e;
      calc {
        Flatten(f1 + f2, checked);
        Flatten(f1 + prefix, checked) + FileOutput(e.name, e.sheets, checked);
        (Flatten(f1, checked) + Flatten(prefix, checked)) + FileOutput(e.name, e.sheets, checked);
        Flatten(f1, checked) + (Flatten(prefix, checked) + FileOutput(e.name, e.sheets, checked));
      }
    }
  }

  /** A file with no checked sheet contributes nothing. */
  lemma {:induction false} FileOutputUnchecked(fileName: string, sheets: seq<Sheet>, checked: CheckedSheets)
    requires forall sh :: sh in sheets ==> !Flag(checked, fileName, sh.name)
    ensures FileOutput(fileName, sheets, checked) == []
  {
    if sheets != [] {
      FileOutputUnchecked(fileName, sheets[..|sheets| - 1], checked);
    }
  }

  /** With nothing checked the result is empty. */
  lemma {:induction false} FlattenUnchecked(files: seq<FileEntry>, checked: CheckedSheets)
    requires forall f, s :: !Flag(checked, f, s)
    ensures Flatten(files, checked) == []
  {
    if files != [] {
      FlattenUnchecked(files[..|files| - 1], checked);
      var e := files[|files| - 1];
      FileOutputUnchecked(e.name, e.sheets, checked);
    }
  }

  /** A non-empty result needs some checked sheet: the gating predicate then holds. */
  lemma FlattenNeedsSelection(files: seq<FileEntry>, checked: CheckedSheets)
    ensures !AnyChecked(checked) ==> Flatten(files, checked) == []
    ensures Flatten(files, checked) != [] ==> AnyChecked(checked)
  {
    AnyCheckedIff(checked);
    if !AnyChecked(checked) {
      FlattenUnchecked(files, checked);
    }
  }

  /** Only the flags decide: two flag maps that agree on every flag give the same result. */
  lemma {:induction false} FileOutputFlagsOnly(fileName: string, sheets: seq<Sheet>, c1: CheckedSheets, c2: CheckedSheets)
    requires forall s :: Flag(c1, fileName, s) == Flag(c2, fileName, s)
    ensures FileOutput(fileName, sheets, c1) == FileOutput(fileName, sheets, c2)
  {
    if sheets != [] {
      FileOutputFlagsOnly(fileName, sheets[..|sheets| - 1], c1, c2);
    }
  }

  /** Only the flags decide: two flag maps that agree on every flag give the same result. */
  lemma {:induction false} FlattenFlagsOnly(files: seq<FileEntry>, c1: CheckedSheets, c2: CheckedSheets)
    requires forall f, s :: Flag(c1, f, s) == Flag(c2, f, s)
    ensures Flatten(files, c1) == Flatten(files, c2)
  {
    if files != [] {
      FlattenFlagsOnly(files[..|files| - 1], c1, c2);
      var e := files[|files| - 1];
      FileOutputFlagsOnly(e.name, e.sheets, c1, c2);
    }
  }

  /** A non-empty output of one file ends with a separator. */
  lemma {:induction false} FileOutputEndsWithSeparator(fileName: string, sheets: seq<Sheet>, checked: CheckedSheets)
    ensures FileOutput(fileName, sheets, checked) != [] ==>
              FileOutput(fileName, sheets, checked)[|FileOutput(fileName, sheets, checked)| - 1] == Separator
  {
    if sheets != [] {
      var sh := sheets[|sheets| - 1];
      FileOutputEndsWithSeparator(fileName, sheets[..|sheets| - 1], checked);
      SheetOutputSeparator(sh.name, sh.grid);
    }
  }

  /** The trailing separator is kept: a non-empty result ends with a separator. */
  lemma {:induction false} FlattenEndsWithSeparator(files: seq<FileEntry>, checked: CheckedSheets)
    ensures Flatten(files, checked) != [] ==> Flatten(files, checked)[|Flatten(files, checked)| - 1] == Separator
  {
    if files != [] {
      var e := files[|files| - 1];
      FlattenEndsWithSeparator(files[..|files| - 1], checked);
      FileOutputEndsWithSeparator(e.name, e.sheets, checked);
    }
  }

  /** The checked sheets of one file that emit data, in workbook order. */
  function FileContributors(fileName: string, sheets: seq<Sheet>, checked: CheckedSheets): seq<Sheet>
  {
    if sheets == [] then []
    else
      var sh := sheets[|sheets| - 1];
      var rest := FileContributors(fileName, sheets[..|sheets| - 1], checked);
      if Flag(checked, fileName, sh.name) && SheetBody(sh.name, sh.grid) != [] then rest + [sh] else rest
  }

  /** The checked sheets of all files that emit data, in visiting order. */
  function Contributors(files: seq<FileEntry>, checked: CheckedSheets): seq<Sheet>
  {
    if files == [] then []
    else
      var e := files[|files| - 1];
      Contributors(files[..|files| - 1], checked) + FileContributors(e.name, e.sheets, checked)
  }

  /** One file's output holds one separator per checked sheet of it that emits data. */
  lemma {:induction false} FileOutputSeparators(fileName: string, sheets: seq<Sheet>, checked: CheckedSheets)
    ensures multiset(FileOutput(fileName, sheets, checked))[Separator] == |FileContributors(fileName, sheets, checked)|
  {
    if sheets != [] {
      var sh := sheets[|sheets| - 1];
      var prefix := sheets[..|sheets| - 1];
      FileOutputSeparators(fileName, prefix, checked);
      if Flag(checked, fileName, sh.name) {
        SheetOutputSeparator(sh.name, sh.grid);
        assert multiset(FileOutput(fileName, prefix, checked) + SheetOutput(sh.name, sh.grid))
            == multiset(FileOutput(fileName, prefix, checked)) + multiset(SheetOutput(sh.name, sh.grid));
      }
    }
  }

  /**
   * Separators: the result holds exactly one separator per checked sheet
   * that emits data, and none for any other sheet or for a file.
   */
  lemma {:induction false} FlattenSeparators(files: seq<FileEntry>, checked: CheckedSheets)
    ensures multiset(Flatten(files, checked))[Separator] == |Contributors(files, checked)|
  {
    if files != [] {
      var e := files[|files| - 1];
      var prefix := files[..|files| - 1];
      FlattenSeparators(prefix, checked);
      FileOutputSeparators(e.name, e.sheets, checked);
      assert multiset(Flatten(prefix, checked) + FileOutput(e.name, e.sheets, checked))
          == multiset(Flatten(prefix, checked)) + multiset(FileOutput(e.name, e.sheets, checked));
    }
  }

  /** The row r comes from a checked sheet of the given sheets. */
  predicate FromCheckedSheet(fileName: string, sheets: seq<Sheet>, checked: CheckedSheets, r: ProcessedRow)
  {
    exists sh :: sh in sheets && Flag(checked, fileName, sh.name) && r in SheetBody(sh.name, sh.grid)
  }

  /** Every row of one file's output is a separator or a data row of one of its checked sheets. */
  lemma {:induction false} FileOutputOrigins(fileName: string, sheets: seq<Sheet>, checked: CheckedSheets)
    ensures forall r :: r in FileOutput(fileName, sheets, checked) ==>
              r == Separator || FromCheckedSheet(fileName, sheets, checked, r)
  {
    if sheets != [] {
      var sh := sheets[|sheets| - 1];
      var prefix := sheets[..|sheets| - 1];
      FileOutputOrigins(fileName, prefix, checked);
      forall r | r in FileOutput(fileName, sheets, checked)
        ensures r == Separator || FromCheckedSheet(fileName, sheets, checked, r)
      {
        if r in FileOutput(fileName, prefix, checked) {
          if r != Separator {
            var s :| s in prefix && Flag(checked, fileName, s.name) && r in SheetBody(s.name, s.grid);
            assert s in sheets;
          }
        } else if r != Separator {
          assert r in SheetBody(sh.name, sh.grid);
          assert sh in sheets;
        }
      }
    }
  }

  /**
   * Only checked sheets contribute: every row of the result is a separator
   * or a data row of a checked sheet of some file, carrying that sheet's name.
   */
  lemma {:induction false} FlattenOrigins(files: seq<FileEntry>, checked: CheckedSheets)
    ensures forall r :: r in Flatten(files, checked) ==>
              r == Separator || exists e :: e in files && FromCheckedSheet(e.name, e.sheets, checked, r)
  {
    if files != [] {
      var e := files[|files| - 1];
      var prefix := files[..|files| - 1];
      FlattenOrigins(prefix, checked);
      FileOutputOrigins(e.name, e.sheets, checked);
      forall r | r in Flatten(files, checked)
        ensures r == Separator || exists x :: x in files && FromCheckedSheet(x.name, x.sheets, checked, r)
      {
        if r in Flatten(prefix, checked) {
          if r != Separator {
            var x :| x in prefix && FromCheckedSheet(x.name, x.sheets, checked, r);
            assert x in files;
          }
        } else {
          assert e in files;
        }
      }
    }
  }

  /**
   * Two checked sheets of one file that emit one row each give four rows:
   * each sheet's row followed by its separator.
   */
  lemma TwoSheetScenario(fileName: string, s1: Sheet, s2: Sheet, checked: CheckedSheets)
    requires Flag(checked, fileName, s1.name) && Flag(checked, fileName, s2.name)
    requires |SheetBody(s1.name, s1.grid)| == 1 && |SheetBody(s2.name, s2.grid)| == 1
    ensures Flatten([FileEntry(fileName, [s1, s2])], checked)
            == SheetBody(s1.name, s1.grid) + [Separator] + SheetBody(s2.name, s2.grid) + [Separator]
    ensures |Flatten([FileEntry(fileName, [s1, s2])], checked)| == 4
  {
    var files := [FileEntry(fileName, [s1, s2])];
    assert files[..0] == [];
    assert [s1, s2][..1] == [s1];
    assert [s1][..0] == [];
    assert FileOutput(fileName, [s1], checked) == SheetOutput(s1.name, s1.grid);
    assert FileOutput(fileName, [s1, s2], checked) == SheetOutput(s1.name, s1.grid) + SheetOutput(s2.name, s2.grid);
    assert SheetOutput(s1.name, s1.grid) == SheetBody(s1.name, s1.grid) + [Separator];
    assert SheetOutput(s2.name, s2.grid) == SheetBody(s2.name, s2.grid) + [Separator];
    assert Flatten(files, checked) == FileOutput(fileName, [s1, s2], checked);
  }
}
