/**
 * The viewer component as an object: the file map, the inclusion flags and
 * the processed rows are its fields, and each event handler is a method
 * that updates them.
 */
module Viewer {
  import opened Options
  import opened SheetScan
  import opened Selection
  import opened Processing
  import opened Export

  class ExcelViewer {
    /** The chosen files, in insertion order, with their decoded sheets. */
    var fileSheetMap: seq<FileEntry>
    /** File name to (sheet name to inclusion flag). */
    var checkedSheets: CheckedSheets
    /** The rows of the last processing run, or none. */
    var processedData: seq<ProcessedRow>

    /** The selection state is well formed. */
    ghost predicate Valid()
      reads this
    {
      WellFormed(Session(fileSheetMap, checkedSheets))
    }

    /** The component mounts with no files, no flags and no results. */
    constructor ()
      ensures fileSheetMap == [] && checkedSheets == map[] && processedData == []
      ensures Valid()
    {
      fileSheetMap := [];
      checkedSheets := map[];
      processedData := [];
    }

    /**
     * The file input's change handler: no file list changes nothing, a
     * batch with a file that fails to decode changes nothing, and otherwise
     * the file map and the flags are replaced by the loaded batch, every
     * flag false, and the results are cleared.
     */
    method HandleFileSelection(files: Option<seq<Upload>>)
      modifies this
      ensures files.None? || Loaded(files.value).None? ==>
                fileSheetMap == old(fileSheetMap) && checkedSheets == old(checkedSheets)
                && processedData == old(processedData)
      ensures files.Some? && Loaded(files.value).Some? ==>
                && fileSheetMap == Loaded(files.value).value.files
                && checkedSheets == Loaded(files.value).value.checked
                && processedData == []
                && Valid()
                && !AnyChecked(checkedSheets)
    {
      if files.None? {
        return;
      }
      var res := LoadFiles(files.value);
      if res.Some? {
        LoadedWellFormed(files.value);
        LoadedNothingChecked(files.value);
        fileSheetMap := res.value.files;
        checkedSheets := res.value.checked;
        processedData := [];
      }
    }

    /**
     * The checkbox handler: the one flag is flipped; for a file without an
     * entry the update throws and nothing changes.
     */
    method HandleSheetCheckboxChange(fileName: string, sheetName: string)
      modifies this
      ensures Toggle(old(checkedSheets), fileName, sheetName).None? ==> checkedSheets == old(checkedSheets)
      ensures Toggle(old(checkedSheets), fileName, sheetName).Some? ==>
                checkedSheets == Toggle(old(checkedSheets), fileName, sheetName).value
      ensures fileSheetMap == old(fileSheetMap) && processedData == old(processedData)
      ensures old(Valid()) ==> Valid()
      ensures old(Valid()) && fileName in FileNameSet(old(fileSheetMap)) ==>
                checkedSheets == Toggle(old(checkedSheets), fileName, sheetName).value
    {
      if Valid() && fileName in FileNameSet(fileSheetMap) {
        ToggleDefined(Session(fileSheetMap, checkedSheets), fileName, sheetName);
      }
      var next := Toggle(checkedSheets, fileName, sheetName);
      if next.Some? {
        if Valid() {
          ToggleWellFormed(Session(fileSheetMap, checkedSheets), fileName, sheetName);
        }
        checkedSheets := next.value;
      }
    }

    /** The process button's handler: the results become the flattened checked sheets. */
    method HandleProcessFiles()
      modifies this
      ensures processedData == Flatten(fileSheetMap, checkedSheets)
      ensures fileSheetMap == old(fileSheetMap) && checkedSheets == old(checkedSheets)
    {
      processedData := ProcessFiles(fileSheetMap, checkedSheets);
    }

    /** The process button is enabled exactly when nothing is loading and some flag is set. */
    function CanProcess(loading: bool): (enabled: bool)
      reads this
      ensures enabled <==> !loading && exists f, s :: Flag(checkedSheets, f, s)
    {
      AnyCheckedIff(checkedSheets);
      !loading && AnyChecked(checkedSheets)
    }

    /** The workbook download button's handler: nothing for an empty result. */
    method HandleDownloadXlsx() returns (d: Option<Download>)
      ensures d == DownloadXlsx(processedData)
      ensures d.None? <==> processedData == []
    {
      d := DownloadXlsx(processedData);
    }

    /** The delimited-text download button's handler: nothing for an empty result. */
    method HandleDownloadCsv() returns (d: Option<Download>)
      ensures d == DownloadCsv(processedData)
      ensures d.None? <==> processedData == []
    {
      d := DownloadCsv(processedData);
    }
  }
}
