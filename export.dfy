/**
 * The two download handlers: both do nothing for an empty result and
 * otherwise hand the processed rows, unchanged, to the spreadsheet encoder
 * under a fixed file name.
 */
module Export {
  import opened Options
  import opened SheetScan

  /** How the rows are encoded: a workbook with one named sheet, or delimited text of a MIME type. */
  datatype Format = XlsxBook(sheetName: string) | CsvText(mimeType: string)

  /** One download handed to the host: the file name, the encoding and the rows encoded. */
  datatype Download = Download(fileName: string, format: Format, rows: seq<ProcessedRow>)

  /** The workbook download: nothing for an empty result, else the rows in sheet "ProcessedData" of "processed_data.xlsx". */
  function DownloadXlsx(processedData: seq<ProcessedRow>): (d: Option<Download>)
    ensures d.None? <==> |processedData| == 0
    ensures d.Some? ==> d.value.rows == processedData && d.value.fileName == "processed_data.xlsx"
                        && d.value.format == XlsxBook("ProcessedData")
  {
    if |processedData| == 0 then None
    else Some(Download("processed_data.xlsx", XlsxBook("ProcessedData"), processedData))
  }

  /** The delimited-text download: nothing for an empty result, else the rows as "text/csv" in "processed_data.csv". */
  function DownloadCsv(processedData: seq<ProcessedRow>): (d: Option<Download>)
    ensures d.None? <==> |processedData| == 0
    ensures d.Some? ==> d.value.rows == processedData && d.value.fileName == "processed_data.csv"
                        && d.value.format == CsvText("text/csv")
  {
    if |processedData| == 0 then None
    else Some(Download("processed_data.csv", CsvText("text/csv"), processedData))
  }

  /** Both downloads are offered for the same results, and carry the same rows. */
  lemma DownloadsAgree(processedData: seq<ProcessedRow>)
    ensures DownloadXlsx(processedData).Some? <==> DownloadCsv(processedData).Some?
    ensures DownloadXlsx(processedData).Some? ==> DownloadXlsx(processedData).value.rows == DownloadCsv(processedData).value.rows
  {
  }
}
