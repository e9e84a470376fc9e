/** What a page hands to `exportToCSV`: the file name, the header row and the data rows. */
module CsvExport {
  datatype Export = Export(fileName: string, headers: seq<string>, rows: seq<seq<string>>)

  /** Every row has as many cells as there are headers. */
  predicate Rectangular(e: Export) {
    forall i :: 0 <= i < |e.rows| ==> |e.rows[i]| == |e.headers|
  }
}
