/**
 * The list of every registration with its event's title: the same search
 * and removal as one event's list, and an export with a fifth column.
 */
module AllRegistrantsPage {
  import opened Wrappers
  import opened CsvExport
  import opened EventRegistrantsPage

  /** `reg.eventId?.title || 'Unknown'`: a missing event or an empty title reads "Unknown". */
  function EventTitleText(title: Option<string>): (text: string)
    ensures text == "Unknown" <==> title.None? || title.value == "" || title.value == "Unknown"
    ensures text != ""
    ensures title.Some? && title.value != "" ==> text == title.value
  {
    if title.Some? && title.value != "" then title.value else "Unknown"
  }

  const AllHeaders: seq<string> := ["Name", "Email", "Mobile", "Message", "Event Title"]

  /** One row: the per-event row, then the event's title. */
  function TitledRow(r: Registrant): (row: seq<string>)
    ensures |row| == |AllHeaders|
    ensures row[..4] == Row(r)
    ensures row[4] == EventTitleText(r.eventTitle)
  {
    Row(r) + [EventTitleText(r.eventTitle)]
  }

  const AllFileName: string := "all_registrants.csv"

  /** `handleExportCSV`: one titled row per registrant the search shows, in the order shown. */
  function ExportShown(regs: seq<Registrant>, term: string): (e: Export)
    ensures e.fileName == AllFileName && e.headers == AllHeaders
    ensures Rectangular(e)
    ensures |e.rows| == |Filtered(regs, term)|
    ensures forall i :: 0 <= i < |e.rows| ==> e.rows[i] == TitledRow(Filtered(regs, term)[i])
  {
    var shown := Filtered(regs, term);
    Export(AllFileName, AllHeaders, seq(|shown|, i requires 0 <= i < |shown| => TitledRow(shown[i])))
  }

  /** Dropping the title column gives the rows the per-event export writes for the same registrants. */
  lemma TitleColumnIsTheOnlyDifference(regs: seq<Registrant>, term: string, eventId: string)
    ensures |ExportShown(regs, term).rows| == |EventRegistrantsPage.ExportShown(regs, term, eventId).rows|
    ensures forall i :: 0 <= i < |ExportShown(regs, term).rows| ==>
              ExportShown(regs, term).rows[i][..4] == EventRegistrantsPage.ExportShown(regs, term, eventId).rows[i]
  {
  }

  /** "Total Registrants" counts the registrants the search shows. */
  function Total(regs: seq<Registrant>, term: string): (n: nat)
    ensures n <= |regs|
    ensures term == "" ==> n == |regs|
  {
    EmptySearchShowsAll(regs);
    |Filtered(regs, term)|
  }

  /** The two registrants, exported unfiltered with their events' titles. */
  lemma ExportExample()
    ensures ExportShown(
      [Registrant("1", "Alice", "alice@example.com", "1234567890", Some("Excited to join!"), Some("React Workshop")),
       Registrant("2", "Bob", "bob@example.com", "9876543210", Some(""), Some("Cultural Fest"))], "")
      == Export("all_registrants.csv", ["Name", "Email", "Mobile", "Message", "Event Title"],
                [["Alice", "alice@example.com", "1234567890", "Excited to join!", "React Workshop"],
                 ["Bob", "bob@example.com", "9876543210", "", "Cultural Fest"]])
  {
    var regs := [Registrant("1", "Alice", "alice@example.com", "1234567890", Some("Excited to join!"), Some("React Workshop")),
                 Registrant("2", "Bob", "bob@example.com", "9876543210", Some(""), Some("Cultural Fest"))];
    EmptySearchShowsAll(regs);
    assert TitledRow(regs[0]) == ["Alice", "alice@example.com", "1234567890", "Excited to join!", "React Workshop"];
    assert TitledRow(regs[1]) == ["Bob", "bob@example.com", "9876543210", "", "Cultural Fest"];
  }

  /** A registration whose event is gone exports "Unknown" in the title column. */
  lemma ExportUnknownExample()
    ensures ExportShown([Registrant("3", "Sita", "sita@example.com", "9123456780", None, None)], "")
      == Export("all_registrants.csv", ["Name", "Email", "Mobile", "Message", "Event Title"],
                [["Sita", "sita@example.com", "9123456780", "", "Unknown"]])
  {
    var regs := [Registrant("3", "Sita", "sita@example.com", "9123456780", None, None)];
    EmptySearchShowsAll(regs);
    assert TitledRow(regs[0]) == ["Sita", "sita@example.com", "9123456780", "", "Unknown"];
  }
}
