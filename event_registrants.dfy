/** One event's registrant list: search, removal, and the CSV export of what the search shows. */
module EventRegistrantsPage {
  import opened Wrappers
  import JsText
  import Seqs
  import opened CsvExport

  /**
   * A registration as the lists receive it; `eventTitle` is the title of the
   * populated event, which only the list of all registrants loads.
   */
  datatype Registrant = Registrant(
    id: string, name: string, email: string, mobile: string,
    message: Option<string>, eventTitle: Option<string>)

  /** `` `${name} ${email}`.toLowerCase().includes(searchTerm.toLowerCase()) ``. */
  predicate MatchesSearch(r: Registrant, term: string) {
    JsText.Includes(JsText.ToLower(r.name + " " + r.email), JsText.ToLower(term))
  }

  /** `filteredRegistrants`: those the search matches, in order. */
  function Filtered(regs: seq<Registrant>, term: string): (shown: seq<Registrant>)
    ensures |shown| <= |regs|
    ensures Seqs.IsSubsequence(shown, regs)
    ensures forall r :: r in shown <==> r in regs && MatchesSearch(r, term)
  {
    Seqs.Filter(regs, r => MatchesSearch(r, term))
  }

  /** An empty search shows everyone, in order. */
  lemma EmptySearchShowsAll(regs: seq<Registrant>)
    ensures Filtered(regs, "") == regs
  {
    forall r | r in regs
      ensures MatchesSearch(r, "")
    {
      JsText.IncludesEmpty(JsText.ToLower(r.name + " " + r.email));
    }
    Seqs.FilterKeepsAll(regs, r => MatchesSearch(r, ""));
  }

  /** "Showing X of Y": X equals Y exactly when the search matches every registrant. */
  lemma ShowingAllIffEveryoneMatches(regs: seq<Registrant>, term: string)
    ensures |Filtered(regs, term)| == |regs| <==> forall r :: r in regs ==> MatchesSearch(r, term)
  {
    var matches := (r: Registrant) => MatchesSearch(r, term);
    var misses := (r: Registrant) => !MatchesSearch(r, term);
    if forall r :: r in regs ==> MatchesSearch(r, term) {
      Seqs.FilterKeepsAll(regs, matches);
    } else {
      var r :| r in regs && !MatchesSearch(r, term);
      var i :| 0 <= i < |regs| && regs[i] == r;
      Seqs.FilterSplitsLength(regs, matches, misses);
      assert r in Seqs.Filter(regs, misses);
    }
  }

  /** `prev.filter((r) => r._id !== regId)` after a removal the server accepted. */
  function Remove(regs: seq<Registrant>, id: string): (rest: seq<Registrant>)
    ensures Seqs.IsSubsequence(rest, regs)
    ensures forall r :: r in rest <==> r in regs && r.id != id
  {
    Seqs.Filter(regs, (r: Registrant) => r.id != id)
  }

  /** A removal takes out exactly the entries with that id. */
  lemma RemoveTakesOnlyThatId(regs: seq<Registrant>, id: string)
    ensures |Remove(regs, id)| + |Seqs.Filter(regs, (r: Registrant) => r.id == id)| == |regs|
  {
    Seqs.FilterSplitsLength(regs, (r: Registrant) => r.id != id, (r: Registrant) => r.id == id);
  }

  /** Removing an id the list does not hold changes nothing. */
  lemma RemoveUnknownChangesNothing(regs: seq<Registrant>, id: string)
    requires forall r :: r in regs ==> r.id != id
    ensures Remove(regs, id) == regs
  {
    Seqs.FilterKeepsAll(regs, (r: Registrant) => r.id != id);
  }

  /** `message || ''`. */
  function MessageText(m: Option<string>): string {
    if m.Some? then m.value else ""
  }

  const Headers: seq<string> := ["Name", "Email", "Mobile", "Message"]

  /** One CSV row: name, e-mail, mobile and message, an absent message as "". */
  function Row(r: Registrant): (row: seq<string>)
    ensures |row| == |Headers|
    ensures row[0] == r.name && row[1] == r.email && row[2] == r.mobile
    ensures r.message.None? ==> row[3] == ""
    ensures r.message.Some? ==> row[3] == r.message.value
  {
    [r.name, r.email, r.mobile, MessageText(r.message)]
  }

  /** `` `registrants_${eventId}.csv` ``. */
  function FileName(eventId: string): (name: string)
    ensures |name| == |eventId| + 16 && name[12..|name| - 4] == eventId
    ensures name[..12] == "registrants_" && name[|name| - 4..] == ".csv"
  {
    "registrants_" + eventId + ".csv"
  }

  /** `handleExportCSV`: one row per registrant the search shows, in the order shown. */
  function ExportShown(regs: seq<Registrant>, term: string, eventId: string): (e: Export)
    ensures e.fileName == FileName(eventId) && e.headers == Headers
    ensures Rectangular(e)
    ensures |e.rows| == |Filtered(regs, term)|
    ensures forall i :: 0 <= i < |e.rows| ==> e.rows[i] == Row(Filtered(regs, term)[i])
  {
    var shown := Filtered(regs, term);
    Export(FileName(eventId), Headers, seq(|shown|, i requires 0 <= i < |shown| => Row(shown[i])))
  }

  /** Every exported row is a registrant of the list that the search matches. */
  lemma ExportedRowsMatch(regs: seq<Registrant>, term: string, eventId: string, i: int)
    requires 0 <= i < |ExportShown(regs, term, eventId).rows|
    ensures exists r :: r in regs && MatchesSearch(r, term) && ExportShown(regs, term, eventId).rows[i] == Row(r)
  {
    var r := Filtered(regs, term)[i];
    assert r in Filtered(regs, term);
  }

  /** The list's state: the registrants loaded and the search text. */
  datatype State = State(registrants: seq<Registrant>, term: string)

  /** `handleDeleteAll` after the server accepted it: the list is empty. */
  function DeleteAll(s: State): (t: State)
    ensures t.registrants == [] && Filtered(t.registrants, t.term) == []
    ensures t.term == s.term
  {
    s.(registrants := [])
  }

  /** The two registrants of an event, exported unfiltered, as the page writes them. */
  lemma ExportExample()
    ensures ExportShown(
      [Registrant("1", "Alice", "alice@example.com", "1234567890", Some("Excited to join!"), None),
       Registrant("2", "Bob", "bob@example.com", "9876543210", None, None)], "", "event123")
      == Export("registrants_event123.csv", ["Name", "Email", "Mobile", "Message"],
                [["Alice", "alice@example.com", "1234567890", "Excited to join!"],
                 ["Bob", "bob@example.com", "9876543210", ""]])
  {
    var regs := [Registrant("1", "Alice", "alice@example.com", "1234567890", Some("Excited to join!"), None),
                 Registrant("2", "Bob", "bob@example.com", "9876543210", None, None)];
    EmptySearchShowsAll(regs);
  }
}
