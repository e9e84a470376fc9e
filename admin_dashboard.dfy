/** The admin dashboard: seat totals over the loaded events, the seat cell, deletion, and the per-event export. */
module AdminDashboardPage {
  import opened Wrappers
  import JsText
  import Seqs
  import opened CsvExport
  import EventRegistrantsPage

  /** An event row; a missing seat count is `None`. */
  datatype EventRow = EventRow(id: string, title: string, totalSeats: Option<int>, leftSeats: Option<int>)

  /** `n || 0` on a count that may be missing. */
  function OrZero(n: Option<int>): int {
    if n.Some? then n.value else 0
  }

  /** `reduce((sum, ev) => sum + (ev.totalSeats || 0), 0)`. */
  function TotalSeats(events: seq<EventRow>): int {
    if events == [] then 0 else OrZero(events[0].totalSeats) + TotalSeats(events[1..])
  }

  /** `reduce((sum, ev) => sum + (ev.leftSeats || 0), 0)`. */
  function TotalLeftSeats(events: seq<EventRow>): int {
    if events == [] then 0 else OrZero(events[0].leftSeats) + TotalLeftSeats(events[1..])
  }

  /** An event whose counts are present and whose seats left are within its capacity. */
  predicate WellCounted(e: EventRow) {
    e.totalSeats.Some? && e.leftSeats.Some? && 0 <= e.leftSeats.value <= e.totalSeats.value
  }

  /** When every event is well counted, the seats left never exceed the seats in total, and neither is negative. */
  lemma {:induction false} LeftWithinTotal(events: seq<EventRow>)
    requires forall e :: e in events ==> WellCounted(e)
    ensures 0 <= TotalLeftSeats(events) <= TotalSeats(events)
  {
    if events != [] {
      assert events[0] in events;
      LeftWithinTotal(events[1..]);
    }
  }

  /** The totals over a list are the totals of the part a filter keeps plus those of the part it drops. */
  lemma {:induction false} TotalsSplit(events: seq<EventRow>, id: string)
    ensures TotalSeats(events) == TotalSeats(Seqs.Filter(events, (e: EventRow) => e.id != id))
                                + TotalSeats(Seqs.Filter(events, (e: EventRow) => e.id == id))
    ensures TotalLeftSeats(events) == TotalLeftSeats(Seqs.Filter(events, (e: EventRow) => e.id != id))
                                    + TotalLeftSeats(Seqs.Filter(events, (e: EventRow) => e.id == id))
  {
    if events != [] {
      TotalsSplit(events[1..], id);
      var kept := Seqs.Filter(events[1..], (e: EventRow) => e.id != id);
      var dropped := Seqs.Filter(events[1..], (e: EventRow) => e.id == id);
      assert ([events[0]] + kept)[1..] == kept;
      assert ([events[0]] + dropped)[1..] == dropped;
    }
  }

  /** What JSX renders for a count: its digits, or nothing when it is missing. */
  function Shown(n: Option<int>): string {
    if n.Some? then JsText.IntToString(n.value) else ""
  }

  /** `{leftSeats || totalSeats}/{totalSeats}`. */
  function SeatCell(e: EventRow): string {
    var left := if e.leftSeats.Some? && e.leftSeats.value != 0 then e.leftSeats else e.totalSeats;
    Shown(left) + "/" + Shown(e.totalSeats)
  }

  /** A non-zero count of seats left is shown before the capacity; a sold-out event shows its capacity twice. */
  lemma SeatCellShows(e: EventRow)
    ensures e.leftSeats.Some? && e.leftSeats.value != 0 ==> SeatCell(e) == Shown(e.leftSeats) + "/" + Shown(e.totalSeats)
    ensures e.leftSeats == Some(0) ==> SeatCell(e) == Shown(e.totalSeats) + "/" + Shown(e.totalSeats)
  {
  }

  /** Twenty-five seats left of a hundred read "25/100". */
  lemma SeatCellExample()
    ensures SeatCell(EventRow("1", "React Workshop", Some(100), Some(25))) == "25/100"
  {
    assert JsText.NatToString(25) == "25" by {
      assert JsText.NatToString(2) == "2";
    }
    assert JsText.NatToString(100) == "100" by {
      assert JsText.NatToString(1) == "1";
      assert JsText.NatToString(10) == "10";
    }
  }

  /** The dashboard: the events listed and the totals computed when they loaded. */
  datatype State = State(events: seq<EventRow>, totalSeats: int, totalLeftSeats: int)

  /** Loading the events computes both totals. */
  function Load(events: seq<EventRow>): (s: State)
    ensures s.events == events
    ensures s.totalSeats == TotalSeats(events) && s.totalLeftSeats == TotalLeftSeats(events)
  {
    State(events, TotalSeats(events), TotalLeftSeats(events))
  }

  /** `prev.filter((event) => event._id !== id)` after the server deleted the event; the totals stay. */
  function Delete(s: State, id: string): (t: State)
    ensures Seqs.IsSubsequence(t.events, s.events)
    ensures forall e :: e in t.events <==> e in s.events && e.id != id
    ensures t.totalSeats == s.totalSeats && t.totalLeftSeats == s.totalLeftSeats
  {
    s.(events := Seqs.Filter(s.events, (e: EventRow) => e.id != id))
  }

  /** After a delete the totals still count the deleted event's seats. */
  lemma DeletedSeatsStayCounted(events: seq<EventRow>, id: string)
    ensures Delete(Load(events), id).totalSeats
         == TotalSeats(Delete(Load(events), id).events) + TotalSeats(Seqs.Filter(events, (e: EventRow) => e.id == id))
    ensures Delete(Load(events), id).totalLeftSeats
         == TotalLeftSeats(Delete(Load(events), id).events) + TotalLeftSeats(Seqs.Filter(events, (e: EventRow) => e.id == id))
  {
    TotalsSplit(events, id);
  }

  const Headers: seq<string> := ["Name", "Email", "Mobile", "Message"]

  /** `handleExportCSV(eventId)`: the registrations as loaded, the message cell as stored, `None` when there is none. */
  datatype RawExport = RawExport(fileName: string, headers: seq<string>, rows: seq<seq<Option<string>>>)

  function Row(r: EventRegistrantsPage.Registrant): seq<Option<string>> {
    [Some(r.name), Some(r.email), Some(r.mobile), r.message]
  }

  function ExportRegistrations(eventId: string, regs: seq<EventRegistrantsPage.Registrant>): (e: RawExport)
    ensures e.fileName == "registrations_" + eventId + ".csv" && e.headers == Headers
    ensures |e.rows| == |regs|
    ensures forall i :: 0 <= i < |regs| ==> e.rows[i] == Row(regs[i])
  {
    RawExport("registrations_" + eventId + ".csv", Headers, seq(|regs|, i requires 0 <= i < |regs| => Row(regs[i])))
  }

  /**
   * The dashboard's export writes the rows the registrant list exports with
   * an empty search, except that an absent message stays absent instead of
   * becoming "".
   */
  lemma ExportAgreesWithRegistrantList(eventId: string, regs: seq<EventRegistrantsPage.Registrant>)
    ensures |ExportRegistrations(eventId, regs).rows| == |EventRegistrantsPage.ExportShown(regs, "", eventId).rows|
    ensures forall i, j :: 0 <= i < |regs| && 0 <= j < 4 ==>
              EventRegistrantsPage.ExportShown(regs, "", eventId).rows[i][j]
              == ExportRegistrations(eventId, regs).rows[i][j].GetOr("")
  {
    EventRegistrantsPage.EmptySearchShowsAll(regs);
  }
}
