/** The admin's feedback panel: search, the hide-verified switch, the counts and the export. */
module AdminFeedbackPage {
  import JsText
  import Seqs
  import opened CsvExport

  /** A feedback item; `createdAt` is its creation time as a time value. */
  datatype Feedback = Feedback(id: string, name: string, rating: int, comment: string, verified: bool, createdAt: int)

  /** The name or the comment contains the term, ignoring case. */
  predicate MatchesSearch(f: Feedback, term: string) {
    || JsText.Includes(JsText.ToLower(f.name), JsText.ToLower(term))
    || JsText.Includes(JsText.ToLower(f.comment), JsText.ToLower(term))
  }

  /** `(!hideVerified || !f.verified) && (name or comment matches)`. */
  predicate Listed(f: Feedback, term: string, hideVerified: bool) {
    (!hideVerified || !f.verified) && MatchesSearch(f, term)
  }

  /** `filteredFeedbacks`. */
  function Filtered(items: seq<Feedback>, term: string, hideVerified: bool): (shown: seq<Feedback>)
    ensures |shown| <= |items|
    ensures Seqs.IsSubsequence(shown, items)
    ensures forall f :: f in shown <==> f in items && Listed(f, term, hideVerified)
  {
    Seqs.Filter(items, f => Listed(f, term, hideVerified))
  }

  predicate Unverified(f: Feedback) {
    !f.verified
  }

  /** Hiding verified items only drops them from what the search shows. */
  lemma HideVerifiedDropsOnlyVerified(items: seq<Feedback>, term: string)
    ensures Filtered(items, term, true) == Seqs.Filter(Filtered(items, term, false), Unverified)
    ensures forall f :: f in Filtered(items, term, true) ==> !f.verified
  {
    Seqs.FilterFilter(items, f => Listed(f, term, false), Unverified, f => Listed(f, term, true));
  }

  /** With the switch off, verification plays no part: what shows is what the search matches. */
  lemma ShowAllIgnoresVerification(items: seq<Feedback>, term: string)
    ensures forall f :: f in Filtered(items, term, false) <==> f in items && MatchesSearch(f, term)
  {
  }

  predicate IsVerified(f: Feedback) {
    f.verified
  }

  /** `feedbacks.filter(f => f.verified).length`. */
  function VerifiedCount(items: seq<Feedback>): (n: nat)
    ensures n <= |items|
  {
    |Seqs.Filter(items, IsVerified)|
  }

  /** `total - verified`. */
  function UnverifiedCount(items: seq<Feedback>): (n: int) {
    |items| - VerifiedCount(items)
  }

  /** The unverified count is the number of unverified items, so the two counts add up to the total. */
  lemma CountsAddUp(items: seq<Feedback>)
    ensures UnverifiedCount(items) == |Seqs.Filter(items, Unverified)|
    ensures VerifiedCount(items) + UnverifiedCount(items) == |items|
    ensures UnverifiedCount(items) >= 0
  {
    Seqs.FilterSplitsLength(items, IsVerified, Unverified);
  }

  const Headers: seq<string> := ["Name", "Rating", "Comment", "Verified", "Date"]

  /** `f.verified ? 'Yes' : 'No'`. */
  function YesNo(b: bool): string {
    if b then "Yes" else "No"
  }

  /** One exported row; `localeDate` stands for `new Date(createdAt).toLocaleString()`. */
  function Row(f: Feedback, localeDate: int -> string): (row: seq<string>)
    ensures |row| == |Headers|
    ensures row[0] == f.name && row[2] == f.comment && row[4] == localeDate(f.createdAt)
    ensures row[3] == "Yes" <==> f.verified
    ensures row[1] == JsText.IntToString(f.rating) && JsText.IsNumericString(row[1])
  {
    var rating := JsText.IntToString(f.rating);
    JsText.IntToStringIsNumeric(f.rating);
    [f.name, rating, f.comment, YesNo(f.verified), localeDate(f.createdAt)]
  }

  /** `handleExport`: every item, whatever the search and the switch, one row each in order. */
  function ExportAll(items: seq<Feedback>, localeDate: int -> string): (e: Export)
    ensures e.fileName == "feedback.csv" && e.headers == Headers
    ensures Rectangular(e)
    ensures |e.rows| == |items|
    ensures forall i :: 0 <= i < |items| ==> e.rows[i] == Row(items[i], localeDate)
  {
    Export("feedback.csv", Headers, seq(|items|, i requires 0 <= i < |items| => Row(items[i], localeDate)))
  }

  /** The export's "Yes" rows are as many as the verified count. */
  lemma {:induction false} ExportedYesIsVerifiedCount(items: seq<Feedback>, localeDate: int -> string)
    ensures |Seqs.Filter(ExportAll(items, localeDate).rows, (row: seq<string>) => |row| > 3 && row[3] == "Yes")| == VerifiedCount(items)
  {
    var yes := (row: seq<string>) => |row| > 3 && row[3] == "Yes";
    var rows := ExportAll(items, localeDate).rows;
    if items != [] {
      ExportedYesIsVerifiedCount(items[1..], localeDate);
      var rest := ExportAll(items[1..], localeDate).rows;
      assert rows[1..] == rest;
      if items[0].verified {
        assert ([items[0]] + Seqs.Filter(items[1..], IsVerified))[1..] == Seqs.Filter(items[1..], IsVerified);
      }
    }
  }
}
