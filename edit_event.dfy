/**
 * The admin's edit form for a stored event: it holds the record as loaded,
 * checks it as the new-event form does (the banner optional), and posts every
 * field but the database's own `_id` and `__v`.
 */
module EditEventPage {
  import opened Wrappers
  import JsText
  import Seqs
  import opened Forms
  import AddEventPage

  /** The loaded event object, as its entries in order. */
  type Record = seq<(string, Value)>

  /**
   * `{ ...formData, [name]: value }`: the typed text replaces the field in
   * its place, or is added at the end when the record has none.
   */
  function Change(record: Record, key: string, text: string): (r: Record)
    ensures Field(r, key) == Str(text)
    ensures forall k :: k != key ==> Field(r, k) == Field(record, k)
    ensures |record| <= |r| <= |record| + 1
  {
    if record == [] then [(key, Str(text))]
    else if record[0].0 == key then [(key, Str(text))] + record[1..]
    else
      var rest := Change(record[1..], key, text);
      assert ([record[0]] + rest)[1..] == rest;
      [record[0]] + rest
  }

  /** The four fields checked with `?.trim()` hold text, or nothing; a number there would throw. */
  predicate TextFieldsAreText(record: Record) {
    && !Field(record, "title").Num? && !Field(record, "date").Num?
    && !Field(record, "time").Num? && !Field(record, "location").Num?
  }

  /** `if (!v?.trim()) newErrors[key] = message`: a missing field fails as a blank one does. */
  function TextError(v: Value, message: string): (e: Option<string>)
    requires !v.Num?
    ensures e.None? <==> v.Str? && !JsText.IsBlank(v.s)
    ensures e.Some? ==> e.value == message
  {
    if v.Undefined? then Some(message) else Required(v.s, message)
  }

  /** The banner may stay as it is; a new one must pass the type and size checks. */
  function EditBannerError(banner: Option<File>): (e: Option<string>)
    ensures e.None? <==> banner.None? || AddEventPage.IsBanner(banner.value)
    ensures banner.Some? ==> e == BannerError(banner.value)
  {
    if banner.None? then None else BannerError(banner.value)
  }

  /** `validateForm` on the loaded-and-edited record and the picked banner, if any. */
  function Validate(record: Record, banner: Option<File>): (errors: ErrorMap)
    requires TextFieldsAreText(record)
    ensures errors.Keys <= {"title", "date", "time", "totalSeats", "leftSeats", "location", "banner"}
    ensures "title" in errors <==> TextError(Field(record, "title"), "Title is required").Some?
    ensures "date" in errors <==> TextError(Field(record, "date"), "Date is required").Some?
    ensures "time" in errors <==> TextError(Field(record, "time"), "Time is required").Some?
    ensures "totalSeats" in errors <==> SeatsError(Field(record, "totalSeats"), "Total seats must be a number").Some?
    ensures "leftSeats" in errors <==> SeatsError(Field(record, "leftSeats"), "Left seats must be a number").Some?
    ensures "location" in errors <==> TextError(Field(record, "location"), "Location is required").Some?
    ensures "banner" in errors <==> EditBannerError(banner).Some?
    ensures "banner" in errors ==> Some(errors["banner"]) == EditBannerError(banner)
    ensures "title" in errors ==> errors["title"] == "Title is required"
    ensures "date" in errors ==> errors["date"] == "Date is required"
    ensures "time" in errors ==> errors["time"] == "Time is required"
    ensures "totalSeats" in errors ==> errors["totalSeats"] == "Total seats must be a number"
    ensures "leftSeats" in errors ==> errors["leftSeats"] == "Left seats must be a number"
    ensures "location" in errors ==> errors["location"] == "Location is required"
  {
    AddEventPage.Messages(
      TextError(Field(record, "title"), "Title is required"), TextError(Field(record, "date"), "Date is required"),
      TextError(Field(record, "time"), "Time is required"),
      SeatsError(Field(record, "totalSeats"), "Total seats must be a number"),
      SeatsError(Field(record, "leftSeats"), "Left seats must be a number"),
      TextError(Field(record, "location"), "Location is required"), EditBannerError(banner))
  }

  /** Text present and not blank. */
  predicate IsFilled(v: Value) {
    v.Str? && !JsText.IsBlank(v.s)
  }

  /** A seat count the form accepts: non-empty numeric text, or a non-zero number. */
  predicate IsSeatCount(v: Value) {
    (v.Str? && AddEventPage.IsSeatText(v.s)) || (v.Num? && v.n != 0)
  }

  /** What the form accepts. */
  predicate Acceptable(record: Record, banner: Option<File>) {
    && IsFilled(Field(record, "title")) && IsFilled(Field(record, "date")) && IsFilled(Field(record, "time"))
    && IsSeatCount(Field(record, "totalSeats")) && IsSeatCount(Field(record, "leftSeats"))
    && IsFilled(Field(record, "location"))
    && (banner.None? || AddEventPage.IsBanner(banner.value))
  }

  /** Each field has a message exactly when it fails its rule. */
  lemma ValidateReports(record: Record, banner: Option<File>)
    requires TextFieldsAreText(record)
    ensures "title" in Validate(record, banner) <==> !IsFilled(Field(record, "title"))
    ensures "date" in Validate(record, banner) <==> !IsFilled(Field(record, "date"))
    ensures "time" in Validate(record, banner) <==> !IsFilled(Field(record, "time"))
    ensures "totalSeats" in Validate(record, banner) <==> !IsSeatCount(Field(record, "totalSeats"))
    ensures "leftSeats" in Validate(record, banner) <==> !IsSeatCount(Field(record, "leftSeats"))
    ensures "location" in Validate(record, banner) <==> !IsFilled(Field(record, "location"))
    ensures "banner" in Validate(record, banner) <==> !(banner.None? || AddEventPage.IsBanner(banner.value))
  {
    TextErrorReports(Field(record, "title"), "Title is required");
    TextErrorReports(Field(record, "date"), "Date is required");
    TextErrorReports(Field(record, "time"), "Time is required");
    TextErrorReports(Field(record, "location"), "Location is required");
    SeatsErrorReports(Field(record, "totalSeats"), "Total seats must be a number");
    SeatsErrorReports(Field(record, "leftSeats"), "Left seats must be a number");
  }

  lemma TextErrorReports(v: Value, message: string)
    requires !v.Num?
    ensures TextError(v, message).Some? <==> !IsFilled(v)
  {
  }

  lemma SeatsErrorReports(v: Value, message: string)
    ensures SeatsError(v, message).Some? <==> !IsSeatCount(v)
  {
  }

  lemma ValidateEmptyIffAcceptable(record: Record, banner: Option<File>)
    requires TextFieldsAreText(record)
    ensures |Validate(record, banner)| == 0 <==> Acceptable(record, banner)
  {
    ValidateReports(record, banner);
    var errors := Validate(record, banner);
    AddEventPage.NoMessageIffAllPass(errors, "title" in errors, "date" in errors, "time" in errors,
                                     "totalSeats" in errors, "leftSeats" in errors, "location" in errors,
                                     "banner" in errors);
  }

  /**
   * A sold-out event loads with `leftSeats` 0, which is falsy: the form
   * refuses to save it until the admin types a non-zero count there.
   */
  lemma SoldOutIsRefused(record: Record, banner: Option<File>)
    requires TextFieldsAreText(record)
    requires Field(record, "leftSeats") == Num(0)
    ensures "leftSeats" in Validate(record, banner)
    ensures Validate(record, banner)["leftSeats"] == "Left seats must be a number"
  {
  }

  /** Every entry but `_id` and `__v` is posted. */
  predicate Submitted(entry: (string, Value)) {
    entry.0 != "_id" && entry.0 != "__v"
  }

  /**
   * The body `handleSubmit` posts: the submitted entries as text, then the
   * new banner when one was picked, then `removeBanner` when it was asked for.
   */
  function Payload(record: Record, banner: Option<File>, removeBanner: bool): seq<(string, Part)> {
    Parts(Seqs.Filter(record, Submitted))
    + (if banner.Some? then [("banner", Blob(banner.value))] else [])
    + (if removeBanner then [("removeBanner", Text("true"))] else [])
  }

  /** Building the body: one `append` per submitted entry, then the banner and the removal flag. */
  method BuildPayload(record: Record, banner: Option<File>, removeBanner: bool) returns (parts: seq<(string, Part)>)
    ensures parts == Payload(record, banner, removeBanner)
  {
    parts := SubmittedParts(record);
    if banner.Some? {
      parts := parts + [("banner", Blob(banner.value))];
    }
    if removeBanner {
      parts := parts + [("removeBanner", Text("true"))];
    }
  }

  /** `Object.entries(formData).forEach(...)`: one `append` per entry that is not a database key. */
  method SubmittedParts(record: Record) returns (fields: seq<(string, Part)>)
    ensures fields == Parts(Seqs.Filter(record, Submitted))
  {
    fields := [];
    for i := 0 to |record|
      invariant fields == Parts(Seqs.Filter(record[..i], Submitted))
    {
      var entry := record[i];
      SubmittedPartsStep(record, i);
      if Submitted(entry) {
        fields := fields + [(entry.0, PartOf(entry.1))];
      }
    }
    assert record[..|record|] == record;
  }

  /** One more entry adds its part exactly when it is submitted. */
  lemma SubmittedPartsSnoc(front: Record, entry: (string, Value))
    ensures Parts(Seqs.Filter(front + [entry], Submitted))
         == Parts(Seqs.Filter(front, Submitted)) + (if Submitted(entry) then [(entry.0, PartOf(entry.1))] else [])
  {
    var before := Seqs.Filter(front, Submitted);
    Seqs.FilterSnoc(front, entry, Submitted);
    if Submitted(entry) {
      PartsAppend(before, [entry]);
      assert Parts([entry]) == [(entry.0, PartOf(entry.1))];
    } else {
      assert before + [] == before;
    }
  }

  /** The step of `SubmittedParts`: entry `i` adds its part exactly when it is submitted. */
  lemma SubmittedPartsStep(record: Record, i: nat)
    requires i < |record|
    ensures Parts(Seqs.Filter(record[..i + 1], Submitted))
         == Parts(Seqs.Filter(record[..i], Submitted)) + (if Submitted(record[i]) then [(record[i].0, PartOf(record[i].1))] else [])
  {
    assert record[..i + 1] == record[..i] + [record[i]];
    SubmittedPartsSnoc(record[..i], record[i]);
  }

  /** The database's own keys never reach the server. */
  lemma PayloadOmitsIds(record: Record, banner: Option<File>, removeBanner: bool)
    ensures forall i :: 0 <= i < |Payload(record, banner, removeBanner)| ==>
              Payload(record, banner, removeBanner)[i].0 != "_id" && Payload(record, banner, removeBanner)[i].0 != "__v"
  {
    var kept := Seqs.Filter(record, Submitted);
    assert forall i :: 0 <= i < |kept| ==> Submitted(kept[i]);
  }

  /** The first entry of the record adds its part in front exactly when it is submitted. */
  lemma SubmittedPartsCons(record: Record)
    requires record != []
    ensures Parts(Seqs.Filter(record, Submitted))
         == (if Submitted(record[0]) then [(record[0].0, PartOf(record[0].1))] else []) + Parts(Seqs.Filter(record[1..], Submitted))
  {
    var rest := Seqs.Filter(record[1..], Submitted);
    if Submitted(record[0]) {
      assert Seqs.Filter(record, Submitted) == [record[0]] + rest;
      PartsAppend([record[0]], rest);
    } else {
      assert Seqs.Filter(record, Submitted) == rest;
      assert [] + Parts(rest) == Parts(rest);
    }
  }

  /** Reading a submitted key back from the posted entries gives the record's value for it, as text. */
  lemma {:induction false} SubmittedFieldIsSent(record: Record, key: string)
    requires key != "_id" && key != "__v"
    requires exists i :: 0 <= i < |record| && record[i].0 == key
    ensures Get(Parts(Seqs.Filter(record, Submitted)), key) == Some(PartOf(Field(record, key)))
  {
    SubmittedPartsCons(record);
    var head: seq<(string, Part)> := if Submitted(record[0]) then [(record[0].0, PartOf(record[0].1))] else [];
    var tail := Parts(Seqs.Filter(record[1..], Submitted));
    if record[0].0 == key {
      assert (head + tail)[0] == (key, PartOf(record[0].1));
    } else {
      var i :| 0 <= i < |record| && record[i].0 == key;
      assert record[1..][i - 1].0 == key;
      SubmittedFieldIsSent(record[1..], key);
      GetSkips(head, tail, key);
    }
  }

  /** Every field the record has, but the database's own, reaches the server with its value. */
  lemma PayloadCarriesRecord(record: Record, banner: Option<File>, removeBanner: bool, key: string)
    requires key != "_id" && key != "__v"
    requires exists i :: 0 <= i < |record| && record[i].0 == key
    ensures Get(Payload(record, banner, removeBanner), key) == Some(PartOf(Field(record, key)))
  {
    SubmittedFieldIsSent(record, key);
    var front := Parts(Seqs.Filter(record, Submitted));
    var bannerPart: seq<(string, Part)> := if banner.Some? then [("banner", Blob(banner.value))] else [];
    var removePart: seq<(string, Part)> := if removeBanner then [("removeBanner", Text("true"))] else [];
    GetPrefix(front, bannerPart, key);
    GetPrefix(front + bannerPart, removePart, key);
  }

  /** A picked banner and a removal request reach the server when the record has no fields of those names. */
  lemma PayloadCarriesBanner(record: Record, banner: Option<File>, removeBanner: bool)
    requires forall i :: 0 <= i < |record| ==> record[i].0 != "banner" && record[i].0 != "removeBanner"
    ensures banner.Some? ==> Get(Payload(record, banner, removeBanner), "banner") == Some(Blob(banner.value))
    ensures banner.None? ==> Get(Payload(record, banner, removeBanner), "banner").None?
    ensures removeBanner ==> Get(Payload(record, banner, removeBanner), "removeBanner") == Some(Text("true"))
    ensures !removeBanner ==> Get(Payload(record, banner, removeBanner), "removeBanner").None?
  {
    var kept := Seqs.Filter(record, Submitted);
    var front := Parts(kept);
    assert forall j :: 0 <= j < |kept| ==> kept[j] in record;
    assert forall j :: 0 <= j < |front| ==> front[j].0 != "banner" && front[j].0 != "removeBanner";
    var bannerPart: seq<(string, Part)> := if banner.Some? then [("banner", Blob(banner.value))] else [];
    var removePart: seq<(string, Part)> := if removeBanner then [("removeBanner", Text("true"))] else [];
    assert Payload(record, banner, removeBanner) == front + bannerPart + removePart;
    GetSkips(front, bannerPart + removePart, "banner");
    GetSkips(front + bannerPart, removePart, "removeBanner");
    assert front + bannerPart + removePart == front + (bannerPart + removePart);
  }

  /** The page once the event has loaded. */
  datatype State = State(record: Record, banner: Option<File>, removeBanner: bool, errors: ErrorMap, status: string)

  const SuccessStatus: string := "Event updated successfully!"
  const FailureStatus: string := "Failed to update event."

  /**
   * `handleSubmit`, with `accepted` standing for whether the server took the
   * update: a refused form shows its messages; a sent one sets the status line.
   */
  function HandleSubmit(s: State, accepted: bool): (t: State)
    requires TextFieldsAreText(s.record)
    ensures !Acceptable(s.record, s.banner) ==> t == s.(errors := Validate(s.record, s.banner)) && |t.errors| > 0
    ensures Acceptable(s.record, s.banner) ==> t == s.(status := if accepted then SuccessStatus else FailureStatus)
  {
    ValidateEmptyIffAcceptable(s.record, s.banner);
    match Gate(Validate(s.record, s.banner), Payload(s.record, s.banner, s.removeBanner))
    case Blocked(errors) => s.(errors := errors)
    case Sent(_) => s.(status := if accepted then SuccessStatus else FailureStatus)
  }
}
