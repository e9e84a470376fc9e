/** The admin's new-event form: its checks and the multipart body it posts. */
module AddEventPage {
  import opened Wrappers
  import JsText
  import opened Forms

  /** The form's text fields, in the order the form object declares them. */
  datatype Form = Form(
    title: string, date: string, time: string, totalSeats: string, leftSeats: string,
    tags: string, location: string, description: string, highlights: string,
    organizer: string, bannerPath: string)

  const EmptyForm: Form := Form("", "", "", "", "", "", "", "", "", "", "")

  /** `Object.entries(formData)`. */
  function Entries(f: Form): seq<(string, Value)> {
    [("title", Str(f.title)), ("date", Str(f.date)), ("time", Str(f.time)),
     ("totalSeats", Str(f.totalSeats)), ("leftSeats", Str(f.leftSeats)), ("tags", Str(f.tags)),
     ("location", Str(f.location)), ("description", Str(f.description)),
     ("highlights", Str(f.highlights)), ("organizer", Str(f.organizer)),
     ("bannerPath", Str(f.bannerPath))]
  }

  /** A new event needs a banner; a chosen one must pass the type and size checks. */
  function NewBannerError(banner: Option<File>): (e: Option<string>)
    ensures e.None? <==> banner.Some? && BannerError(banner.value).None?
    ensures banner.None? ==> e == Some("Banner image is required")
  {
    if banner.None? then Some("Banner image is required") else BannerError(banner.value)
  }

  /** The error map from the seven checks' outcomes, each under its field's name. */
  function Messages(title: Option<string>, date: Option<string>, time: Option<string>,
                    totalSeats: Option<string>, leftSeats: Option<string>, location: Option<string>,
                    banner: Option<string>): (errors: ErrorMap)
    ensures errors.Keys <= {"title", "date", "time", "totalSeats", "leftSeats", "location", "banner"}
    ensures "title" in errors <==> title.Some?
    ensures "title" in errors ==> Some(errors["title"]) == title
    ensures "date" in errors <==> date.Some?
    ensures "date" in errors ==> Some(errors["date"]) == date
    ensures "time" in errors <==> time.Some?
    ensures "time" in errors ==> Some(errors["time"]) == time
    ensures "totalSeats" in errors <==> totalSeats.Some?
    ensures "totalSeats" in errors ==> Some(errors["totalSeats"]) == totalSeats
    ensures "leftSeats" in errors <==> leftSeats.Some?
    ensures "leftSeats" in errors ==> Some(errors["leftSeats"]) == leftSeats
    ensures "location" in errors <==> location.Some?
    ensures "location" in errors ==> Some(errors["location"]) == location
    ensures "banner" in errors <==> banner.Some?
    ensures "banner" in errors ==> Some(errors["banner"]) == banner
  {
    var checks := [("title", title), ("date", date), ("time", time), ("totalSeats", totalSeats),
                   ("leftSeats", leftSeats), ("location", location), ("banner", banner)];
    assert checks[0].0 == "title" && checks[1].0 == "date" && checks[2].0 == "time";
    assert checks[3].0 == "totalSeats" && checks[4].0 == "leftSeats";
    assert checks[5].0 == "location" && checks[6].0 == "banner";
    Collect(checks)
  }

  /** `validateForm` with the banner picker's file. */
  function Validate(f: Form, banner: Option<File>): (errors: ErrorMap)
    ensures errors.Keys <= {"title", "date", "time", "totalSeats", "leftSeats", "location", "banner"}
    ensures "title" in errors <==> Required(f.title, "Title is required").Some?
    ensures "date" in errors <==> Required(f.date, "Date is required").Some?
    ensures "time" in errors <==> Required(f.time, "Time is required").Some?
    ensures "totalSeats" in errors <==> SeatsError(Str(f.totalSeats), "Total seats must be a number").Some?
    ensures "leftSeats" in errors <==> SeatsError(Str(f.leftSeats), "Left seats must be a number").Some?
    ensures "location" in errors <==> Required(f.location, "Location is required").Some?
    ensures "banner" in errors <==> NewBannerError(banner).Some?
    ensures "banner" in errors ==> Some(errors["banner"]) == NewBannerError(banner)
    ensures "title" in errors ==> errors["title"] == "Title is required"
    ensures "date" in errors ==> errors["date"] == "Date is required"
    ensures "time" in errors ==> errors["time"] == "Time is required"
    ensures "totalSeats" in errors ==> errors["totalSeats"] == "Total seats must be a number"
    ensures "leftSeats" in errors ==> errors["leftSeats"] == "Left seats must be a number"
    ensures "location" in errors ==> errors["location"] == "Location is required"
  {
    Messages(Required(f.title, "Title is required"), Required(f.date, "Date is required"),
             Required(f.time, "Time is required"),
             SeatsError(Str(f.totalSeats), "Total seats must be a number"),
             SeatsError(Str(f.leftSeats), "Left seats must be a number"),
             Required(f.location, "Location is required"), NewBannerError(banner))
  }

  /** Seat text the form accepts: non-empty, and a number to `isNaN`. */
  predicate IsSeatText(s: string) {
    s != "" && JsText.IsNumericString(s)
  }

  /** A banner the form accepts. */
  predicate IsBanner(file: File) {
    file.mimeType in BannerTypes && file.size <= MaxBannerBytes
  }

  /** What the form accepts. */
  predicate Acceptable(f: Form, banner: Option<File>) {
    && !JsText.IsBlank(f.title) && !JsText.IsBlank(f.date) && !JsText.IsBlank(f.time)
    && IsSeatText(f.totalSeats) && IsSeatText(f.leftSeats)
    && !JsText.IsBlank(f.location)
    && banner.Some? && IsBanner(banner.value)
  }

  /** The four text fields have a message exactly when they are blank. */
  lemma TextFieldsReported(f: Form, banner: Option<File>)
    ensures "title" in Validate(f, banner) <==> JsText.IsBlank(f.title)
    ensures "date" in Validate(f, banner) <==> JsText.IsBlank(f.date)
    ensures "time" in Validate(f, banner) <==> JsText.IsBlank(f.time)
    ensures "location" in Validate(f, banner) <==> JsText.IsBlank(f.location)
  {
    JsText.BlankIffAllWhiteSpace(f.title);
    JsText.BlankIffAllWhiteSpace(f.date);
    JsText.BlankIffAllWhiteSpace(f.time);
    JsText.BlankIffAllWhiteSpace(f.location);
  }

  /** The seat counts and the banner have a message exactly when they fail their rules. */
  lemma SeatsAndBannerReported(f: Form, banner: Option<File>)
    ensures "totalSeats" in Validate(f, banner) <==> !IsSeatText(f.totalSeats)
    ensures "leftSeats" in Validate(f, banner) <==> !IsSeatText(f.leftSeats)
    ensures "banner" in Validate(f, banner) <==> !(banner.Some? && IsBanner(banner.value))
  {
  }

  lemma ValidateEmptyIffAcceptable(f: Form, banner: Option<File>)
    ensures |Validate(f, banner)| == 0 <==> Acceptable(f, banner)
  {
    TextFieldsReported(f, banner);
    SeatsAndBannerReported(f, banner);
    var errors := Validate(f, banner);
    NoMessageIffAllPass(errors, "title" in errors, "date" in errors, "time" in errors, "totalSeats" in errors,
                        "leftSeats" in errors, "location" in errors, "banner" in errors);
  }

  lemma NoMessageIffAllPass(errors: ErrorMap, a: bool, b: bool, c: bool, d: bool, e: bool, g: bool, h: bool)
    requires errors.Keys <= {"title", "date", "time", "totalSeats", "leftSeats", "location", "banner"}
    requires "title" in errors <==> a
    requires "date" in errors <==> b
    requires "time" in errors <==> c
    requires "totalSeats" in errors <==> d
    requires "leftSeats" in errors <==> e
    requires "location" in errors <==> g
    requires "banner" in errors <==> h
    ensures |errors| == 0 <==> !a && !b && !c && !d && !e && !g && !h
  {
    if !a && !b && !c && !d && !e && !g && !h {
      assert errors.Keys == {};
    }
  }

  /** Submitting the empty form without a banner shows all seven messages. */
  lemma EmptyFormIsRefused()
    ensures Validate(EmptyForm, None) == map[
      "title" := "Title is required", "date" := "Date is required", "time" := "Time is required",
      "totalSeats" := "Total seats must be a number", "leftSeats" := "Left seats must be a number",
      "location" := "Location is required", "banner" := "Banner image is required"]
  {
    JsText.BlankIffAllWhiteSpace("");
    assert Required("", "Title is required") == Some("Title is required");
    assert Required("", "Date is required") == Some("Date is required");
    assert Required("", "Time is required") == Some("Time is required");
    assert Required("", "Location is required") == Some("Location is required");
    assert SeatsError(Str(""), "Total seats must be a number") == Some("Total seats must be a number");
    assert SeatsError(Str(""), "Left seats must be a number") == Some("Left seats must be a number");
    AllMessages("Title is required", "Date is required", "Time is required", "Total seats must be a number",
                "Left seats must be a number", "Location is required", "Banner image is required");
  }

  /** When all seven checks fail, the map holds exactly their seven messages. */
  lemma AllMessages(a: string, b: string, c: string, d: string, e: string, g: string, h: string)
    ensures Messages(Some(a), Some(b), Some(c), Some(d), Some(e), Some(g), Some(h))
         == map["title" := a, "date" := b, "time" := c, "totalSeats" := d, "leftSeats" := e,
                 "location" := g, "banner" := h]
  {
    var errors := Messages(Some(a), Some(b), Some(c), Some(d), Some(e), Some(g), Some(h));
    assert errors.Keys == {"title", "date", "time", "totalSeats", "leftSeats", "location", "banner"};
  }

  /** The body `handleSubmit` posts: every form field as text, then the banner file. */
  function Payload(f: Form, banner: File): seq<(string, Part)> {
    Parts(Entries(f)) + [("banner", Blob(banner))]
  }

  /** Building the body: one `append` per form entry, then the banner. */
  method BuildPayload(f: Form, banner: File) returns (parts: seq<(string, Part)>)
    ensures parts == Payload(f, banner)
  {
    var entries := Entries(f);
    parts := [];
    for i := 0 to |entries|
      invariant parts == Parts(entries[..i])
    {
      PartsAppend(entries[..i], [entries[i]]);
      assert entries[..i + 1] == entries[..i] + [entries[i]];
      parts := parts + [(entries[i].0, PartOf(entries[i].1))];
    }
    assert entries[..|entries|] == entries;
    parts := parts + [("banner", Blob(banner))];
  }

  /** The server reads back every field as typed, and the banner file. */
  lemma PayloadCarriesForm(f: Form, banner: File)
    ensures Get(Payload(f, banner), "title") == Some(Text(f.title))
    ensures Get(Payload(f, banner), "date") == Some(Text(f.date))
    ensures Get(Payload(f, banner), "time") == Some(Text(f.time))
    ensures Get(Payload(f, banner), "totalSeats") == Some(Text(f.totalSeats))
    ensures Get(Payload(f, banner), "leftSeats") == Some(Text(f.leftSeats))
    ensures Get(Payload(f, banner), "location") == Some(Text(f.location))
    ensures Get(Payload(f, banner), "tags") == Some(Text(f.tags))
    ensures Get(Payload(f, banner), "description") == Some(Text(f.description))
    ensures Get(Payload(f, banner), "highlights") == Some(Text(f.highlights))
    ensures Get(Payload(f, banner), "organizer") == Some(Text(f.organizer))
    ensures Get(Payload(f, banner), "bannerPath") == Some(Text(f.bannerPath))
    ensures Get(Payload(f, banner), "banner") == Some(Blob(banner))
  {
    var fields := Parts(Entries(f));
    var file := [("banner", Blob(banner))];
    EntryNamesDistinct(f);
    assert forall a, b :: 0 <= a < b < |fields| ==> fields[a].0 != fields[b].0;
    assert forall a :: 0 <= a < |fields| ==> fields[a].0 != "banner";
    FieldPartsAreText(f);
    GetFinds(fields, 0);
    GetPrefix(fields, file, "title");
    GetFinds(fields, 1);
    GetPrefix(fields, file, "date");
    GetFinds(fields, 2);
    GetPrefix(fields, file, "time");
    GetFinds(fields, 3);
    GetPrefix(fields, file, "totalSeats");
    GetFinds(fields, 4);
    GetPrefix(fields, file, "leftSeats");
    GetFinds(fields, 5);
    GetPrefix(fields, file, "tags");
    GetFinds(fields, 6);
    GetPrefix(fields, file, "location");
    GetFinds(fields, 7);
    GetPrefix(fields, file, "description");
    GetFinds(fields, 8);
    GetPrefix(fields, file, "highlights");
    GetFinds(fields, 9);
    GetPrefix(fields, file, "organizer");
    GetFinds(fields, 10);
    GetPrefix(fields, file, "bannerPath");
    GetSkips(fields, file, "banner");
  }

  /** No two form fields share a name, and none is named "banner". */
  lemma EntryNamesDistinct(f: Form)
    ensures forall a, b :: 0 <= a < b < |Entries(f)| ==> Entries(f)[a].0 != Entries(f)[b].0
    ensures forall a :: 0 <= a < |Entries(f)| ==> Entries(f)[a].0 != "banner"
  {
  }

  /** The parts of the form fields, one by one: each field's name and its text. */
  lemma FieldPartsAreText(f: Form)
    ensures |Parts(Entries(f))| == 11
    ensures Parts(Entries(f))[0] == ("title", Text(f.title))
    ensures Parts(Entries(f))[1] == ("date", Text(f.date))
    ensures Parts(Entries(f))[2] == ("time", Text(f.time))
    ensures Parts(Entries(f))[3] == ("totalSeats", Text(f.totalSeats))
    ensures Parts(Entries(f))[4] == ("leftSeats", Text(f.leftSeats))
    ensures Parts(Entries(f))[5] == ("tags", Text(f.tags))
    ensures Parts(Entries(f))[6] == ("location", Text(f.location))
    ensures Parts(Entries(f))[7] == ("description", Text(f.description))
    ensures Parts(Entries(f))[8] == ("highlights", Text(f.highlights))
    ensures Parts(Entries(f))[9] == ("organizer", Text(f.organizer))
    ensures Parts(Entries(f))[10] == ("bannerPath", Text(f.bannerPath))
  {
  }

  /**
   * `handleSubmit`: a form with any message is not sent; otherwise the
   * body is built and sent.
   */
  method Submit(f: Form, banner: Option<File>) returns (r: Submission<seq<(string, Part)>>)
    ensures r.Sent? <==> Acceptable(f, banner)
    ensures r.Blocked? ==> r.errors == Validate(f, banner)
    ensures r.Sent? ==> banner.Some? && r.payload == Payload(f, banner.value)
  {
    ValidateEmptyIffAcceptable(f, banner);
    var errors := Validate(f, banner);
    if |errors| > 0 {
      return Blocked(errors);
    }
    var parts := BuildPayload(f, banner.value);
    r := Sent(parts);
  }
}
