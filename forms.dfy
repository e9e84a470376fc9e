/**
 * What the admin and visitor forms share: the error map a `validateForm`
 * builds, the submit gate in front of every request, the required-text and
 * e-mail checks, and the event-form checks (numeric seats, banner image).
 */
module Forms {
  import opened Wrappers
  import JsText

  /** A `newErrors` object: field name to message. */
  type ErrorMap = map<string, string>

  /** `if (check fails) newErrors[key] = message`: records the message of a failed check. */
  function Put(errors: ErrorMap, key: string, message: Option<string>): (r: ErrorMap)
    ensures key in r <==> key in errors || message.Some?
    ensures message.Some? ==> r[key] == message.value
    ensures message.None? ==> r == errors
    ensures forall k :: k in errors && k != key ==> k in r && r[k] == errors[k]
    ensures forall k :: k in r && k != key ==> k in errors
  {
    if message.Some? then errors[key := message.value] else errors
  }

  /** No two checks write under the same key. */
  predicate DistinctKeys(checks: seq<(string, Option<string>)>) {
    forall i, j :: 0 <= i < j < |checks| ==> checks[i].0 != checks[j].0
  }

  /**
   * The error map a `validateForm` builds from checks run in order, each
   * writing its message, if any, under its own key.
   */
  function Collect(checks: seq<(string, Option<string>)>): (errors: ErrorMap)
    requires DistinctKeys(checks)
    ensures forall i :: 0 <= i < |checks| ==> (checks[i].0 in errors <==> checks[i].1.Some?)
    ensures forall i :: 0 <= i < |checks| && checks[i].1.Some? ==> errors[checks[i].0] == checks[i].1.value
    ensures forall k :: k in errors ==> exists i :: 0 <= i < |checks| && checks[i].0 == k
  {
    if checks == [] then map[]
    else
      var front, last := checks[..|checks| - 1], checks[|checks| - 1];
      assert forall i :: 0 <= i < |front| ==> front[i] == checks[i] && front[i].0 != last.0;
      Put(Collect(front), last.0, last.1)
  }

  /** What a submit handler does: it stops at the first error, or it sends its request. */
  datatype Submission<T> = Blocked(errors: ErrorMap) | Sent(payload: T)

  /** `if (Object.keys(validationErrors).length > 0) { setErrors(...); return; }`. */
  function Gate<T>(errors: ErrorMap, payload: T): (s: Submission<T>)
    ensures s.Sent? <==> |errors| == 0
    ensures s.Blocked? ==> s.errors == errors
    ensures s.Sent? ==> s.payload == payload
  {
    if |errors| > 0 then Blocked(errors) else Sent(payload)
  }

  /** `if (!value.trim()) newErrors[key] = message`. */
  function Required(value: string, message: string): (e: Option<string>)
    ensures e.Some? <==> JsText.AllWhiteSpace(value)
    ensures e.Some? ==> e.value == message
  {
    JsText.BlankIffAllWhiteSpace(value);
    if JsText.IsBlank(value) then Some(message) else None
  }

  /**
   * The e-mail chain of the visitor and admin forms: "Email is required" when
   * it is blank, else "Invalid email format" when `\S+@\S+\.\S+` finds no match.
   * At most one message, and none exactly when the pattern matches.
   */
  function EmailError(email: string): (e: Option<string>)
    ensures e.None? <==> JsText.IsEmailLike(email)
    ensures e == Some("Email is required") <==> JsText.IsBlank(email)
    ensures e == Some("Invalid email format") <==> !JsText.IsBlank(email) && !JsText.IsEmailLike(email)
  {
    JsText.EmailLikeIsNotBlank(email);
    if JsText.IsBlank(email) then Some("Email is required")
    else if !JsText.IsEmailLike(email) then Some("Invalid email format")
    else None
  }

  /** A value held in a form object: text, a number as loaded from the server, or `undefined`. */
  datatype Value = Str(s: string) | Num(n: int) | Undefined

  /** JavaScript truthiness of a form value. */
  predicate Truthy(v: Value) {
    match v
    case Str(s) => s != ""
    case Num(n) => n != 0
    case Undefined => false
  }

  /** `isNaN(v)`: the value does not convert to a number. */
  predicate IsNaN(v: Value) {
    match v
    case Str(s) => !JsText.IsNumericString(s)
    case Num(_) => false
    case Undefined => true
  }

  /**
   * `if (!v || isNaN(v)) newErrors[key] = message` on a seat count: accepted
   * exactly when it is non-empty numeric text or a non-zero number.
   */
  function SeatsError(v: Value, message: string): (e: Option<string>)
    ensures e.None? <==> (v.Str? && v.s != "" && JsText.IsNumericString(v.s)) || (v.Num? && v.n != 0)
    ensures e.Some? ==> e.value == message
  {
    if !Truthy(v) || IsNaN(v) then Some(message) else None
  }

  /** A count typed as digits passes the seat check. */
  lemma DigitsPassSeatCheck(s: string, message: string)
    requires s != [] && JsText.AllDigits(s)
    ensures SeatsError(Str(s), message) == None
  {
    JsText.DigitsAreNumeric(s);
  }

  /** White space alone reads as the number 0 to `isNaN`, and is truthy, so it passes the seat check. */
  lemma BlankSeatsPassSeatCheck(s: string, message: string)
    requires s != [] && JsText.AllWhiteSpace(s)
    ensures SeatsError(Str(s), message) == None
  {
    JsText.BlankIffAllWhiteSpace(s);
  }

  /** The file the banner picker holds: its MIME type and its size in bytes. */
  datatype File = File(name: string, mimeType: string, size: int)

  const MaxBannerBytes: int := 2 * 1024 * 1024
  const BannerTypes: seq<string> := ["image/jpeg", "image/png", "image/webp"]
  const BannerTypeMessage: string := "Only JPG, PNG, or WEBP images are allowed"
  const BannerSizeMessage: string := "Image must be smaller than 2MB"

  /**
   * The checks on a chosen banner: the type check writes its message first
   * and the size check, run after it, overwrites it.
   */
  function BannerError(file: File): (e: Option<string>)
    ensures e.None? <==> file.mimeType in BannerTypes && file.size <= MaxBannerBytes
    ensures file.size > MaxBannerBytes ==> e == Some(BannerSizeMessage)
    ensures file.size <= MaxBannerBytes && file.mimeType !in BannerTypes ==> e == Some(BannerTypeMessage)
  {
    var typeError := if file.mimeType !in BannerTypes then Some(BannerTypeMessage) else None;
    if file.size > MaxBannerBytes then Some(BannerSizeMessage) else typeError
  }

  /** A part of a multipart `FormData` body: text, or a file. */
  datatype Part = Text(text: string) | Blob(file: File)

  /** What `form.append(key, value)` stores for a form value: its `String(value)`. */
  function PartOf(v: Value): (p: Part)
    ensures p.Text?
    ensures v.Str? ==> p.text == v.s
    ensures v.Num? ==> JsText.IsNumericString(p.text)
  {
    match v
    case Str(s) => Text(s)
    case Num(n) => JsText.IntToStringIsNumeric(n); Text(JsText.IntToString(n))
    case Undefined => Text("undefined")
  }

  /** The value of the first part named `key`, as `FormData.get` reads it. */
  function Get(parts: seq<(string, Part)>, key: string): (r: Option<Part>)
    ensures r.None? <==> forall i :: 0 <= i < |parts| ==> parts[i].0 != key
    ensures r.Some? ==> (key, r.value) in parts
  {
    if parts == [] then None
    else if parts[0].0 == key then Some(parts[0].1)
    else Get(parts[1..], key)
  }

  /** The first part named `key` is found, whatever follows it. */
  lemma {:induction false} GetFinds(parts: seq<(string, Part)>, i: nat)
    requires i < |parts|
    requires forall j :: 0 <= j < i ==> parts[j].0 != parts[i].0
    ensures Get(parts, parts[i].0) == Some(parts[i].1)
  {
    if i > 0 {
      GetFinds(parts[1..], i - 1);
    }
  }

  /** Parts in front that do not carry `key` do not change what is read under it. */
  lemma {:induction false} GetSkips(front: seq<(string, Part)>, back: seq<(string, Part)>, key: string)
    requires forall j :: 0 <= j < |front| ==> front[j].0 != key
    ensures Get(front + back, key) == Get(back, key)
  {
    if front == [] {
      assert front + back == back;
    } else {
      assert (front + back)[0] == front[0];
      assert (front + back)[1..] == front[1..] + back;
      GetSkips(front[1..], back, key);
    }
  }

  /** A key already found in the front is read from the front, whatever is appended. */
  lemma {:induction false} GetPrefix(front: seq<(string, Part)>, back: seq<(string, Part)>, key: string)
    requires Get(front, key).Some?
    ensures Get(front + back, key) == Get(front, key)
  {
    assert (front + back)[0] == front[0];
    if front[0].0 != key {
      assert (front + back)[1..] == front[1..] + back;
      GetPrefix(front[1..], back, key);
    }
  }

  /** `Object.entries(form).forEach(([key, value]) => form.append(key, value))`, all at once. */
  function Parts(entries: seq<(string, Value)>): seq<(string, Part)> {
    seq(|entries|, i requires 0 <= i < |entries| => (entries[i].0, PartOf(entries[i].1)))
  }

  /** Appending the parts of two runs of entries is appending the parts of their concatenation. */
  lemma PartsAppend(a: seq<(string, Value)>, b: seq<(string, Value)>)
    ensures Parts(a + b) == Parts(a) + Parts(b)
  {
    assert forall i :: 0 <= i < |a + b| ==> Parts(a + b)[i] == (Parts(a) + Parts(b))[i];
  }

  /** The value under `key` in a loaded record, `undefined` when the record has none. */
  function Field(record: seq<(string, Value)>, key: string): (v: Value)
    ensures v != Undefined ==> (key, v) in record
  {
    if record == [] then Undefined
    else if record[0].0 == key then record[0].1
    else Field(record[1..], key)
  }
}
