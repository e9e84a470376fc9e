/**
 * The confirmation mail sent after a registration: the bounded `retry`
 * helper, the subject line, the optional-note paragraph, and the sender
 * that swallows every failure. The mail transport is an oracle: `send(i)`
 * is what the i-th call of `transporter.sendMail` does.
 */
module ConfirmationEmail {
  import opened Wrappers
  import JsText

  /** What one call of the transport does: it delivers, or it throws. */
  datatype Outcome = Delivered(info: string) | Threw(error: string)

  /** How a call of `retry` settles: with a value, by throwing, or with `undefined` when it made no call. */
  datatype Settled = Returned(value: string) | Rejected(error: string) | ReturnedUndefined

  /** The default number of attempts of `retry`. */
  const DefaultRetries: int := 3

  /** No call among the first `n` delivered. */
  ghost predicate AllThrew(send: nat -> Outcome, n: int) {
    forall i: nat :: i < n ==> send(i).Threw?
  }

  /**
   * `retry(fn, retries)`: calls `fn` until a call delivers, at most `retries`
   * times; throws the last error only when the last allowed call throws.
   * `calls` is how many times `fn` was called. The pause between attempts
   * is not modelled.
   */
  method Retry(send: nat -> Outcome, retries: int) returns (result: Settled, calls: nat)
    ensures calls <= (if retries > 0 then retries else 0)
    ensures AllThrew(send, calls - 1)
    ensures result.Returned? ==> calls >= 1 && send(calls - 1) == Delivered(result.value)
    ensures result.Rejected? ==> calls == retries >= 1 && send(calls - 1) == Threw(result.error)
    ensures result.Rejected? <==> retries > 0 && AllThrew(send, retries)
    ensures result.ReturnedUndefined? <==> retries <= 0
  {
    calls := 0;
    var i := 0;
    while i < retries
      invariant 0 <= i && (i == 0 || i < retries)
      invariant calls == i
      invariant AllThrew(send, i)
    {
      calls := calls + 1;
      match send(i)
      case Delivered(info) =>
        return Returned(info), calls;
      case Threw(error) =>
        if i == retries - 1 {
          return Rejected(error), calls;
        }
      i := i + 1;
    }
    result := ReturnedUndefined;
  }

  /** The values interpolated into the mail. */
  datatype Details = Details(
    name: string, email: string, eventTitle: string, eventDate: string,
    message: Option<string>, time: string, location: string)

  /** The interpolated parts of the HTML body, in the order they appear; the static markup is not modelled. */
  datatype MailBody = MailBody(
    greetingName: string, eventTitle: string, eventDate: string,
    time: string, location: string, note: string)

  datatype Mail = Mail(to: string, subject: string, body: MailBody)

  const SubjectPrefix: string := "Registration Confirmation for "

  /** The subject line for an event title. */
  function Subject(eventTitle: string): string {
    SubjectPrefix + eventTitle
  }

  /** The event title a subject line was made for, if it is one. */
  function TitleOfSubject(subject: string): Option<string> {
    if |subject| >= |SubjectPrefix| && subject[..|SubjectPrefix|] == SubjectPrefix
    then Some(subject[|SubjectPrefix|..])
    else None
  }

  /** The event title can be read back from the subject, so different events get different subjects. */
  lemma SubjectNamesTheEvent(eventTitle: string)
    ensures TitleOfSubject(Subject(eventTitle)) == Some(eventTitle)
  {
    var s := Subject(eventTitle);
    assert s[..|SubjectPrefix|] == SubjectPrefix;
    assert s[|SubjectPrefix|..] == eventTitle;
  }

  const NoteOpen: string := "<p style=\"font-size:15px;\">Additional note you shared with us: <em>"
  const NoteClose: string := "</em><br>Thanks for that!</p>"

  /** The "Additional note" paragraph: present when the message is truthy, empty otherwise. */
  function NoteParagraph(message: Option<string>): (p: string)
    ensures p != "" <==> message.Some? && message.value != ""
    ensures p != "" ==> JsText.Includes(p, message.value)
  {
    if message.Some? && message.value != "" then
      JsText.IncludesSelf(message.value);
      JsText.IncludesInLeft(message.value, NoteClose, message.value);
      JsText.IncludesInRight(NoteOpen, message.value + NoteClose, message.value);
      assert NoteOpen + message.value + NoteClose == NoteOpen + (message.value + NoteClose);
      NoteOpen + message.value + NoteClose
    else ""
  }

  /** The mail for a registration: to the registrant, about the event. */
  function Compose(d: Details): (m: Mail)
    ensures m.to == d.email
    ensures TitleOfSubject(m.subject) == Some(d.eventTitle)
    ensures m.body.note != "" <==> d.message.Some? && d.message.value != ""
    ensures m.body.greetingName == d.name && m.body.eventTitle == d.eventTitle
    ensures m.body.eventDate == d.eventDate && m.body.time == d.time && m.body.location == d.location
  {
    SubjectNamesTheEvent(d.eventTitle);
    Mail(d.email, Subject(d.eventTitle),
         MailBody(d.name, d.eventTitle, d.eventDate, d.time, d.location, NoteParagraph(d.message)))
  }

  /** What the sender did: the mail it composed, whether a call delivered it, and how many calls it made. */
  datatype Delivery = Delivery(mail: Mail, sent: bool, attempts: nat)

  /**
   * `sendConfirmationEmail`: composes the mail and sends it with the default
   * retry budget. It never throws: a final failure is logged and dropped.
   */
  method SendConfirmationEmail(d: Details, send: nat -> Outcome) returns (delivery: Delivery)
    ensures delivery.mail == Compose(d)
    ensures 1 <= delivery.attempts <= DefaultRetries
    ensures delivery.sent <==> !AllThrew(send, DefaultRetries)
    ensures delivery.sent ==> send(delivery.attempts - 1).Delivered?
  {
    var mail := Compose(d);
    var result, calls := Retry(send, DefaultRetries);
    // A rejection is caught here and only logged.
    delivery := Delivery(mail, result.Returned?, calls);
  }
}
