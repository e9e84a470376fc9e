# Event registration: seat accounting and form logic, in Dafny

This project models the core of an event-registration web application and proves properties of that model. Visitors register for events, each of which has a fixed number of seats. Administrators create, edit and delete events and manage the registrants. The model covers three parts.

**The server's seat accounting.** Each event record carries `totalSeats` and `leftSeats`. The registration and event controllers keep `leftSeats` in step with the registrations stored for the event:
- a registration decrements it;
- deleting one registration, or all of an event's registrations, gives the seats back;
- an update that sets a new capacity recounts the registrations.

`SeatAccounting.Store` is a class holding the two collections (events and registrations) as maps. Its methods are the controller handlers. Each method states the HTTP status and body it sends and the new contents of both maps. Each one also preserves the invariant `leftSeats == totalSeats - registrations for the event`, under the conditions the source actually guarantees.

**The confirmation mail.** The mail sent after a registration goes through a bounded retry loop (`ConfirmationEmail.Retry`). The mail transport is a parameter: `send(i)` is the outcome of the i-th attempt. The module also models the mail's subject and its optional note paragraph.

**The browser pages.** The model covers each page's pure logic:
- the `validateForm` checks of the visitor registration, admin registration, contact, add-event and edit-event forms, each proved to report an error exactly when its field breaks its rule;
- the submit gate in front of every request;
- the multipart bodies built by the event forms, with a loop for each;
- the word counter and 30-word limit of the feedback form;
- the date sort and the first-three selection of featured events;
- the tag menu and the search/tag filters;
- the registrant and feedback lists, their counters and their CSV exports.

Support modules:
- `JsText` models the JavaScript string operations used: `trim`, ASCII `toLowerCase`, `includes`, `split`, the regular expressions, and the `isNaN` reading of a string.
- `Seqs` models `filter` and `[...new Set(xs)]`.
- `Forms` holds the error-map, submit-gate and multipart-body pieces that the forms share.
- `CsvExport` is the shape of an exported file.

Where the code differs from its tests or from what its screens suggest, the model follows the code. Examples:
- `Store.DeleteEvent` answers "Event and banner deleted successfully", as the controller does; the route test expects another message.
- The visitor registration page keeps its error map after a successful submit; only the form is reset.

## Model

| member | source | states |
|---|---|---|
| SeatAccounting.Store.RegisterUser | server/controllers/registrationController.js:26-58 | The outcomes, checked in this order: (1) an unknown event gives 404 "Event not found" and changes nothing; (2) `leftSeats <= 0` gives 400 "No seats left for this event" and changes nothing; (3) a registration missing a required field gives 400 "Registration failed" and changes nothing; (4) otherwise, and only then, the result is 201 with the saved record. On 201, exactly one registration is added, only that event's `leftSeats` drops by one and stays non-negative, and the confirmation mail is composed from the registrant and the event title, which defaults to "Your Event". The seat invariant is preserved. |
| SeatAccounting.Store.DeleteSingleRegistrant | server/controllers/registrationController.js:93-110 | An unknown id gives 404 "Registrant not found" and changes nothing. Otherwise exactly that registration is removed, and its event, if it still exists, gets one seat back. The response is 200 "Registrant deleted and seat restored". The seat invariant is preserved. |
| SeatAccounting.Store.DeleteAllRegistrants | server/controllers/registrationController.js:72-90 | Removes exactly the registrations of that event; the others are untouched. The event, if it exists, gets the removed count added to `leftSeats`. The response always reports `restoredSeats` equal to that count. The seat invariant is preserved. |
| SeatAccounting.Store.GetRegistrantsByEvent | server/controllers/registrationController.js:16-23 | Returns 200 with exactly the stored registrations that reference the event. Their number is the event's registration count. |
| SeatAccounting.WithoutEvent | server/controllers/registrationController.js:78 | `deleteMany({ eventId })` keeps a registration if and only if it references another event, and keeps it unchanged. |
| SeatAccounting.SaveKeepsConsistent | server/controllers/registrationController.js:36-41 | Saving a new registration and taking one seat from its event keeps every event's free seats in step with its registrations. |
| SeatAccounting.CountAfterSave | server/controllers/registrationController.js:36-41 | Saving a new registration adds one to its own event's count and leaves every other event's count as it was. |
| SeatAccounting.CountAfterDelete | server/controllers/registrationController.js:98-104 | Deleting one registration takes one from its own event's count and leaves every other event's count as it was. |
| SeatAccounting.CountAfterDeleteAll | server/controllers/registrationController.js:75-84 | After a delete-all the event's count is 0, and every other event's count is unchanged. |
| SeatAccounting.MailDetails | server/controllers/registrationController.js:44-52 | The mail goes to the registrant's address with the registrant's message. The event title defaults to "Your Event" when it is empty. |
| SeatAccounting.Created | server/controllers/eventController.js:39-53 | A created event starts with `leftSeats == totalSeats`, whatever `leftSeats` the body gave. `bannerPath` is the uploaded file's name, or "" without one. |
| SeatAccounting.Store.CreateEvent | server/controllers/eventController.js:39-53 | A body missing a required field gives 500 "Failed to create event" and changes nothing. Otherwise exactly the new event is added and 201 returns it. The seat invariant is preserved. |
| SeatAccounting.SeatsAfterResize | server/controllers/eventController.js:64-67 | The recounted `leftSeats` is never negative and never below `totalSeats - registrations`. It is one of those two values or 0. |
| SeatAccounting.ResizeKeepsAccountIffWithinCapacity | server/controllers/eventController.js:66 | The recount equals `totalSeats - registrations` if and only if the new capacity covers the registrations. Otherwise it is 0. |
| SeatAccounting.UpdateOutcome | server/controllers/eventController.js:62-91 | Field by field: fields absent from the body keep their stored values. This holds for title, date, time, location, tags, description, highlights and organizer. With `totalSeats` given, `leftSeats` is exactly `max(0, totalSeats - registrations)`, whatever `leftSeats` the body carries. Without it, `leftSeats` is taken from the body or kept. An upload sets `bannerPath` and wins over `removeBanner`. `removeBanner == "true"` clears an existing banner. Otherwise `bannerPath` is taken from the body or kept. |
| SeatAccounting.UpdateKeepsSeatsAgree | server/controllers/eventController.js:64-67 | An update preserves `leftSeats == totalSeats - registrations` when any new capacity covers the registrations and no `leftSeats` is given without a capacity. |
| SeatAccounting.Store.UpdateEvent | server/controllers/eventController.js:56-96 | An unknown id gives 404 "Event not found" and changes nothing. Otherwise only that event is replaced by its updated record, which 200 returns. The seat invariant is preserved under the condition above. |
| SeatAccounting.Store.DeleteEvent | server/controllers/eventController.js:9-26 | An unknown id gives 404 "Event not found". Otherwise only that event is removed, its registrations are kept, and the response is "Event and banner deleted successfully". The seat invariant is preserved. |
| SeatAccounting.Store.GetEventById | server/controllers/eventController.js:99-107 | An unknown id gives 404 "Event not found". Otherwise the result is 200 with the stored event, unchanged. |
| ConfirmationEmail.Retry | server/utils/sendConfirmationEmail.js:4-13 | `fn` is called at most `retries` times, and no call comes after a delivering one. The result is the first delivered value. The call rejects only when all `retries` calls threw, with the last error. It resolves to `undefined` without a call when `retries <= 0`. |
| ConfirmationEmail.SubjectNamesTheEvent | server/utils/sendConfirmationEmail.js:35 | The event title can be read back from the subject "Registration Confirmation for " + title. |
| ConfirmationEmail.NoteParagraph | server/utils/sendConfirmationEmail.js:48 | The note paragraph is present if and only if the message is truthy, and it then contains the message. |
| ConfirmationEmail.Compose | server/utils/sendConfirmationEmail.js:32-48 | The mail goes to the registrant. Its subject names the event. It greets by name. It shows the event's title, date, time and location, each as given. It carries the note exactly when a message was given. |
| ConfirmationEmail.SendConfirmationEmail | server/utils/sendConfirmationEmail.js:15-76 | With the default of 3 attempts it makes 1 to 3 of them. It reports delivery if and only if some attempt delivered. It never throws. |
| JsText.BlankIffAllWhiteSpace | client/src/pages/RegisterEvent.jsx:23 | `!s.trim()` holds exactly when every character is white space. |
| JsText.ToLowerIdempotent | client/src/pages/Events.jsx:30 | Lower-casing twice is lower-casing once. |
| JsText.JoinSplit | client/src/pages/Events.jsx:27 | Joining the pieces of `split(',')` gives back the tags text. |
| JsText.NatToStringRoundTrip | client/src/pages/EditEvent.jsx:79 | `String(n)` of a seat count reads back as `n`. |
| JsText.IntToStringIsNumeric | client/src/pages/EditEvent.jsx:51-52 | A number turned to text passes the `isNaN` test. |
| Seqs.Filter | client/src/pages/Events.jsx:29 | `filter` returns an order-preserving subsequence. It holds exactly the elements that pass. |
| Seqs.Distinctly | client/src/pages/Events.jsx:27 | `[...new Set(xs)]` holds every value of `xs` and nothing else, each exactly once, as a subsequence of `xs`. Of any two values it lists, the earlier one first occurs in `xs` before the later one occurs at all, so the values come in first-seen order. |
| Seqs.DistinctAfterOrder | client/src/pages/Events.jsx:27 | Adding values to a set as they are met keeps the unseen ones in the order they first occur. |
| Seqs.FilterFilter | client/src/pages/AdminFeedback.jsx:56-60 | Filtering twice equals filtering once with both tests. |
| Forms.Collect | client/src/pages/AddEvent.jsx:30-52 | A `validateForm` map holds a key exactly when that field's check failed, under that check's message, and no other keys. |
| Forms.Gate | client/src/pages/RegisterEvent.jsx:45-49 | A request is sent if and only if the error map is empty. A blocked submit shows exactly that map. |
| Forms.Required | client/src/pages/RegisterEvent.jsx:23 | A field gets its "... is required" message exactly when it is all white space. |
| Forms.EmailError | client/src/pages/RegisterEvent.jsx:24-28 | A field gets at most one e-mail message. "Email is required" appears exactly when it is blank. "Invalid email format" appears exactly when it is not blank and has no match of `\S+@\S+\.\S+`. There is no message exactly when it matches. |
| Forms.SeatsError | client/src/pages/AddEvent.jsx:35-36 | A seat count is accepted exactly when it is non-empty numeric text or a non-zero number. |
| Forms.DigitsPassSeatCheck | client/src/pages/AddEvent.jsx:35 | A count typed as digits is accepted. |
| Forms.BlankSeatsPassSeatCheck | client/src/pages/AddEvent.jsx:35 | A count of spaces is accepted, since `isNaN(" ")` is false. |
| Forms.BannerError | client/src/pages/AddEvent.jsx:40-48 | A banner passes exactly when its type is JPEG, PNG or WebP and it is at most 2·1024·1024 bytes. Too large gives the size message, which overrides a type error. |
| Forms.PartOf | client/src/pages/AddEvent.jsx:86 | `form.append` stores a text value as typed and a number as numeric text. |
| Forms.GetPrefix | client/src/pages/EditEvent.jsx:81-82 | Parts appended after a field do not change what is read under that field. |
| RegisterEventPage.MobileError | client/src/pages/RegisterEvent.jsx:29-33 | A blank mobile gives "Mobile number is required". Otherwise anything but exactly ten digits gives "Mobile number must be 10 digits". There is no message exactly for ten digits. |
| RegisterEventPage.Validate | client/src/pages/RegisterEvent.jsx:21-35 | Only name, email and mobile can carry a message, each from its own check. The message field is never checked. |
| RegisterEventPage.ValidateReports | client/src/pages/RegisterEvent.jsx:21-35 | Each field has a message exactly when it breaks its rule. |
| RegisterEventPage.ValidateEmptyIffAcceptable | client/src/pages/RegisterEvent.jsx:21-35 | There are no messages if and only if the name is not blank, the email matches and the mobile is ten digits. |
| RegisterEventPage.Change | client/src/pages/RegisterEvent.jsx:37-40 | Typing stores the value in that field only. It hides that field's message and keeps the others. |
| RegisterEventPage.Submit | client/src/pages/RegisterEvent.jsx:45-54 | The form is sent if and only if it is acceptable. The body is the four fields plus the route's event id. A refused form shows the full error map. |
| RegisterEventPage.HandleSubmit | client/src/pages/RegisterEvent.jsx:42-76 | A refused form keeps its values and shows its errors. A successful send resets the form and shows the success status. A failed send keeps the form and shows the failure status. |
| RegisterEventPage.EmptyFormIsRefused | client/src/pages/RegisterEvent.jsx:21-35 | The empty form gets exactly the three "required" messages. |
| RegisterEventPage.FilledFormIsSent | client/src/pages/RegisterEvent.jsx:54 | A properly filled form is sent as typed, with the event id. |
| AdminRegisterPage.MinLengthError | client/src/pages/AdminRegister.jsx:22-32 | Blank gives the "required" message. Otherwise being shorter than the minimum gives the length message. There is no message exactly when the value is not blank and long enough. |
| AdminRegisterPage.PasswordError | client/src/pages/AdminRegister.jsx:40-46 | The checks run in order: "required", then "at least 6 characters", then "uppercase letter and number". There is no message exactly when the password is 6 or more characters long and has an A–Z letter and a digit. |
| AdminRegisterPage.Validate | client/src/pages/AdminRegister.jsx:19-49 | Each of the four fields carries at most one message, the first failing check of its chain. |
| AdminRegisterPage.ValidateEmptyIffAcceptable | client/src/pages/AdminRegister.jsx:19-49 | There are no messages if and only if all four fields pass their rules. |
| AdminRegisterPage.HandleSubmit | client/src/pages/AdminRegister.jsx:55-77 | A form with messages is not sent. A successful send resets the form to empty strings and clears the errors. A failed send keeps the form and shows the failure status. |
| AdminRegisterPage.NoUpperCaseIsRefused | client/src/pages/AdminRegister.jsx:44-45 | "abc123" is refused with the uppercase-and-number message. |
| ContactPage.Validate | client/src/pages/Contact.jsx:12-22 | Name, email and message each carry their own check's message. |
| ContactPage.ValidateReports | client/src/pages/Contact.jsx:12-22 | Each field has a message exactly when it breaks its rule. |
| ContactPage.ValidateEmptyIffAcceptable | client/src/pages/Contact.jsx:12-22 | There are no messages if and only if all three fields pass. |
| ContactPage.HandleSubmit | client/src/pages/Contact.jsx:27-47 | A form with messages is not sent. A successful send resets the form and clears the errors. A failed send changes nothing. |
| ContactPage.ResetFormIsRefused | client/src/pages/Contact.jsx:39-40 | The reset form would itself be refused, so it cannot be re-sent by accident. |
| AddEventPage.NewBannerError | client/src/pages/AddEvent.jsx:38-48 | A missing banner gives "Banner image is required". A chosen one is checked for type and size. |
| AddEventPage.Validate | client/src/pages/AddEvent.jsx:30-52 | The seven checks — title, date, time, both seat counts, location and banner — each put their own message under their own key. A key is present exactly when its check fails. Its text is then the check's message, such as "Title is required" or "Left seats must be a number". No other key appears. |
| AddEventPage.TextFieldsReported | client/src/pages/AddEvent.jsx:32-34 | Title, date, time and location each have a message exactly when they are blank. |
| AddEventPage.ValidateEmptyIffAcceptable | client/src/pages/AddEvent.jsx:30-52 | There are no messages if and only if the text fields are filled, both seat counts are numeric, and an allowed banner of at most 2 MB is chosen. |
| AddEventPage.EmptyFormIsRefused | client/src/pages/AddEvent.jsx:30-52 | The empty form without a banner gets exactly the seven messages. |
| AddEventPage.AllMessages | client/src/pages/AddEvent.jsx:30-52 | When all seven checks fail, the map holds exactly their seven messages. |
| AddEventPage.BuildPayload | client/src/pages/AddEvent.jsx:85-87 | The append loop builds every form field in order, as text, followed by the banner file. |
| AddEventPage.PayloadCarriesForm | client/src/pages/AddEvent.jsx:85-87 | Reading the body back gives each of the eleven fields as typed, and the banner. The fields are title, date, time, both seat counts, tags, location, description, highlights, organizer and bannerPath. |
| AddEventPage.Submit | client/src/pages/AddEvent.jsx:74-100 | The form is sent if and only if it is acceptable. A refused form shows its error map. A sent form carries the full body. |
| EditEventPage.Change | client/src/pages/EditEvent.jsx:26-28 | Typing sets that field's value to the typed text. Every other field keeps its value. |
| EditEventPage.TextError | client/src/pages/EditEvent.jsx:48-50 | `formData.title?.trim()` fails exactly for a missing or blank text field. |
| EditEventPage.EditBannerError | client/src/pages/EditEvent.jsx:55-64 | The banner is optional. A chosen one must pass the type and size checks. |
| EditEventPage.Validate | client/src/pages/EditEvent.jsx:46-67 | The loaded record is checked with the create form's rules, except that the banner is optional. A key is present exactly when its check fails. Its text is then the check's message, such as "Title is required" or "Left seats must be a number". No other key appears. |
| EditEventPage.ValidateReports | client/src/pages/EditEvent.jsx:46-67 | Each field has a message exactly when it breaks its rule. |
| EditEventPage.ValidateEmptyIffAcceptable | client/src/pages/EditEvent.jsx:46-67 | There are no messages if and only if the record is acceptable. |
| EditEventPage.SoldOutIsRefused | client/src/pages/EditEvent.jsx:52 | An event loaded with `leftSeats` 0 is refused with "Left seats must be a number". |
| EditEventPage.BuildPayload | client/src/pages/EditEvent.jsx:77-82 | The body is the submitted entries, then the banner only when a file is chosen, then `removeBanner` "true" only when the flag is set. |
| EditEventPage.SubmittedParts | client/src/pages/EditEvent.jsx:78-80 | The loop appends one text part for every entry except `_id` and `__v`, in the record's order. |
| EditEventPage.PayloadOmitsIds | client/src/pages/EditEvent.jsx:79 | No part of the body is named `_id` or `__v`. |
| EditEventPage.SubmittedFieldIsSent | client/src/pages/EditEvent.jsx:78-80 | Every other field of the record is in the filtered parts, with its value as text. |
| EditEventPage.PayloadCarriesRecord | client/src/pages/EditEvent.jsx:77-82 | Reading the body back gives every other field of the record, as text. |
| EditEventPage.PayloadCarriesBanner | client/src/pages/EditEvent.jsx:81-82 | The body has `banner` exactly when a file is chosen, and `removeBanner` "true" exactly when the flag is set. |
| EditEventPage.HandleSubmit | client/src/pages/EditEvent.jsx:69-95 | A record with messages shows them and is not sent. Otherwise the status line reports success or failure. |
| HomePage.IndexOfSpace | client/src/pages/Home.jsx:50 | Finds the first white-space character, with none before it. |
| HomePage.WordCountIsRuns | client/src/pages/Home.jsx:50 | `text.trim().split(/\s+/).filter(Boolean).length` is the number of maximal runs of non-space characters. |
| HomePage.PiecesAreRuns | client/src/pages/Home.jsx:50 | The non-empty pieces of the white-space split are as many as the runs. |
| HomePage.RunsOfTrim | client/src/pages/Home.jsx:50 | Trimming does not change the number of runs. |
| HomePage.NoRunsIffSpace | client/src/pages/Home.jsx:50 | A text has no runs if and only if it is all white space. |
| HomePage.WordCountZeroIffBlank | client/src/pages/Home.jsx:50 | The count is 0 if and only if the text is blank. |
| HomePage.RunsAcrossSpace | client/src/pages/Home.jsx:50 | The runs on either side of a white-space character add up. |
| HomePage.AddEmojiAddsOneWord | client/src/pages/Home.jsx:388-392 | Appending " " + emoji adds exactly one word. |
| HomePage.EmojiCannotBypassLimit | client/src/pages/Home.jsx:384-392 | Any of the seven emojis added to a 30-word comment disables submit. |
| HomePage.RepeatWordRuns | client/src/pages/Home.jsx:50 | n copies of "word", separated by spaces, count as n words. |
| HomePage.WordLimitExamples | client/src/pages/Home.jsx:20 | Submit is enabled at 25 words, disabled at 35, and disabled at 30 words plus an emoji. |
| HomePage.Rate | client/src/pages/Home.jsx:342 | Choosing a rating changes only the rating. |
| HomePage.Submit | client/src/pages/Home.jsx:58-66 | `handleSubmit` itself does not check the word limit. The submit button is disabled while the comment has more than 30 words (`disabled` at Home.jsx:422), so such a comment is not sent. A successful send resets the form to name "", rating 5, comment "". A failed send keeps it. |
| HomePage.Insert | client/src/pages/Home.jsx:74 | Inserting adds exactly that event: the list grows by one and its multiset of events gains only `e`. |
| HomePage.InsertKeepsSorted | client/src/pages/Home.jsx:74 | Inserting into a date-sorted list keeps it sorted, and nothing in the result is earlier than both `e` and the old front. |
| HomePage.SortByDate | client/src/pages/Home.jsx:74 | The sort returns a date-ordered permutation of the events. |
| HomePage.SortedFrontIsEarliest | client/src/pages/Home.jsx:74-75 | In a sorted list, no event in a prefix is later than an event outside it. |
| HomePage.FeaturedAreEarliest | client/src/pages/Home.jsx:74-75 | The featured events are min(3, n) of the events, in date order, and none is later than an event left out. |
| HomePage.FeaturedShown | client/src/pages/Home.jsx:82-86 | At most three events are shown. An event is shown exactly when it is featured and passes the search and tag filters. |
| EventsPage.TagsOf | client/src/pages/Events.jsx:27 | An event without tags contributes no pieces. |
| EventsPage.TagPiecesMembership | client/src/pages/Events.jsx:27 | A piece is in the flattened list exactly when some event carries it. |
| EventsPage.AllTags | client/src/pages/Events.jsx:27 | The tag menu lists no tag twice. |
| EventsPage.AllTagsAreTheEventsTags | client/src/pages/Events.jsx:27 | The menu offers a tag exactly when some event's trimmed pieces include it. |
| EventsPage.UntaggedAddNothing | client/src/pages/Events.jsx:27 | Events without tags add nothing to the menu. |
| EventsPage.FilteredEvents | client/src/pages/Events.jsx:29-33 | The shown events are an order-preserving subsequence. An event is shown exactly when it matches the search and the tag. |
| EventsPage.TagFilterDropsUntagged | client/src/pages/Events.jsx:31 | With a tag chosen, an event without tags is never shown. |
| EventsPage.NoFilterShowsAll | client/src/pages/Events.jsx:29-33 | An empty search with no tag shows every event, in order. |
| EventsPage.SearchIgnoresCase | client/src/pages/Events.jsx:30 | The search gives the same result for a term and its lower-case form. |
| EventsPage.ClearFilters | client/src/pages/Events.jsx:35-38 | Clearing both filters lists every event again. |
| EventsPage.SearchFindsTitle | client/src/pages/Events.jsx:30 | "react" matches "React Workshop" in Madhubani. |
| EventsPage.SearchSkipsOthers | client/src/pages/Events.jsx:30 | "react" does not match "Cultural Fest" in Patna. |
| EventRegistrantsPage.Filtered | client/src/pages/EventRegistrants.jsx:22-24 | The search keeps, in order, exactly the registrants whose lower-cased "name email" contains the lower-cased term. |
| EventRegistrantsPage.EmptySearchShowsAll | client/src/pages/EventRegistrants.jsx:22-24 | An empty search lists everyone. |
| EventRegistrantsPage.ShowingAllIffEveryoneMatches | client/src/pages/EventRegistrants.jsx:106-107 | "Showing X of Y" has X equal to Y exactly when the search matches every registrant. |
| EventRegistrantsPage.Remove | client/src/pages/EventRegistrants.jsx:48 | A delete keeps, in order, exactly the registrants with another id. |
| EventRegistrantsPage.RemoveTakesOnlyThatId | client/src/pages/EventRegistrants.jsx:48 | The list shrinks by exactly the number of entries with that id. |
| EventRegistrantsPage.RemoveUnknownChangesNothing | client/src/pages/EventRegistrants.jsx:48 | Deleting an id not in the list leaves it unchanged. |
| EventRegistrantsPage.Row | client/src/pages/EventRegistrants.jsx:71-76 | A row has four cells: name, email, mobile, then the message when there is one and "" when there is none. |
| EventRegistrantsPage.FileName | client/src/pages/EventRegistrants.jsx:79 | The name starts with "registrants_", ends with ".csv", and holds exactly the event id between them. |
| EventRegistrantsPage.ExportShown | client/src/pages/EventRegistrants.jsx:69-84 | The export has the fixed headers and one row per shown registrant, in order. |
| EventRegistrantsPage.ExportedRowsMatch | client/src/pages/EventRegistrants.jsx:69-84 | Every exported row is the row of a registrant that matches the search. |
| EventRegistrantsPage.DeleteAll | client/src/pages/EventRegistrants.jsx:61 | After delete-all the list is empty and nothing is shown. |
| EventRegistrantsPage.ExportExample | client/src/pages/EventRegistrants.jsx:69-84 | The export of sample registrants has the expected file name, headers and rows. |
| AllRegistrantsPage.EventTitleText | client/src/pages/AllRegistrants.jsx:61 | A present, non-empty title is written as itself. The column reads "Unknown" exactly when the title is missing or empty, or is itself "Unknown". It is never empty. |
| AllRegistrantsPage.TitledRow | client/src/pages/AllRegistrants.jsx:56-62 | A row is the single-event row followed by the event title. |
| AllRegistrantsPage.ExportShown | client/src/pages/AllRegistrants.jsx:52-69 | The file is `all_registrants.csv` with five headers and one row per shown registrant. |
| AllRegistrantsPage.TitleColumnIsTheOnlyDifference | client/src/pages/AllRegistrants.jsx:55-63 | The rows agree with the single-event export in their first four columns. |
| AllRegistrantsPage.Total | client/src/pages/AllRegistrants.jsx:111 | The total shown never exceeds the registrants loaded, and equals it for an empty search. |
| AllRegistrantsPage.ExportExample | client/src/pages/AllRegistrants.jsx:52-69 | The export of two sample registrants with their events' titles has the expected rows. The second has an empty message, which is written as "". |
| AllRegistrantsPage.ExportUnknownExample | client/src/pages/AllRegistrants.jsx:52-69 | A registrant whose event is missing is exported with "Unknown" in the title column. |
| AdminFeedbackPage.Filtered | client/src/pages/AdminFeedback.jsx:56-60 | The list is an order-preserving subsequence. An item is listed exactly when its name or comment matches and it is not hidden as verified. |
| AdminFeedbackPage.HideVerifiedDropsOnlyVerified | client/src/pages/AdminFeedback.jsx:57 | Hiding verified items removes exactly the verified ones from the unhidden list. |
| AdminFeedbackPage.ShowAllIgnoresVerification | client/src/pages/AdminFeedback.jsx:57-59 | Without hiding, only the search decides. |
| AdminFeedbackPage.VerifiedCount | client/src/pages/AdminFeedback.jsx:63 | The verified count never exceeds the total. |
| AdminFeedbackPage.CountsAddUp | client/src/pages/AdminFeedback.jsx:62-64 | `unverified = total - verified` is the number of unverified items, so the two add up to the total. |
| AdminFeedbackPage.Row | client/src/pages/AdminFeedback.jsx:45-51 | A row is the name, then `String(rating)` (which is numeric text), then the comment, then "Yes" exactly when verified, then the localised date. |
| AdminFeedbackPage.ExportAll | client/src/pages/AdminFeedback.jsx:43-54 | `feedback.csv` has one row per item of all the feedback, not only the listed items. |
| AdminFeedbackPage.ExportedYesIsVerifiedCount | client/src/pages/AdminFeedback.jsx:49 | The number of "Yes" rows is the verified count. |
| AdminDashboardPage.LeftWithinTotal | client/src/pages/AdminDashboard.jsx:33-34 | When every event has `0 <= leftSeats <= totalSeats`, the seats left total is between 0 and the total seats. |
| AdminDashboardPage.TotalsSplit | client/src/pages/AdminDashboard.jsx:33-34 | Each total is the deleted event's part plus the rest's. |
| AdminDashboardPage.SeatCellShows | client/src/pages/AdminDashboard.jsx:205 | The cell shows `leftSeats/totalSeats`, except that a `leftSeats` of 0 shows `totalSeats/totalSeats`. |
| AdminDashboardPage.SeatCellExample | client/src/pages/AdminDashboard.jsx:205 | 25 seats left of 100 shows "25/100". |
| AdminDashboardPage.Load | client/src/pages/AdminDashboard.jsx:32-36 | Loading sets the list and both totals, with missing values counted as 0. |
| AdminDashboardPage.Delete | client/src/pages/AdminDashboard.jsx:44-58 | A delete keeps, in order, exactly the other events. The totals are not recomputed. |
| AdminDashboardPage.DeletedSeatsStayCounted | client/src/pages/AdminDashboard.jsx:33-36 | After a delete the totals still include the deleted event's seats. |
| AdminDashboardPage.ExportRegistrations | client/src/pages/AdminDashboard.jsx:60-71 | `registrations_<eventId>.csv` has one row per registration, in order. |
| AdminDashboardPage.ExportAgreesWithRegistrantList | client/src/pages/AdminDashboard.jsx:63-65 | Every cell of the registrants page's export, under an empty search, equals the dashboard's cell with a missing message read as "". The dashboard itself passes a missing message on as missing. |

## Left out

- Concurrency between requests: each controller handler is one atomic step. In the source, the seat check and the decrement are separate awaited datastore calls, so concurrent registrations can oversell. The model cannot show this.
- Storage failures and partial writes: for example, a registration saved before `event.save` throws. Only the required-field validation failures are modelled, as the 400 "Registration failed" and 500 "Failed to create event" outcomes.
- SeatAccounting.Store.UpdateEvent: preserves the seat invariant only under `ResizeIsSound`. A capacity below the registrations held, or a `leftSeats` given without `totalSeats`, breaks `leftSeats == totalSeats - registrations`, as it does in the source.
- Cloudinary and filesystem banner deletion, the nodemailer transport and its `setTimeout` pause, bcrypt and JWT, and the multer upload configuration: all are foreign calls. Only the `bannerPath` field and the attempt count are kept.
- The feedback and contact controllers, the axios service files, the routes, and the server entry points: they are wiring, with no logic of their own.
- Rendering, toasts, navigation, modals, localStorage and the loading flags: all are user interface. The HTML `required` attributes of the home feedback form are also not modelled.
- Dates: they are abstract integers (the `new Date(date)` time value). `toLocaleString` is a parameter of the feedback export.
- HomePage.SortByDate: states a sorted permutation but not that the sort is stable. An engine's `Array.prototype.sort` is stable, and the model's insertion sort is too, but no lemma states it.
- Strings are sequences of characters. UTF-16 lengths of characters outside the basic plane, and case mapping beyond ASCII, are not modelled.
- Numbers are integers. Fractions, `Infinity`, and the exponent notation `String` uses from 1e21 on are not modelled; the `isNaN` test accepts decimal and exponent text.
- Form values: only text, numbers and `undefined` are modelled. Other JSON values loaded into the edit form are not.
- EditEventPage.Validate: requires that title, date, time and location are not numbers, because `.trim()` on a number throws in the source. The same requirement, `TextFieldsAreText` (or `!v.Num?` on a single value), sits on EditEventPage.TextError, EditEventPage.ValidateReports, EditEventPage.ValidateEmptyIffAcceptable, EditEventPage.SoldOutIsRefused and EditEventPage.HandleSubmit, for the same reason.
- The server's string-to-number coercion of multipart fields: the event fields reach the store already typed.
- The order of `find` results, and the `getAll*` listings, are not modelled.
- The HTML markup of the mail: only the interpolated values are kept.
- The delete-all of the all-registrants page: its button is commented out, and its handler passes only the token.
- HomePage.FeaturedShown: states membership and the bound of three, not the order of the shown events.
