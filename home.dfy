/**
 * The landing page: the feedback form with its 30-word limit and emoji
 * buttons, and the three earliest events with the same search and tag filter
 * as the event list.
 */
module HomePage {
  import JsText
  import Seqs
  import EventsPage

  // ---------------------------------------------------------------- words

  /** The index of the first white-space character of `s`, or `|s|`. */
  function IndexOfSpace(s: string): (k: nat)
    ensures k <= |s|
    ensures k < |s| ==> JsText.IsWhiteSpace(s[k])
    ensures forall i :: 0 <= i < k ==> !JsText.IsWhiteSpace(s[i])
  {
    if s == [] then 0
    else if JsText.IsWhiteSpace(s[0]) then 0
    else 1 + IndexOfSpace(s[1..])
  }

  /** `s.split(/\s+/)`: the pieces between maximal runs of white space. */
  function SplitOnSpaces(s: string): (pieces: seq<string>)
    ensures |pieces| >= 1
    decreases |s|
  {
    var k := IndexOfSpace(s);
    if k == |s| then [s]
    else
      var rest := JsText.TrimStart(s[k..]);
      assert rest != s[k..];
      [s[..k]] + SplitOnSpaces(rest)
  }

  /** `filter(Boolean)` on strings. */
  predicate NonEmpty(w: string) {
    w != ""
  }

  /** `getWordCount`: trim, split on white space, drop the empty pieces, count. */
  function WordCount(text: string): nat {
    |Seqs.Filter(SplitOnSpaces(JsText.Trim(text)), NonEmpty)|
  }

  /** The number of maximal runs of characters that are not white space. */
  function Runs(s: string): nat
    decreases |s|
  {
    if s == [] then 0
    else if JsText.IsWhiteSpace(s[0]) then Runs(s[1..])
    else 1 + Runs(s[IndexOfSpace(s)..])
  }

  /** Leading white space adds no run. */
  lemma {:induction false} RunsSkipLeadingSpace(w: string, s: string)
    requires JsText.AllWhiteSpace(w)
    ensures Runs(w + s) == Runs(s)
  {
    if w == [] {
      assert w + s == s;
    } else {
      assert (w + s)[0] == w[0];
      assert (w + s)[1..] == w[1..] + s;
      RunsSkipLeadingSpace(w[1..], s);
    }
  }

  /** A white-space character between two strings separates their runs. */
  lemma {:induction false} RunsAcrossSpace(a: string, c: char, b: string)
    requires JsText.IsWhiteSpace(c)
    ensures Runs(a + [c] + b) == Runs(a) + Runs(b)
    decreases |a|
  {
    var s := a + [c] + b;
    if a == [] {
      assert s[1..] == b;
    } else if JsText.IsWhiteSpace(a[0]) {
      assert s[1..] == a[1..] + [c] + b;
      RunsAcrossSpace(a[1..], c, b);
    } else {
      var k := IndexOfSpace(a);
      assert s[k] == if k < |a| then a[k] else c;
      assert IndexOfSpace(s) == k;
      assert s[k..] == a[k..] + [c] + b;
      RunsAcrossSpace(a[k..], c, b);
    }
  }

  /** A string of white space has no runs. */
  lemma NoRunsInSpace(w: string)
    requires JsText.AllWhiteSpace(w)
    ensures Runs(w) == 0
  {
    RunsSkipLeadingSpace(w, []);
    assert w + [] == w;
  }

  /** Trailing white space adds no run. */
  lemma RunsSkipTrailingSpace(s: string, w: string)
    requires JsText.AllWhiteSpace(w)
    ensures Runs(s + w) == Runs(s)
  {
    if w != [] {
      RunsAcrossSpace(s, w[0], w[1..]);
      assert s + w == s + [w[0]] + w[1..];
      NoRunsInSpace(w[1..]);
    } else {
      assert s + w == s;
    }
  }

  /** A non-empty string without white space is one run. */
  lemma OneRun(word: string)
    requires word != [] && JsText.NoWhiteSpace(word)
    ensures Runs(word) == 1
  {
    assert IndexOfSpace(word) == |word|;
  }

  /** The non-empty pieces of the split are the runs. */
  lemma {:induction false} PiecesAreRuns(t: string)
    ensures |Seqs.Filter(SplitOnSpaces(t), NonEmpty)| == Runs(t)
    decreases |t|
  {
    var k := IndexOfSpace(t);
    if k == |t| {
      if t != [] {
        assert t[k..] == [];
      }
    } else {
      var rest := JsText.TrimStart(t[k..]);
      var pieces := SplitOnSpaces(rest);
      var w := t[k..][..|t[k..]| - |rest|];
      assert t[k..] == w + rest;
      RunsSkipLeadingSpace(w, rest);
      PiecesAreRuns(rest);
      var split := [t[..k]] + pieces;
      assert SplitOnSpaces(t) == split;
      assert split[0] == t[..k] && split[1..] == pieces;
      if k == 0 {
        assert t[k..] == t;
        assert Seqs.Filter(split, NonEmpty) == Seqs.Filter(pieces, NonEmpty);
      } else {
        assert Runs(t) == 1 + Runs(t[k..]);
        assert Seqs.Filter(split, NonEmpty) == [t[..k]] + Seqs.Filter(pieces, NonEmpty);
      }
    }
  }

  /** Removing leading white space changes no run. */
  lemma RunsOfTrimStart(text: string)
    ensures Runs(JsText.TrimStart(text)) == Runs(text)
  {
    var u := JsText.TrimStart(text);
    var lead := text[..|text| - |u|];
    assert text == lead + u;
    RunsSkipLeadingSpace(lead, u);
  }

  /** Removing trailing white space changes no run. */
  lemma RunsOfTrimEnd(text: string)
    ensures Runs(JsText.TrimEnd(text)) == Runs(text)
  {
    var r := JsText.TrimEnd(text);
    var trail := text[|r|..];
    assert text == r + trail;
    RunsSkipTrailingSpace(r, trail);
  }

  /** Trimming changes no run. */
  lemma RunsOfTrim(text: string)
    ensures Runs(JsText.Trim(text)) == Runs(text)
  {
    RunsOfTrimStart(text);
    RunsOfTrimEnd(JsText.TrimStart(text));
  }

  /** The count the page shows is the number of runs of non-white-space characters. */
  lemma WordCountIsRuns(text: string)
    ensures WordCount(text) == Runs(text)
  {
    PiecesAreRuns(JsText.Trim(text));
    RunsOfTrim(text);
  }

  /** No words exactly when the text is white space only. */
  lemma {:induction false} NoRunsIffSpace(s: string)
    ensures Runs(s) == 0 <==> JsText.AllWhiteSpace(s)
    decreases |s|
  {
    if s != [] {
      NoRunsIffSpace(s[1..]);
      if JsText.IsWhiteSpace(s[0]) {
        assert JsText.AllWhiteSpace(s) <==> JsText.AllWhiteSpace(s[1..]);
      }
    }
  }

  lemma WordCountZeroIffBlank(text: string)
    ensures WordCount(text) == 0 <==> JsText.IsBlank(text)
  {
    WordCountIsRuns(text);
    NoRunsIffSpace(text);
    JsText.BlankIffAllWhiteSpace(text);
  }

  // ------------------------------------------------------------ feedback

  const MaxWords: nat := 30

  /** `disabled={wordCount > MAX_WORDS}`. */
  predicate SubmitDisabled(comment: string) {
    WordCount(comment) > MaxWords
  }

  /** The emoji buttons, in order. */
  const Emojis: seq<string> := ["\U{1F60A}", "\U{1F610}", "\U{1F61E}", "\U{1F525}", "\U{1F4AF}", "\U{1F44D}", "\U{1F44E}"]

  /** An emoji button: `prev.comment + ' ' + emoji`. */
  function AddEmoji(comment: string, emoji: string): string {
    comment + " " + emoji
  }

  /** Appending a word after a space adds exactly one word. */
  lemma AddEmojiAddsOneWord(comment: string, emoji: string)
    requires emoji != [] && JsText.NoWhiteSpace(emoji)
    ensures WordCount(AddEmoji(comment, emoji)) == WordCount(comment) + 1
  {
    WordCountIsRuns(comment);
    WordCountIsRuns(AddEmoji(comment, emoji));
    RunsAcrossSpace(comment, ' ', emoji);
    OneRun(emoji);
  }

  /** Each emoji button adds one word, so an emoji after thirty words disables the submit button. */
  lemma EmojiCannotBypassLimit(comment: string, i: int)
    requires 0 <= i < |Emojis|
    requires WordCount(comment) == MaxWords
    ensures SubmitDisabled(AddEmoji(comment, Emojis[i]))
  {
    EmojiIsOneWord(i);
    AddEmojiAddsOneWord(comment, Emojis[i]);
  }

  /** Each emoji is one character outside the Basic Multilingual Plane, so it is one word. */
  lemma EmojiIsOneWord(i: int)
    requires 0 <= i < |Emojis|
    ensures Emojis[i] != [] && JsText.NoWhiteSpace(Emojis[i])
  {
    var e := Emojis[i];
    assert |e| == 1 && e[0] > '\U{FFFF}';
  }

  /** `Array(n).fill('word').join(' ')`. */
  function RepeatWord(n: nat): string {
    if n == 0 then ""
    else if n == 1 then "word"
    else RepeatWord(n - 1) + " " + "word"
  }

  lemma WordIsOneRun()
    ensures Runs("word") == 1
  {
    OneRun("word");
  }

  lemma {:induction false} RepeatWordRuns(n: nat)
    ensures Runs(RepeatWord(n)) == n
  {
    if n == 1 {
      WordIsOneRun();
    } else if n > 1 {
      var front := RepeatWord(n - 1);
      RepeatWordRuns(n - 1);
      WordIsOneRun();
      assert RepeatWord(n) == front + [' '] + "word";
      RunsAcrossSpace(front, ' ', "word");
    }
  }

  /** Twenty-five words leave the button enabled, thirty-five disable it, and thirty words and an emoji disable it. */
  lemma WordLimitExamples()
    ensures !SubmitDisabled(RepeatWord(25))
    ensures SubmitDisabled(RepeatWord(35))
    ensures SubmitDisabled(AddEmoji(RepeatWord(30), Emojis[0]))
  {
    RepeatWordRuns(25);
    WordCountIsRuns(RepeatWord(25));
    RepeatWordRuns(35);
    WordCountIsRuns(RepeatWord(35));
    RepeatWordRuns(30);
    WordCountIsRuns(RepeatWord(30));
    EmojiCannotBypassLimit(RepeatWord(30), 0);
  }

  /** The feedback form; `rating` is the chosen number of stars. */
  datatype Feedback = Feedback(name: string, rating: int, comment: string)

  const FreshFeedback: Feedback := Feedback("", 5, "")

  /** A rating button sets the rating, and the limit does not change. */
  function Rate(f: Feedback, value: int): (g: Feedback)
    ensures g.rating == value && g.name == f.name && g.comment == f.comment
    ensures SubmitDisabled(g.comment) == SubmitDisabled(f.comment)
  {
    f.(rating := value)
  }

  /**
   * Submitting, with `accepted` standing for whether the server stored the
   * feedback: a disabled button sends nothing; a stored feedback resets the
   * form, which leaves the button enabled.
   */
  function Submit(f: Feedback, accepted: bool): (g: Feedback)
    ensures SubmitDisabled(f.comment) ==> g == f
    ensures !SubmitDisabled(f.comment) && accepted ==> g == FreshFeedback && !SubmitDisabled(g.comment)
    ensures !SubmitDisabled(f.comment) && !accepted ==> g == f
  {
    WordCountZeroIffBlank(FreshFeedback.comment);
    JsText.BlankIffAllWhiteSpace(FreshFeedback.comment);
    if SubmitDisabled(f.comment) then f
    else if accepted then FreshFeedback
    else f
  }

  // ------------------------------------------------------------ featured

  /** Ascending by date. */
  predicate SortedByDate(s: seq<EventsPage.Listing>) {
    forall i, j :: 0 <= i < j < |s| ==> s[i].date <= s[j].date
  }

  /** `e` placed before the first event of `s` that is not earlier, so that ties keep their order. */
  function Insert(e: EventsPage.Listing, s: seq<EventsPage.Listing>): (r: seq<EventsPage.Listing>)
    ensures |r| == |s| + 1
    ensures multiset(r) == multiset(s) + multiset{e}
  {
    if s == [] then [e]
    else if e.date <= s[0].date then [e] + s
    else
      assert s == [s[0]] + s[1..];
      [s[0]] + Insert(e, s[1..])
  }

  /** Inserting into a sorted list keeps it sorted, and nothing in it is earlier than both `e` and the old front. */
  lemma {:induction false} InsertKeepsSorted(e: EventsPage.Listing, s: seq<EventsPage.Listing>)
    requires SortedByDate(s)
    ensures SortedByDate(Insert(e, s))
    ensures s != [] ==> forall j :: 0 <= j < |Insert(e, s)| ==> Min(e.date, s[0].date) <= Insert(e, s)[j].date
  {
    if s == [] {
    } else if e.date <= s[0].date {
      ConsSorted(e, s);
      assert Insert(e, s) == [e] + s;
    } else {
      var tail := s[1..];
      var rest := Insert(e, tail);
      InsertKeepsSorted(e, tail);
      var r := [s[0]] + rest;
      assert Insert(e, s) == r;
      assert tail != [] ==> s[0].date <= tail[0].date;
      assert forall j :: 0 <= j < |rest| ==> s[0].date <= rest[j].date;
      ConsSorted(s[0], rest);
      assert forall j :: 1 <= j < |r| ==> r[j] == rest[j - 1];
    }
  }

  /** An event no later than any event of a sorted list can go in front of it. */
  lemma ConsSorted(x: EventsPage.Listing, s: seq<EventsPage.Listing>)
    requires SortedByDate(s)
    requires forall j :: 0 <= j < |s| ==> x.date <= s[j].date
    ensures SortedByDate([x] + s)
  {
    var r := [x] + s;
    forall i, j | 0 <= i < j < |r|
      ensures r[i].date <= r[j].date
    {
      assert r[j] == s[j - 1];
      if i > 0 {
        assert r[i] == s[i - 1];
      }
    }
  }

  /** `sort((a, b) => new Date(a.date) - new Date(b.date))`, as an insertion sort. */
  function SortByDate(s: seq<EventsPage.Listing>): (r: seq<EventsPage.Listing>)
    ensures |r| == |s|
    ensures SortedByDate(r)
    ensures multiset(r) == multiset(s)
  {
    if s == [] then []
    else
      assert s == [s[0]] + s[1..];
      var sorted := SortByDate(s[1..]);
      InsertKeepsSorted(s[0], sorted);
      Insert(s[0], sorted)
  }

  function Min(a: int, b: int): int {
    if a <= b then a else b
  }

  /** `sorted.slice(0, 3)`. */
  function Featured(events: seq<EventsPage.Listing>): seq<EventsPage.Listing> {
    SortByDate(events)[..Min(3, |events|)]
  }

  /** The front of a sorted sequence is no later than anything left behind it. */
  lemma SortedFrontIsEarliest(sorted: seq<EventsPage.Listing>, m: nat)
    requires SortedByDate(sorted) && m <= |sorted|
    ensures forall f, x :: f in sorted[..m] && x in multiset(sorted) - multiset(sorted[..m]) ==> f.date <= x.date
  {
    assert sorted == sorted[..m] + sorted[m..];
    assert multiset(sorted) == multiset(sorted[..m]) + multiset(sorted[m..]);
    forall f, x | f in sorted[..m] && x in multiset(sorted) - multiset(sorted[..m])
      ensures f.date <= x.date
    {
      assert x in sorted[m..];
      var i :| 0 <= i < m && sorted[i] == f;
      var j :| 0 <= j < |sorted| - m && sorted[m..][j] == x;
      assert sorted[m + j] == x;
    }
  }

  /** Up to three events are featured, in date order, none later than an event left out. */
  lemma FeaturedAreEarliest(events: seq<EventsPage.Listing>)
    ensures |Featured(events)| == Min(3, |events|)
    ensures SortedByDate(Featured(events))
    ensures multiset(Featured(events)) <= multiset(events)
    ensures forall f, x :: f in Featured(events) && x in multiset(events) - multiset(Featured(events)) ==> f.date <= x.date
  {
    var sorted := SortByDate(events);
    var m := Min(3, |events|);
    SortedFrontIsEarliest(sorted, m);
    assert sorted == sorted[..m] + sorted[m..];
    assert multiset(sorted) == multiset(sorted[..m]) + multiset(sorted[m..]);
  }

  /** The featured events the home page shows under its search and tag filter. */
  function FeaturedShown(events: seq<EventsPage.Listing>, term: string, tag: string): (shown: seq<EventsPage.Listing>)
    ensures |shown| <= 3
    ensures forall e :: e in shown <==> e in Featured(events) && EventsPage.Shown(e, term, tag)
  {
    FeaturedAreEarliest(events);
    EventsPage.FilteredEvents(Featured(events), term, tag)
  }
}
