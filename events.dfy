/**
 * The public event list: the tag menu built from every event's tags, and the
 * search-and-tag filter (the home page runs the same filter on its featured
 * events).
 */
module EventsPage {
  import opened Wrappers
  import JsText
  import Seqs

  /** An event as the list receives it; `date` is its `new Date(date)` as a time value. */
  datatype Listing = Listing(title: string, location: string, tags: Option<string>, date: int)

  /**
   * `ev.tags?.split(',').map(tag => tag.trim()) || []`: the trimmed pieces of
   * the tags text; nothing when the event has no tags.
   */
  function TagsOf(e: Listing): (pieces: seq<string>)
    ensures e.tags.None? <==> pieces == []
  {
    match e.tags
    case None => []
    case Some(t) =>
      var raw := JsText.Split(t, ',');
      seq(|raw|, i requires 0 <= i < |raw| => JsText.Trim(raw[i]))
  }

  /** `events.flatMap(...)`: every event's tag pieces, in order. */
  function TagPieces(events: seq<Listing>): seq<string> {
    if events == [] then [] else TagsOf(events[0]) + TagPieces(events[1..])
  }

  /** A piece is in the flattened list exactly when some event carries it. */
  lemma {:induction false} TagPiecesMembership(events: seq<Listing>, tag: string)
    ensures tag in TagPieces(events) <==> exists i :: 0 <= i < |events| && tag in TagsOf(events[i])
  {
    if events != [] {
      TagPiecesMembership(events[1..], tag);
      if tag in TagPieces(events[1..]) {
        var i :| 0 <= i < |events[1..]| && tag in TagsOf(events[1..][i]);
        assert tag in TagsOf(events[i + 1]);
      }
      if exists i :: 0 <= i < |events| && tag in TagsOf(events[i]) {
        var i :| 0 <= i < |events| && tag in TagsOf(events[i]);
        if i > 0 {
          assert tag in TagsOf(events[1..][i - 1]);
        }
      }
    }
  }

  /** `[...new Set(...)]`: the tag menu. */
  function AllTags(events: seq<Listing>): (tags: seq<string>)
    ensures Seqs.Distinct(tags)
  {
    Seqs.Distinctly(TagPieces(events))
  }

  /** The menu offers a tag exactly when some event carries it, and each tag once. */
  lemma AllTagsAreTheEventsTags(events: seq<Listing>, tag: string)
    ensures tag in AllTags(events) <==> exists i :: 0 <= i < |events| && tag in TagsOf(events[i])
  {
    TagPiecesMembership(events, tag);
    var pieces := TagPieces(events);
    if tag in pieces {
      var k :| 0 <= k < |pieces| && pieces[k] == tag;
    }
  }

  predicate HasTags(e: Listing) {
    e.tags.Some?
  }

  /** Events without tags add nothing to the menu. */
  lemma {:induction false} UntaggedAddNothing(events: seq<Listing>)
    ensures TagPieces(Seqs.Filter(events, HasTags)) == TagPieces(events)
  {
    if events != [] {
      UntaggedAddNothing(events[1..]);
      var rest := Seqs.Filter(events[1..], HasTags);
      if HasTags(events[0]) {
        assert ([events[0]] + rest)[1..] == rest;
      }
    }
  }

  /** `` `${title} ${location}`.toLowerCase().includes(searchTerm.toLowerCase()) ``. */
  predicate MatchesSearch(e: Listing, term: string) {
    JsText.Includes(JsText.ToLower(e.title + " " + e.location), JsText.ToLower(term))
  }

  /** `selectedTag ? event.tags?.includes(selectedTag) : true`: a substring test on the raw tags text. */
  predicate MatchesTag(e: Listing, tag: string) {
    tag == "" || (e.tags.Some? && JsText.Includes(e.tags.value, tag))
  }

  predicate Shown(e: Listing, term: string, tag: string) {
    MatchesSearch(e, term) && MatchesTag(e, tag)
  }

  /** `filteredEvents`: the events passing both tests, in their order. */
  function FilteredEvents(events: seq<Listing>, term: string, tag: string): (shown: seq<Listing>)
    ensures |shown| <= |events|
    ensures Seqs.IsSubsequence(shown, events)
    ensures forall e :: e in shown <==> e in events && Shown(e, term, tag)
  {
    Seqs.Filter(events, e => Shown(e, term, tag))
  }

  /** With a tag chosen, an event without tags is never shown. */
  lemma TagFilterDropsUntagged(events: seq<Listing>, term: string, tag: string)
    requires tag != ""
    ensures forall e :: e in FilteredEvents(events, term, tag) ==> e.tags.Some?
  {
  }

  /** An empty search and no tag show every event, in order. */
  lemma NoFilterShowsAll(events: seq<Listing>)
    ensures FilteredEvents(events, "", "") == events
  {
    forall e | e in events
      ensures Shown(e, "", "")
    {
      JsText.IncludesEmpty(JsText.ToLower(e.title + " " + e.location));
    }
    Seqs.FilterKeepsAll(events, e => Shown(e, "", ""));
  }

  /** The search ignores the case of the term. */
  lemma SearchIgnoresCase(e: Listing, term: string)
    ensures MatchesSearch(e, term) <==> MatchesSearch(e, JsText.ToLower(term))
  {
    JsText.ToLowerIdempotent(term);
  }

  /** The page's filter state. */
  datatype State = State(events: seq<Listing>, term: string, tag: string)

  function Visible(s: State): seq<Listing> {
    FilteredEvents(s.events, s.term, s.tag)
  }

  /** `handleClearFilters`: both filters emptied, so every event is listed again. */
  function ClearFilters(s: State): (t: State)
    ensures t.events == s.events
    ensures Visible(t) == s.events
  {
    NoFilterShowsAll(s.events);
    State(s.events, "", "")
  }

  /** The search for "react" finds the "React Workshop" in Madhubani. */
  lemma SearchFindsTitle()
    ensures MatchesSearch(Listing("React Workshop", "Madhubani", Some("tech,workshop"), 0), "react")
  {
    var a := Listing("React Workshop", "Madhubani", Some("tech,workshop"), 0);
    var hay := JsText.ToLower(a.title + " " + a.location);
    assert hay[0] == 'r' && hay[1] == 'e' && hay[2] == 'a' && hay[3] == 'c' && hay[4] == 't';
    assert hay[0..5] == JsText.ToLower("react");
    assert JsText.OccursAt(hay, JsText.ToLower("react"), 0);
  }

  /** The search for "react" skips the "Cultural Fest" in Patna. */
  lemma SearchSkipsOthers()
    ensures !MatchesSearch(Listing("Cultural Fest", "Patna", Some("culture,festival"), 0), "react")
  {
    var b := Listing("Cultural Fest", "Patna", Some("culture,festival"), 0);
    var hay := JsText.ToLower(b.title + " " + b.location);
    var needle := JsText.ToLower("react");
    assert needle[0] == 'r' && needle[1] == 'e';
    assert |hay| == 19;
    assert forall i :: 0 <= i < 18 ==> hay[i] != 'r' || hay[i + 1] != 'e';
    forall i | 0 <= i <= |hay|
      ensures !JsText.OccursAt(hay, needle, i)
    {
      if 0 <= i <= |hay| - 5 {
        assert hay[i..i + 5][0] == hay[i];
        assert hay[i..i + 5][1] == hay[i + 1];
      }
    }
  }
}
