/** The news and event lists as values: the transformations the dashboard's handlers apply, and load/save. */
module ContentStore {
  import opened Wrappers
  import opened Records
  import opened Browser
  import Decimal
  import Lists

  // ---- Adding ----

  /** The list with a placeholder news record appended. */
  function AddNews(news: seq<NewsItem>, id: int, date: string): (r: seq<NewsItem>)
    ensures |r| == |news| + 1 && r[..|news|] == news
    ensures r[|news|].id == id && r[|news|].date == date && r[|news|].imageUrl == None
    ensures r[|news|].title == NewsTitlePrefix + Decimal.FromNat(|news| + 1)
    ensures r[|news|].content == NewsContentPlaceholder
  {
    news + [NewNews(id, date, |news|)]
  }

  /** The list with a placeholder event record appended. */
  function AddEvent(events: seq<EventItem>, id: int, date: string): (r: seq<EventItem>)
    ensures |r| == |events| + 1 && r[..|events|] == events
    ensures r[|events|].id == id && r[|events|].date == date && r[|events|].imageUrl == None
    ensures r[|events|].title == EventTitlePrefix + Decimal.FromNat(|events| + 1)
    ensures r[|events|].description == EventDescriptionPlaceholder
    ensures r[|events|].location == EventLocationPlaceholder
  {
    events + [NewEvent(id, date, |events|)]
  }

  // ---- Deleting ----

  predicate HasNewsId(news: seq<NewsItem>, id: int) {
    exists n :: n in news && n.id == id
  }

  predicate HasEventId(events: seq<EventItem>, id: int) {
    exists e :: e in events && e.id == id
  }

  /** Every news record with this id removed, the others kept in order; an absent id changes nothing. */
  function DeleteNews(news: seq<NewsItem>, id: int): (r: seq<NewsItem>)
    ensures !HasNewsId(r, id)
    ensures forall n :: n in news && n.id != id <==> n in r
    ensures !HasNewsId(news, id) ==> r == news
  {
    Lists.RemoveKey(news, NewsId, id)
  }

  /** Every event record with this id removed, the others kept in order; an absent id changes nothing. */
  function DeleteEvent(events: seq<EventItem>, id: int): (r: seq<EventItem>)
    ensures !HasEventId(r, id)
    ensures forall e :: e in events && e.id != id <==> e in r
    ensures !HasEventId(events, id) ==> r == events
  {
    Lists.RemoveKey(events, EventId, id)
  }

  // ---- Editing ----

  /** One text field set on every news record with this id; nothing else changes. */
  function UpdateNews(news: seq<NewsItem>, id: int, f: NewsField, v: string): (r: seq<NewsItem>)
    ensures |r| == |news|
    ensures forall i :: 0 <= i < |news| && news[i].id != id ==> r[i] == news[i]
    ensures forall i :: 0 <= i < |news| && news[i].id == id ==>
              r[i].id == id && r[i].imageUrl == news[i].imageUrl && NewsFieldValue(r[i], f) == v
    ensures forall i, g :: 0 <= i < |news| && g != f ==> NewsFieldValue(r[i], g) == NewsFieldValue(news[i], g)
    ensures !HasNewsId(news, id) ==> r == news
  {
    Lists.UpdateWhere(news, NewsId, id, n => SetNewsField(n, f, v))
  }

  /** One text field set on every event record with this id; nothing else changes. */
  function UpdateEvent(events: seq<EventItem>, id: int, f: EventField, v: string): (r: seq<EventItem>)
    ensures |r| == |events|
    ensures forall i :: 0 <= i < |events| && events[i].id != id ==> r[i] == events[i]
    ensures forall i :: 0 <= i < |events| && events[i].id == id ==>
              r[i].id == id && r[i].imageUrl == events[i].imageUrl && EventFieldValue(r[i], f) == v
    ensures forall i, g :: 0 <= i < |events| && g != f ==> EventFieldValue(r[i], g) == EventFieldValue(events[i], g)
    ensures !HasEventId(events, id) ==> r == events
  {
    Lists.UpdateWhere(events, EventId, id, e => SetEventField(e, f, v))
  }

  /** The image set on every news record with this id (the empty text marks a removed image); nothing else changes. */
  function SetNewsImage(news: seq<NewsItem>, id: int, url: string): (r: seq<NewsItem>)
    ensures |r| == |news|
    ensures forall i :: 0 <= i < |news| && news[i].id != id ==> r[i] == news[i]
    ensures forall i :: 0 <= i < |news| && news[i].id == id ==> r[i].imageUrl == Some(url)
    ensures forall i :: 0 <= i < |news| ==>
              r[i].id == news[i].id && r[i].title == news[i].title &&
              r[i].content == news[i].content && r[i].date == news[i].date
    ensures !HasNewsId(news, id) ==> r == news
  {
    Lists.UpdateWhere(news, NewsId, id, (n: NewsItem) => n.(imageUrl := Some(url)))
  }

  /** The image set on every event record with this id (the empty text marks a removed image); nothing else changes. */
  function SetEventImage(events: seq<EventItem>, id: int, url: string): (r: seq<EventItem>)
    ensures |r| == |events|
    ensures forall i :: 0 <= i < |events| && events[i].id != id ==> r[i] == events[i]
    ensures forall i :: 0 <= i < |events| && events[i].id == id ==> r[i].imageUrl == Some(url)
    ensures forall i :: 0 <= i < |events| ==>
              r[i].id == events[i].id && r[i].title == events[i].title &&
              r[i].description == events[i].description && r[i].date == events[i].date &&
              r[i].location == events[i].location
    ensures !HasEventId(events, id) ==> r == events
  {
    Lists.UpdateWhere(events, EventId, id, (e: EventItem) => e.(imageUrl := Some(url)))
  }

  // ---- Properties relating several operations ----

  /** Adding a news record with a fresh id and then deleting that id gives back the list. */
  lemma AddThenDeleteNews(news: seq<NewsItem>, id: int, date: string)
    requires !HasNewsId(news, id)
    ensures DeleteNews(AddNews(news, id, date), id) == news
  {
    var added := NewNews(id, date, |news|);
    Lists.RemoveKeyAppend(news, [added], NewsId, id);
    assert Lists.RemoveKey([added], NewsId, id) == [];
  }

  /** Adding an event with a fresh id and then deleting that id gives back the list. */
  lemma AddThenDeleteEvent(events: seq<EventItem>, id: int, date: string)
    requires !HasEventId(events, id)
    ensures DeleteEvent(AddEvent(events, id, date), id) == events
  {
    var added := NewEvent(id, date, |events|);
    Lists.RemoveKeyAppend(events, [added], EventId, id);
    assert Lists.RemoveKey([added], EventId, id) == [];
  }

  /** Deleting keeps the surviving records in their original relative order. */
  lemma DeleteNewsKeepsOrder(a: seq<NewsItem>, b: seq<NewsItem>, id: int)
    ensures DeleteNews(a + b, id) == DeleteNews(a, id) + DeleteNews(b, id)
  {
    Lists.RemoveKeyAppend(a, b, NewsId, id);
  }

  /** Deleting keeps the surviving records in their original relative order. */
  lemma DeleteEventKeepsOrder(a: seq<EventItem>, b: seq<EventItem>, id: int)
    ensures DeleteEvent(a + b, id) == DeleteEvent(a, id) + DeleteEvent(b, id)
  {
    Lists.RemoveKeyAppend(a, b, EventId, id);
  }

  /** Two news records added one after the other get different placeholder titles. */
  lemma SuccessiveNewsTitlesDiffer(news: seq<NewsItem>, id1: int, id2: int, date1: string, date2: string)
    ensures var once := AddNews(news, id1, date1);
            var twice := AddNews(once, id2, date2);
            twice[|news|].title != twice[|news| + 1].title
  {
    var once := AddNews(news, id1, date1);
    var twice := AddNews(once, id2, date2);
    assert twice[|news|] == once[|news|];
    Decimal.FromNatInjective(|news| + 1, |news| + 2);
    var p, a, b := NewsTitlePrefix, Decimal.FromNat(|news| + 1), Decimal.FromNat(|news| + 2);
    assert (p + a)[|p|..] == a && (p + b)[|p|..] == b;
  }

  /** Two events added one after the other get different placeholder titles. */
  lemma SuccessiveEventTitlesDiffer(events: seq<EventItem>, id1: int, id2: int, date1: string, date2: string)
    ensures var once := AddEvent(events, id1, date1);
            var twice := AddEvent(once, id2, date2);
            twice[|events|].title != twice[|events| + 1].title
  {
    var once := AddEvent(events, id1, date1);
    var twice := AddEvent(once, id2, date2);
    assert twice[|events|] == once[|events|];
    Decimal.FromNatInjective(|events| + 1, |events| + 2);
    var p, a, b := EventTitlePrefix, Decimal.FromNat(|events| + 1), Decimal.FromNat(|events| + 2);
    assert (p + a)[|p|..] == a && (p + b)[|p|..] == b;
  }

  /** Starting from no news, two adds give "News Title 1" then "News Title 2". */
  lemma TwoAddsFromEmpty(id1: int, id2: int, date1: string, date2: string)
    ensures var twice := AddNews(AddNews([], id1, date1), id2, date2);
            |twice| == 2 && twice[0].title == "News Title 1" && twice[1].title == "News Title 2" &&
            twice[0].id == id1 && twice[1].id == id2
  {
  }

  // ---- Load and save ----

  /** What reading one key yields: nothing to restore, a list, or a value that is not a list of such records. */
  datatype Read<T> = Missing | Found(value: T) | Malformed

  /** The news list held under the news key; a missing key or empty text leaves the list as it is. */
  function ReadNews(entries: map<string, Stored>): (r: Read<seq<NewsItem>>)
    ensures NewsKey !in entries ==> r == Missing
    ensures r.Found? ==> NewsKey in entries && entries[NewsKey] != Text("")
    ensures NewsKey in entries && entries[NewsKey].NewsList? ==> r == Found(entries[NewsKey].news)
    ensures NewsKey in entries && entries[NewsKey] == Text("") ==> r == Missing
    ensures NewsKey in entries && entries[NewsKey] == EventList([]) ==> r == Found([])
    ensures r == Malformed <==>
              NewsKey in entries &&
              ((entries[NewsKey].Text? && entries[NewsKey].text != "") ||
               (entries[NewsKey].EventList? && entries[NewsKey] != EventList([])))
  {
    if NewsKey !in entries then Missing
    else match entries[NewsKey]
      case NewsList(s) => Found(s)
      case EventList(s) => if s == [] then Found([]) else Malformed
      case Text(t) => if t == "" then Missing else Malformed
  }

  /** The event list held under the events key; a missing key or empty text leaves the list as it is. */
  function ReadEvents(entries: map<string, Stored>): (r: Read<seq<EventItem>>)
    ensures EventsKey !in entries ==> r == Missing
    ensures r.Found? ==> EventsKey in entries && entries[EventsKey] != Text("")
    ensures EventsKey in entries && entries[EventsKey].EventList? ==> r == Found(entries[EventsKey].events)
    ensures EventsKey in entries && entries[EventsKey] == Text("") ==> r == Missing
    ensures EventsKey in entries && entries[EventsKey] == NewsList([]) ==> r == Found([])
    ensures r == Malformed <==>
              EventsKey in entries &&
              ((entries[EventsKey].Text? && entries[EventsKey].text != "") ||
               (entries[EventsKey].NewsList? && entries[EventsKey] != NewsList([])))
  {
    if EventsKey !in entries then Missing
    else match entries[EventsKey]
      case EventList(s) => Found(s)
      case NewsList(s) => if s == [] then Found([]) else Malformed
      case Text(t) => if t == "" then Missing else Malformed
  }

  /** The list after loading: the stored list when one was found, otherwise the current one. */
  function Restore<T>(read: Read<T>, current: T): T {
    if read.Found? then read.value else current
  }

  /** Storage after saving both lists: reading it back gives exactly those lists; other keys are untouched. */
  function Saved(entries: map<string, Stored>, news: seq<NewsItem>, events: seq<EventItem>): (r: map<string, Stored>)
    ensures ReadNews(r) == Found(news) && ReadEvents(r) == Found(events)
    ensures forall k :: k != NewsKey && k != EventsKey ==> (k in r <==> k in entries)
    ensures forall k :: k in entries && k != NewsKey && k != EventsKey ==> r[k] == entries[k]
  {
    entries[NewsKey := NewsList(news)][EventsKey := EventList(events)]
  }

  /** Storage mirrors the lists. */
  predicate Mirrors(entries: map<string, Stored>, news: seq<NewsItem>, events: seq<EventItem>) {
    NewsKey in entries && EventsKey in entries &&
    entries[NewsKey] == NewsList(news) && entries[EventsKey] == EventList(events)
  }

  /** Saving is the only write needed: after it storage mirrors the lists, and saving again changes nothing. */
  lemma SavedMirrors(entries: map<string, Stored>, news: seq<NewsItem>, events: seq<EventItem>)
    ensures Mirrors(Saved(entries, news, events), news, events)
    ensures Saved(Saved(entries, news, events), news, events) == Saved(entries, news, events)
    ensures Mirrors(entries, news, events) ==> Saved(entries, news, events) == entries
  {
  }
}
