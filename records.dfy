/** The two record types the admin dashboard edits, and the fields its form edits. */
module Records {
  import opened Wrappers
  import Decimal

  /** A news entry; imageUrl is missing until an image is uploaded. */
  datatype NewsItem = NewsItem(id: int, title: string, content: string, date: string, imageUrl: Option<string>)

  /** An event entry; like a news entry with a description and a location. */
  datatype EventItem =
    EventItem(id: int, title: string, description: string, date: string, location: string, imageUrl: Option<string>)

  /** The text fields the news form edits. */
  datatype NewsField = NewsTitle | NewsContent | NewsDate

  /** The text fields the event form edits. */
  datatype EventField = EventTitle | EventDescription | EventDate | EventLocation

  function NewsId(n: NewsItem): int { n.id }

  function EventId(e: EventItem): int { e.id }

  function NewsFieldValue(n: NewsItem, f: NewsField): string {
    match f
    case NewsTitle => n.title
    case NewsContent => n.content
    case NewsDate => n.date
  }

  function EventFieldValue(e: EventItem, f: EventField): string {
    match f
    case EventTitle => e.title
    case EventDescription => e.description
    case EventDate => e.date
    case EventLocation => e.location
  }

  /** The record with one text field replaced: that field reads v, every other field is as before. */
  function SetNewsField(n: NewsItem, f: NewsField, v: string): (r: NewsItem)
    ensures NewsFieldValue(r, f) == v
    ensures forall g :: g != f ==> NewsFieldValue(r, g) == NewsFieldValue(n, g)
    ensures r.id == n.id && r.imageUrl == n.imageUrl
  {
    match f
    case NewsTitle => n.(title := v)
    case NewsContent => n.(content := v)
    case NewsDate => n.(date := v)
  }

  /** The record with one text field replaced: that field reads v, every other field is as before. */
  function SetEventField(e: EventItem, f: EventField, v: string): (r: EventItem)
    ensures EventFieldValue(r, f) == v
    ensures forall g :: g != f ==> EventFieldValue(r, g) == EventFieldValue(e, g)
    ensures r.id == e.id && r.imageUrl == e.imageUrl
  {
    match f
    case EventTitle => e.(title := v)
    case EventDescription => e.(description := v)
    case EventDate => e.(date := v)
    case EventLocation => e.(location := v)
  }

  /** Placeholder texts of a freshly added record. */
  const NewsTitlePrefix: string := "News Title "
  const NewsContentPlaceholder: string := "News content here..."
  const EventTitlePrefix: string := "Event "
  const EventDescriptionPlaceholder: string := "Event description here..."
  const EventLocationPlaceholder: string := "School Auditorium"

  /** The news record added when the list already holds `count` records. */
  function NewNews(id: int, date: string, count: nat): NewsItem {
    NewsItem(id, NewsTitlePrefix + Decimal.FromNat(count + 1), NewsContentPlaceholder, date, None)
  }

  /** The event record added when the list already holds `count` records. */
  function NewEvent(id: int, date: string, count: nat): EventItem {
    EventItem(id, EventTitlePrefix + Decimal.FromNat(count + 1), EventDescriptionPlaceholder, date,
              EventLocationPlaceholder, None)
  }
}
