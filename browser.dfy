/** The browser's persistent key/value storage, shared by every page of the site. */
module Browser {
  import opened Records

  /**
   * A stored value: a JSON list of news or event records, or some other text.
   * Text never holds the JSON encoding of a record list; such a value is NewsList or EventList.
   */
  datatype Stored = Text(text: string) | NewsList(news: seq<NewsItem>) | EventList(events: seq<EventItem>)

  const NewsKey: string := "schoolNews"
  const EventsKey: string := "schoolEvents"
  const AdminKey: string := "isAdmin"

  /** The storage object; pages read and write its entries. */
  class Storage {
    var entries: map<string, Stored>

    constructor (initial: map<string, Stored>)
      ensures entries == initial
    {
      entries := initial;
    }
  }
}
