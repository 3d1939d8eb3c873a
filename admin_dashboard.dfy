/** The admin dashboard component: two editable lists, the selected tab, and the storage it mirrors them to. */
module AdminDashboard {
  import opened Records
  import opened Browser
  import opened ContentStore
  import MainLayout

  /** One of the two lists: the tab the dashboard shows, or the list an image upload is for. */
  datatype ListKind = News | Events

  /** A field edit: the list is implied by the field. */
  datatype Edit = EditNews(newsField: NewsField) | EditEvent(eventField: EventField)

  class Dashboard {
    var news: seq<NewsItem>
    var events: seq<EventItem>
    var activeTab: ListKind
    const storage: Storage

    /** Storage holds exactly the current lists. */
    ghost predicate Persisted()
      reads this, storage
    {
      Mirrors(storage.entries, news, events)
    }

    /** Initial component state: both lists empty, the news tab selected. */
    constructor (storage: Storage)
      ensures this.storage == storage
      ensures news == [] && events == [] && activeTab == News
    {
      this.storage := storage;
      news, events, activeTab := [], [], News;
    }

    /** The save effect: both lists written under their keys. */
    method Save()
      modifies storage
      ensures storage.entries == Saved(old(storage.entries), news, events)
      ensures Persisted()
    {
      storage.entries := Saved(storage.entries, news, events);
      SavedMirrors(old(storage.entries), news, events);
    }

    /**
     * The start-up effects: each list is replaced by the stored one when its key holds one,
     * then both are saved. A stored value that is not such a list makes the load fail,
     * and then nothing changes.
     */
    method Mount() returns (ok: bool)
      modifies this, storage
      ensures ok <==> ReadNews(old(storage.entries)) != Malformed && ReadEvents(old(storage.entries)) != Malformed
      ensures ok ==> news == Restore(ReadNews(old(storage.entries)), old(news))
      ensures ok ==> events == Restore(ReadEvents(old(storage.entries)), old(events))
      ensures ok ==> storage.entries == Saved(old(storage.entries), news, events) && Persisted()
      ensures !ok ==> news == old(news) && events == old(events) && storage.entries == old(storage.entries)
      ensures activeTab == old(activeTab)
    {
      var readNews := ReadNews(storage.entries);
      var readEvents := ReadEvents(storage.entries);
      if readNews == Malformed || readEvents == Malformed {
        return false;
      }
      news := Restore(readNews, news);
      events := Restore(readEvents, events);
      Save();
      ok := true;
    }

    /** The add-news button; the clock supplies the id and the date text. */
    method AddNews(now: int, today: string)
      modifies this, storage
      ensures news == ContentStore.AddNews(old(news), now, today)
      ensures events == old(events) && activeTab == old(activeTab)
      ensures storage.entries == Saved(old(storage.entries), news, events) && Persisted()
    {
      news := ContentStore.AddNews(news, now, today);
      Save();
    }

    /** The add-event button; the clock supplies the id and the date text. */
    method AddEvent(now: int, today: string)
      modifies this, storage
      ensures events == ContentStore.AddEvent(old(events), now, today)
      ensures news == old(news) && activeTab == old(activeTab)
      ensures storage.entries == Saved(old(storage.entries), news, events) && Persisted()
    {
      events := ContentStore.AddEvent(events, now, today);
      Save();
    }

    /** The delete button of a news record. */
    method DeleteNews(id: int)
      modifies this, storage
      ensures news == ContentStore.DeleteNews(old(news), id)
      ensures events == old(events) && activeTab == old(activeTab)
      ensures storage.entries == Saved(old(storage.entries), news, events) && Persisted()
    {
      news := ContentStore.DeleteNews(news, id);
      Save();
    }

    /** The delete button of an event record. */
    method DeleteEvent(id: int)
      modifies this, storage
      ensures events == ContentStore.DeleteEvent(old(events), id)
      ensures news == old(news) && activeTab == old(activeTab)
      ensures storage.entries == Saved(old(storage.entries), news, events) && Persisted()
    {
      events := ContentStore.DeleteEvent(events, id);
      Save();
    }

    /** A text input's change: a news edit never touches events, and an event edit never touches news. */
    method UpdateItem(edit: Edit, id: int, value: string)
      modifies this, storage
      ensures edit.EditNews? ==> news == UpdateNews(old(news), id, edit.newsField, value) && events == old(events)
      ensures edit.EditEvent? ==> events == UpdateEvent(old(events), id, edit.eventField, value) && news == old(news)
      ensures activeTab == old(activeTab)
      ensures storage.entries == Saved(old(storage.entries), news, events) && Persisted()
    {
      match edit {
        case EditNews(f) =>
          news := UpdateNews(news, id, f, value);
        case EditEvent(f) =>
          events := UpdateEvent(events, id, f, value);
      }
      Save();
    }

    /** The image uploader's callback; the empty text is how a removed image arrives. */
    method HandleImageUpload(kind: ListKind, id: int, imageUrl: string)
      modifies this, storage
      ensures kind == News ==> news == SetNewsImage(old(news), id, imageUrl) && events == old(events)
      ensures kind == Events ==> events == SetEventImage(old(events), id, imageUrl) && news == old(news)
      ensures activeTab == old(activeTab)
      ensures storage.entries == Saved(old(storage.entries), news, events) && Persisted()
    {
      if kind == News {
        news := SetNewsImage(news, id, imageUrl);
      } else {
        events := SetEventImage(events, id, imageUrl);
      }
      Save();
    }

    /** A tab button: only the selection changes; the lists are not saved again. */
    method SelectTab(tab: ListKind)
      modifies this`activeTab
      ensures activeTab == tab
    {
      activeTab := tab;
    }

    /** The dashboard's logout button: drops the isAdmin entry and navigates home. */
    method Logout() returns (target: string)
      modifies storage
      ensures storage.entries == MainLayout.LoggedOut(old(storage.entries))
      ensures target == MainLayout.HomePath
    {
      storage.entries := MainLayout.LoggedOut(storage.entries);
      target := MainLayout.HomePath;
    }
  }
}
