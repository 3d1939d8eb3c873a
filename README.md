# BCAS website: admin content store and site navigation, in Dafny

This project models the two pieces of logic in the school website's front end.

- **The admin dashboard** (`src/pages/AdminDashboard.tsx`). It keeps a list of news records and a list of event
  records, plus the selected tab. It loads both lists from browser storage under `schoolNews` and `schoolEvents`
  at start-up and writes both back after every change. Its handlers do four things:
  - add a record with placeholder text;
  - delete every record with a given id;
  - set one text field of every record with a given id;
  - set the image of every record with a given id.
- **The site shell** (`src/layout/MainLayout.tsx`). It decides which menu entry a path highlights and where a
  menu entry navigates. It reads the admin flag from storage and picks the admin route from it. Its logout handler
  clears the flag.

Layout:

| file | module | what it holds |
|---|---|---|
| `wrappers.dfy` | `Wrappers` | `Option`, for the optional image and for "no navigation" |
| `decimal.dfy` | `Decimal` | decimal rendering of the count in a placeholder title, and its inverse |
| `records.dfy` | `Records` | `NewsItem`, `EventItem`, the edited fields as closed enumerations, placeholder texts |
| `lists.dfy` | `Lists` | the two list transformations the handlers use (`filter` by id, `map` over matching ids) |
| `browser.dfy` | `Browser` | the storage object shared by the pages, and the storage keys |
| `content_store.dfy` | `ContentStore` | the handlers' transformations as pure functions on lists, and load/save |
| `admin_dashboard.dfy` | `AdminDashboard` | class `Dashboard`: the component's state and its handlers |
| `main_layout.dfy` | `MainLayout` | menu key/path mapping, admin flag, logout |

The component's state (`useState`) becomes the fields of class `Dashboard`. Each list handler replaces a list with the
result of a `ContentStore` function and then runs `Save`. `Save` is the effect that writes both lists, so every
handler's contract states the new lists and the new storage. Browser storage is an object of class `Storage`
holding a map from key to stored value. The model does not turn values into JSON text. A stored value is either a
list of news records, a list of event records, or some other text.

`JSON.parse` throws on a stored value that does not parse, and nothing catches it; `Mount` then returns false and
changes nothing.

## Model

| member | source | states |
|---|---|---|
| Decimal.FromNat | src/pages/AdminDashboard.tsx:43 | the count in a placeholder title renders as at least one decimal digit, with no leading zero |
| Decimal.ToNatFromNat | src/pages/AdminDashboard.tsx:43 | reading the rendered digits back gives the number that was rendered |
| Decimal.FromNatInjective | src/pages/AdminDashboard.tsx:43 | different counts render as different text |
| Records.SetNewsField | src/pages/AdminDashboard.tsx:72 | `{ ...item, [field]: value }` on a news record: the named field reads the value; every other text field, the id and the image are unchanged |
| Records.SetEventField | src/pages/AdminDashboard.tsx:76 | the same for an event record, over title, description, date and location |
| Lists.RemoveKey | src/pages/AdminDashboard.tsx:62 | `filter(item => item.id !== id)`: no survivor has the id, every record without the id survives, and an absent id leaves the list unchanged |
| Lists.RemoveKeyAppend | src/pages/AdminDashboard.tsx:62 | filtering distributes over concatenation, so survivors keep their relative order |
| Lists.RemoveKeyIdempotent | src/pages/AdminDashboard.tsx:62 | deleting the same id twice is deleting it once |
| Lists.UpdateWhere | src/pages/AdminDashboard.tsx:71-73 | `map(item => item.id === id ? change(item) : item)`: same length, matching records changed, all others identical, an absent id changes nothing |
| ContentStore.AddNews | src/pages/AdminDashboard.tsx:40-48 | one record appended at the end and the earlier records unchanged; it has the given id and date, the title "News Title " followed by the new length, content "News content here..." and no image |
| ContentStore.AddEvent | src/pages/AdminDashboard.tsx:50-59 | one record appended at the end and the earlier records unchanged; the title "Event " followed by the new length, "Event description here...", location "School Auditorium", no image |
| ContentStore.DeleteNews | src/pages/AdminDashboard.tsx:61-63 | no record with the id remains, exactly the records without the id remain, an absent id leaves the list unchanged |
| ContentStore.DeleteEvent | src/pages/AdminDashboard.tsx:65-67 | the same for events |
| ContentStore.UpdateNews | src/pages/AdminDashboard.tsx:69-73 | only the named field of only the records with the id changes; length, ids, images, other fields and other records are unchanged; an unknown id is a no-op |
| ContentStore.UpdateEvent | src/pages/AdminDashboard.tsx:74-78 | the same for events |
| ContentStore.SetNewsImage | src/pages/AdminDashboard.tsx:81-85 | matching records get exactly the given image text (the empty text included); id, title, content and date of every record and all non-matching records are unchanged |
| ContentStore.SetEventImage | src/pages/AdminDashboard.tsx:86-90 | the same for events, location included |
| ContentStore.AddThenDeleteNews | src/pages/AdminDashboard.tsx:47 | adding a news record with an id not yet in the list and then deleting that id restores the list |
| ContentStore.AddThenDeleteEvent | src/pages/AdminDashboard.tsx:58 | the same for events |
| ContentStore.DeleteNewsKeepsOrder | src/pages/AdminDashboard.tsx:62 | deleting from a concatenation is deleting from each part, in order |
| ContentStore.DeleteEventKeepsOrder | src/pages/AdminDashboard.tsx:66 | the same for events |
| ContentStore.SuccessiveNewsTitlesDiffer | src/pages/AdminDashboard.tsx:43 | two news records added in a row get different placeholder titles |
| ContentStore.SuccessiveEventTitlesDiffer | src/pages/AdminDashboard.tsx:53 | two events added in a row get different placeholder titles |
| ContentStore.TwoAddsFromEmpty | src/pages/AdminDashboard.tsx:40-47 | from an empty list, two adds give "News Title 1" then "News Title 2" with the ids supplied by the clock |
| ContentStore.ReadNews | src/pages/AdminDashboard.tsx:28-31 | a list is loaded only when the `schoolNews` key is present and its text is not empty; a missing key or empty text leaves the list alone without failing; an empty list of the other kind (the same JSON `[]`) loads as `[]`; the load fails exactly on non-empty text or a non-empty list of the other kind |
| ContentStore.ReadEvents | src/pages/AdminDashboard.tsx:29-32 | the same for `schoolEvents` |
| ContentStore.Saved | src/pages/AdminDashboard.tsx:35-38 | after saving, loading gives back exactly the saved lists, and every other storage key is untouched |
| ContentStore.SavedMirrors | src/pages/AdminDashboard.tsx:35-38 | after saving, storage mirrors the lists; saving again, or saving lists that are already mirrored, changes nothing |
| AdminDashboard.Dashboard.constructor | src/pages/AdminDashboard.tsx:23-25 | both lists start empty and the news tab is selected |
| AdminDashboard.Dashboard.Save | src/pages/AdminDashboard.tsx:35-38 | both lists are written under their keys and storage mirrors them |
| AdminDashboard.Dashboard.Mount | src/pages/AdminDashboard.tsx:27-38 | each list is replaced exactly when its read is `Found` (its own kind of list, or `[]` of the other kind), otherwise it stays as it was; then storage mirrors both; non-empty text or a non-empty list of the other kind fails the load and changes nothing |
| AdminDashboard.Dashboard.AddNews | src/pages/AdminDashboard.tsx:40-48 | news becomes `ContentStore.AddNews` of the old list; events and tab unchanged; storage mirrors the lists |
| AdminDashboard.Dashboard.AddEvent | src/pages/AdminDashboard.tsx:50-59 | events becomes `ContentStore.AddEvent` of the old list; news and tab unchanged; storage mirrors the lists |
| AdminDashboard.Dashboard.DeleteNews | src/pages/AdminDashboard.tsx:61-63 | news becomes `ContentStore.DeleteNews` of the old list; events unchanged; storage mirrors the lists |
| AdminDashboard.Dashboard.DeleteEvent | src/pages/AdminDashboard.tsx:65-67 | events becomes `ContentStore.DeleteEvent` of the old list; news unchanged; storage mirrors the lists |
| AdminDashboard.Dashboard.UpdateItem | src/pages/AdminDashboard.tsx:69-79 | a news edit changes news only and an event edit changes events only; storage mirrors the lists |
| AdminDashboard.Dashboard.HandleImageUpload | src/pages/AdminDashboard.tsx:81-91 | a news upload changes news only and an event upload changes events only; storage mirrors the lists |
| AdminDashboard.Dashboard.SelectTab | src/pages/AdminDashboard.tsx:109-120 | only the selected tab changes; lists and storage are untouched |
| AdminDashboard.Dashboard.Logout | src/pages/AdminDashboard.tsx:97-102 | the `isAdmin` entry is removed, other entries are untouched, the target is `/` |
| MainLayout.SelectedKey | src/layout/MainLayout.tsx:23-30 | `/`, `/about`, `/admissions`, `/history` give `home`, `about`, `admissions`, `history` respectively, and every other path gives the empty key |
| MainLayout.MenuTarget | src/layout/MainLayout.tsx:32-56 | `home`, `about`, `admissions`, `history`, `careers`, `opportunities` navigate to `/`, `/about`, `/admissions`, `/history`, `/careers`, `/opportunities` respectively; any other key causes no navigation |
| MainLayout.MenuRoundTrip | src/layout/MainLayout.tsx:23-45 | for home, about, admissions and history, the path a click leads to highlights that same entry |
| MainLayout.PathRoundTrip | src/layout/MainLayout.tsx:23-45 | on a highlighted path, clicking the highlighted entry leads back to that path |
| MainLayout.UnhighlightedEntries | src/layout/MainLayout.tsx:46-51 | careers and opportunities navigate, but their paths highlight no entry |
| MainLayout.AdminFlagExact | src/layout/MainLayout.tsx:20 | the admin flag is set exactly when the stored `isAdmin` value is the text "true", and is unset when the entry is missing |
| MainLayout.AdminTarget | src/layout/MainLayout.tsx:58-64 | the dashboard route exactly when the stored `isAdmin` value is the text "true", the login route otherwise |
| MainLayout.LoggedOut | src/layout/MainLayout.tsx:67 | the `isAdmin` entry is gone, so the flag is false, and every other entry is untouched |
| MainLayout.LogoutRevokesDashboard | src/layout/MainLayout.tsx:58-68 | after logging out, the admin button leads to the login route |
| MainLayout.HandleLogout | src/layout/MainLayout.tsx:66-70 | storage becomes the logged-out storage and the target is `/` |

## Left out

- JSON encoding and decoding: stored values are kept as typed lists. A `Text` value never holds the encoding of a
  record list; a list-shaped stored value is always `NewsList` or `EventList`. A non-empty stored value that is not a
  list of the expected records counts as malformed. The code would throw on unparsable text. For valid JSON of another
  shape, it would put the parsed value into state unchecked.
- AdminDashboard.Dashboard.Mount: when the load throws, React unmounts the component. The model only reports
  `ok == false` and changes nothing. The save effect's extra write of the empty initial lists, which the next render
  overwrites, is folded into one save after the load.
- Clock reads (`Date.now()`, `toLocaleDateString()`) are method parameters. Ids are not unique in the code, so
  uniqueness appears only as the precondition of the add-then-delete lemmas.
- The open `field: string` of `updateItem` is a closed enumeration of the fields the forms edit. Writing any other
  property name, such as `id`, is not modelled.
- Navigation is a returned target path: for the router and for the `window.location` redirect only the target is
  modelled. `window.location.reload()` is not modelled.
- `src/pages/ImageUploader.tsx` (drop zone, object URLs, the asynchronous reader that calls back twice) is I/O. The
  model takes the string it hands over, with the empty text meaning a removed image.
- The admin section's inline Dashboard button (`src/layout/MainLayout.tsx:119`) is an unconditional navigation,
  with nothing to state beyond its target.
- `src/App.tsx` routing, the read-only pages, and all markup and styling are not part of this model.
