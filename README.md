# Calendar event state, modelled in Dafny

This project models the event-handling state of a small browser calendar
app. The app has two surfaces over one list of events kept in the tab's
localStorage under the key `"events"`:

- the **list surface** (`EventsPage`, app/events/page.tsx) loads the list
  once on mount, deletes by id, edits one row at a time through a partial
  edit buffer, and writes the list back whenever it changes, but only when
  it is non-empty;
- the **calendar surface** (`Calendar`, components/Calender.tsx) holds the
  list reported by the calendar widget, selects a date range, adds an event
  through a dialog, deletes a clicked event after confirmation, replaces its
  list when the widget reports a new one, and writes the list back on every
  change, the empty list included.

Files and modules:

- `browser.dfy` (`Browser`): `Option`; localStorage as the class `Storage`
  over a `map<string, string>`; JSON.stringify / JSON.parse as the pair of
  function values `Json`, with `RoundTrips` stating what JSON guarantees
  (parsing the text of a value gives the value, and the text is never "").
- `events.dfy` (`Events`): the `Event` record and `RemoveById`, the
  delete-by-id filter both surfaces apply, with its lemmas.
- `events_page.dfy` (`EventsPage`): the edit buffer, `WithEdit`
  (handleEditChange), `Merge` and `SaveEdit` (saveEditedEvent), the load and
  write-back functions, and the class `EventsPage` whose fields are the
  component's state.
- `calendar.dfy` (`Calendar`): `DatePart` (`split("T")[0]`), `BuildEvent`
  (the record handed to the widget), the load and write-back functions, and
  the class `Calendar` whose fields are the component's state.
- `sync.dfy` (`Sync`): what one surface sees of the other's writes.

Each React handler is a method of its surface's class that changes the
fields the handler sets; each `useEffect` is a method the caller runs after
the change it reacts to. JSON, the widget's `addEvent` and the ISO strings of
the selected dates are parameters.

Behaviours of the code that the model reproduces, some of them surprising:

- Begin edit and Cancel only set `editEventId`; neither clears the edit
  buffer, so an edit typed on one row and cancelled is applied to the next
  row saved (`CancelledEditLeaksIntoNextSave`).
- The calendar has no try/catch around JSON.parse: a stored payload that
  does not parse crashes the component, and its list never takes the stored
  events (`threw` in `Calendar.Calendar.LoadOnMount`; see "## Left out" for
  which parse throws first). Only the list surface recovers, to [].
- `handleEditChange("extendedProps", v)` replaces the buffer's nested
  object by a string, so a description typed before it is lost and the save
  keeps the event's old description (`EventsPage.EditTopLevel`,
  `EventsPage.MergeAfterTopLevelEdit`). The form never sends that field.
- The list surface never writes an empty list, so deleting its last event
  leaves the old payload stored and the next load shows the event again
  (`DeletingLastEventResurrectsIt`).
- The end of a timed event uses the date part of the selection's START,
  not of its end (components/Calender.tsx:104).
- No operation checks id uniqueness; the calendar derives ids from the
  selection start and the title, so two such events collide.

## Model

| member | source | states |
|---|---|---|
| `Browser.Storage.SetItem` | components/Calender.tsx:49 | localStorage.setItem overwrites the one key and keeps every other key |
| `Events.RemoveById` | app/events/page.tsx:58 | the result holds exactly the events of the input whose id differs from the given id, and is no longer than the input |
| `Events.RemoveByIdCounts` | app/events/page.tsx:58 | each surviving event keeps its multiplicity; no copy of an event with the deleted id survives |
| `Events.RemoveByIdAppend` | app/events/page.tsx:58 | filtering a concatenation filters each part and keeps the parts in order, so survivors keep their original order |
| `Events.RemoveByIdAbsent` | app/events/page.tsx:58 | if no event has the id, the list is unchanged |
| `Events.RemoveByIdIdempotent` | components/Calender.tsx:68-72 | deleting the same id twice equals deleting it once |
| `Events.RemoveByIdKeepsUnique` | app/events/page.tsx:58 | deleting never introduces a duplicate id |
| `Events.IdsDetermineUniqueness` | app/events/page.tsx:20-29 | two lists with the same ids in the same order are both unique or both not |
| `Events.IdsAt` | app/events/page.tsx:21 | the id list has one entry per event, at the event's index |
| `Browser.GetItem` | app/events/page.tsx:38 | localStorage.getItem gives the stored text exactly when the key is present, and null otherwise |
| `EventsPage.WithEdit` | app/events/page.tsx:83-93 | only the edited top-level key can be added; a plain field is set to the value with the nested props kept; a prefixed field leaves the top-level fields alone; the description the merge will read becomes the typed text for `extendedProps.description`, nothing for the bare `extendedProps`, and is otherwise kept |
| `EventsPage.Merge` | app/events/page.tsx:99-106 | allDay is always kept; a buffered title or start becomes that field, a buffered end becomes the end, and id, title, start and end are kept when the buffer has no such key; a non-empty buffered description becomes the description, an empty one keeps the old, so the result's description is non-empty exactly when either is |
| `EventsPage.LoadedEvents` | app/events/page.tsx:37-46 | with nothing or "" stored the list is unchanged; otherwise it is the parsed list, or [] when parsing fails |
| `EventsPage.PersistList` | app/events/page.tsx:50-53 | a non-empty list is stored under "events", an empty one leaves that key as it was; no other key changes |
| `Calendar.LoadedEvents` | components/Calender.tsx:36-45 | the load fails exactly when a truthy payload does not parse; with nothing or "" stored the list is unchanged; otherwise it is the parsed list |
| `Calendar.PersistAll` | components/Calender.tsx:47-52 | every list, [] included, is stored under "events"; no other key changes |
| `Calendar.TimedOrFallback` | components/Calender.tsx:99-105 | with no time typed the fallback instant is used; otherwise the instant lies on the selection's start date at the typed time |
| `EventsPage.SaveEdit` | app/events/page.tsx:96-109 | length is kept; events whose id is not the edited id are unchanged; the matched event is the merge; with no edited id or no match the list is unchanged |
| `EventsPage.EditDescription` | app/events/page.tsx:84-89 | an `extendedProps.description` edit sets only the buffer's description: top-level fields and other extendedProps keys are kept, and the nested keys are the old ones (none for a buffer without nested props) plus description |
| `EventsPage.EditTopLevel` | app/events/page.tsx:90-91 | a top-level edit sets that buffer field to the value, "" included, and leaves the other fields and the nested props alone; the bare field `extendedProps` discards the nested props and so any buffered description |
| `EventsPage.FormEditStaysFedByForm` | app/events/page.tsx:133-155 | the form's four inputs keep the buffer within title/start/end and extendedProps.description |
| `EventsPage.MergeEmpty` | app/events/page.tsx:99-106 | merging the empty buffer leaves the event as it was |
| `EventsPage.MergeAfterTopLevelEdit` | app/events/page.tsx:91-106 | adding a title, start or end edit to the buffer replaces exactly that field of the merged event, even with ""; the bare `extendedProps` edit reverts the merged description to the event's own; other top-level keys but id have no effect |
| `EventsPage.MergeAfterDescriptionEdit` | app/events/page.tsx:102-106 | adding a description edit changes only the merged description: the new text if non-empty, else the event's old description |
| `EventsPage.MergeIgnoresOtherProps` | app/events/page.tsx:102-106 | extendedProps keys other than description never reach the saved event |
| `EventsPage.MergeIdempotent` | app/events/page.tsx:99-106 | merging the same buffer twice equals merging it once |
| `EventsPage.FedByFormKeepsId` | app/events/page.tsx:99-106 | a buffer filled by the form never changes the event's id or allDay |
| `EventsPage.SaveEditKeepsIds` | app/events/page.tsx:96-109 | with a form-fed buffer, saving keeps the list's ids in place (length and order included) |
| `EventsPage.SaveEditKeepsUnique` | app/events/page.tsx:96-109 | with a form-fed buffer, saving never introduces a duplicate id |
| `EventsPage.SaveEditCommutesWithDelete` | app/events/page.tsx:58-109 | with a form-fed buffer, saving then deleting equals deleting then saving |
| `EventsPage.ReloadAfterWriteBack` | app/events/page.tsx:37-53 | a non-empty list written back is what the next load produces |
| `EventsPage.DeletingLastEventResurrectsIt` | app/events/page.tsx:50-53 | deleting the only stored event leaves the store as it was, so the next load brings the event back |
| `EventsPage.StaleBufferReachesNextRow` | app/events/page.tsx:95-113 | on any list, a title in a fresh buffer is given to every row whose id is the one saved next, and every other row is unchanged |
| `EventsPage.CancelledEditLeaksIntoNextSave` | app/events/page.tsx:159-203 | load any list, begin edit on one id, type a title, cancel, begin edit on a second id, save: the rows with the second id get the title and all other rows are unchanged |
| `EventsPage.EventsPage.constructor` | app/events/page.tsx:32-34 | the page starts with no events, no edited id and the empty buffer |
| `EventsPage.EventsPage.LoadOnMount` | app/events/page.tsx:37-46 | nothing or "" stored: events unchanged; parse fails: events become []; else the parsed list; edit state untouched |
| `EventsPage.EventsPage.WriteBack` | app/events/page.tsx:50-53 | the store gets the list's JSON only when the list is non-empty, otherwise it is untouched |
| `EventsPage.EventsPage.DeleteEvent` | app/events/page.tsx:56-58 | events become the filtered list; edit state untouched |
| `EventsPage.EventsPage.BeginEdit` | app/events/page.tsx:203 | only the edited id changes; events and buffer are untouched |
| `EventsPage.EventsPage.CancelEdit` | app/events/page.tsx:159 | the edited id becomes null; events and buffer are untouched |
| `EventsPage.EventsPage.HandleEditChange` | app/events/page.tsx:83-93 | the buffer becomes `WithEdit` of the old buffer; events and edited id untouched |
| `EventsPage.EventsPage.SaveEditedEvent` | app/events/page.tsx:95-113 | events become the saved list (same length; unchanged when no id is edited); edited id null and buffer empty afterwards |
| `Calendar.DatePart` | components/Calender.tsx:100 | the result is a prefix of the ISO string without "T", followed in it by "T" unless it is the whole string |
| `Calendar.DatePartOfTimed` | components/Calender.tsx:99-105 | the date part of `date + "T" + time` is `date` when `date` has no "T" |
| `Calendar.BuildEvent` | components/Calender.tsx:99-117 | id is start ISO + "-" + title; allDay iff both times empty; start/end fall back to the selection, else lie on the selection's start date at the typed time; title and description from the form |
| `Calendar.SameStartSameTitleCollide` | components/Calender.tsx:109 | two events built from one selection start and one title share an id, so a list holding both is not unique |
| `Calendar.ReloadAfterWriteBack` | components/Calender.tsx:40-49 | any list the calendar writes back, [] included, is what its next load produces |
| `Calendar.Calendar.constructor` | components/Calender.tsx:28-34 | the calendar starts with no events, the dialog closed, empty form fields and no selection |
| `Calendar.Calendar.LoadOnMount` | components/Calender.tsx:36-45 | nothing or "" stored: list unchanged; parse fails: the effect throws and the list stays; else the parsed list |
| `Calendar.Calendar.WriteBack` | components/Calender.tsx:47-52 | the store gets the list's JSON on every change, [] included |
| `Calendar.Calendar.HandleDateClick` | components/Calender.tsx:54-57 | selection recorded and dialog opened; events and form untouched |
| `Calendar.Calendar.SetNewEventTitle` | components/Calender.tsx:212 | the title field takes the input's value |
| `Calendar.Calendar.SetNewEventDescription` | components/Calender.tsx:220 | the description field takes the input's value |
| `Calendar.Calendar.SetStartTime` | components/Calender.tsx:228 | the start-time field takes the input's value |
| `Calendar.Calendar.SetEndTime` | components/Calender.tsx:235 | the end-time field takes the input's value |
| `Calendar.Calendar.HandleCloseDialog` | components/Calender.tsx:85-91 | dialog closed and title, description, start and end time reset to ""; selection and events kept |
| `Calendar.Calendar.HandleAddEvent` | components/Calender.tsx:93-126 | without title or selection nothing changes; otherwise the widget's event (if any) is appended at the end, the dialog closes and the form resets, whether or not the widget accepted; the selection stays |
| `Calendar.Calendar.ConfirmDelete` | components/Calender.tsx:66-72 | the list keeps exactly the events whose id differs from the clicked one, in order; form untouched |
| `Calendar.Calendar.EventsSet` | components/Calender.tsx:192 | the widget's list replaces the local one wholesale; form untouched |
| `Sync.ListLoadsCalendarSnapshot` | components/Calender.tsx:47-52 | whatever the calendar writes back, [] included, the list surface loads on its next mount |
| `Sync.CalendarLoadsListSnapshot` | app/events/page.tsx:50-53 | a non-empty list written by the list surface is what the calendar loads; an empty one leaves the calendar loading the old payload |
| `Sync.CalendarDeleteIsFinal` | components/Calender.tsx:68-72 | after a calendar delete and write-back, neither surface's next load has an event with that id |
| `Sync.ListDeleteIsFinalUnlessEmptied` | app/events/page.tsx:50-58 | after a list delete that leaves something, the next load has no event with that id |
| `Sync.StandupScenario` | components/Calender.tsx:109-116 | "Standup" on a whole-day selection with no times is all-day with id "2024-06-03T00:00:00.000Z-Standup" |
| `Sync.AddOnCalendarThenList` | components/Calender.tsx:93-124 | from any stored list and any dialog input (title, description, start and end time), the event the widget accepts is appended to the calendar's loaded list, and once written back that whole list is what a list surface mounted afterwards shows |

## Left out

- JSON.stringify and JSON.parse are uninterpreted function values; the
  lemmas that need more of them require `RoundTrips`. Serialising the
  widget's `EventApi` objects is taken to give plain `Event` records.
- `parse` yields either a list of events or a failure; a stored payload
  that is valid JSON but not an array of events (`"null"`, an object) is
  outside the model.
- `Date` construction, time zones and `toISOString` are not modelled: the
  selected range is a pair of ISO strings, and the start and end handed to
  the widget are the strings `new Date(...)` is built from.
- The calendar widget is not modelled: `addEvent` is a function parameter
  returning `Option<Event>`, `unselect()`, `event.remove()`, dragging and
  resizing are left out, and `eventsSet` receives an arbitrary list (the
  list the widget reports after taking its initial events is one such
  list).
- The render's `JSON.parse(localStorage.getItem("events") || "[]")` for the
  widget's `initialEvents` (components/Calender.tsx:193-197) is not a
  separate step. It reads the same payload before any effect runs, so an
  unparsable payload already crashes the first render and the load effect
  never runs; `threw` in `Calendar.Calendar.LoadOnMount` stands for that
  crash, whichever parse raises it.
- The confirmation toasts, all notifications, the dialog's
  `onOpenChange` (closing by the overlay), JSX rendering and `formatDate`
  are left out; a confirmed delete is a direct method call.
- React's scheduling is left out: each `useEffect` is a method the caller
  runs after the change, and stale closures are not modelled.
- The `typeof window !== "undefined"` guards are taken as true (the code
  runs in a browser).
- `EventsPage.Merge` reads only the top-level keys `id`, `title`, `start`
  and `end` of the buffer; in JavaScript any other top-level key the buffer
  held (a string `allDay`, say) would also be copied into the saved record.
  A top-level `extendedProps` is the exception: the explicit nested object
  of the merge (app/events/page.tsx:102-106) overrides it. The form never
  sets such keys (`FedByForm`).
- `EventsPage.WithEdit` models the bare field `"extendedProps"` as
  dropping the nested object. In JavaScript the buffer then holds the typed
  string there, and a later nested edit spreads that string's characters
  into index keys beside the new one; the merge reads neither, so the saved
  record is the same.
- An `Event`'s `extendedProps` is its `description` alone; other keys a
  stored record's `extendedProps` might carry are not modelled.
- components/Navbar.tsx is not part of this model (routing and theme UI).
- `Browser.Storage.SetItem` and `json.stringify` never fail in the model.
  In the code a quota error from `localStorage.setItem` escapes both
  write-back effects uncaught (app/events/page.tsx:52,
  components/Calender.tsx:49); storage limits are not modelled.
- Two tabs or two mounted surfaces writing the store concurrently are not
  modelled; the surfaces run one after the other on one `Storage`.
