/** The calendar surface (the Calendar component): the widget's reported
    event list, the add-event dialog's fields, the selected date range, and
    the write-back of the list to localStorage. Dates are ISO-8601 strings
    as `Date.toISOString` gives them. */
module Calendar {
  import opened Browser
  import opened Events

  /** The date range the widget reports on a selection, as ISO strings. */
  datatype Selection = Selection(startIso: string, endIso: string)

  /** `iso.split("T")[0]`: the text before the first "T", or all of it. */
  function DatePart(iso: string): (r: string)
    ensures r <= iso
    ensures 'T' !in r
    ensures |r| < |iso| ==> iso[|r|] == 'T'
  {
    if iso == [] || iso[0] == 'T' then [] else [iso[0]] + DatePart(iso[1..])
  }

  /** A date part followed by "T" and a time has that date part. */
  lemma {:induction false} DatePartOfTimed(date: string, time: string)
    requires 'T' !in date
    ensures DatePart(date + "T" + time) == date
  {
    if date != [] {
      assert (date + "T" + time)[0] == date[0];
      assert (date + "T" + time)[1..] == date[1..] + "T" + time;
      DatePartOfTimed(date[1..], time);
    } else {
      assert (date + "T" + time)[0] == 'T';
    }
  }

  /** The start or end instant of a new event: the selection's start date at
      the typed time, or `fallback` when no time was typed. */
  function TimedOrFallback(sel: Selection, time: string, fallback: string): (r: string)
    ensures time == "" ==> r == fallback
    ensures time != "" ==> OnDateAt(r, sel.startIso, time)
  {
    DatePartOfTimed(DatePart(sel.startIso), time);
    if time != "" then DatePart(sel.startIso) + "T" + time else fallback
  }

  /** `s` lies on the same date as `iso` and its time-of-day text is `time`. */
  ghost predicate OnDateAt(s: string, iso: string, time: string)
  {
    DatePart(s) == DatePart(iso) && s[|DatePart(s)|..] == "T" + time
  }

  /** The record handleAddEvent hands to the widget's addEvent. */
  function BuildEvent(sel: Selection, title: string, description: string, startTime: string, endTime: string): (r: Event)
    ensures r.id == sel.startIso + "-" + title
    ensures r.title == title && r.description == description
    ensures r.allDay == Some(startTime == "" && endTime == "")
    ensures startTime == "" ==> r.start == sel.startIso
    ensures startTime != "" ==> OnDateAt(r.start, sel.startIso, startTime)
    ensures endTime == "" ==> r.end == Some(sel.endIso)
    ensures endTime != "" ==> r.end.Some? && OnDateAt(r.end.value, sel.startIso, endTime)
  {
    Event(
      sel.startIso + "-" + title,
      title,
      TimedOrFallback(sel, startTime, sel.startIso),
      Some(TimedOrFallback(sel, endTime, sel.endIso)),
      Some(startTime == "" && endTime == ""),
      description)
  }

  /** The id depends only on the selection's start and the title, so two
      events added from one selection with one title share an id. */
  lemma SameStartSameTitleCollide(sel1: Selection, sel2: Selection, title: string,
                                  d1: string, s1: string, e1: string, d2: string, s2: string, e2: string)
    requires sel1.startIso == sel2.startIso
    ensures BuildEvent(sel1, title, d1, s1, e1).id == BuildEvent(sel2, title, d2, s2, e2).id
    ensures !UniqueIds([BuildEvent(sel1, title, d1, s1, e1), BuildEvent(sel2, title, d2, s2, e2)])
  {
    var pair := [BuildEvent(sel1, title, d1, s1, e1), BuildEvent(sel2, title, d2, s2, e2)];
    assert pair[0].id == pair[1].id;
  }

  /** The list the load-on-mount effect leaves, or None when JSON.parse
      throws (there is no try/catch around it, so the error escapes). */
  function LoadedEvents(saved: Option<string>, parse: string -> Option<seq<Event>>, current: seq<Event>): (r: Option<seq<Event>>)
    ensures r.None? <==> Truthy(saved) && parse(saved.value).None?
    ensures !Truthy(saved) ==> r == Some(current)
    ensures Truthy(saved) && r.Some? ==> parse(saved.value) == r
  {
    if !Truthy(saved) then Some(current) else parse(saved.value)
  }

  /** The store after the write-back effect: written for every list, []
      included. */
  function PersistAll(items: map<string, string>, stringify: seq<Event> -> string, es: seq<Event>): (r: map<string, string>)
    ensures GetItem(r, EventsKey) == Some(stringify(es))
    ensures forall k :: k != EventsKey ==> GetItem(r, k) == GetItem(items, k)
  {
    items[EventsKey := stringify(es)]
  }

  /** Whatever list the calendar writes back, the empty one included, is
      what its next load produces. */
  lemma ReloadAfterWriteBack(json: Json<seq<Event>>, items: map<string, string>, es: seq<Event>, current: seq<Event>)
    requires RoundTrips(json)
    ensures LoadedEvents(GetItem(PersistAll(items, json.stringify, es), EventsKey), json.parse, current) == Some(es)
  {
    assert json.parse(json.stringify(es)) == Some(es) && json.stringify(es) != "";
  }

  /** The calendar surface. `store` is the tab's localStorage and `json`
      the JSON codec; both are fixed for the component's lifetime. */
  class Calendar {
    var currentEvents: seq<Event>
    var isDialogOpen: bool
    var newEventTitle: string
    var newEventDescription: string
    var startTime: string
    var endTime: string
    var selectedDate: Option<Selection>
    const store: Storage
    const json: Json<seq<Event>>

    constructor (store: Storage, json: Json<seq<Event>>)
      ensures currentEvents == [] && !isDialogOpen && selectedDate == None
      ensures newEventTitle == "" && newEventDescription == "" && startTime == "" && endTime == ""
      ensures this.store == store && this.json == json
    {
      currentEvents := [];
      isDialogOpen := false;
      newEventTitle := "";
      newEventDescription := "";
      startTime := "";
      endTime := "";
      selectedDate := None;
      this.store := store;
      this.json := json;
    }

    /** True when every field but the event list is as in `old`. */
    twostate predicate FormUnchanged()
      reads this
    {
      && isDialogOpen == old(isDialogOpen)
      && newEventTitle == old(newEventTitle)
      && newEventDescription == old(newEventDescription)
      && startTime == old(startTime)
      && endTime == old(endTime)
      && selectedDate == old(selectedDate)
    }

    /** The load-on-mount effect. `threw` is true when JSON.parse threw;
      the list is then left as it was. */
    method LoadOnMount() returns (threw: bool)
      modifies this
      ensures var loaded := LoadedEvents(GetItem(store.items, EventsKey), json.parse, old(currentEvents));
        && (threw <==> loaded.None?)
        && currentEvents == if threw then old(currentEvents) else loaded.value
      ensures threw ==> Truthy(GetItem(store.items, EventsKey))
      ensures FormUnchanged()
    {
      var loaded := LoadedEvents(GetItem(store.items, EventsKey), json.parse, currentEvents);
      threw := loaded.None?;
      if !threw {
        currentEvents := loaded.value;
      }
    }

    /** The write-back effect that runs whenever `currentEvents` changes. */
    method WriteBack()
      modifies store
      ensures store.items == PersistAll(old(store.items), json.stringify, currentEvents)
    {
      store.SetItem(EventsKey, json.stringify(currentEvents));
    }

    /** handleDateClick: remember the range and open the dialog. */
    method HandleDateClick(selected: Selection)
      modifies this
      ensures selectedDate == Some(selected) && isDialogOpen
      ensures currentEvents == old(currentEvents)
      ensures newEventTitle == old(newEventTitle) && newEventDescription == old(newEventDescription)
      ensures startTime == old(startTime) && endTime == old(endTime)
    {
      selectedDate := Some(selected);
      isDialogOpen := true;
    }

    /** The dialog's title input. */
    method SetNewEventTitle(value: string)
      modifies this`newEventTitle
      ensures newEventTitle == value
    {
      newEventTitle := value;
    }

    /** The dialog's description input. */
    method SetNewEventDescription(value: string)
      modifies this`newEventDescription
      ensures newEventDescription == value
    {
      newEventDescription := value;
    }

    /** The dialog's start-time input. */
    method SetStartTime(value: string)
      modifies this`startTime
      ensures startTime == value
    {
      startTime := value;
    }

    /** The dialog's end-time input. */
    method SetEndTime(value: string)
      modifies this`endTime
      ensures endTime == value
    {
      endTime := value;
    }

    /** handleCloseDialog: close the dialog and clear its four fields; the
      selection and the list stay. */
    method HandleCloseDialog()
      modifies this
      ensures !isDialogOpen
      ensures newEventTitle == "" && newEventDescription == "" && startTime == "" && endTime == ""
      ensures selectedDate == old(selectedDate) && currentEvents == old(currentEvents)
    {
      isDialogOpen := false;
      newEventTitle := "";
      newEventDescription := "";
      startTime := "";
      endTime := "";
    }

    /** handleAddEvent. `addEvent` is the widget's addEvent: it returns the
      event it created, or None when it rejects the input. Without a title
      or a selected range nothing happens. */
    method HandleAddEvent(addEvent: Event -> Option<Event>)
      modifies this
      ensures old(newEventTitle) == "" || old(selectedDate).None? ==>
        currentEvents == old(currentEvents) && FormUnchanged()
      ensures old(newEventTitle) != "" && old(selectedDate).Some? ==>
        var built := BuildEvent(old(selectedDate).value, old(newEventTitle), old(newEventDescription), old(startTime), old(endTime));
        && currentEvents == (match addEvent(built)
                              case Some(e) => old(currentEvents) + [e]
                              case None => old(currentEvents))
        && !isDialogOpen && selectedDate == old(selectedDate)
        && newEventTitle == "" && newEventDescription == "" && startTime == "" && endTime == ""
    {
      if newEventTitle != "" && selectedDate.Some? {
        var built := BuildEvent(selectedDate.value, newEventTitle, newEventDescription, startTime, endTime);
        var newEvent := addEvent(built);
        if newEvent.Some? {
          currentEvents := currentEvents + [newEvent.value];
        }
        HandleCloseDialog();
      }
    }

    /** The confirm action of handleEventClick's toast: drop every event
      with the clicked event's id. */
    method ConfirmDelete(clickedId: string)
      modifies this
      ensures currentEvents == RemoveById(old(currentEvents), clickedId)
      ensures FormUnchanged()
    {
      currentEvents := RemoveById(currentEvents, clickedId);
    }

    /** The widget's eventsSet callback: the reported list replaces the
      local one wholesale. */
    method EventsSet(events: seq<Event>)
      modifies this
      ensures currentEvents == events
      ensures FormUnchanged()
    {
      currentEvents := events;
    }
  }
}
