/** What the two surfaces see of each other. They share nothing but the
    "events" key of localStorage: each loads it once on mount and writes its
    own snapshot back, so a change on one surface reaches the other only
    through a later mount. */
module Sync {
  import opened Browser
  import opened Events
  import EventsPage
  import Calendar

  /** Whatever the calendar writes back, the empty list included, is what
      the list surface loads on its next mount. */
  lemma ListLoadsCalendarSnapshot(json: Json<seq<Event>>, items: map<string, string>, es: seq<Event>, current: seq<Event>)
    requires RoundTrips(json)
    ensures EventsPage.LoadedEvents(GetItem(Calendar.PersistAll(items, json.stringify, es), EventsKey), json.parse, current) == es
  {
    assert json.parse(json.stringify(es)) == Some(es) && json.stringify(es) != "";
  }

  /** A non-empty list written back by the list surface is what the
      calendar loads on its next mount; an empty one leaves the calendar
      loading whatever was stored before. */
  lemma CalendarLoadsListSnapshot(json: Json<seq<Event>>, items: map<string, string>, es: seq<Event>, current: seq<Event>)
    requires RoundTrips(json)
    ensures |es| > 0 ==>
      Calendar.LoadedEvents(GetItem(EventsPage.PersistList(items, json.stringify, es), EventsKey), json.parse, current) == Some(es)
    ensures |es| == 0 ==>
      Calendar.LoadedEvents(GetItem(EventsPage.PersistList(items, json.stringify, es), EventsKey), json.parse, current)
        == Calendar.LoadedEvents(GetItem(items, EventsKey), json.parse, current)
  {
    assert json.parse(json.stringify(es)) == Some(es) && json.stringify(es) != "";
  }

  /** After a confirmed delete on the calendar and its write-back, no event
      with that id comes back on either surface's next load. */
  lemma CalendarDeleteIsFinal(json: Json<seq<Event>>, items: map<string, string>, es: seq<Event>, id: string, current: seq<Event>)
    requires RoundTrips(json)
    ensures var stored := GetItem(Calendar.PersistAll(items, json.stringify, RemoveById(es, id)), EventsKey);
      && (forall e :: e in EventsPage.LoadedEvents(stored, json.parse, current) ==> e.id != id)
      && Calendar.LoadedEvents(stored, json.parse, current).Some?
      && (forall e :: e in Calendar.LoadedEvents(stored, json.parse, current).value ==> e.id != id)
  {
    ListLoadsCalendarSnapshot(json, items, RemoveById(es, id), current);
    Calendar.ReloadAfterWriteBack(json, items, RemoveById(es, id), current);
  }

  /** On the list surface the same holds only while something remains:
      deleting every event with the id keeps them out of the next load
      exactly when another event survives. */
  lemma ListDeleteIsFinalUnlessEmptied(json: Json<seq<Event>>, items: map<string, string>, es: seq<Event>, id: string, current: seq<Event>)
    requires RoundTrips(json) && |RemoveById(es, id)| > 0
    ensures var stored := GetItem(EventsPage.PersistList(items, json.stringify, RemoveById(es, id)), EventsKey);
      forall e :: e in EventsPage.LoadedEvents(stored, json.parse, current) ==> e.id != id
  {
    EventsPage.ReloadAfterWriteBack(json, items, RemoveById(es, id), current);
  }

  /** Adding "Standup" on a whole-day selection, with no times typed, gives
      an all-day event whose id is the selection's start followed by the title. */
  lemma StandupScenario()
    ensures var e := Calendar.BuildEvent(
        Calendar.Selection("2024-06-03T00:00:00.000Z", "2024-06-04T00:00:00.000Z"), "Standup", "", "", "");
      && e.allDay == Some(true)
      && e.id == "2024-06-03T00:00:00.000Z-Standup"
      && e.start == "2024-06-03T00:00:00.000Z"
      && e.end == Some("2024-06-04T00:00:00.000Z")
  {
  }

  /** Starting from any stored list, an event added on the calendar through
      the dialog is appended to the calendar's list, and once written back
      the whole list is what a list surface mounted afterwards shows. */
  method AddOnCalendarThenList(json: Json<seq<Event>>, init: seq<Event>, sel: Calendar.Selection,
                               title: string, description: string, startTime: string, endTime: string,
                               addEvent: Event -> Option<Event>) returns (calendarList: seq<Event>, listed: seq<Event>)
    requires RoundTrips(json) && title != ""
    requires addEvent(Calendar.BuildEvent(sel, title, description, startTime, endTime)).Some?
    ensures calendarList == init + [addEvent(Calendar.BuildEvent(sel, title, description, startTime, endTime)).value]
    ensures listed == calendarList
  {
    var items := map[EventsKey := json.stringify(init)];
    var store := new Storage(items);
    var cal := new Calendar.Calendar(store, json);
    Calendar.ReloadAfterWriteBack(json, map[], init, []);
    assert items == Calendar.PersistAll(map[], json.stringify, init);
    var threw := cal.LoadOnMount();
    cal.HandleDateClick(sel);
    cal.SetNewEventTitle(title);
    cal.SetNewEventDescription(description);
    cal.SetStartTime(startTime);
    cal.SetEndTime(endTime);
    cal.HandleAddEvent(addEvent);
    cal.WriteBack();
    calendarList := cal.currentEvents;
    var page := new EventsPage.EventsPage(store, json);
    page.LoadOnMount();
    ListLoadsCalendarSnapshot(json, items, calendarList, []);
    listed := page.events;
  }
}
