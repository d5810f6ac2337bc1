/** The list surface (the EventsPage component): the loaded event list, the
    id of the row being edited, a partial edit buffer, and the write-back
    of the list to localStorage. */
module EventsPage {
  import opened Browser
  import opened Events

  /** `Partial<Event>` as the edit buffer holds it: the top-level keys set
      so far, and the nested `extendedProps` object once any key of it has
      been set. */
  datatype EditBuffer = EditBuffer(fields: map<string, string>, extendedProps: Option<map<string, string>>)

  /** The buffer `{}` the page starts with and resets to after a save. */
  const EmptyBuffer: EditBuffer := EditBuffer(map[], None)

  /** A field name with this prefix addresses a key of `extendedProps`. */
  const ExtendedPropsPrefix: string := "extendedProps."

  /** The four field names the edit form feeds into handleEditChange. */
  const FormFields: set<string> := {"title", "extendedProps.description", "start", "end"}

  /** handleEditChange(field, value) applied to the buffer. A field with the
      prefix sets one key of the nested object; the bare field
      "extendedProps" replaces the nested object by a string, which has no
      description (and spreads into no key the merge reads), so it is
      modelled as dropping the nested object; any other field sets that
      top-level key. */
  function WithEdit(b: EditBuffer, field: string, value: string): (r: EditBuffer)
    ensures r.fields.Keys <= b.fields.Keys + {field}
    ensures !(ExtendedPropsPrefix <= field) && field != "extendedProps" ==>
      field in r.fields && r.fields[field] == value && r.extendedProps == b.extendedProps
    ensures ExtendedPropsPrefix <= field ==> r.fields == b.fields && r.extendedProps.Some?
    ensures field == "extendedProps" ==> r.fields == b.fields && r.extendedProps.None?
    ensures BufferDescription(r) ==
      if field == ExtendedPropsPrefix + "description" then value
      else if field == "extendedProps" then ""
      else BufferDescription(b)
  {
    if ExtendedPropsPrefix <= field then
      var key := field[|ExtendedPropsPrefix|..];
      assert field == ExtendedPropsPrefix + key;
      var props := if b.extendedProps.Some? then b.extendedProps.value else map[];
      b.(extendedProps := Some(props[key := value]))
    else if field == "extendedProps" then
      b.(extendedProps := None)
    else
      b.(fields := b.fields[field := value])
  }

  /** The value a spread `{...old, ...fields}` gives to `key`. */
  function Spread(fields: map<string, string>, key: string, previous: string): string
  {
    if key in fields then fields[key] else previous
  }

  /** `editedEvent.extendedProps?.description`, with undefined read as "" (both are falsy). */
  function BufferDescription(b: EditBuffer): string
  {
    if b.extendedProps.Some? && "description" in b.extendedProps.value then b.extendedProps.value["description"] else ""
  }

  /** The record saveEditedEvent builds for the matched event: the buffer's
      top-level fields override by spread, and the description falls back
      to the old one when the buffer's is falsy. */
  function Merge(e: Event, b: EditBuffer): (r: Event)
    ensures r.allDay == e.allDay
    ensures "id" !in b.fields ==> r.id == e.id
    ensures "title" !in b.fields ==> r.title == e.title
    ensures "start" !in b.fields ==> r.start == e.start
    ensures "end" !in b.fields ==> r.end == e.end
    ensures r.description != "" <==> BufferDescription(b) != "" || e.description != ""
    ensures BufferDescription(b) == "" ==> r.description == e.description
    ensures "title" in b.fields ==> r.title == b.fields["title"]
    ensures "start" in b.fields ==> r.start == b.fields["start"]
    ensures "end" in b.fields ==> r.end == Some(b.fields["end"])
    ensures BufferDescription(b) != "" ==> r.description == BufferDescription(b)
  {
    var d := BufferDescription(b);
    e.(id := Spread(b.fields, "id", e.id),
       title := Spread(b.fields, "title", e.title),
       start := Spread(b.fields, "start", e.start),
       end := if "end" in b.fields then Some(b.fields["end"]) else e.end,
       description := if d != "" then d else e.description)
  }

  /** The mapped list of saveEditedEvent: the event whose id equals the
      edited id is merged with the buffer, every other event is kept. */
  function SaveEdit(es: seq<Event>, target: Option<string>, b: EditBuffer): (r: seq<Event>)
    ensures |r| == |es|
    ensures forall i :: 0 <= i < |es| && target != Some(es[i].id) ==> r[i] == es[i]
    ensures forall i :: 0 <= i < |es| && target == Some(es[i].id) ==> r[i] == Merge(es[i], b)
    ensures (forall e :: e in es ==> target != Some(e.id)) ==> r == es
  {
    if es == [] then []
    else [if target == Some(es[0].id) then Merge(es[0], b) else es[0]] + SaveEdit(es[1..], target, b)
  }

  /** The list the load-on-mount effect leaves: unchanged when nothing (or
      "") is stored, the parsed list when parsing succeeds, and the empty
      list when it throws. */
  function LoadedEvents(saved: Option<string>, parse: string -> Option<seq<Event>>, current: seq<Event>): (r: seq<Event>)
    ensures !Truthy(saved) ==> r == current
    ensures Truthy(saved) ==> parse(saved.value) == Some(r) || (parse(saved.value).None? && r == [])
  {
    if !Truthy(saved) then current
    else match parse(saved.value)
      case Some(es) => es
      case None => []
  }

  /** The store after the write-back effect: written only for a non-empty list. */
  function PersistList(items: map<string, string>, stringify: seq<Event> -> string, es: seq<Event>): (r: map<string, string>)
    ensures GetItem(r, EventsKey) == if |es| > 0 then Some(stringify(es)) else GetItem(items, EventsKey)
    ensures forall k :: k != EventsKey ==> GetItem(r, k) == GetItem(items, k)
  {
    if |es| > 0 then items[EventsKey := stringify(es)] else items
  }

  /** A buffer filled only through the edit form's inputs. */
  ghost predicate FedByForm(b: EditBuffer)
  {
    && b.fields.Keys <= {"title", "start", "end"}
    && (b.extendedProps.Some? ==> b.extendedProps.value.Keys <= {"description"})
  }

  // ----- handleEditChange -----

  /** A nested edit sets only the buffer's description: the top-level
      fields and every other extendedProps key are kept. */
  lemma EditDescription(b: EditBuffer, v: string)
    ensures var r := WithEdit(b, "extendedProps.description", v);
      && r.fields == b.fields
      && r.extendedProps.Some? && BufferDescription(r) == v
      && (b.extendedProps.Some? ==>
            forall k :: k in b.extendedProps.value && k != "description" ==>
              k in r.extendedProps.value && r.extendedProps.value[k] == b.extendedProps.value[k])
      && r.extendedProps.value.Keys == (if b.extendedProps.Some? then b.extendedProps.value.Keys else {}) + {"description"}
  {
    assert ExtendedPropsPrefix <= "extendedProps.description";
    assert "extendedProps.description"[|ExtendedPropsPrefix|..] == "description";
  }

  /** A top-level edit sets that buffer field to the value, "" included,
      and leaves every other buffer field and the nested props alone; the
      bare field "extendedProps" instead discards the nested props, an
      earlier description edit with them. */
  lemma EditTopLevel(b: EditBuffer, f: string, v: string)
    requires !(ExtendedPropsPrefix <= f)
    ensures var r := WithEdit(b, f, v);
      if f == "extendedProps" then
        r.fields == b.fields && r.extendedProps == None && BufferDescription(r) == ""
      else
        && f in r.fields && r.fields[f] == v
        && r.fields.Keys == b.fields.Keys + {f}
        && (forall k :: k in b.fields && k != f ==> r.fields[k] == b.fields[k])
        && r.extendedProps == b.extendedProps
  {
  }

  /** The form's inputs keep the buffer within the form's fields. */
  lemma FormEditStaysFedByForm(b: EditBuffer, f: string, v: string)
    requires FedByForm(b) && f in FormFields
    ensures FedByForm(WithEdit(b, f, v))
  {
    if f == "extendedProps.description" {
      EditDescription(b, v);
    }
  }

  // ----- saveEditedEvent: the merge rule -----

  /** Saving an empty buffer changes nothing. */
  lemma MergeEmpty(e: Event)
    ensures Merge(e, EmptyBuffer) == e
  {
  }

  /** After a top-level edit of title, start or end, the merged event is the
      one the buffer gave before, with that one field replaced by the new
      value (even ""); any other top-level key but "id" has no effect. */
  lemma MergeAfterTopLevelEdit(e: Event, b: EditBuffer, f: string, v: string)
    requires !(ExtendedPropsPrefix <= f)
    ensures var m := Merge(e, b);
      Merge(e, WithEdit(b, f, v)) ==
        if f == "title" then m.(title := v)
        else if f == "start" then m.(start := v)
        else if f == "end" then m.(end := Some(v))
        else if f == "id" then m.(id := v)
        else if f == "extendedProps" then m.(description := e.description)
        else m
  {
  }

  /** After a description edit, the merged event's description is the new
      text when it is non-empty and the event's own old description when it
      is ""; no other field of the merged event moves. */
  lemma MergeAfterDescriptionEdit(e: Event, b: EditBuffer, v: string)
    ensures Merge(e, WithEdit(b, "extendedProps.description", v)) ==
      Merge(e, b).(description := if v != "" then v else e.description)
  {
    EditDescription(b, v);
  }

  /** Keys of extendedProps other than description are dropped by the merge. */
  lemma MergeIgnoresOtherProps(e: Event, b: EditBuffer, k: string, v: string)
    requires k != "description"
    ensures Merge(e, WithEdit(b, ExtendedPropsPrefix + k, v)) == Merge(e, b)
  {
    var f := ExtendedPropsPrefix + k;
    assert ExtendedPropsPrefix <= f;
    assert f[|ExtendedPropsPrefix|..] == k;
  }

  /** Saving twice with the same buffer is the same as saving once. */
  lemma MergeIdempotent(e: Event, b: EditBuffer)
    ensures Merge(Merge(e, b), b) == Merge(e, b)
  {
  }

  /** A buffer fed by the form never changes the id of the event it is
      merged into, and never touches allDay. */
  lemma FedByFormKeepsId(e: Event, b: EditBuffer)
    requires FedByForm(b)
    ensures Merge(e, b).id == e.id && Merge(e, b).allDay == e.allDay
  {
    assert "id" !in b.fields;
  }

  // ----- saveEditedEvent: the list -----

  /** With a form-fed buffer, saving keeps the list's ids in place, so
      length, order and uniqueness of ids are all preserved. */
  lemma {:induction false} SaveEditKeepsIds(es: seq<Event>, target: Option<string>, b: EditBuffer)
    requires FedByForm(b)
    ensures Ids(SaveEdit(es, target, b)) == Ids(es)
  {
    if es != [] {
      FedByFormKeepsId(es[0], b);
      SaveEditKeepsIds(es[1..], target, b);
    }
  }

  /** Saving a form-fed buffer never introduces a duplicate id. */
  lemma SaveEditKeepsUnique(es: seq<Event>, target: Option<string>, b: EditBuffer)
    requires FedByForm(b) && UniqueIds(es)
    ensures UniqueIds(SaveEdit(es, target, b))
  {
    SaveEditKeepsIds(es, target, b);
    IdsDetermineUniqueness(SaveEdit(es, target, b), es);
  }

  /** With a form-fed buffer, editing and deleting commute. */
  lemma {:induction false} SaveEditCommutesWithDelete(es: seq<Event>, target: Option<string>, b: EditBuffer, id: string)
    requires FedByForm(b)
    ensures RemoveById(SaveEdit(es, target, b), id) == SaveEdit(RemoveById(es, id), target, b)
  {
    if es != [] {
      FedByFormKeepsId(es[0], b);
      SaveEditCommutesWithDelete(es[1..], target, b, id);
      var head := if target == Some(es[0].id) then Merge(es[0], b) else es[0];
      assert SaveEdit(es, target, b)[1..] == SaveEdit(es[1..], target, b);
      if es[0].id != id {
        assert SaveEdit([es[0]] + RemoveById(es[1..], id), target, b)
          == [head] + SaveEdit(RemoveById(es[1..], id), target, b);
      }
    }
  }

  // ----- load and write-back -----

  /** A non-empty list written back is what the next load produces, when
      the JSON codec round-trips. */
  lemma ReloadAfterWriteBack(json: Json<seq<Event>>, items: map<string, string>, es: seq<Event>, current: seq<Event>)
    requires RoundTrips(json) && |es| > 0
    ensures LoadedEvents(GetItem(PersistList(items, json.stringify, es), EventsKey), json.parse, current) == es
  {
    assert json.parse(json.stringify(es)) == Some(es) && json.stringify(es) != "";
  }

  /** The write-back never stores an empty list, so deleting the last event
      leaves it in the store and the next load brings it back. */
  lemma DeletingLastEventResurrectsIt(json: Json<seq<Event>>, items: map<string, string>, e: Event, current: seq<Event>)
    requires RoundTrips(json)
    requires GetItem(items, EventsKey) == Some(json.stringify([e]))
    ensures var loaded := LoadedEvents(GetItem(items, EventsKey), json.parse, current);
      && loaded == [e]
      && RemoveById(loaded, e.id) == []
      && LoadedEvents(GetItem(PersistList(items, json.stringify, RemoveById(loaded, e.id)), EventsKey), json.parse, current) == [e]
  {
    assert json.parse(json.stringify([e])) == Some([e]) && json.stringify([e]) != "";
  }

  /** A title typed into a fresh buffer, whichever row it was typed for,
      is given to every row carrying the id saved next, and to no other. */
  lemma StaleBufferReachesNextRow(es: seq<Event>, id: string, v: string)
    ensures var r := SaveEdit(es, Some(id), WithEdit(EmptyBuffer, "title", v));
      && |r| == |es|
      && forall i :: 0 <= i < |es| ==> r[i] == if es[i].id == id then es[i].(title := v) else es[i]
  {
    forall i | 0 <= i < |es| && es[i].id == id
      ensures Merge(es[i], WithEdit(EmptyBuffer, "title", v)) == es[i].(title := v)
    {
      MergeAfterTopLevelEdit(es[i], EmptyBuffer, "title", v);
      MergeEmpty(es[i]);
    }
  }

  /** The list surface. `store` is the tab's localStorage and `json` the
      JSON codec; both are fixed for the page's lifetime. */
  class EventsPage {
    var events: seq<Event>
    var editEventId: Option<string>
    var editedEvent: EditBuffer
    const store: Storage
    const json: Json<seq<Event>>

    constructor (store: Storage, json: Json<seq<Event>>)
      ensures events == [] && editEventId == None && editedEvent == EmptyBuffer
      ensures this.store == store && this.json == json
    {
      events := [];
      editEventId := None;
      editedEvent := EmptyBuffer;
      this.store := store;
      this.json := json;
    }

    /** The load-on-mount effect. */
    method LoadOnMount()
      modifies this
      ensures events == LoadedEvents(GetItem(store.items, EventsKey), json.parse, old(events))
      ensures !Truthy(GetItem(store.items, EventsKey)) ==> events == old(events)
      ensures Truthy(GetItem(store.items, EventsKey)) && json.parse(store.items[EventsKey]).None? ==> events == []
      ensures editEventId == old(editEventId) && editedEvent == old(editedEvent)
    {
      events := LoadedEvents(GetItem(store.items, EventsKey), json.parse, events);
    }

    /** The write-back effect that runs whenever `events` changes. */
    method WriteBack()
      modifies store
      ensures store.items == PersistList(old(store.items), json.stringify, events)
      ensures |events| == 0 ==> store.items == old(store.items)
    {
      if |events| > 0 {
        store.SetItem(EventsKey, json.stringify(events));
      }
    }

    /** deleteEvent(id), once the toast's confirm button is pressed. */
    method DeleteEvent(id: string)
      modifies this
      ensures events == RemoveById(old(events), id)
      ensures editEventId == old(editEventId) && editedEvent == old(editedEvent)
    {
      events := RemoveById(events, id);
    }

    /** The Edit button of a row: only the edited id changes; the buffer is
      not cleared. */
    method BeginEdit(id: string)
      modifies this
      ensures editEventId == Some(id)
      ensures events == old(events) && editedEvent == old(editedEvent)
    {
      editEventId := Some(id);
    }

    /** The Cancel button: only the edited id is cleared; the buffer is kept. */
    method CancelEdit()
      modifies this
      ensures editEventId == None
      ensures events == old(events) && editedEvent == old(editedEvent)
    {
      editEventId := None;
    }

    /** handleEditChange(field, value). */
    method HandleEditChange(field: string, value: string)
      modifies this
      ensures editedEvent == WithEdit(old(editedEvent), field, value)
      ensures events == old(events) && editEventId == old(editEventId)
    {
      editedEvent := WithEdit(editedEvent, field, value);
    }

    /** saveEditedEvent: merge the buffer into the edited row, then reset
      the edit state. */
    method SaveEditedEvent()
      modifies this
      ensures events == SaveEdit(old(events), old(editEventId), old(editedEvent))
      ensures |events| == |old(events)|
      ensures old(editEventId) == None ==> events == old(events)
      ensures editEventId == None && editedEvent == EmptyBuffer
    {
      events := SaveEdit(events, editEventId, editedEvent);
      editEventId := None;
      editedEvent := EmptyBuffer;
    }
  }

  /** Typing a title on one row, cancelling, and saving another row renames
      the other row: neither Cancel nor Edit clears the buffer. The rows
      carrying the first id keep their title unless they also carry the
      second. */
  method CancelledEditLeaksIntoNextSave(json: Json<seq<Event>>, es: seq<Event>, first: string, second: string, title: string)
    returns (saved: seq<Event>)
    requires RoundTrips(json)
    ensures |saved| == |es|
    ensures forall i :: 0 <= i < |es| ==> saved[i] == if es[i].id == second then es[i].(title := title) else es[i]
  {
    var store := new Storage(map[EventsKey := json.stringify(es)]);
    assert json.parse(json.stringify(es)) == Some(es) && json.stringify(es) != "";
    var page := new EventsPage(store, json);
    page.LoadOnMount();
    page.BeginEdit(first);
    page.HandleEditChange("title", title);
    page.CancelEdit();
    page.BeginEdit(second);
    page.SaveEditedEvent();
    StaleBufferReachesNextRow(es, second, title);
    saved := page.events;
  }
}
