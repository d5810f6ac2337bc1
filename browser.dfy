/** The browser services both surfaces depend on: the tab's localStorage
    and JSON text. Neither is implemented here; localStorage is a string
    map shared by reference, and JSON.stringify / JSON.parse are a pair of
    uninterpreted functions. */
module Browser {

  datatype Option<+T> = None | Some(value: T)

  /** The one localStorage key under which both surfaces keep the event list. */
  const EventsKey: string := "events"

  /** localStorage.getItem: the stored text, or None where JavaScript gives null. */
  function GetItem(items: map<string, string>, key: string): (r: Option<string>)
    ensures r.Some? <==> key in items
    ensures r.Some? ==> r.value == items[key]
  {
    if key in items then Some(items[key]) else None
  }

  /** JavaScript truthiness of what getItem returns: null and "" are both falsy. */
  predicate Truthy(s: Option<string>)
  {
    s.Some? && s.value != ""
  }

  /** JSON.stringify and JSON.parse at one type. A parse that throws is None. */
  datatype Json<!T> = Json(stringify: T -> string, parse: string -> Option<T>)

  /** What JSON promises for the values the surfaces store: parsing the text
      of a value gives the value back, and that text is never empty (the
      text of an array is at least "[]"). */
  ghost predicate RoundTrips<T(!new)>(json: Json<T>)
  {
    forall x: T :: json.parse(json.stringify(x)) == Some(x) && json.stringify(x) != ""
  }

  /** window.localStorage: one map from keys to strings, shared by every
      component of the tab. */
  class Storage {
    var items: map<string, string>

    constructor (items: map<string, string>)
      ensures this.items == items
    {
      this.items := items;
    }

    /** localStorage.setItem overwrites the key's previous value. */
    method SetItem(key: string, value: string)
      modifies this
      ensures items == old(items)[key := value]
    {
      items := items[key := value];
    }
  }
}
