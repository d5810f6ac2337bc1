/** The Event record both surfaces store, and the delete-by-id filter both
    of them apply (`events.filter((event) => event.id !== id)`). */
module Events {
  import opened Browser

  /** An event as stored under the "events" key. `end` and `allDay` are
      optional in the record; `description` stands for
      `extendedProps.description`. */
  datatype Event = Event(
    id: string,
    title: string,
    start: string,
    end: Option<string>,
    allDay: Option<bool>,
    description: string)

  /** The ids of a list of events, in list order. */
  function Ids(es: seq<Event>): seq<string>
  {
    if es == [] then [] else [es[0].id] + Ids(es[1..])
  }

  /** No two events of the list share an id. */
  ghost predicate UniqueIds(es: seq<Event>)
  {
    forall i, j :: 0 <= i < j < |es| ==> es[i].id != es[j].id
  }

  /** The ids of a list determine whether they are unique. */
  lemma {:induction false} IdsDetermineUniqueness(a: seq<Event>, b: seq<Event>)
    requires Ids(a) == Ids(b)
    ensures UniqueIds(a) <==> UniqueIds(b)
  {
    IdsAt(a);
    IdsAt(b);
  }

  /** Ids lists each event's id at that event's index. */
  lemma {:induction false} IdsAt(es: seq<Event>)
    ensures |Ids(es)| == |es|
    ensures forall i :: 0 <= i < |es| ==> Ids(es)[i] == es[i].id
  {
    if es != [] {
      IdsAt(es[1..]);
    }
  }

  /** The events whose id differs from `id`, in their original order. */
  function RemoveById(es: seq<Event>, id: string): (r: seq<Event>)
    ensures |r| <= |es|
    ensures forall e :: e in r <==> e in es && e.id != id
  {
    if es == [] then []
    else if es[0].id == id then RemoveById(es[1..], id)
    else [es[0]] + RemoveById(es[1..], id)
  }

  /** Every event keeps its multiplicity unless its id is the removed one,
      in which case none of its copies survive. */
  lemma {:induction false} RemoveByIdCounts(es: seq<Event>, id: string)
    ensures forall e :: multiset(RemoveById(es, id))[e] == if e.id == id then 0 else multiset(es)[e]
  {
    if es != [] {
      RemoveByIdCounts(es[1..], id);
      assert es == [es[0]] + es[1..];
      assert multiset(es) == multiset([es[0]]) + multiset(es[1..]);
    }
  }

  /** Filtering a concatenation filters each part and keeps the parts in
      order: together with the one-element case this fixes the order of
      what survives. */
  lemma {:induction false} RemoveByIdAppend(a: seq<Event>, b: seq<Event>, id: string)
    ensures RemoveById(a + b, id) == RemoveById(a, id) + RemoveById(b, id)
  {
    if a == [] {
      assert a + b == b;
    } else {
      assert (a + b)[0] == a[0];
      assert (a + b)[1..] == a[1..] + b;
      RemoveByIdAppend(a[1..], b, id);
    }
  }

  /** When no event carries the id, deleting it leaves the list as it was. */
  lemma {:induction false} RemoveByIdAbsent(es: seq<Event>, id: string)
    requires forall e :: e in es ==> e.id != id
    ensures RemoveById(es, id) == es
  {
    if es != [] {
      assert es[0] in es;
      assert forall e :: e in es[1..] ==> e in es;
      RemoveByIdAbsent(es[1..], id);
      assert es == [es[0]] + es[1..];
    }
  }

  /** Deleting the same id twice is the same as deleting it once. */
  lemma {:induction false} RemoveByIdIdempotent(es: seq<Event>, id: string)
    ensures RemoveById(RemoveById(es, id), id) == RemoveById(es, id)
  {
    RemoveByIdAbsent(RemoveById(es, id), id);
  }

  /** Deleting never introduces a duplicate id. */
  lemma {:induction false} RemoveByIdKeepsUnique(es: seq<Event>, id: string)
    requires UniqueIds(es)
    ensures UniqueIds(RemoveById(es, id))
  {
    if es != [] {
      var t := es[1..];
      assert UniqueIds(t) by {
        forall i, j | 0 <= i < j < |t| ensures t[i].id != t[j].id {
          assert t[i] == es[i + 1] && t[j] == es[j + 1];
        }
      }
      RemoveByIdKeepsUnique(t, id);
      var rest := RemoveById(t, id);
      if es[0].id != id {
        forall j | 0 <= j < |rest| ensures es[0].id != rest[j].id {
          assert rest[j] in t;
          var k :| 0 <= k < |t| && t[k] == rest[j];
          assert es[k + 1] == t[k];
        }
        var r := [es[0]] + rest;
        forall i, j | 0 <= i < j < |r| ensures r[i].id != r[j].id {
          if i == 0 {
            assert r[j] == rest[j - 1];
          } else {
            assert r[i] == rest[i - 1] && r[j] == rest[j - 1];
          }
        }
      }
    }
  }
}
