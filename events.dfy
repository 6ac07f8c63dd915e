/**
  The event-list store of a calendar client: an ordered list of event
  records with two mutators, `AddEvent` (append) and `UpdateEvent`
  (replace the first record whose id matches, or do nothing).

  The store's list is the field `events` of an `EventStore` object, which the
  two methods reassign. Beside it sit the functions that specify them
  (`FirstMatch`, `Splice`, `Updated`) and lemmas about those functions.
 */
module Events {

  datatype Option<T> = None | Some(value: T)

  /** An event record. `id`, `start` and `end` may be null (`None`); no field
      is parsed or validated. */
  datatype Event = Event(id: Option<string>, title: string, start: Option<string>, end: Option<string>)

  /** The ids of a list of events, position by position. */
  function Ids(s: seq<Event>): seq<Option<string>>
  {
    seq(|s|, i requires 0 <= i < |s| => s[i].id)
  }

  /** The set of ids present in a list of events. */
  function IdSet(s: seq<Event>): set<Option<string>>
  {
    set e | e in s :: e.id
  }

  // ---------------------------------------------------------------------------
  // findIndex with the predicate `e.id === key`
  // ---------------------------------------------------------------------------

  /** The index of the first event whose id equals `key`, or -1 if there is
      none. Equality on a nullable string is equality of `Option<string>`, so
      a `None` key matches the first event whose id is `None`. */
  function FirstMatch(s: seq<Event>, key: Option<string>): (r: int)
    ensures -1 <= r < |s|
    ensures r == -1 <==> forall j :: 0 <= j < |s| ==> s[j].id != key
    ensures 0 <= r ==> s[r].id == key && forall j :: 0 <= j < r ==> s[j].id != key
  {
    if |s| == 0 then -1
    else if s[0].id == key then 0
    else
      var r := FirstMatch(s[1..], key);
      if r == -1 then -1 else r + 1
  }

  /** Linear scan from the front, as `Array.prototype.findIndex` does. */
  method FindIndex(s: seq<Event>, key: Option<string>) returns (index: int)
    ensures -1 <= index < |s|
    ensures index == -1 ==> forall j :: 0 <= j < |s| ==> s[j].id != key
    ensures 0 <= index ==> s[index].id == key && forall j :: 0 <= j < index ==> s[j].id != key
    ensures index == FirstMatch(s, key)
  {
    var i := 0;
    while i < |s|
      invariant 0 <= i <= |s|
      invariant forall j :: 0 <= j < i ==> s[j].id != key
    {
      if s[i].id == key {
        return i;
      }
      i := i + 1;
    }
    return -1;
  }

  // ---------------------------------------------------------------------------
  // splice(start, 1, item)
  // ---------------------------------------------------------------------------

  /** `s.splice(start, 1, item)` for an index inside the list: the one element
      at `start` is removed and `item` is inserted in its place. */
  function Splice(s: seq<Event>, start: int, item: Event): (r: seq<Event>)
    requires 0 <= start < |s|
    ensures |r| == |s|
    ensures r[start] == item
    ensures forall j :: 0 <= j < |s| && j != start ==> r[j] == s[j]
  {
    s[..start] + [item] + s[start + 1..]
  }

  // ---------------------------------------------------------------------------
  // The list that updateEvent leaves behind
  // ---------------------------------------------------------------------------

  /** The list after `updateEvent(e)` on list `s`. */
  function Updated(s: seq<Event>, e: Event): (r: seq<Event>)
    ensures |r| == |s|
    ensures Ids(r) == Ids(s)
  {
    var index := FirstMatch(s, e.id);
    if index != -1 then Splice(s, index, e) else s
  }

  /** A hit: when `i` is the lowest index whose id equals `e.id`, the update
      puts `e` at `i` and leaves every other position, including any later
      element with the same id, as it was. */
  lemma UpdateHit(s: seq<Event>, e: Event, i: int)
    requires 0 <= i < |s| && s[i].id == e.id
    requires forall j :: 0 <= j < i ==> s[j].id != e.id
    ensures |Updated(s, e)| == |s|
    ensures Updated(s, e)[i] == e
    ensures forall j :: 0 <= j < |s| && j != i ==> Updated(s, e)[j] == s[j]
  {
    // FirstMatch's contract pins its result to i.
  }

  /** A hit replaces exactly the first matching position, and that position
      exists whenever some element matches. */
  lemma UpdateHitSomewhere(s: seq<Event>, e: Event)
    requires exists k :: 0 <= k < |s| && s[k].id == e.id
    ensures exists i :: (0 <= i < |s| && s[i].id == e.id
                         && (forall j :: 0 <= j < i ==> s[j].id != e.id)
                         && Updated(s, e) == s[i := e])
  {
    var i := FirstMatch(s, e.id);
    UpdateHit(s, e, i);
    assert Updated(s, e) == s[i := e];
  }

  /** A miss: when no element has `e.id`, the list is left exactly as it was. */
  lemma UpdateMiss(s: seq<Event>, e: Event)
    requires forall j :: 0 <= j < |s| ==> s[j].id != e.id
    ensures Updated(s, e) == s
  {
  }

  /** First match wins: of two elements with the id being updated, the later
      one is untouched. */
  lemma UpdateFirstMatchOnly(s: seq<Event>, e: Event, i: int, j: int)
    requires 0 <= i < j < |s|
    requires s[i].id == e.id && s[j].id == e.id
    ensures Updated(s, e)[j] == s[j]
  {
    // FirstMatch's contract puts its result at or before i.
  }

  /** A null id is a key like any other: updating with a `None` id replaces
      the first element whose id is `None`. */
  lemma UpdateNullId(s: seq<Event>, e: Event, i: int)
    requires e.id == None
    requires 0 <= i < |s| && s[i].id == None
    requires forall j :: 0 <= j < i ==> s[j].id.Some?
    ensures Updated(s, e)[i] == e
  {
    UpdateHit(s, e, i);
  }

  /** The set of ids present does not change under an update. */
  lemma UpdateKeepsIdSet(s: seq<Event>, e: Event)
    ensures IdSet(Updated(s, e)) == IdSet(s)
  {
    // Follows from Updated's contract: the ids at every position are kept.
  }

  /** Appending keeps every earlier id in its place and adds the new one last. */
  lemma AddKeepsIds(s: seq<Event>, e: Event)
    ensures Ids(s + [e]) == Ids(s) + [e.id]
  {
  }

  // ---------------------------------------------------------------------------
  // Any sequence of calls to the two mutators
  // ---------------------------------------------------------------------------

  datatype Op = Add(event: Event) | Update(event: Event)

  /** The list after one call to a mutator. */
  function Step(s: seq<Event>, op: Op): seq<Event>
  {
    match op
    case Add(e) => s + [e]
    case Update(e) => Updated(s, e)
  }

  /** The list after a sequence of calls, first call first. */
  function Apply(s: seq<Event>, ops: seq<Op>): seq<Event>
    decreases |ops|
  {
    if ops == [] then s else Apply(Step(s, ops[0]), ops[1..])
  }

  /** No call removes or reorders an element: the ids of the starting list
      stay, in order and in place, a prefix of the ids of the final list, so
      the list never shrinks. */
  lemma {:induction false} ApplyKeepsIdPrefix(s: seq<Event>, ops: seq<Op>)
    ensures |s| <= |Apply(s, ops)|
    ensures Ids(s) <= Ids(Apply(s, ops))
    decreases |ops|
  {
    if ops != [] {
      var t := Step(s, ops[0]);
      match ops[0] {
        case Add(e) => AddKeepsIds(s, e);
        case Update(e) => assert Ids(t) == Ids(s);
      }
      ApplyKeepsIdPrefix(t, ops[1..]);
      var u := Apply(t, ops[1..]);
      assert Ids(s) <= Ids(t) <= Ids(u);
    }
  }

  // ---------------------------------------------------------------------------
  // The store
  // ---------------------------------------------------------------------------

  /** The store: one list of events, changed by its two mutators; callers may
      also write `events` directly, as in the source. */
  class EventStore {
    var events: seq<Event>

    constructor ()
      ensures events == []
    {
      events := [];
    }

    /** Appends `event` at the end of the list. */
    method AddEvent(event: Event)
      modifies this
      ensures events == old(events) + [event]
      ensures Ids(events) == Ids(old(events)) + [event.id]
    {
      AddKeepsIds(events, event);
      events := events + [event];
    }

    /** Replaces the first event whose id equals `event.id` with `event`;
        does nothing when no event has that id. */
    method UpdateEvent(event: Event)
      modifies this
      ensures events == Updated(old(events), event)
      ensures |events| == |old(events)|
      ensures Ids(events) == Ids(old(events))
    {
      var index := FindIndex(events, event.id);
      if index != -1 {
        events := Splice(events, index, event);
      }
    }
  }
}
