# Event list store

A model of the event store of a calendar client (`stores/events.ts`). The
store owns one ordered list of events. Each event has a nullable `id`, a
`title`, and nullable `start` and `end` strings. The store has two mutators:

- `addEvent(event)` appends the event at the end of the list;
- `updateEvent(event)` finds the first event whose `id` is strictly equal to
  `event.id` (`findIndex`) and puts `event` in its place (`splice(i, 1, event)`);
  when no event matches it does nothing, raising no error.

In `events.dfy`, module `Events`:

- `Event` is a datatype whose `id`, `start` and `end` are `Option<string>`, so
  strict equality on `string | null` is datatype equality and a `None` id
  matches the first event whose id is `None`;
- `EventStore` is a class with a field `events: seq<Event>` that its methods
  `AddEvent` and `UpdateEvent` reassign;
- `FindIndex` is the linear scan of `findIndex`, proved against the function
  `FirstMatch`; `Splice` is the single-slot `splice`; `Updated` is the list that
  `updateEvent` leaves behind;
- `Op`, `Step` and `Apply` describe any sequence of calls to the two mutators,
  so that the lemma `ApplyKeepsIdPrefix` can state that the list never shrinks
  and never reorders.

## Model

| member | source | states |
|---|---|---|
| `Events.FirstMatch` | stores/events.ts:19 | the result is -1 exactly when no event's id equals the key; otherwise it is an index whose id equals the key and no earlier index has that id |
| `Events.FindIndex` | stores/events.ts:19 | the front-to-back scan returns -1 when nothing matches, otherwise the lowest index whose id equals the key, and always the same value as `FirstMatch` |
| `Events.Splice` | stores/events.ts:21 | `splice(i, 1, item)` keeps the length, puts `item` at `i` and leaves every other position as it was |
| `Events.Updated` | stores/events.ts:18-23 | an update never changes the length of the list nor the id held at any position |
| `Events.UpdateHit` | stores/events.ts:19-21 | when `i` is the lowest index whose id equals `e.id`, the update puts `e` at `i` and every other position, later duplicates included, keeps its element |
| `Events.UpdateHitSomewhere` | stores/events.ts:19-21 | when some event has `e.id`, the new list is the old one with only the first such index set to `e` |
| `Events.UpdateMiss` | stores/events.ts:19-20 | when no event has `e.id`, the list is left exactly as it was: nothing inserted, nothing changed |
| `Events.UpdateFirstMatchOnly` | stores/events.ts:19-21 | of two events with the id being updated, the later one is untouched |
| `Events.UpdateNullId` | stores/events.ts:19 | an event with a null id replaces the first event whose id is null |
| `Events.UpdateKeepsIdSet` | stores/events.ts:19-21 | the set of ids present in the list is the same before and after an update |
| `Events.AddKeepsIds` | stores/events.ts:14-16 | appending keeps every earlier id in place and adds the new event's id last |
| `Events.ApplyKeepsIdPrefix` | stores/events.ts:14-23 | after any sequence of adds and updates the list is no shorter, and the ids of the starting list are, in order and in place, a prefix of the ids of the final list |
| `Events.EventStore.constructor` | stores/events.ts:12 | a new store holds the empty list |
| `Events.EventStore.AddEvent` | stores/events.ts:14-16 | the new list is the old list with `event` appended: one longer, the new event last, every earlier element unchanged |
| `Events.EventStore.UpdateEvent` | stores/events.ts:18-23 | the new list is `Updated(old list, event)`: same length, same ids at every position |

## Left out

- The `defineStore('events', …)` registration and the store's singleton lifetime (stores/events.ts:1, 11, 25): framework plumbing; the store is an ordinary object made by its constructor.
- Vue `ref` reactivity and the notification of observers when the list changes (stores/events.ts:2, 12): a library mechanism outside the list's semantics. Reading the list is reading the field `events`.
- Object identity: JavaScript stores the caller's event object by reference, so a caller that later mutates that object changes the list too. Events here are values, so this aliasing is not modelled.
- `Events.Splice`: models only the form `splice(i, 1, item)` with `i` inside the list, the one form the store uses; the clamping of other start indices and delete counts is not modelled.
- Any meaning of `start` and `end` as times: the store neither parses, orders nor validates them, and neither does the model.
- Direct writes to the exported list: stores/events.ts:25 returns `events` itself, so a caller can assign or splice it without going through `addEvent`/`updateEvent`, and the field `events` is likewise public here. Such writes are not modelled, so `Events.ApplyKeepsIdPrefix` (the list never shrinks and its ids stay a prefix) covers only calls to the two mutators.
- String representation: an id is a Dafny `string`, a sequence of Unicode scalar values, while a JavaScript string is a sequence of UTF-16 code units; an id holding an unpaired surrogate has no counterpart in the model. Equality on every id the model can represent is unaffected.
