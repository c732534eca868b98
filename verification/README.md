# Autocomplete controller, modelled in Dafny

This project models the `Autocomplete` widget controller and the car-search
demo that drives it. The controller binds to a text input. Once the typed
query is long enough, it asks a pluggable suggestion source for suggestions.
It renders them as a list mounted right after the input. A click on an item
copies the item's value into the input and raises a page-wide selection
event. A click anywhere outside the list dismisses it.

The DOM is replaced by plain data. `Autocomplete.State` records:
- the input's value;
- whether the container `ul` was ever created and whether it is mounted;
- its `li` children, as records of content, marker and carried value;
- how many click listeners the container has collected;
- how many `onClick` subscribers exist;
- logs of dispatched selection events, of subscriber calls and of logged errors;
- the searches issued so far, each with its query and whether its `await` has settled.

`Autocomplete.Step` is a pure step function for the events `Input`, `Complete`,
`Reject`, `ClickItem`, `ClickInside`, `ClickOutside` and `Subscribe`. The
suggestion source is a tagged variant: `Callback`, `FixedList`, `Pending` or
`Unsupported(typeof)`. A `Callback` carries a flag saying whether it can throw
or return a rejecting promise. `SuggestionSource.Search` resolves a query
against the source.

Modules:
- `Wrappers`: `Option` and `Result`.
- `JsStrings`: the UTF-16 length of a string, ASCII lower-casing, and substring search checked against a reference definition.
- `SuggestionSource`: the source variant, `_search` and its error message.
- `Autocomplete`: the controller's state, events and handlers.
- `AutocompleteLemmas`: properties that relate several events.
- `SearchCars`: the demo's filter and its wiring.

Awaiting a search is split into two events. `Input` records the query as an
issued search. `Complete(k)` later settles search `k` with the source's own
answer for its query. `Reject(k)` settles it as a thrown callback. Overlapping
searches can therefore settle in any order, and the last one to complete
decides the list. `Autocomplete.HandleInput` is the input listener run to
completion at once.

Two behaviours of the code are worth knowing:
- The `ul` is created once. Every render empties, refills and re-mounts that same element (`src/classes/autocomplete.js:108-132`).
- Every render attaches one more click listener to that container (`src/classes/autocomplete.js:117`). After `k` renders, one click on an item runs `_onClickHandler` `k` times. The detached `li` keeps its dataset, so the value is written `k` times and `k` selection events reach every subscriber (`AutocompleteLemmas.ClickItemSelects`, `AutocompleteLemmas.RendersAccumulateHandlers`).

## Model

| member | source | states |
|---|---|---|
| `Autocomplete.Truthy` | src/classes/autocomplete.js:42 | an optional `minLength` is truthy exactly when it is present and not 0 |
| `Autocomplete.New` | src/classes/autocomplete.js:39-45 | keeps the source; a truthy `minLength` is kept as given, and an absent or zero one becomes `DEFAULT_MIN_LENGTH` = 3, so the threshold is never 0 |
| `Autocomplete.Init` | src/classes/autocomplete.js:39-68 | right after construction no container exists, nothing is subscribed or searched, and the reachable-state invariant holds |
| `Autocomplete.Clear` | src/classes/autocomplete.js:160-165 | an existing container ends up empty and detached, with nothing else changed; without a container nothing changes |
| `Autocomplete.ClearIdempotent` | src/classes/autocomplete.js:160-165 | clearing twice is the same as clearing once |
| `Autocomplete.AppendItems` | src/classes/autocomplete.js:119-129 | keeps the existing children and appends exactly one marked item per suggestion, in order, with content and value equal to that suggestion |
| `Autocomplete.Render` | src/classes/autocomplete.js:108-132 | leaves the container created and mounted, with one item per data element in order (content = value = the string), one more click listener, and nothing else changed |
| `Autocomplete.RenderRoundTrip` | src/classes/autocomplete.js:119-131 | reading back the values of the rendered items gives exactly the data; the previous items play no part |
| `Autocomplete.Qualifies` | src/classes/autocomplete.js:86 | the empty query never qualifies; for a positive threshold a query qualifies exactly when its UTF-16 length reaches it; for a threshold of 0 or less every non-empty query qualifies |
| `Autocomplete.OnInput` | src/classes/autocomplete.js:83-92 | the input takes the query; a query that does not qualify clears an existing container, issues no search and changes nothing else; a qualifying one is appended once, unsettled, to the issued searches and changes nothing else |
| `Autocomplete.OnComplete` | src/classes/autocomplete.js:91-97 | settling an in-flight search marks it settled; if the source answers its query, the list is mounted with one item per answer element in order, one more listener is attached and nothing else changes; if the source is unsupported, the error is logged and nothing else changes; a search not in flight changes nothing |
| `Autocomplete.OnReject` | src/classes/autocomplete.js:91-97 | a callback able to reject that throws for an in-flight search settles it and logs the rejection, changing nothing else; for any other source, a callback that cannot reject, or a search not in flight, nothing changes |
| `Autocomplete.HandleInput` | src/classes/autocomplete.js:83-98 | a query that does not qualify clears the list and searches nothing; a qualifying query is searched exactly once and settled; on success the list shows the source's answer as marked items in order, with one more listener and nothing else changed; on failure the error is logged and nothing else changes |
| `Autocomplete.RenderItem` | src/classes/autocomplete.js:119-127 | the `li` for a suggestion shows the suggestion, carries the item marker and carries the suggestion as its value |
| `Autocomplete.Fanout` | src/classes/autocomplete.js:150-158 | the subscriber calls for a sequence of selection events come in one block per event, in event order; within a block, every subscriber is called once with that event's value, in subscription order |
| `Autocomplete.FanoutBlocks` | src/classes/autocomplete.js:150-158 | one event's block of calls followed by the blocks of the later events is laid out block by block |
| `Autocomplete.FanoutStep` | src/classes/autocomplete.js:150-158 | any single call in that layout goes to the subscriber and carries the value its block position names |
| `Autocomplete.Dispatch` | src/classes/autocomplete.js:150-158 | a selection event is logged and reaches every current subscriber once, in subscription order |
| `Autocomplete.OnContainerClick` | src/classes/autocomplete.js:138-148 | on a marked item, the input takes the item's value, the container is cleared and one event carrying that value is dispatched; on anything else nothing changes |
| `Autocomplete.RunContainerHandlers` | src/classes/autocomplete.js:138-157 | `k` listeners on a marked item dispatch `k` events carrying its value, each reaching every subscriber, and leave the input holding that value and the list cleared; unmarked targets change nothing |
| `Autocomplete.OnClickItem` | src/classes/autocomplete.js:138-157 | a click on a marked item, once the container has listeners, sets the input to the item's value, clears the list, dispatches one event per listener, each reaching every subscriber, and changes nothing else; any other click on the list changes nothing |
| `Autocomplete.OnClickInside` | src/classes/autocomplete.js:70-76 | a click inside the container that misses every item changes nothing: the handlers find no item marker and the document listener sees a click inside |
| `Autocomplete.OnSubscribe` | src/classes/autocomplete.js:58-63 | `onClick` adds exactly one subscriber and changes nothing else |
| `Autocomplete.OnDocumentClick` | src/classes/autocomplete.js:70-76 | a click outside an existing container empties and detaches it; a click inside, or a page without a container, changes nothing |
| `Autocomplete.Step` | src/classes/autocomplete.js:58-165 | a container once created is never destroyed; listeners and subscribers are only ever added; the event, call and error logs only grow; only `Input` issues searches; an issued search keeps its query, and once settled stays settled |
| `SuggestionSource.Search` | src/classes/autocomplete.js:173-189 | fails exactly for an unsupported source, with an error naming its type; a callback receives the query; an array or a promise's value is returned unchanged |
| `SuggestionSource.SearchIgnoresQueryUnlessCallback` | src/classes/autocomplete.js:180-184 | an array or promise source resolves to the same result for every query |
| `SuggestionSource.UnsupportedMessage` | src/classes/autocomplete.js:186-187 | the thrown message starts with the fixed prefix and contains the source's `typeof` name |
| `AutocompleteLemmas.StepPreservesInv` | src/classes/autocomplete.js:108-165 | every event preserves the invariant: a container exists iff it has a listener, a mounted list implies a container, an unmounted one has no items, and every item is marked with content equal to its value |
| `AutocompleteLemmas.RunPreservesInv` | src/classes/autocomplete.js:108-165 | the invariant holds after any sequence of events |
| `AutocompleteLemmas.RendersAccumulateHandlers` | src/classes/autocomplete.js:111-117 | `k` renders add exactly `k` click listeners to the reused container |
| `AutocompleteLemmas.ClickItemSelects` | src/classes/autocomplete.js:138-157 | a click on a rendered item sets the input to its value and clears the list; it dispatches as many events as the container has listeners, at least one, each reaching every subscriber; nothing else changes |
| `AutocompleteLemmas.ClickInsideChangesNothing` | src/classes/autocomplete.js:70-76 | a click inside the container that misses every item leaves the whole state unchanged |
| `AutocompleteLemmas.ClickOutsideClears` | src/classes/autocomplete.js:70-76 | after a click outside no list is mounted or filled; when no list was mounted the state is unchanged |
| `AutocompleteLemmas.SubscriptionsAdditive` | src/classes/autocomplete.js:58-63 | after one more `onClick`, a selection reaches one more subscriber per dispatched event |
| `AutocompleteLemmas.LastResolveWins` | src/classes/autocomplete.js:91-94 | of two overlapping searches, the one that completes last decides the list, which shows the source's answer for that search's query |
| `AutocompleteLemmas.FixedListShownVerbatim` | src/classes/autocomplete.js:180-181 | with an array source every qualifying query mounts the array verbatim, in order |
| `AutocompleteLemmas.CallbackResultShown` | src/classes/autocomplete.js:177-178 | with a callback source the list is exactly the callback's result for the query |
| `AutocompleteLemmas.UnsupportedKeepsList` | src/classes/autocomplete.js:185-187 | an unsupported source logs an error naming its type and leaves the items and mount state unchanged |
| `AutocompleteLemmas.FixedListRunShowsList` | src/classes/autocomplete.js:180-181 | with an array source, after any sequence of events in any completion order, a mounted list shows exactly that array |
| `AutocompleteLemmas.StepShowsFixedList` | src/classes/autocomplete.js:180-181 | with an array source, one event keeps a mounted list showing exactly that array |
| `AutocompleteLemmas.CompleteShowsFixedList` | src/classes/autocomplete.js:91-94 | settling a search against an array source leaves any mounted list showing exactly that array |
| `AutocompleteLemmas.UnsupportedNeverMounts` | src/classes/autocomplete.js:185-187 | with an unsupported source, no sequence of events ever mounts a list |
| `AutocompleteLemmas.AstralQueryQualifies` | src/classes/autocomplete.js:86 | "a" followed by an emoji is two characters but three UTF-16 code units, and so reaches the default threshold |
| `AutocompleteLemmas.ShortQueryOnlySetsValue` | src/classes/autocomplete.js:84-89 | typing "au" into a fresh controller with the default threshold changes only the input's value |
| `AutocompleteLemmas.LongQueryShowsArray` | src/classes/autocomplete.js:84-94 | typing "aud" next issues exactly one search, which settles and mounts the whole array |
| `AutocompleteLemmas.ThresholdExample` | src/classes/autocomplete.js:84-89 | with the default threshold and an array source, "au" searches nothing and shows no list, and "aud" is searched once, settled, and shows the whole array |
| `JsStrings.CodeUnits` | src/classes/autocomplete.js:86 | a character takes two UTF-16 code units exactly when it lies above U+FFFF, and one otherwise |
| `JsStrings.JsLength` | src/classes/autocomplete.js:86 | `length` lies between the character count and twice it; it is 0 only for the empty string; a one-character string has the length of its code units; it equals the character count exactly when no character lies above U+FFFF |
| `JsStrings.JsLengthAppend` | src/classes/autocomplete.js:86 | `length` adds up over concatenation, so with the empty and one-character cases it is the sum of the characters' code units |
| `JsStrings.LowerChar` | src/components/search-cars.component.js:18 | the result is never an upper-case ASCII letter; upper-case letters map to their lower-case counterparts and other characters are kept |
| `JsStrings.Lower` | src/components/search-cars.component.js:18 | keeps the length and folds every character |
| `JsStrings.LowerIdempotent` | src/components/search-cars.component.js:18 | lower-casing twice is lower-casing once |
| `JsStrings.Includes` | src/components/search-cars.component.js:18 | the substring search is true exactly when the needle occurs at some offset |
| `JsStrings.OccursAtShift` | src/components/search-cars.component.js:18 | an occurrence past the first character is exactly an occurrence in the tail one offset earlier |
| `JsStrings.IncludesEmpty` | src/components/search-cars.component.js:18 | the empty string occurs in every string |
| `SearchCars.CarsDistinct` | src/components/search-cars.component.js:17 | the demo's car list names every car once |
| `SearchCars.Matches` | src/components/search-cars.component.js:18 | a car matches exactly when its lower-cased name contains the lower-cased query |
| `SearchCars.FilterMatches` | src/components/search-cars.component.js:17-18 | keeps exactly the elements that contain the query case-insensitively, in their original order, and introduces no duplicates |
| `SearchCars.FilterMatchesCounts` | src/components/search-cars.component.js:17-18 | the filter keeps each matching element exactly as often as it occurs in the input and drops every other element |
| `SearchCars.SuggestionsSearch` | src/components/search-cars.component.js:16-23 | a car is in the result iff it contains the query case-insensitively (sound and complete); the result is an order-preserving subsequence of the car list without duplicates |
| `SearchCars.FilterDependsOnLowerQuery` | src/components/search-cars.component.js:18 | the filter depends on the query only through its lower-cased form |
| `SearchCars.SearchIgnoresCase` | src/components/search-cars.component.js:18 | queries with equal lower-cased forms give the same suggestions |
| `SearchCars.AudiAnyCase` | src/components/search-cars.component.js:18 | "AUDI" and "audi" give the same suggestions |
| `SearchCars.DemoSearchNeverFails` | src/components/search-cars.component.js:16-22 | searching the demo source always succeeds with the filtered cars, and the demo callback is one that cannot reject |
| `SearchCars.DemoStepLogsNoError` | src/components/search-cars.component.js:16-22 | no single event on the demo controller logs an error |
| `SearchCars.DemoRunLogsNoError` | src/components/search-cars.component.js:16-22 | whatever sequence of events happens, the demo controller never logs an error |
| `SearchCars.InitSearchCars` | src/components/search-cars.component.js:4-14 | the demo controller uses the demo callback and the default threshold 3, and starts with one `onClick` subscriber |
| `SearchCars.DemoInput` | src/components/search-cars.component.js:7 | in the demo, starting from a fresh controller, a query shorter than 3 UTF-16 code units issues no search and shows nothing; a longer one shows exactly the filtered cars |

## Left out

- DOM operations are reduced to the mounted flag, the item records and the listener counts. This covers element creation, `insertAdjacentElement` and `classList` with its two class names.
- `innerHTML` parsing is left out: an item's content is its string as given, with no HTML interpretation or escaping.
- The `await` scheduling is not modelled. A search is issued by `Input` and settled by a later `Complete(k)` or `Reject(k)` event for the same search. A settle event for a search that is not in flight is ignored.
- A callback that throws appears only as a `Reject(k)` event, and only for a callback whose `mayReject` flag is set. The `Callback` variant's function is total, so `Search` itself never yields `Rejected`.
- A callback is modelled as a pure, deterministic function of the query, evaluated when its search settles. The program calls `fn(query)` once, when the input event fires, so a server-backed callback could answer the same query differently at different times. `OnComplete`, `HandleInput`, `CallbackResultShown` and `LastResolveWins` rest on this assumption.
- A `Pending` source stands for a promise that has already resolved to its value. A promise that rejects is not modelled, so `Reject` applies only to callback sources.
- `CustomEvent` and document dispatch are not modelled. Only the event's value and the resulting subscriber calls are kept, not the `selectedItem` element reference.
- Only one controller is modelled. Selection events are page-wide, so other controllers on the same page would add events, and those are not represented.
- `console.error` is reduced to the error log. For an unsupported source the log keeps `UnsupportedType(typ)`, not the `Error` object. That object's message is `SuggestionSource.UnsupportedMessage(typ)`. The demo subscriber's `console.log` is reduced to the delivery record.
- The CSS imports have no behaviour and are not modelled.
- `minLength` is an optional integer. NaN, fractional and non-numeric values are not modelled.
- A callback result that is not an array, where `forEach` would throw inside the `try`, is excluded by typing the result as a sequence of strings.
- `JsStrings.Lower` folds ASCII letters only, not the full Unicode `toLowerCase` mapping.
- `webpack.config.js` is build configuration and `src/index.js` is page bootstrap glue. Neither is part of this model.
