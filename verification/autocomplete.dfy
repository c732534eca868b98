/**
 * The `Autocomplete` controller as a state machine: the DOM is replaced by
 * the input's value, the container's existence, mount state, children and
 * click listeners, and the document-level subscriptions and events.
 */
module Autocomplete {
  import opened Wrappers
  import opened SuggestionSource
  import opened JsStrings

  /** `Autocomplete.DEFAULT_MIN_LENGTH`. */
  const DefaultMinLength: int := 3

  /** JavaScript truthiness of the `minLength` option: `undefined` and `0` are its falsy values. */
  function Truthy(minLength: Option<int>): (b: bool)
    ensures b <==> minLength != None && minLength != Some(0)
  {
    match minLength
    case None => false
    case Some(n) => n != 0
  }

  /** The immutable configuration of a controller: `_searchFn` and `_minLength`. */
  datatype Controller = Controller(source: Source, minLength: int)

  /** The constructor: a falsy `minLength` falls back to the default threshold. */
  function New(searchFn: Source, minLength: Option<int>): (c: Controller)
    ensures c.source == searchFn
    ensures c.minLength != 0
    ensures Truthy(minLength) ==> Some(c.minLength) == minLength
    ensures !Truthy(minLength) ==> c.minLength == DefaultMinLength
  {
    Controller(searchFn, if Truthy(minLength) then minLength.value else DefaultMinLength)
  }

  /**
   * A child `li` of the container: its displayed content, its
   * `data-autocomplete-item` marker and its `data-value`.
   */
  datatype Item = Item(content: string, marked: bool, value: string)

  /** The `li` rendered for one suggestion. */
  function RenderItem(suggestion: string): (r: Item)
    ensures r.content == suggestion && r.marked && r.value == suggestion
  {
    Item(suggestion, true, suggestion)
  }

  /** The carried values of a sequence of items. */
  function Values(items: seq<Item>): (vs: seq<string>)
    ensures |vs| == |items|
    ensures forall j :: 0 <= j < |items| ==> vs[j] == items[j].value
  {
    seq(|items|, j requires 0 <= j < |items| => items[j].value)
  }

  /** A query handed to `_search`, and whether its `await` has returned or thrown yet. */
  datatype Request = Request(query: string, settled: bool)

  /** One call of an `onClick` subscriber (numbered in subscription order) with a selected value. */
  datatype Delivery = Delivery(subscriber: nat, value: string)

  /**
   * The observable state of one controller and its page:
   * - `value`: the bound input's value;
   * - `created`, `mounted`: whether `_container` exists, and whether it is in the document;
   * - `items`: the container's children;
   * - `handlers`: click listeners attached to the container;
   * - `subscribers`: `onClick` callbacks registered on the document;
   * - `dispatched`, `delivered`: selection events raised, and subscriber calls they caused;
   * - `requests`: the queries handed to `_search`, in issue order, each with its settlement;
   * - `errors`: errors logged by the input handler.
   */
  datatype State = State(
    value: string,
    created: bool,
    mounted: bool,
    items: seq<Item>,
    handlers: nat,
    subscribers: nat,
    dispatched: seq<string>,
    delivered: seq<Delivery>,
    requests: seq<Request>,
    errors: seq<SearchError>)

  /** What every reachable state satisfies. */
  ghost predicate Inv(s: State) {
    && (s.created <==> s.handlers > 0)
    && (s.mounted ==> s.created)
    && (!s.mounted ==> s.items == [])
    && (forall j :: 0 <= j < |s.items| ==> s.items[j] == RenderItem(s.items[j].value))
  }

  /** The state right after construction, the input holding `inputValue`. */
  function Init(inputValue: string): (s: State)
    ensures Inv(s)
    ensures s.value == inputValue && !s.created && !s.mounted && s.items == []
    ensures s.subscribers == 0 && s.dispatched == [] && s.requests == []
  {
    State(inputValue, false, false, [], 0, 0, [], [], [], [])
  }

  /** Request `k` was issued and its `await` has neither returned nor thrown. */
  predicate InFlight(s: State, k: nat) {
    k < |s.requests| && !s.requests[k].settled
  }

  /** The events a controller reacts to. */
  datatype Event =
    | Input(query: string)             // the user changed the input's value
    | Complete(request: nat)           // the `await` of a pending search returns or throws, as `_search` dictates
    | Reject(request: nat)             // the callback of a pending search threw or its promise rejected
    | ClickItem(index: nat)            // a click on the container's child at `index`
    | ClickInside                      // a click inside the container, not on an item
    | ClickOutside                     // a click anywhere outside the container
    | Subscribe                        // a call of `onClick`

  /** `_clearContainer`: empties and detaches the container, if one was ever created. */
  function Clear(s: State): (r: State)
    ensures s.created ==> !r.mounted && r.items == []
    ensures !s.created ==> r == s
    ensures r.(mounted := s.mounted, items := s.items) == s
  {
    if s.created then s.(mounted := false, items := []) else s
  }

  /** Clearing twice is clearing once. */
  lemma ClearIdempotent(s: State)
    ensures Clear(Clear(s)) == Clear(s)
  {
  }

  /** `data.forEach(renderItem)`: appends one item per suggestion, in order. */
  function AppendItems(children: seq<Item>, data: seq<string>): (r: seq<Item>)
    ensures |r| == |children| + |data|
    ensures r[..|children|] == children
    ensures forall j :: 0 <= j < |data| ==> r[|children| + j] == RenderItem(data[j])
    decreases |data|
  {
    if data == [] then children
    else AppendItems(children + [RenderItem(data[0])], data[1..])
  }

  /**
   * `_renderSuggestions(data)`: clears, creates the container on first use,
   * attaches one more click listener, appends the items and mounts the
   * container after the input.
   */
  function Render(s: State, data: seq<string>): (r: State)
    ensures r.created && r.mounted
    ensures |r.items| == |data|
    ensures forall j :: 0 <= j < |data| ==>
              r.items[j].content == data[j] && r.items[j].marked && r.items[j].value == data[j]
    ensures r.handlers == s.handlers + 1
    ensures r.(created := s.created, mounted := s.mounted, items := s.items, handlers := s.handlers) == s
  {
    var cleared := Clear(s);
    var withContainer := if cleared.created then cleared else cleared.(created := true, items := []);
    var listening := withContainer.(handlers := withContainer.handlers + 1);
    var filled := listening.(items := AppendItems(listening.items, data));
    filled.(mounted := true)
  }

  /** The rendered items carry back exactly the data, in order, whatever was shown before. */
  lemma RenderRoundTrip(s: State, data: seq<string>)
    ensures Values(Render(s, data).items) == data
    ensures Render(s, data).items == Render(Clear(s), data).items
  {
  }

  /**
   * `!(!query || query.length < minLength)`: the query triggers a search.
   * The emptiness test only matters for a threshold of at most 0.
   */
  function Qualifies(query: string, minLength: int): (b: bool)
    ensures query == "" ==> !b
    ensures minLength >= 1 ==> (b <==> JsLength(query) >= minLength)
    ensures minLength <= 0 ==> (b <==> query != "")
  {
    !(query == "" || JsLength(query) < minLength)
  }

  /**
   * The input listener up to `await`: a short query clears the container,
   * any other query is handed to `_search` once.
   */
  function OnInput(c: Controller, s: State, query: string): (r: State)
    ensures r.value == query
    ensures !Qualifies(query, c.minLength) ==>
              && r.requests == s.requests
              && (s.created ==> !r.mounted && r.items == [])
              && (!s.created ==> r.mounted == s.mounted && r.items == s.items)
              && r.(value := s.value, mounted := s.mounted, items := s.items) == s
    ensures Qualifies(query, c.minLength) ==>
              && r.requests == s.requests + [Request(query, false)]
              && r.(value := s.value, requests := s.requests) == s
  {
    var typed := s.(value := query);
    if !Qualifies(query, c.minLength) then Clear(typed)
    else typed.(requests := typed.requests + [Request(query, false)])
  }

  /** Request `k` marked as settled. */
  function MarkSettled(s: State, k: nat): (r: State)
    requires k < |s.requests|
    ensures r.requests == s.requests[k := Request(s.requests[k].query, true)]
    ensures r.(requests := s.requests) == s
  {
    s.(requests := s.requests[k := Request(s.requests[k].query, true)])
  }

  /**
   * The input listener after the `await` of pending request `k`: `_search`
   * on its query either returns suggestions, which are rendered, or throws,
   * and the error is logged with the list left as it was. A request that is
   * not pending changes nothing.
   */
  function OnComplete(c: Controller, s: State, k: nat): (r: State)
    ensures !InFlight(s, k) ==> r == s
    ensures InFlight(s, k) ==>
              && r.requests == s.requests[k := Request(s.requests[k].query, true)]
              && r.value == s.value
    ensures InFlight(s, k) && Search(c.source, s.requests[k].query).Success? ==>
              var data := Search(c.source, s.requests[k].query).value;
              && r.created && r.mounted
              && |r.items| == |data|
              && (forall j :: 0 <= j < |data| ==> r.items[j] == RenderItem(data[j]))
              && r.handlers == s.handlers + 1
              && r.(requests := s.requests, created := s.created, mounted := s.mounted,
                    items := s.items, handlers := s.handlers) == s
    ensures InFlight(s, k) && Search(c.source, s.requests[k].query).Failure? ==>
              && r.errors == s.errors + [Search(c.source, s.requests[k].query).error]
              && r.(requests := s.requests, errors := s.errors) == s
  {
    if !InFlight(s, k) then s
    else
      var settled := MarkSettled(s, k);
      match Search(c.source, s.requests[k].query)
      case Success(data) => Render(settled, data)
      case Failure(error) => settled.(errors := settled.errors + [error])
  }

  /**
   * The input listener's `catch` for a pending request `k` whose callback
   * threw or whose promise rejected; only a callback declared able to reject
   * can do so.
   */
  function OnReject(c: Controller, s: State, k: nat): (r: State)
    ensures !(InFlight(s, k) && c.source.Callback? && c.source.mayReject) ==> r == s
    ensures InFlight(s, k) && c.source.Callback? && c.source.mayReject ==>
              && r.requests == s.requests[k := Request(s.requests[k].query, true)]
              && r.errors == s.errors + [Rejected]
              && r.(requests := s.requests, errors := s.errors) == s
  {
    if InFlight(s, k) && c.source.Callback? && c.source.mayReject then
      var settled := MarkSettled(s, k);
      settled.(errors := settled.errors + [Rejected])
    else s
  }

  /** The calls one selection event causes: every subscriber, in subscription order. */
  function Deliveries(subscribers: nat, value: string): (d: seq<Delivery>)
    ensures |d| == subscribers
    ensures forall j :: 0 <= j < subscribers ==> d[j] == Delivery(j, value)
  {
    seq(subscribers, (j: nat) => Delivery(j, value))
  }

  /**
   * `d` is laid out in blocks of `n` calls, one block per value: the call at
   * index `i` goes to subscriber `i % n` and carries value `i / n`.
   */
  ghost predicate InBlocks(d: seq<Delivery>, n: nat, values: seq<string>)
    requires n > 0
  {
    forall i :: 0 <= i < |d| ==> i / n < |values| && d[i] == Delivery(i % n, values[i / n])
  }

  /** The calls a sequence of selection events causes, event by event. */
  function Fanout(subscribers: nat, values: seq<string>): (d: seq<Delivery>)
    ensures |d| == subscribers * |values|
    ensures subscribers > 0 ==> InBlocks(d, subscribers, values)
    decreases |values|
  {
    if values == [] then []
    else
      var first := Deliveries(subscribers, values[0]);
      var rest := Fanout(subscribers, values[1..]);
      assert subscribers * |values| == subscribers + subscribers * |values[1..]|;
      FanoutBlocks(subscribers, values, first, rest);
      first + rest
  }

  /** Every index of one event's block followed by the remaining blocks is as `Fanout` promises. */
  lemma FanoutBlocks(n: nat, values: seq<string>, first: seq<Delivery>, rest: seq<Delivery>)
    requires values != []
    requires |first| == n && forall j :: 0 <= j < n ==> first[j] == Delivery(j, values[0])
    requires n > 0 ==> InBlocks(rest, n, values[1..])
    ensures n > 0 ==> InBlocks(first + rest, n, values)
  {
    if n > 0 {
      forall i | 0 <= i < |first + rest|
        ensures i / n < |values| && (first + rest)[i] == Delivery(i % n, values[i / n])
      {
        FanoutStep(n, values, first, rest, i);
      }
    }
  }

  /**
   * The delivery at index `i` of one event's block followed by the blocks of
   * the remaining events is the one `Fanout` promises at `i`.
   */
  lemma FanoutStep(n: nat, values: seq<string>, first: seq<Delivery>, rest: seq<Delivery>, i: int)
    requires n > 0 && values != [] && 0 <= i < |first + rest|
    requires |first| == n && forall j :: 0 <= j < n ==> first[j] == Delivery(j, values[0])
    requires InBlocks(rest, n, values[1..])
    ensures i / n < |values| && (first + rest)[i] == Delivery(i % n, values[i / n])
  {
    if i < n {
      DivModFirstBlock(i, n);
    } else {
      DivModNextBlock(i, n);
      assert (first + rest)[i] == rest[i - n];
    }
  }

  /** An index in the first block of `n` lies at offset `i`, in block 0. */
  lemma DivModFirstBlock(i: int, n: int)
    requires 0 <= i < n
    ensures i / n == 0 && i % n == i
  {
  }

  /** Skipping one block of `n` lowers the block number by one and keeps the offset. */
  lemma DivModNextBlock(i: int, n: int)
    requires 0 < n <= i
    ensures (i - n) / n == i / n - 1 && (i - n) % n == i % n
  {
    var q, r := (i - n) / n, (i - n) % n;
    assert i - n == q * n + r && 0 <= r < n;
    assert i == (q + 1) * n + r;
    DivModUnique(i, n, q + 1, r);
  }

  /** Euclidean division is determined by its quotient-remainder decomposition. */
  lemma DivModUnique(i: int, n: int, q: int, r: int)
    requires 0 < n && 0 <= r < n && i == q * n + r
    ensures i / n == q && i % n == r
  {
    var q', r' := i / n, i % n;
    assert (q - q') * n == r' - r;
    if q > q' {
      MulAtLeast(q - q', n);
    } else if q < q' {
      MulAtLeast(q' - q, n);
    }
  }

  /** A positive multiple of `n` is at least `n`. */
  lemma MulAtLeast(x: int, n: int)
    requires 1 <= x && 0 < n
    ensures x * n >= n
  {
    assert x * n == (x - 1) * n + n;
  }

  /** `k` copies of `v`. */
  function Repeat(v: string, k: nat): (r: seq<string>)
    ensures |r| == k
    ensures forall j :: 0 <= j < k ==> r[j] == v
  {
    seq(k, j => v)
  }

  /** `_dispatchOnClick`: raises one selection event, which reaches every subscriber. */
  function Dispatch(s: State, value: string): (r: State)
    ensures r.dispatched == s.dispatched + [value]
    ensures r.delivered == s.delivered + Fanout(s.subscribers, [value])
    ensures r.(dispatched := s.dispatched, delivered := s.delivered) == s
  {
    assert Fanout(s.subscribers, [value]) == Deliveries(s.subscribers, value) + Fanout(s.subscribers, []);
    s.(dispatched := s.dispatched + [value], delivered := s.delivered + Deliveries(s.subscribers, value))
  }

  /** What a click inside the container landed on. */
  datatype Target = OnItem(item: Item) | OnOther {

    /** The target carries the `autocompleteItem` marker. */
    predicate Marked() {
      OnItem? && item.marked
    }
  }

  /**
   * `_onClickHandler`: on a marked item, write its value into the input,
   * clear the container and raise a selection event; otherwise do nothing.
   */
  function OnContainerClick(s: State, t: Target): (r: State)
    ensures t.Marked() ==>
              && r.value == t.item.value
              && r.dispatched == s.dispatched + [t.item.value]
              && r.delivered == s.delivered + Fanout(s.subscribers, [t.item.value])
              && (s.created ==> !r.mounted && r.items == [])
              && (!s.created ==> r.mounted == s.mounted && r.items == s.items)
              && r.(value := s.value, mounted := s.mounted, items := s.items,
                    dispatched := s.dispatched, delivered := s.delivered) == s
    ensures !t.Marked() ==> r == s
  {
    if t.Marked() then
      var v := t.item.value;
      Dispatch(Clear(s.(value := v)), v)
    else s
  }

  /** Appending one event's calls to those of earlier events. */
  lemma FanoutCons(n: nat, v: string, vs: seq<string>)
    ensures Fanout(n, [v]) + Fanout(n, vs) == Fanout(n, [v] + vs)
  {
    assert ([v] + vs)[1..] == vs && ([v] + vs)[0] == v;
    assert Fanout(n, [v] + vs) == Deliveries(n, v) + Fanout(n, vs);
    assert Fanout(n, []) == [];
    assert Deliveries(n, v) + [] == Deliveries(n, v);
  }

  /**
   * The container's `k` click listeners, each running `_onClickHandler` on
   * the same target: a marked item is selected `k` times, and each time a
   * selection event goes to every subscriber.
   */
  function RunContainerHandlers(s: State, t: Target, k: nat): (r: State)
    ensures !t.Marked() || k == 0 ==> r == s
    ensures t.Marked() ==>
              && r.dispatched == s.dispatched + Repeat(t.item.value, k)
              && r.delivered == s.delivered + Fanout(s.subscribers, Repeat(t.item.value, k))
              && r.(value := s.value, mounted := s.mounted, items := s.items,
                    dispatched := s.dispatched, delivered := s.delivered) == s
    ensures t.Marked() && k > 0 ==> r.value == t.item.value
    ensures t.Marked() && k > 0 && s.created ==> !r.mounted && r.items == []
    ensures t.Marked() && !s.created ==> r.mounted == s.mounted && r.items == s.items
    decreases k
  {
    if k == 0 then
      assert Repeat(if t.OnItem? then t.item.value else [], 0) == [];
      s
    else
      var once := OnContainerClick(s, t);
      var r := RunContainerHandlers(once, t, k - 1);
      if t.Marked() then
        var v := t.item.value;
        assert [v] + Repeat(v, k - 1) == Repeat(v, k);
        FanoutCons(s.subscribers, v, Repeat(v, k - 1));
        r
      else r
  }

  /**
   * `_handleOutsideClicks`: a page click whose target is not inside an
   * existing container clears it.
   */
  function OnDocumentClick(s: State, insideContainer: bool): (r: State)
    ensures s.created && !insideContainer ==> !r.mounted && r.items == []
    ensures !s.created || insideContainer ==> r == s
    ensures r.(mounted := s.mounted, items := s.items) == s
  {
    if s.created && !insideContainer then Clear(s) else s
  }

  /**
   * A click on the container's child at `index`: the container's listeners
   * run first, then the click bubbles to the document, where the child is
   * no longer inside the container if a listener cleared it.
   */
  function OnClickItem(s: State, index: nat): (r: State)
    ensures index < |s.items| && s.items[index].marked && s.handlers > 0 ==>
              var v := s.items[index].value;
              && r.value == v
              && (s.created ==> !r.mounted && r.items == [])
              && (!s.created ==> r.mounted == s.mounted && r.items == s.items)
              && r.dispatched == s.dispatched + Repeat(v, s.handlers)
              && r.delivered == s.delivered + Fanout(s.subscribers, Repeat(v, s.handlers))
              && r.(value := s.value, mounted := s.mounted, items := s.items,
                    dispatched := s.dispatched, delivered := s.delivered) == s
    ensures !(index < |s.items| && s.items[index].marked && s.handlers > 0) ==> r == s
  {
    if index < |s.items| then
      var afterContainer := RunContainerHandlers(s, OnItem(s.items[index]), s.handlers);
      OnDocumentClick(afterContainer, afterContainer.items == s.items)
    else s
  }

  /** A click inside the container on an element that is not an item. */
  function OnClickInside(s: State): (r: State)
    ensures r == s
  {
    OnDocumentClick(RunContainerHandlers(s, OnOther, s.handlers), true)
  }

  /** `onClick(cb)`: one more document listener for selection events. */
  function OnSubscribe(s: State): (r: State)
    ensures r.subscribers == s.subscribers + 1
    ensures r.(subscribers := s.subscribers) == s
  {
    s.(subscribers := s.subscribers + 1)
  }

  /**
   * One event. Listeners and subscribers are only ever added, the container
   * is never destroyed once created, and every log only grows.
   */
  function Step(c: Controller, s: State, e: Event): (r: State)
    ensures s.created ==> r.created
    ensures s.handlers <= r.handlers && s.subscribers <= r.subscribers
    ensures s.dispatched <= r.dispatched && s.delivered <= r.delivered
    ensures s.errors <= r.errors
    ensures |s.requests| <= |r.requests|
    ensures !e.Input? ==> |r.requests| == |s.requests|
    ensures forall k :: 0 <= k < |s.requests| ==>
              && r.requests[k].query == s.requests[k].query
              && (s.requests[k].settled ==> r.requests[k].settled)
  {
    match e
    case Input(query) => OnInput(c, s, query)
    case Complete(k) => OnComplete(c, s, k)
    case Reject(k) => OnReject(c, s, k)
    case ClickItem(index) => OnClickItem(s, index)
    case ClickInside => OnClickInside(s)
    case ClickOutside => OnDocumentClick(s, false)
    case Subscribe => OnSubscribe(s)
  }

  /**
   * The input listener run to completion: a short query clears the
   * container; otherwise `_search` is called once and its result is either
   * rendered or, on failure, logged with the list left as it was.
   */
  function HandleInput(c: Controller, s: State, query: string): (r: State)
    ensures r.value == query
    ensures !Qualifies(query, c.minLength) ==>
              && r.requests == s.requests
              && (s.created ==> !r.mounted && r.items == [])
              && (!s.created ==> r.mounted == s.mounted && r.items == s.items)
              && r.(value := s.value, mounted := s.mounted, items := s.items) == s
    ensures Qualifies(query, c.minLength) ==> r.requests == s.requests + [Request(query, true)]
    ensures Qualifies(query, c.minLength) && Search(c.source, query).Success? ==>
              var data := Search(c.source, query).value;
              && r.created && r.mounted
              && |r.items| == |data|
              && (forall j :: 0 <= j < |data| ==> r.items[j] == RenderItem(data[j]))
              && r.handlers == s.handlers + 1
              && r.(value := s.value, requests := s.requests, created := s.created,
                    mounted := s.mounted, items := s.items, handlers := s.handlers) == s
    ensures Qualifies(query, c.minLength) && Search(c.source, query).Failure? ==>
              && r.errors == s.errors + [Search(c.source, query).error]
              && r.(value := s.value, requests := s.requests, errors := s.errors) == s
  {
    var issued := Step(c, s, Input(query));
    if Qualifies(query, c.minLength) then
      var k := |s.requests|;
      assert InFlight(issued, k) && issued.requests[k].query == query;
      assert issued.requests[k := Request(query, true)] == s.requests + [Request(query, true)];
      Step(c, issued, Complete(k))
    else issued
  }

  /** A sequence of events, in order. */
  function Run(c: Controller, s: State, events: seq<Event>): (r: State)
    decreases |events|
  {
    if events == [] then s else Run(c, Step(c, s, events[0]), events[1..])
  }
}
