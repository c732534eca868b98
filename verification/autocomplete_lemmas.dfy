/** Properties of the autocomplete controller that relate several events. */
module AutocompleteLemmas {
  import opened Wrappers
  import opened JsStrings
  import opened SuggestionSource
  import opened Autocomplete

  /** Every event keeps the reachable-state invariant. */
  lemma StepPreservesInv(c: Controller, s: State, e: Event)
    requires Inv(s)
    ensures Inv(Step(c, s, e))
  {
    match e
    case Complete(k) =>
      if InFlight(s, k) && Search(c.source, s.requests[k].query).Success? {
        var r := Step(c, s, e);
        var data := Search(c.source, s.requests[k].query).value;
        assert forall j :: 0 <= j < |r.items| ==> r.items[j] == RenderItem(data[j]);
      }
    case ClickItem(index) =>
      if index < |s.items| {
        assert OnItem(s.items[index]).Marked();
      }
    case _ =>
  }

  /** Every reachable state satisfies the invariant. */
  lemma {:induction false} RunPreservesInv(c: Controller, s: State, events: seq<Event>)
    requires Inv(s)
    ensures Inv(Run(c, s, events))
    decreases |events|
  {
    if events != [] {
      StepPreservesInv(c, s, events[0]);
      RunPreservesInv(c, Step(c, s, events[0]), events[1..]);
    }
  }

  /** The events completing the given requests, in that order. */
  function Completions(reqs: seq<nat>): (events: seq<Event>)
    ensures |events| == |reqs|
    ensures forall j :: 0 <= j < |reqs| ==> events[j] == Complete(reqs[j])
  {
    seq(|reqs|, j requires 0 <= j < |reqs| => Complete(reqs[j]))
  }

  /**
   * Completing `k` distinct pending searches of a source that does not fail
   * renders `k` times, and each render attaches one more click listener to
   * the reused container.
   */
  lemma {:induction false} RendersAccumulateHandlers(c: Controller, s: State, reqs: seq<nat>)
    requires !c.source.Unsupported?
    requires forall j :: 0 <= j < |reqs| ==> InFlight(s, reqs[j])
    requires forall i, j :: 0 <= i < j < |reqs| ==> reqs[i] != reqs[j]
    ensures Run(c, s, Completions(reqs)).handlers == s.handlers + |reqs|
    decreases |reqs|
  {
    if reqs != [] {
      var next := Step(c, s, Complete(reqs[0]));
      assert next.handlers == s.handlers + 1;
      assert Completions(reqs)[1..] == Completions(reqs[1..]);
      forall j | 0 <= j < |reqs[1..]| ensures InFlight(next, reqs[1..][j]) {
        assert reqs[1..][j] == reqs[j + 1] != reqs[0];
      }
      RendersAccumulateHandlers(c, next, reqs[1..]);
    }
  }

  /**
   * A click on a rendered item writes its value into the input, clears the
   * list, and raises one selection event per click listener the container
   * has collected, each reaching every subscriber.
   */
  lemma ClickItemSelects(c: Controller, s: State, index: nat)
    requires Inv(s) && index < |s.items|
    ensures var r := Step(c, s, ClickItem(index));
            var v := s.items[index].value;
            && r.value == v && !r.mounted && r.items == []
            && r.dispatched == s.dispatched + Repeat(v, s.handlers)
            && r.delivered == s.delivered + Fanout(s.subscribers, Repeat(v, s.handlers))
            && |r.dispatched| - |s.dispatched| == s.handlers >= 1
            && r.(value := s.value, mounted := s.mounted, items := s.items,
                  dispatched := s.dispatched, delivered := s.delivered) == s
  {
    assert s.items[index] == RenderItem(s.items[index].value);
  }

  /** A click inside the container that misses every item changes nothing. */
  lemma ClickInsideChangesNothing(c: Controller, s: State)
    ensures Step(c, s, ClickInside) == s
  {
  }

  /**
   * A click outside removes the list of an existing container; without a
   * container, or with the list already removed, it changes nothing.
   */
  lemma ClickOutsideClears(c: Controller, s: State)
    requires Inv(s)
    ensures !Step(c, s, ClickOutside).mounted && Step(c, s, ClickOutside).items == []
    ensures !s.mounted ==> Step(c, s, ClickOutside) == s
  {
  }

  /** `onClick` subscriptions add up: the next selection event reaches one more callback. */
  lemma SubscriptionsAdditive(c: Controller, s: State, index: nat)
    requires Inv(s) && index < |s.items|
    ensures var r := Step(c, Step(c, s, Subscribe), ClickItem(index));
            |r.delivered| - |s.delivered| == (s.subscribers + 1) * s.handlers
  {
    var s1 := Step(c, s, Subscribe);
    ClickItemSelects(c, s1, index);
  }

  /**
   * Of two overlapping searches, whichever completes last decides the list,
   * even when it was issued first: no staleness check exists.
   */
  lemma LastResolveWins(c: Controller, s: State, first: nat, last: nat)
    requires InFlight(s, first) && InFlight(s, last) && first != last
    requires !c.source.Unsupported?
    ensures var r := Step(c, Step(c, s, Complete(first)), Complete(last));
            r.mounted && Values(r.items) == Search(c.source, s.requests[last].query).value
  {
    var mid := Step(c, s, Complete(first));
    assert InFlight(mid, last) && mid.requests[last].query == s.requests[last].query;
  }

  /** With an array source, every qualifying query shows the array verbatim. */
  lemma FixedListShownVerbatim(c: Controller, s: State, query: string)
    requires c.source.FixedList? && Qualifies(query, c.minLength)
    ensures HandleInput(c, s, query).mounted
    ensures Values(HandleInput(c, s, query).items) == c.source.list
  {
  }

  /** With a callback source, the list is the callback's result, unreordered and unfiltered. */
  lemma CallbackResultShown(c: Controller, s: State, query: string)
    requires c.source.Callback? && Qualifies(query, c.minLength)
    ensures Values(HandleInput(c, s, query).items) == c.source.f(query)
  {
  }

  /**
   * An unsupported source logs an error naming its type and leaves the
   * previous list and mount state as they were.
   */
  lemma UnsupportedKeepsList(c: Controller, s: State, query: string)
    requires c.source.Unsupported? && Qualifies(query, c.minLength)
    ensures var r := HandleInput(c, s, query);
            && r.items == s.items && r.mounted == s.mounted
            && r.errors == s.errors + [UnsupportedType(c.source.typ)]
  {
  }

  /** A mounted list, if any, shows exactly `xs`. */
  ghost predicate Shows(s: State, xs: seq<string>) {
    s.mounted ==> Values(s.items) == xs
  }

  /**
   * With an array source, whatever events happen and in whatever order
   * searches complete, a mounted list always shows exactly that array.
   */
  lemma {:induction false} FixedListRunShowsList(c: Controller, s: State, events: seq<Event>)
    requires c.source.FixedList? && Shows(s, c.source.list)
    ensures Shows(Run(c, s, events), c.source.list)
    decreases |events|
  {
    if events != [] {
      StepShowsFixedList(c, s, events[0]);
      FixedListRunShowsList(c, Step(c, s, events[0]), events[1..]);
    }
  }

  /** One step with an array source keeps a mounted list showing that array. */
  lemma StepShowsFixedList(c: Controller, s: State, e: Event)
    requires c.source.FixedList? && Shows(s, c.source.list)
    ensures Shows(Step(c, s, e), c.source.list)
  {
    if e.Complete? {
      CompleteShowsFixedList(c, s, e.request);
    }
  }

  /** Settling a search against an array source renders exactly that array. */
  lemma CompleteShowsFixedList(c: Controller, s: State, k: nat)
    requires c.source.FixedList? && Shows(s, c.source.list)
    ensures Shows(OnComplete(c, s, k), c.source.list)
  {
    if InFlight(s, k) {
      var xs := c.source.list;
      assert Search(c.source, s.requests[k].query) == Success(xs);
      var next := OnComplete(c, s, k);
      assert |next.items| == |xs|;
      forall j | 0 <= j < |xs| ensures Values(next.items)[j] == xs[j] {
        assert next.items[j] == RenderItem(xs[j]);
      }
      assert Values(next.items) == xs;
    }
  }

  /** With an unsupported source, no list is ever mounted. */
  lemma {:induction false} UnsupportedNeverMounts(c: Controller, s: State, events: seq<Event>)
    requires c.source.Unsupported? && !s.mounted
    ensures !Run(c, s, events).mounted
    decreases |events|
  {
    if events != [] {
      UnsupportedNeverMounts(c, Step(c, s, events[0]), events[1..]);
    }
  }

  /**
   * The threshold counts UTF-16 code units like `query.length`: "a" followed
   * by an emoji outside the Basic Multilingual Plane is two characters but
   * three code units, so it reaches the default threshold.
   */
  lemma AstralQueryQualifies()
    ensures |"a\U{1F600}"| == 2 && JsLength("a\U{1F600}") == 3
    ensures Qualifies("a\U{1F600}", DefaultMinLength)
  {
    assert "a\U{1F600}"[1..] == "\U{1F600}";
    assert "\U{1F600}"[1..] == "";
  }

  /** The example's controller: the default threshold over a three-entry array. */
  function ExampleController(): (c: Controller)
    ensures c.source == FixedList(["Audi A4", "Audi A6", "BMW X5"])
    ensures c.minLength == DefaultMinLength
  {
    New(FixedList(["Audi A4", "Audi A6", "BMW X5"]), None)
  }

  /** Typing "au" into a fresh controller only updates the input's value. */
  lemma ShortQueryOnlySetsValue()
    ensures HandleInput(ExampleController(), Init(""), "au") == Init("au")
  {
    assert JsLength("au") == 2 by {
      assert forall i :: 0 <= i < |"au"| ==> "au"[i] as int <= 0xFFFF;
    }
    assert !Qualifies("au", DefaultMinLength);
  }

  /** Typing "aud" next issues one search, which settles and shows the whole array. */
  lemma LongQueryShowsArray()
    ensures var r := HandleInput(ExampleController(), Init("au"), "aud");
            && r.mounted && Values(r.items) == ["Audi A4", "Audi A6", "BMW X5"]
            && r.requests == [Request("aud", true)]
  {
    var c := ExampleController();
    assert JsLength("aud") == 3 by {
      assert forall i :: 0 <= i < |"aud"| ==> "aud"[i] as int <= 0xFFFF;
    }
    assert Qualifies("aud", c.minLength);
    FixedListShownVerbatim(c, Init("au"), "aud");
    assert Init("au").requests + [Request("aud", true)] == [Request("aud", true)];
  }

  /**
   * With the default threshold and the array `["Audi A4", "Audi A6", "BMW X5"]`,
   * typing "au" shows nothing and typing "aud" shows all three entries.
   */
  lemma ThresholdExample()
    ensures var c := New(FixedList(["Audi A4", "Audi A6", "BMW X5"]), None);
            var afterAu := HandleInput(c, Init(""), "au");
            var afterAud := HandleInput(c, afterAu, "aud");
            && !afterAu.mounted && afterAu.requests == []
            && afterAud.mounted && Values(afterAud.items) == ["Audi A4", "Audi A6", "BMW X5"]
            && afterAud.requests == [Request("aud", true)]
  {
    ShortQueryOnlySetsValue();
    LongQueryShowsArray();
  }
}
