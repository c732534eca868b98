/**
 * The car-search demo: the suggestion callback it passes to the controller
 * (a case-insensitive substring filter over a fixed list) and its wiring.
 */
module SearchCars {
  import opened Wrappers
  import opened JsStrings
  import opened SuggestionSource
  import opened Autocomplete

  /** The demo's car list, in its order. */
  const Cars: seq<string> := [
    "Audi A4", "Audi A6", "Audi A8", "Audi RS4", "Audi RS6",
    "BMW Series 3", "BMW Series 5", "BMW Series 7", "BMW X3", "BMW X5", "BMW X6",
    "MB C-Class", "MB E-Class", "MB S-Class"]

  /** `car.toLowerCase().includes(query.toLowerCase())`. */
  function Matches(car: string, query: string): (b: bool)
    ensures b <==> Contains(Lower(car), Lower(query))
  {
    Includes(Lower(car), Lower(query))
  }

  /**
   * `idx` maps each position of `r` to a position of `xs` holding the same
   * element, and the positions strictly increase.
   */
  ghost predicate IsEmbedding(idx: seq<int>, r: seq<string>, xs: seq<string>) {
    && |idx| == |r|
    && (forall j :: 0 <= j < |idx| ==> 0 <= idx[j] < |xs| && r[j] == xs[idx[j]])
    && (forall j, k :: 0 <= j < k < |idx| ==> idx[j] < idx[k])
  }

  /** `r` is obtained from `xs` by dropping elements, keeping the order of the rest. */
  ghost predicate IsSubsequence(r: seq<string>, xs: seq<string>) {
    exists idx :: IsEmbedding(idx, r, xs)
  }

  /** Dropping the head of `xs` keeps every subsequence of its tail a subsequence of `xs`. */
  lemma SubsequenceSkip(r: seq<string>, xs: seq<string>)
    requires xs != [] && IsSubsequence(r, xs[1..])
    ensures IsSubsequence(r, xs)
  {
    var idx :| IsEmbedding(idx, r, xs[1..]);
    var shifted := seq(|idx|, j requires 0 <= j < |idx| => idx[j] + 1);
    assert IsEmbedding(shifted, r, xs);
  }

  /** Keeping the head of `xs` in front of a subsequence of its tail gives a subsequence of `xs`. */
  lemma SubsequenceKeep(r: seq<string>, xs: seq<string>)
    requires xs != [] && IsSubsequence(r, xs[1..])
    ensures IsSubsequence([xs[0]] + r, xs)
  {
    var idx :| IsEmbedding(idx, r, xs[1..]);
    var kept := [0] + seq(|idx|, j requires 0 <= j < |idx| => idx[j] + 1);
    assert IsEmbedding(kept, [xs[0]] + r, xs);
  }

  /** No element occurs twice. */
  ghost predicate NoDuplicates(xs: seq<string>) {
    forall i, j :: 0 <= i < j < |xs| ==> xs[i] != xs[j]
  }

  /** The tail of a list without duplicates has none either. */
  lemma NoDuplicatesTail(xs: seq<string>)
    requires xs != [] && NoDuplicates(xs)
    ensures NoDuplicates(xs[1..])
  {
    forall i, j | 0 <= i < j < |xs[1..]| ensures xs[1..][i] != xs[1..][j] {
      assert xs[1..][i] == xs[i + 1] && xs[1..][j] == xs[j + 1];
    }
  }

  /**
   * Putting the head of a list without duplicates in front of elements
   * drawn from its tail introduces none.
   */
  lemma NoDuplicatesCons(xs: seq<string>, rest: seq<string>)
    requires xs != [] && NoDuplicates(xs) && NoDuplicates(rest)
    requires forall x :: x in rest ==> x in xs[1..]
    ensures NoDuplicates([xs[0]] + rest)
  {
    assert xs[0] !in xs[1..] by {
      forall k | 0 <= k < |xs[1..]| ensures xs[1..][k] != xs[0] {
        assert xs[1..][k] == xs[k + 1];
      }
    }
    var r := [xs[0]] + rest;
    forall i, j | 0 <= i < j < |r| ensures r[i] != r[j] {
      if i == 0 {
        assert r[j] == rest[j - 1];
      } else {
        assert r[i] == rest[i - 1] && r[j] == rest[j - 1];
      }
    }
  }

  /** `xs.filter(car => Matches(car, query))`. */
  function FilterMatches(xs: seq<string>, query: string): (r: seq<string>)
    ensures forall x :: x in r ==> x in xs && Contains(Lower(x), Lower(query))
    ensures forall x :: x in xs && Contains(Lower(x), Lower(query)) ==> x in r
    ensures IsSubsequence(r, xs)
    ensures NoDuplicates(xs) ==> NoDuplicates(r)
    decreases |xs|
  {
    if xs == [] then
      assert IsEmbedding([], [], xs);
      []
    else
      var rest := FilterMatches(xs[1..], query);
      assert xs == [xs[0]] + xs[1..];
      assert forall x :: x in xs ==> x == xs[0] || x in xs[1..];
      if Matches(xs[0], query) then
        var r := [xs[0]] + rest;
        SubsequenceKeep(rest, xs);
        assert NoDuplicates(xs) ==> NoDuplicates(r) by {
          if NoDuplicates(xs) {
            NoDuplicatesTail(xs);
            NoDuplicatesCons(xs, rest);
          }
        }
        r
      else
        assert NoDuplicates(xs) ==> NoDuplicates(xs[1..]) by {
          if NoDuplicates(xs) {
            NoDuplicatesTail(xs);
          }
        }
        SubsequenceSkip(rest, xs);
        rest
  }

  /**
   * The filter keeps every matching element as often as it occurs in `xs`
   * and drops every other one.
   */
  lemma {:induction false} FilterMatchesCounts(xs: seq<string>, query: string)
    ensures forall x :: multiset(FilterMatches(xs, query))[x]
                        == if Matches(x, query) then multiset(xs)[x] else 0
    decreases |xs|
  {
    if xs != [] {
      FilterMatchesCounts(xs[1..], query);
      var rest := FilterMatches(xs[1..], query);
      assert xs == [xs[0]] + xs[1..];
      assert multiset(xs) == multiset([xs[0]]) + multiset(xs[1..]);
      if Matches(xs[0], query) {
        assert FilterMatches(xs, query) == [xs[0]] + rest;
        assert multiset([xs[0]] + rest) == multiset([xs[0]]) + multiset(rest);
      } else {
        assert FilterMatches(xs, query) == rest;
      }
    }
  }

  /** The demo's car list names every car once. */
  lemma CarsDistinct()
    ensures NoDuplicates(Cars)
  {
  }

  /**
   * `suggestionsSearch(query)`: the cars that contain the query, ignoring
   * case, in list order and each once; every such car is included.
   */
  function SuggestionsSearch(query: string): (r: seq<string>)
    ensures forall x :: x in r <==> x in Cars && Contains(Lower(x), Lower(query))
    ensures IsSubsequence(r, Cars)
    ensures NoDuplicates(r)
  {
    CarsDistinct();
    FilterMatches(Cars, query)
  }

  /** The filter looks at the query only through its lower-cased form. */
  lemma {:induction false} FilterDependsOnLowerQuery(xs: seq<string>, q1: string, q2: string)
    requires Lower(q1) == Lower(q2)
    ensures FilterMatches(xs, q1) == FilterMatches(xs, q2)
    decreases |xs|
  {
    if xs != [] {
      FilterDependsOnLowerQuery(xs[1..], q1, q2);
    }
  }

  /** Queries that differ only in ASCII case give the same suggestions. */
  lemma SearchIgnoresCase(q1: string, q2: string)
    requires Lower(q1) == Lower(q2)
    ensures SuggestionsSearch(q1) == SuggestionsSearch(q2)
  {
    FilterDependsOnLowerQuery(Cars, q1, q2);
  }

  /** "AUDI" and "audi" give the same suggestions. */
  lemma AudiAnyCase()
    ensures SuggestionsSearch("AUDI") == SuggestionsSearch("audi")
  {
    assert Lower("AUDI") == "audi";
    assert Lower("audi") == "audi";
    SearchIgnoresCase("AUDI", "audi");
  }

  /** The callback the demo hands to the controller; its promise always resolves. */
  const DemoSource: Source := Callback(q => SuggestionsSearch(q), false)

  /**
   * The demo's source never fails, resolves to the filtered cars, and cannot
   * reject: `suggestionsSearch` neither throws nor returns a rejecting promise.
   */
  lemma DemoSearchNeverFails(query: string)
    ensures Search(DemoSource, query) == Success(SuggestionsSearch(query))
    ensures !DemoSource.mayReject
  {
  }

  /**
   * `initSearchCars`: a controller over the demo callback built without
   * `minLength`, plus one `onClick` subscriber.
   */
  function InitSearchCars(inputValue: string): (cs: (Controller, State))
    ensures cs.0.source == DemoSource && cs.0.minLength == DefaultMinLength
    ensures Inv(cs.1) && cs.1.value == inputValue && !cs.1.created && cs.1.subscribers == 1
  {
    (New(DemoSource, None), OnSubscribe(Init(inputValue)))
  }

  /**
   * In the demo, a query shorter than three UTF-16 code units issues no
   * search, and a longer one shows exactly the matching cars.
   */
  lemma DemoInput(inputValue: string, query: string)
    ensures var (c, s) := InitSearchCars(inputValue);
            var r := HandleInput(c, s, query);
            && (JsLength(query) < 3 ==> r.requests == [] && !r.mounted)
            && (JsLength(query) >= 3 ==> r.mounted && Values(r.items) == SuggestionsSearch(query))
  {
  }

  /** One event on the demo controller logs no error. */
  lemma DemoStepLogsNoError(s: State, e: Event)
    ensures Step(New(DemoSource, None), s, e).errors == s.errors
  {
    var c := New(DemoSource, None);
    match e
    case Complete(k) =>
      if InFlight(s, k) {
        assert Search(c.source, s.requests[k].query).Success?;
      }
    case _ =>
  }

  /** Whatever the user does, the demo never logs an error. */
  lemma {:induction false} DemoRunLogsNoError(s: State, events: seq<Event>)
    ensures Run(New(DemoSource, None), s, events).errors == s.errors
    decreases |events|
  {
    if events != [] {
      DemoStepLogsNoError(s, events[0]);
      DemoRunLogsNoError(Step(New(DemoSource, None), s, events[0]), events[1..]);
    }
  }
}
