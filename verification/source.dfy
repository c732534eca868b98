/**
 * The suggestion source of an autocomplete controller (its `_searchFn`) and
 * the resolution protocol `_search` applies to it, with the runtime type
 * dispatch replaced by a tagged variant.
 */
module SuggestionSource {
  import opened Wrappers
  import opened JsStrings

  /**
   * The results of JavaScript's `typeof` that a source outside the three
   * supported shapes can have (`"function"` is always a supported shape).
   */
  datatype JsType = Undefined | Object | String | Number | Boolean | Symbol | BigInt {

    /** The string `typeof` yields for a value of this type. */
    function Name(): string {
      match this
      case Undefined => "undefined"
      case Object => "object"
      case String => "string"
      case Number => "number"
      case Boolean => "boolean"
      case Symbol => "symbol"
      case BigInt => "bigint"
    }
  }

  /**
   * The shapes `_search` accepts, in the order it tries them: a callback
   * called with the query, a plain array, an unresolved promise; anything
   * else is described by its `typeof`. A callback's `mayReject` says whether
   * it can throw or return a promise that rejects; when it does not, `f`
   * gives its answer for every query.
   */
  datatype Source =
    | Callback(f: string -> seq<string>, mayReject: bool)
    | FixedList(list: seq<string>)
    | Pending(resolved: seq<string>)
    | Unsupported(typ: JsType)

  /**
   * Why a search produced no suggestions: the source had an unsupported type,
   * or the callback threw or its promise rejected.
   */
  datatype SearchError = UnsupportedType(typ: JsType) | Rejected

  const UnsupportedPrefix: string := "Provided data has unsupported type: "
  const UnsupportedSuffix: string := ".\n            Please provide Array or callback to fetch data."

  /** The message of the error `_search` throws for an unsupported source. */
  function UnsupportedMessage(t: JsType): (msg: string)
    ensures Contains(msg, t.Name())
    ensures UnsupportedPrefix <= msg
  {
    var msg := UnsupportedPrefix + t.Name() + UnsupportedSuffix;
    assert msg[|UnsupportedPrefix|..|UnsupportedPrefix| + |t.Name()|] == t.Name();
    assert OccursAt(msg, t.Name(), |UnsupportedPrefix|);
    msg
  }

  /**
   * `_search(query)`: a callback's result for the query, an array verbatim,
   * a promise's resolved value, or an error naming the unsupported type.
   */
  function Search(src: Source, query: string): (r: Result<seq<string>, SearchError>)
    ensures r.Failure? <==> src.Unsupported?
    ensures r.Failure? ==> r.error == UnsupportedType(src.typ)
    ensures src.Callback? ==> r == Success(src.f(query))
    ensures src.FixedList? ==> r == Success(src.list)
    ensures src.Pending? ==> r == Success(src.resolved)
  {
    match src
    case Callback(f, _) => Success(f(query))
    case FixedList(list) => Success(list)
    case Pending(resolved) => Success(resolved)
    case Unsupported(t) => Failure(UnsupportedType(t))
  }

  /** Only a callback sees the query: the other shapes resolve alike for every query. */
  lemma SearchIgnoresQueryUnlessCallback(src: Source, q1: string, q2: string)
    requires !src.Callback?
    ensures Search(src, q1) == Search(src, q2)
  {
  }
}
