/**
 * The JavaScript values a dispatch carries and a handler returns, JavaScript
 * truthiness, the wrapper that replaces an `undefined` handler result by `true`
 * (app/main.js:55-64), and the value a listener's completion token is settled
 * with (`returnValue || payload`, app/main.js:105-106).
 */
module JsValues {

  /** A JavaScript value, as far as the dispatcher looks at it. */
  datatype JsValue =
    | Undefined
    | Null
    | Bool(b: bool)
    | Num(n: real)
    | Str(s: string)
    | Object(id: nat)    // any object or array that is not a thenable, by identity
    | Thenable(id: nat)  // a promise (an object with a `then` method), by identity

  /** JavaScript falsiness: `undefined`, `null`, `false`, `0` and `""`. */
  predicate Falsy(v: JsValue) {
    v == Undefined || v == Null || v == Bool(false) || v == Num(0.0) || v == Str("")
  }

  /**
   * The wrapper built by `createWrapper`: a handler that returns nothing
   * counts as having returned `true`; every other result passes unchanged.
   */
  function Wrap(result: JsValue): (w: JsValue)
    ensures w != Undefined
    ensures result != Undefined ==> w == result
    ensures result == Undefined ==> w == Bool(true)
  {
    if result == Undefined then Bool(true) else result
  }

  /** JavaScript's `returnValue || payload`. */
  function OrElse(returnValue: JsValue, payload: JsValue): (v: JsValue)
    ensures !Falsy(returnValue) ==> v == returnValue
    ensures Falsy(returnValue) ==> v == payload
  {
    if Falsy(returnValue) then payload else returnValue
  }

  /**
   * How a listener's completion token is settled once the wrapped handler's
   * result is known: a plain value fulfils it (with the payload in place of a
   * falsy value). A thenable is adopted: once it settles, the token is
   * fulfilled with its eventual value, or with `fallback` (the payload) when
   * that value is falsy, and the token rejects when the thenable rejects.
   */
  datatype Settlement = Fulfil(value: JsValue) | Follow(thenable: nat, fallback: JsValue)

  /**
   * The settlement `dispatch` wires for a handler that returned `result`
   * synchronously: `Promise.resolve(wrapper(payload)).then(v => resolve(v || payload))`.
   */
  function Settle(result: JsValue, payload: JsValue): (s: Settlement)
    ensures result.Thenable? <==> s.Follow?
    ensures result.Thenable? ==> s == Follow(result.id, payload)
    ensures result == Undefined ==> s == Fulfil(Bool(true))
    ensures result != Undefined && Falsy(result) ==> s == Fulfil(payload)
    ensures !Falsy(result) && !result.Thenable? ==> s == Fulfil(result)
    ensures s.Fulfil? && s.value == Undefined ==> payload == Undefined
  {
    var w := Wrap(result);
    if w.Thenable? then Follow(w.id, payload) else Fulfil(OrElse(w, payload))
  }
}
