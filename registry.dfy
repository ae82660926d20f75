/**
 * The listener registry of the dispatcher: its entries `{store, func, deps}`,
 * the arguments a handler passes to `waitFor`, first-match lookup
 * (`getCallback`, app/main.js:9-15), dependency normalisation
 * (app/main.js:24), the check that every dependency names a registered store
 * (`compareArraysWithProp`, app/main.js:30) and the index-aligned selection of
 * completion tokens (app/main.js:39-43).
 */
module Registry {
  import opened JsValues

  datatype Option<T> = None | Some(value: T)

  /** The failures the dispatcher raises, and a handler's own exception. */
  datatype Failure =
    | MissingArgument        // "Missing argument(s) in waitFor()"
    | InvalidStores          // "You have passed invalid stores to waitFor()"
    | InfiniteLoop           // "There is an infinite loop on your waitFor handling"
    | Thrown(value: JsValue) // a handler threw this value

  datatype Result<T> = Ok(value: T) | Err(error: Failure)

  /**
   * A completion token (a promise of the source): the `index`-th token
   * created by the `dispatch`-th call of `dispatch`. Only its identity matters.
   */
  datatype Token = Token(dispatch: nat, index: nat)

  /** The first argument of `waitFor`: one store, or an array of stores. */
  datatype DepsArg<S> = One(store: S) | Many(stores: seq<S>)

  /** One call of a listener's `waitFor`, with the number of arguments passed. */
  datatype WaitCall<S> = WaitCall(deps: DepsArg<S>, argc: nat)

  /** How a handler's synchronous run ends. */
  datatype Outcome = Returns(value: JsValue) | Throws(error: JsValue)

  /**
   * What a handler does synchronously when it is called with a payload: the
   * `waitFor` calls it makes, in order, and then how it ends.
   */
  datatype Run<S> = Run(waits: seq<WaitCall<S>>, outcome: Outcome)

  /** A registry entry `{store, func, deps}`. */
  datatype Entry<S> = Entry(store: S, handler: JsValue -> Run<S>, deps: seq<S>)

  /** Some entry of the registry has `store` as its store. */
  predicate Registered<S(==)>(callbacks: seq<Entry<S>>, store: S) {
    exists j | 0 <= j < |callbacks| :: callbacks[j].store == store
  }

  /** Two registries hold the same listeners in the same order; only `deps` may differ. */
  ghost predicate SameListeners<S>(a: seq<Entry<S>>, b: seq<Entry<S>>) {
    |a| == |b| &&
    forall j :: 0 <= j < |a| ==> a[j].store == b[j].store && a[j].handler == b[j].handler
  }

  /**
   * The index of the first entry whose store is `store` (the entry
   * `getCallback` returns), or None when no entry has it.
   */
  function FirstMatch<S(==)>(callbacks: seq<Entry<S>>, store: S): (r: Option<nat>)
    ensures r.None? <==> !Registered(callbacks, store)
    ensures r.Some? ==> r.value < |callbacks| && callbacks[r.value].store == store
    ensures r.Some? ==> forall j :: 0 <= j < r.value ==> callbacks[j].store != store
  {
    if |callbacks| == 0 then None
    else if callbacks[0].store == store then Some(0)
    else match FirstMatch(callbacks[1..], store)
      case None => None
      case Some(k) => Some(k + 1)
  }

  /** `getCallback`: an indexed scan that returns at the first match. */
  method GetCallback<S(==)>(callbacks: seq<Entry<S>>, store: S) returns (r: Option<nat>)
    ensures r == FirstMatch(callbacks, store)
  {
    var x := 0;
    while x < |callbacks|
      invariant 0 <= x <= |callbacks|
      invariant forall j :: 0 <= j < x ==> callbacks[j].store != store
    {
      if callbacks[x].store == store {
        return Some(x);
      }
      x := x + 1;
    }
    return None;
  }

  /** `Array.isArray(storeDeps) ? storeDeps : [storeDeps]`. */
  function Normalise<S>(arg: DepsArg<S>): (deps: seq<S>)
    ensures arg.One? ==> deps == [arg.store]
    ensures arg.Many? ==> deps == arg.stores
  {
    match arg
    case One(s) => [s]
    case Many(ss) => ss
  }

  /**
   * Every proposed dependency is the store of some registered entry; the
   * empty list is valid.
   */
  predicate ValidStores<S(==)>(deps: seq<S>, callbacks: seq<Entry<S>>)
    ensures ValidStores(deps, callbacks) <==>
      forall k :: 0 <= k < |deps| ==> FirstMatch(callbacks, deps[k]).Some?
  {
    forall d | d in deps :: Registered(callbacks, d)
  }

  /**
   * The tokens `waitFor` waits on: index-aligned with the registry, slot `i`
   * holds `promises[i]` when entry `i`'s store is among `deps` and is empty
   * otherwise (also when `promises` has no slot `i`: `undefined` in the source).
   */
  function SelectTokens<S(==)>(callbacks: seq<Entry<S>>, deps: seq<S>, promises: seq<Token>)
    : (r: seq<Option<Token>>)
    ensures |r| == |callbacks|
    ensures forall i :: 0 <= i < |r| ==> (r[i].Some? <==> callbacks[i].store in deps && i < |promises|)
    ensures forall i :: 0 <= i < |r| && r[i].Some? ==> r[i].value == promises[i]
  {
    seq(|callbacks|, i requires 0 <= i < |callbacks| =>
      if callbacks[i].store in deps && i < |promises| then Some(promises[i]) else None)
  }

  /** The tokens of the `dispatch`-th dispatch over `n` listeners, index-aligned. */
  function FreshTokens(dispatch: nat, n: nat): (tokens: seq<Token>)
    ensures |tokens| == n
    ensures forall i :: 0 <= i < n ==> tokens[i] == Token(dispatch, i)
  {
    seq(n, i requires 0 <= i < n => Token(dispatch, i))
  }

  /**
   * Appending an entry never changes which entry a registered store finds:
   * a later duplicate registration does not take over an earlier one's `deps`.
   */
  lemma {:induction false} AppendKeepsFirstMatch<S>(callbacks: seq<Entry<S>>, e: Entry<S>, store: S)
    ensures Registered(callbacks, store) ==> FirstMatch(callbacks + [e], store) == FirstMatch(callbacks, store)
    ensures !Registered(callbacks, store) && e.store == store ==> FirstMatch(callbacks + [e], store) == Some(|callbacks|)
    ensures !Registered(callbacks, store) && e.store != store ==> FirstMatch(callbacks + [e], store) == None
  {
    if |callbacks| > 0 && callbacks[0].store != store {
      assert (callbacks + [e])[1..] == callbacks[1..] + [e];
      AppendKeepsFirstMatch(callbacks[1..], e, store);
    }
  }

  /** Registries with the same listeners find every store at the same entry. */
  lemma {:induction false} SameListenersFirstMatch<S>(a: seq<Entry<S>>, b: seq<Entry<S>>, store: S)
    requires SameListeners(a, b)
    ensures FirstMatch(a, store) == FirstMatch(b, store)
  {
    if |a| > 0 && a[0].store != store {
      SameListenersFirstMatch(a[1..], b[1..], store);
    }
  }

  /** Tokens of two different dispatches are never the same token. */
  lemma TokensOfDispatchesDisjoint(d1: nat, n1: nat, d2: nat, n2: nat)
    requires d1 != d2
    ensures forall t :: t in FreshTokens(d1, n1) ==> t !in FreshTokens(d2, n2)
  {
  }
}
