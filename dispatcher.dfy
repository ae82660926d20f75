/**
 * The `Dispatcher` of app/main.js: its registry `callbacks`, the completion
 * tokens `promises` of the dispatch in progress, `register`, the `waitFor`
 * a handler receives (app/main.js:20-51) and the synchronous part of
 * `dispatch` (app/main.js:86-113).
 *
 * `BindWait`, `RunWaits` and `DispatchFrom` say on values what `waitFor`, a
 * handler's run and `dispatch` do to the registry; the class's methods do it
 * in place and are proved to agree with them.
 */
module FluxDispatcher {
  import opened JsValues
  import opened Registry
  import opened DependencyLayout

  /**
   * `waitFor(storeDeps, callback)` bound to the listener whose store is
   * `store`, called on registry `callbacks` while `promises` holds the live
   * tokens. Gives the registry afterwards and either the tokens the returned
   * future waits on or the failure thrown.
   */
  function BindWait<S(==)>(callbacks: seq<Entry<S>>, promises: seq<Token>, store: S, call: WaitCall<S>)
    : (r: (seq<Entry<S>>, Result<seq<Option<Token>>>))
    requires Registered(callbacks, store)
    ensures SameListeners(callbacks, r.0)
    // fewer than two arguments: rejected, nothing written
    ensures call.argc < 2 ==> r == (callbacks, Err(MissingArgument))
    // a dependency that is no registered store: rejected, nothing written
    ensures call.argc >= 2 && !ValidStores(Normalise(call.deps), callbacks) ==> r == (callbacks, Err(InvalidStores))
    // otherwise the first matching entry's deps are replaced, and only those
    ensures call.argc >= 2 && ValidStores(Normalise(call.deps), callbacks) ==>
      var f := FirstMatch(callbacks, store).value;
      r.0[f].deps == Normalise(call.deps) &&
      (forall j :: 0 <= j < |callbacks| && j != f ==> r.0[j] == callbacks[j])
    // the new deps stay written whether or not the graph now has a cycle
    ensures call.argc >= 2 && ValidStores(Normalise(call.deps), callbacks) ==>
      (r.1 == Err(InfiniteLoop) <==> HasCycle(r.0))
    // on success the graph is acyclic and the future waits on the selected tokens
    ensures r.1.Ok? ==> !HasCycle(r.0) && r.1.value == SelectTokens(r.0, Normalise(call.deps), promises)
    // and it succeeds whenever the call is well formed and leaves the graph acyclic
    ensures call.argc >= 2 && ValidStores(Normalise(call.deps), callbacks) && !HasCycle(r.0) ==>
      r.1 == Ok(SelectTokens(r.0, Normalise(call.deps), promises))
  {
    var deps := Normalise(call.deps);
    if call.argc < 2 then (callbacks, Err(MissingArgument))
    else if !ValidStores(deps, callbacks) then (callbacks, Err(InvalidStores))
    else
      var f := FirstMatch(callbacks, store).value;
      var updated := callbacks[f := callbacks[f].(deps := deps)];
      if IsValidLayout(updated) then (updated, Ok(SelectTokens(updated, deps, promises)))
      else (updated, Err(InfiniteLoop))
  }

  /**
   * The `waitFor` calls a handler makes, one after the other, until one of
   * them throws (the exception leaves the handler).
   */
  function RunWaits<S(==)>(callbacks: seq<Entry<S>>, promises: seq<Token>, store: S, calls: seq<WaitCall<S>>)
    : (r: (seq<Entry<S>>, Option<Failure>))
    requires Registered(callbacks, store)
    ensures SameListeners(callbacks, r.0)
    ensures r.1.Some? ==> !r.1.value.Thrown?
    // no calls: nothing happens; a failure needs some call
    ensures calls == [] ==> r == (callbacks, None)
    ensures r.1.Some? ==> calls != []
    // a first call without its second argument fails before writing anything
    ensures calls != [] && calls[0].argc < 2 ==> r == (callbacks, Some(MissingArgument))
    decreases |calls|
  {
    if calls == [] then (callbacks, None)
    else
      var (next, res) := BindWait(callbacks, promises, store, calls[0]);
      if res.Err? then (next, Some(res.error))
      else
        SameListenersTrans(callbacks, next, RunWaits(next, promises, store, calls[1..]).0);
        RunWaits(next, promises, store, calls[1..])
  }

  /**
   * When none of a handler's `waitFor` calls fails, every call passed both
   * arguments, the last call's stores are the entry's `deps` (each call
   * overwrites the previous one), and the graph is acyclic.
   */
  lemma {:induction false} RunWaitsEffect<S>(callbacks: seq<Entry<S>>, promises: seq<Token>, store: S, calls: seq<WaitCall<S>>)
    requires Registered(callbacks, store)
    ensures var r := RunWaits(callbacks, promises, store, calls);
      r.1.None? ==> forall k :: 0 <= k < |calls| ==> calls[k].argc >= 2
    ensures var r := RunWaits(callbacks, promises, store, calls);
      r.1.None? && calls != [] ==>
        r.0[FirstMatch(callbacks, store).value].deps == Normalise(calls[|calls| - 1].deps) && !HasCycle(r.0)
    decreases |calls|
  {
    if calls != [] {
      var (next, res) := BindWait(callbacks, promises, store, calls[0]);
      if res.Ok? {
        RunWaitsEffect(next, promises, store, calls[1..]);
        RunWaitsExtends(callbacks, next, store, calls, RunWaits(next, promises, store, calls[1..]));
      }
    }
  }

  /** A first `waitFor` call that succeeded, put in front of the calls after it. */
  lemma RunWaitsExtends<S>(callbacks: seq<Entry<S>>, next: seq<Entry<S>>, store: S, calls: seq<WaitCall<S>>,
                           r: (seq<Entry<S>>, Option<Failure>))
    requires Registered(callbacks, store) && calls != [] && calls[0].argc >= 2
    requires SameListeners(callbacks, next) && SameListeners(next, r.0)
    requires next[FirstMatch(callbacks, store).value].deps == Normalise(calls[0].deps) && !HasCycle(next)
    requires calls[1..] == [] ==> r == (next, None)
    requires r.1.None? ==> forall k :: 0 <= k < |calls[1..]| ==> calls[1..][k].argc >= 2
    requires r.1.None? && calls[1..] != [] ==>
      r.0[FirstMatch(next, store).value].deps == Normalise(calls[1..][|calls[1..]| - 1].deps) && !HasCycle(r.0)
    ensures SameListeners(callbacks, r.0)
    ensures r.1.None? ==> forall k :: 0 <= k < |calls| ==> calls[k].argc >= 2
    ensures r.1.None? ==>
      r.0[FirstMatch(callbacks, store).value].deps == Normalise(calls[|calls| - 1].deps) && !HasCycle(r.0)
  {
    SameListenersFirstMatch(callbacks, next, store);
    SameListenersTrans(callbacks, next, r.0);
    if r.1.None? {
      forall k | 0 <= k < |calls|
        ensures calls[k].argc >= 2
      {
        if k > 0 {
          assert calls[k] == calls[1..][k - 1];
        }
      }
      if calls[1..] != [] {
        assert calls[|calls| - 1] == calls[1..][|calls[1..]| - 1];
      }
    }
  }

  /** The first of a handler's `waitFor` calls, and the ones after it. */
  lemma RunWaitsStep<S>(callbacks: seq<Entry<S>>, promises: seq<Token>, store: S, calls: seq<WaitCall<S>>)
    requires Registered(callbacks, store) && calls != []
    ensures var (next, res) := BindWait(callbacks, promises, store, calls[0]);
      RunWaits(callbacks, promises, store, calls) ==
        if res.Err? then (next, Some(res.error)) else RunWaits(next, promises, store, calls[1..])
  {
  }

  /**
   * How a dispatch ends: every handler ran and each token is wired to a
   * settlement (index-aligned), or handler `|settled|` threw synchronously and
   * the exception left `dispatch` after the handlers before it were wired.
   */
  datatype DispatchOutcome =
    | Completed(settled: seq<Settlement>)
    | Aborted(settled: seq<Settlement>, failure: Failure)

  /** Puts the settlements of the handlers already run in front of an outcome. */
  function After<S>(done: seq<Settlement>, r: (seq<Entry<S>>, DispatchOutcome)): (seq<Entry<S>>, DispatchOutcome) {
    (r.0, r.1.(settled := done + r.1.settled))
  }

  /**
   * Calling handler `i` through its wrapper: the handler's `waitFor` calls
   * run, then it returns a value or throws; a `waitFor` failure leaves the
   * handler as an exception.
   */
  function CallHandler<S(==)>(callbacks: seq<Entry<S>>, promises: seq<Token>, i: nat, payload: JsValue)
    : (r: (seq<Entry<S>>, Result<JsValue>))
    requires i < |callbacks|
    ensures SameListeners(callbacks, r.0)
    ensures r.1.Ok? ==> callbacks[i].handler(payload).outcome == Returns(r.1.value)
    ensures r.1.Err? && r.1.error.Thrown? ==> callbacks[i].handler(payload).outcome == Throws(r.1.error.value)
    // any other failure comes from one of the handler's waitFor calls
    ensures r.1.Err? && !r.1.error.Thrown? ==> callbacks[i].handler(payload).waits != []
  {
    var run := callbacks[i].handler(payload);
    var (next, failure) := RunWaits(callbacks, promises, callbacks[i].store, run.waits);
    if failure.Some? then (next, Err(failure.value))
    else match run.outcome
      case Throws(e) => (next, Err(Thrown(e)))
      case Returns(v) => (next, Ok(v))
  }

  /**
   * A handler that calls no `waitFor` leaves the registry alone and ends as it
   * ends; one whose `waitFor` calls all succeeded leaves its last call's
   * stores as its entry's `deps`.
   */
  lemma CallHandlerEffect<S>(callbacks: seq<Entry<S>>, promises: seq<Token>, i: nat, payload: JsValue)
    requires i < |callbacks|
    ensures var r := CallHandler(callbacks, promises, i, payload);
      var run := callbacks[i].handler(payload);
      run.waits == [] ==>
        r == (callbacks, if run.outcome.Returns? then Ok(run.outcome.value) else Err(Thrown(run.outcome.error)))
    ensures var r := CallHandler(callbacks, promises, i, payload);
      var run := callbacks[i].handler(payload);
      run.waits != [] && (r.1.Ok? || r.1.error.Thrown?) ==>
        r.0[FirstMatch(callbacks, callbacks[i].store).value].deps == Normalise(run.waits[|run.waits| - 1].deps)
  {
    RunWaitsEffect(callbacks, promises, callbacks[i].store, callbacks[i].handler(payload).waits);
  }

  /**
   * Handlers `from`, `from + 1`, ... returned, and their tokens are wired,
   * in that order, to the settlements in `settled`.
   */
  ghost predicate Wired<S>(callbacks: seq<Entry<S>>, payload: JsValue, from: nat, settled: seq<Settlement>) {
    from + |settled| <= |callbacks| &&
    forall k :: 0 <= k < |settled| ==> WiredSlot(callbacks, payload, from + k, settled[k])
  }

  /** Handler `n` returned, and its token is wired to settlement `s` of its result. */
  ghost predicate WiredSlot<S>(callbacks: seq<Entry<S>>, payload: JsValue, n: nat, s: Settlement) {
    n < |callbacks| &&
    callbacks[n].handler(payload).outcome.Returns? &&
    s == Settle(callbacks[n].handler(payload).outcome.value, payload)
  }

  lemma SameListenersTrans<S>(a: seq<Entry<S>>, b: seq<Entry<S>>, c: seq<Entry<S>>)
    requires SameListeners(a, b) && SameListeners(b, c)
    ensures SameListeners(a, c)
  {
  }

  /** Wiring handler `i`'s result in front of the wiring of the handlers after it. */
  lemma WiredCons<S>(callbacks: seq<Entry<S>>, next: seq<Entry<S>>, payload: JsValue, i: nat, v: JsValue, rest: seq<Settlement>)
    requires SameListeners(callbacks, next) && i < |callbacks|
    requires callbacks[i].handler(payload).outcome == Returns(v)
    requires Wired(next, payload, i + 1, rest)
    ensures Wired(callbacks, payload, i, [Settle(v, payload)] + rest)
  {
    var settled := [Settle(v, payload)] + rest;
    forall k | 0 <= k < |settled|
      ensures WiredSlot(callbacks, payload, i + k, settled[k])
    {
      WiredAt(callbacks, next, payload, i, v, rest, k);
    }
  }

  /** Handler `i + k` is wired to slot `k` of the settlements built by `WiredCons`. */
  lemma WiredAt<S>(callbacks: seq<Entry<S>>, next: seq<Entry<S>>, payload: JsValue, i: nat, v: JsValue,
                   rest: seq<Settlement>, k: nat)
    requires SameListeners(callbacks, next) && i < |callbacks|
    requires callbacks[i].handler(payload).outcome == Returns(v)
    requires Wired(next, payload, i + 1, rest)
    requires k <= |rest|
    ensures WiredSlot(callbacks, payload, i + k, ([Settle(v, payload)] + rest)[k])
  {
    if k > 0 {
      assert WiredSlot(next, payload, i + 1 + (k - 1), rest[k - 1]);
      assert next[i + k].handler == callbacks[i + k].handler;
    }
  }

  /**
   * The `forEach` of `dispatch` from handler `i` on: each handler is called
   * with `payload`, in registration order, while `tokens` are live.
   */
  function DispatchFrom<S(==)>(callbacks: seq<Entry<S>>, tokens: seq<Token>, payload: JsValue, i: nat)
    : (r: (seq<Entry<S>>, DispatchOutcome))
    requires i <= |callbacks|
    ensures SameListeners(callbacks, r.0)
    ensures r.1.Completed? ==> i + |r.1.settled| == |callbacks|
    ensures r.1.Aborted? ==> i + |r.1.settled| < |callbacks|
    // handler i + k ran to a return, and its token is wired to that result
    ensures Wired(callbacks, payload, i, r.1.settled)
    // a handler's own exception is the one that leaves dispatch
    ensures r.1.Aborted? && r.1.failure.Thrown? ==>
      callbacks[i + |r.1.settled|].handler(payload).outcome == Throws(r.1.failure.value)
    // any other abort comes from a waitFor call of the handler that stopped the run
    ensures r.1.Aborted? && !r.1.failure.Thrown? ==>
      callbacks[i + |r.1.settled|].handler(payload).waits != []
    decreases |callbacks| - i
  {
    if i == |callbacks| then (callbacks, Completed([]))
    else
      var (next, res) := CallHandler(callbacks, tokens, i, payload);
      if res.Err? then (next, Aborted([], res.error))
      else
        var rest := DispatchFrom(next, tokens, payload, i + 1);
        DispatchExtends(callbacks, next, payload, i, res.value, rest);
        After([Settle(res.value, payload)], rest)
  }

  /** A handler that returned, put in front of the run of the handlers after it. */
  lemma DispatchExtends<S>(callbacks: seq<Entry<S>>, next: seq<Entry<S>>, payload: JsValue, i: nat, v: JsValue,
                           rest: (seq<Entry<S>>, DispatchOutcome))
    requires i < |callbacks| && SameListeners(callbacks, next) && SameListeners(next, rest.0)
    requires callbacks[i].handler(payload).outcome == Returns(v)
    requires rest.1.Completed? ==> i + 1 + |rest.1.settled| == |next|
    requires rest.1.Aborted? ==> i + 1 + |rest.1.settled| < |next|
    requires Wired(next, payload, i + 1, rest.1.settled)
    requires rest.1.Aborted? && rest.1.failure.Thrown? ==>
      next[i + 1 + |rest.1.settled|].handler(payload).outcome == Throws(rest.1.failure.value)
    requires rest.1.Aborted? && !rest.1.failure.Thrown? ==>
      next[i + 1 + |rest.1.settled|].handler(payload).waits != []
    ensures var r := After([Settle(v, payload)], rest);
      SameListeners(callbacks, r.0) &&
      (r.1.Completed? ==> i + |r.1.settled| == |callbacks|) &&
      (r.1.Aborted? ==> i + |r.1.settled| < |callbacks|) &&
      Wired(callbacks, payload, i, r.1.settled) &&
      (r.1.Aborted? && r.1.failure.Thrown? ==>
        callbacks[i + |r.1.settled|].handler(payload).outcome == Throws(r.1.failure.value)) &&
      (r.1.Aborted? && !r.1.failure.Thrown? ==>
        callbacks[i + |r.1.settled|].handler(payload).waits != [])
  {
    WiredCons(callbacks, next, payload, i, v, rest.1.settled);
    SameListenersTrans(callbacks, next, rest.0);
    SameHandlerAt(callbacks, next, i + 1 + |rest.1.settled|);
  }

  /** Registries with the same listeners call the same handler at each index. */
  lemma SameHandlerAt<S>(a: seq<Entry<S>>, b: seq<Entry<S>>, n: nat)
    requires SameListeners(a, b)
    ensures n < |a| ==> a[n].handler == b[n].handler
  {
  }

  /** One step of the `forEach`, seen from the handlers already run. */
  lemma DispatchStep<S>(callbacks: seq<Entry<S>>, tokens: seq<Token>, payload: JsValue, i: nat, done: seq<Settlement>)
    requires i < |callbacks|
    ensures var (next, res) := CallHandler(callbacks, tokens, i, payload);
      After(done, DispatchFrom(callbacks, tokens, payload, i)) ==
        if res.Err? then (next, Aborted(done, res.error))
        else After(done + [Settle(res.value, payload)], DispatchFrom(next, tokens, payload, i + 1))
  {
    var (next, res) := CallHandler(callbacks, tokens, i, payload);
    if res.Ok? {
      var p := Settle(res.value, payload);
      var rest := DispatchFrom(next, tokens, payload, i + 1);
      assert DispatchFrom(callbacks, tokens, payload, i) == After([p], rest);
      assert done + ([p] + rest.1.settled) == (done + [p]) + rest.1.settled;
    } else {
      assert DispatchFrom(callbacks, tokens, payload, i) == (next, Aborted([], res.error));
      assert done + [] == done;
    }
  }

  /**
   * While a dispatch is in progress, `waitFor` selects exactly that
   * dispatch's tokens of the entries it names, each at its entry's index.
   */
  lemma LiveSelection<S>(callbacks: seq<Entry<S>>, deps: seq<S>, dispatch: nat)
    ensures var r := SelectTokens(callbacks, deps, FreshTokens(dispatch, |callbacks|));
      forall i :: 0 <= i < |callbacks| ==>
        (r[i] == Some(Token(dispatch, i)) <==> callbacks[i].store in deps) &&
        (r[i] == None <==> callbacks[i].store !in deps)
  {
  }

  /**
   * Once `dispatch` has returned, `promises` is empty: a `waitFor` called
   * later selects no token at all, whatever it names.
   */
  lemma StaleSelection<S>(callbacks: seq<Entry<S>>, deps: seq<S>)
    ensures forall t :: t in SelectTokens(callbacks, deps, []) ==> t == None
  {
  }

  /**
   * Registering a listener never creates or removes a cycle: the new entry
   * has no dependencies, so no cycle can pass through it.
   */
  lemma RegisterKeepsAcyclic<S>(callbacks: seq<Entry<S>>, e: Entry<S>)
    requires e.deps == []
    ensures HasCycle(callbacks + [e]) <==> HasCycle(callbacks)
  {
    var grown := callbacks + [e];
    if HasCycle(grown) {
      var i :| Reaches(grown, i, i);
      var p :| IsPath(grown, p) && |p| >= 2 && p[0] == i && p[|p| - 1] == i;
      forall k | 0 <= k < |p| - 1
        ensures p[k] < |callbacks|
      {
        assert Edge(grown, p[k], p[k + 1]);
      }
      assert p[|p| - 1] < |callbacks|;
      forall k | 0 <= k < |p| - 1
        ensures Edge(callbacks, p[k], p[k + 1])
      {
        assert Edge(grown, p[k], p[k + 1]);
      }
      assert IsPath(callbacks, p);
      assert Reaches(callbacks, i, i);
    }
    if HasCycle(callbacks) {
      var i :| Reaches(callbacks, i, i);
      var p :| IsPath(callbacks, p) && |p| >= 2 && p[0] == i && p[|p| - 1] == i;
      forall k | 0 <= k < |p| - 1
        ensures Edge(grown, p[k], p[k + 1])
      {
        assert Edge(callbacks, p[k], p[k + 1]);
      }
      assert IsPath(grown, p);
      assert Reaches(grown, i, i);
    }
  }

  /**
   * No rollback: a cycle that does not pass through the caller's entry
   * survives its `waitFor` (which only rewrites that entry's `deps`), so
   * the call fails, whatever it names.
   */
  lemma CycleOutlivesWaitFor<S>(callbacks: seq<Entry<S>>, promises: seq<Token>, store: S, call: WaitCall<S>, p: seq<int>)
    requires Registered(callbacks, store)
    requires IsPath(callbacks, p) && |p| >= 2 && p[0] == p[|p| - 1]
    requires forall k :: 0 <= k < |p| ==> p[k] != FirstMatch(callbacks, store).value
    ensures BindWait(callbacks, promises, store, call).1.Err?
  {
    var r := BindWait(callbacks, promises, store, call);
    if call.argc >= 2 && ValidStores(Normalise(call.deps), callbacks) {
      forall k | 0 <= k < |p| - 1
        ensures Edge(r.0, p[k], p[k + 1])
      {
        assert Edge(callbacks, p[k], p[k + 1]);
      }
      assert IsPath(r.0, p);
      assert Reaches(r.0, p[0], p[0]);
    }
  }

  /**
   * Closing a cycle of two: when `a`'s entry already depends on `b`, the
   * listener `b` waiting for `a` fails with the infinite-loop error, and its
   * new `deps` stay recorded.
   */
  lemma MutualWaitRejected<S>(callbacks: seq<Entry<S>>, promises: seq<Token>, a: S, b: S, call: WaitCall<S>)
    requires Registered(callbacks, a) && Registered(callbacks, b)
    requires b in callbacks[FirstMatch(callbacks, a).value].deps
    requires call.argc >= 2 && a in Normalise(call.deps) && ValidStores(Normalise(call.deps), callbacks)
    ensures BindWait(callbacks, promises, b, call).1 == Err(InfiniteLoop)
    ensures BindWait(callbacks, promises, b, call).0[FirstMatch(callbacks, b).value].deps == Normalise(call.deps)
  {
    var r := BindWait(callbacks, promises, b, call);
    var i, j := FirstMatch(callbacks, a).value, FirstMatch(callbacks, b).value;
    assert r.0[j].deps == Normalise(call.deps);
    assert r.0[i].store == a && r.0[j].store == b;
    if i != j {
      assert r.0[i] == callbacks[i];
    }
    CycleOfTwo(r.0, i, j);
  }

  lemma CycleOfTwo<S>(callbacks: seq<Entry<S>>, i: int, j: int)
    requires Edge(callbacks, i, j) && Edge(callbacks, j, i)
    ensures HasCycle(callbacks)
  {
    assert IsPath(callbacks, [j, i, j]);
    assert Reaches(callbacks, j, j);
  }

  /** The dispatcher object. */
  class Dispatcher<S(==)> {
    var callbacks: seq<Entry<S>>
    var promises: seq<Token>
    /** How many dispatches have started; names the tokens of each (not in the source). */
    var dispatches: nat

    /** The live tokens, if any, are those of the latest dispatch, index-aligned. */
    ghost predicate Valid()
      reads this
    {
      |promises| <= |callbacks| && promises == FreshTokens(dispatches, |promises|)
    }

    constructor ()
      ensures Valid()
      ensures callbacks == [] && promises == [] && dispatches == 0
    {
      callbacks := [];
      promises := [];
      dispatches := 0;
    }

    /** `register`: appends one entry with no dependencies. */
    method Register(store: S, handler: JsValue -> Run<S>)
      requires Valid()
      modifies this
      ensures Valid()
      ensures callbacks == old(callbacks) + [Entry(store, handler, [])]
      ensures promises == old(promises) && dispatches == old(dispatches)
    {
      callbacks := callbacks + [Entry(store, handler, [])];
    }

    /** The `waitFor` of the listener whose store is `store`. */
    method WaitFor(store: S, call: WaitCall<S>) returns (r: Result<seq<Option<Token>>>)
      requires Valid() && Registered(callbacks, store)
      modifies this
      ensures Valid()
      ensures (callbacks, r) == BindWait(old(callbacks), old(promises), store, call)
      ensures promises == old(promises) && dispatches == old(dispatches)
      // a token it selects is the current dispatch's token of that entry
      ensures r.Ok? ==> forall j :: 0 <= j < |r.value| && r.value[j].Some? ==> r.value[j].value == Token(dispatches, j)
    {
      var deps := Normalise(call.deps);
      if call.argc < 2 {
        return Err(MissingArgument);
      }
      if !ValidStores(deps, callbacks) {
        return Err(InvalidStores);
      }
      var found := GetCallback(callbacks, store);
      var f := found.value;
      callbacks := callbacks[f := callbacks[f].(deps := deps)];
      if IsValidLayout(callbacks) {
        r := Ok(SelectTokens(callbacks, deps, promises));
      } else {
        r := Err(InfiniteLoop);
      }
    }

    /**
     * `callback.func(payload)`: handler `i` runs, calling its `waitFor` in
     * place, until it returns or throws.
     */
    method Invoke(i: nat, payload: JsValue) returns (r: Result<JsValue>)
      requires Valid() && i < |callbacks|
      modifies this
      ensures Valid()
      ensures (callbacks, r) == CallHandler(old(callbacks), promises, i, payload)
      ensures promises == old(promises) && dispatches == old(dispatches)
    {
      var run := callbacks[i].handler(payload);
      var store := callbacks[i].store;
      ghost var before := callbacks;
      var k := 0;
      while k < |run.waits|
        invariant 0 <= k <= |run.waits|
        invariant Valid() && promises == old(promises) && dispatches == old(dispatches)
        invariant SameListeners(before, callbacks) && callbacks[i].store == store
        invariant RunWaits(before, promises, store, run.waits) == RunWaits(callbacks, promises, store, run.waits[k..])
      {
        RunWaitsStep(callbacks, promises, store, run.waits[k..]);
        assert run.waits[k..][1..] == run.waits[k + 1..];
        var res := WaitFor(store, run.waits[k]);
        if res.Err? {
          return Err(res.error);
        }
        k := k + 1;
      }
      match run.outcome {
        case Throws(e) => r := Err(Thrown(e));
        case Returns(v) => r := Ok(v);
      }
    }

    /**
     * `dispatch`: creates one fresh token per entry, calls every handler in
     * registration order (each may call its `waitFor`), and clears `promises`
     * when every handler has returned. Returns the tokens it created.
     */
    method Dispatch(payload: JsValue) returns (tokens: seq<Token>, outcome: DispatchOutcome)
      requires Valid()
      modifies this
      ensures Valid()
      ensures dispatches == old(dispatches) + 1
      ensures tokens == FreshTokens(dispatches, |old(callbacks)|)
      ensures (callbacks, outcome) == DispatchFrom(old(callbacks), tokens, payload, 0)
      ensures outcome.Completed? ==> promises == []
      ensures outcome.Aborted? ==> promises == tokens
    {
      dispatches := dispatches + 1;
      var n := |callbacks|;
      tokens := FreshTokens(dispatches, n);
      promises := tokens;
      ghost var start := callbacks;
      var settled: seq<Settlement> := [];
      var i := 0;
      ghost var goal := DispatchFrom(start, tokens, payload, 0);
      assert [] + goal.1.settled == goal.1.settled;
      while i < n
        invariant 0 <= i <= n && |callbacks| == n
        invariant Valid() && promises == tokens && dispatches == old(dispatches) + 1
        invariant goal == After(settled, DispatchFrom(callbacks, tokens, payload, i))
      {
        DispatchStep(callbacks, tokens, payload, i, settled);
        var res := Invoke(i, payload);
        if res.Err? {
          outcome := Aborted(settled, res.error);
          return;
        }
        settled := settled + [Settle(res.value, payload)];
        i := i + 1;
      }
      assert DispatchFrom(callbacks, tokens, payload, n) == (callbacks, Completed([]));
      assert settled + [] == settled;
      promises := [];
      outcome := Completed(settled);
    }
  }
}
