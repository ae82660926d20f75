# A verified model of the flux-react-dispatcher core

This project models `app/main.js` of flux-react-dispatcher in Dafny. That file is a single-instance Flux dispatcher. It models these parts:

- **The listener registry.** `callbacks` is an ordered list of entries `{store, func, deps}`. `register` appends to it. `getCallback` looks up the first entry with a given store.
- **`waitFor`.** Each listener gets its own `waitFor`. It normalises its first argument to a list and checks the arity. It checks that every dependency is a registered store. It then overwrites the `deps` of the first matching entry. After that write it checks the whole dependency graph for a cycle. If there is none, it selects the live completion tokens of the named stores, index-aligned with the registry.
- **The synchronous part of `dispatch`.** It creates one completion token per entry. It calls every handler through its wrapper, in registration order, and wires each result to that handler's token. When every handler has returned, it empties `promises`.

Store identities are a type parameter compared with `==` (JavaScript `===`). A completion token (a promise) is an opaque value `Token(dispatch, index)`. A handler is a total function from the payload to its synchronous run: the `waitFor` calls it makes, in order, and then whether it returns a value or throws. A handler's result is a small JavaScript-value datatype with JavaScript falsiness.

Modules:
- `JsValues` (js_values.dfy): values, falsiness, the `undefined` → `true` wrapper, and the settlement `returnValue || payload`.
- `Registry` (registry.dfy): entries, `getCallback`, normalisation, the dependency-validity check, token selection.
- `DependencyLayout` (dependency_layout.dfy): the acyclicity check. It computes reachability sets and is proved to accept exactly the registries whose graph has no cycle.
- `FluxDispatcher` (dispatcher.dfy): value-level specifications of `waitFor`, of a handler call and of `dispatch`, and the `Dispatcher` class, whose methods update `callbacks` and `promises` in place and are proved against those specifications.

Two behaviours of the code worth knowing:
- A cycle error does not roll back the `deps` written just before the check (app/main.js:35-46). The new edges stay. While the cycle lasts, every `waitFor` call from a listener whose entry is not on the cycle fails (`CycleOutlivesWaitFor`). A listener on the cycle can still break it by overwriting its own `deps`.
- A handler that throws synchronously escapes `dispatch`. This includes an error thrown by its own `waitFor`. `callback.func(payload)` is evaluated before `Promise.resolve` (app/main.js:105). The remaining handlers are not started, and `this.promises = []` (app/main.js:112) is not reached. `Dispatch` then ends `Aborted`, with `promises` still holding the live tokens.

## Model

| member | source | states |
|---|---|---|
| `JsValues.Wrap` | app/main.js:55-64 | the wrapped result is never `undefined`: `undefined` becomes `true`, and every other result passes unchanged |
| `JsValues.OrElse` | app/main.js:106 | JavaScript's `or` of the return value and the payload: a truthy return value is kept, and a falsy one is replaced by the payload |
| `JsValues.Settle` | app/main.js:102-110 | a handler's token settles with `true` when the handler returned `undefined`, with the payload when it returned `false`, `0`, `""` or `null`, and with the value itself when it is truthy. A returned thenable is adopted together with the payload: the token later takes the thenable's eventual value, or the payload when that value is falsy. A fulfilled value is `undefined` only if the payload is |
| `Registry.FirstMatch` | app/main.js:9-15 | returns None exactly when no entry has the store; otherwise it returns the lowest index whose entry has that store |
| `Registry.GetCallback` | app/main.js:9-15 | the indexed scan with early return finds exactly the first-match index, or None |
| `Registry.Normalise` | app/main.js:24 | a single non-array argument becomes a one-element list; an array is kept as it is |
| `Registry.ValidStores` | app/main.js:30 | the dependency list is valid iff every store it names is found by the first-match lookup; the empty list is valid |
| `Registry.SelectTokens` | app/main.js:39-43 | the selection has one slot per entry; slot `i` holds `promises[i]` iff entry `i`'s store is among the deps and `promises` has slot `i`; otherwise it is empty |
| `Registry.FreshTokens` | app/main.js:93-98 | one token per entry, index-aligned: token `i` of dispatch `d` is `Token(d, i)` |
| `Registry.AppendKeepsFirstMatch` | app/main.js:79-83 | appending an entry leaves the first match of every registered store unchanged; a new store is found at the new last index |
| `Registry.TokensOfDispatchesDisjoint` | app/main.js:93-98 | two different dispatches never share a token |
| `Registry.SameListenersFirstMatch` | app/main.js:35-36 | `waitFor` only rewrites `deps`, so every store keeps being found at the same entry |
| `DependencyLayout.Successors` | app/main.js:38 | the direct dependencies of a set of entries are entries of the registry |
| `DependencyLayout.Closure` | app/main.js:38 | the closure contains its start set, stays within the registry, and is closed under dependency edges |
| `DependencyLayout.ClosureSound` | app/main.js:38 | every entry the closure adds is reachable by dependency edges from the start entry |
| `DependencyLayout.ReachComplete` | app/main.js:38 | the end of every walk of one or more edges from an entry is in that entry's computed reach set |
| `DependencyLayout.NoSelfReachIffAcyclic` | app/main.js:38 | no entry lies in its own computed reach set iff no entry reaches itself through its `deps` edges |
| `DependencyLayout.IsValidLayout` | app/main.js:38 | the layout check accepts the registry iff its dependency graph has no cycle |
| `FluxDispatcher.BindWait` | app/main.js:22-49 | fewer than two arguments fail with the missing-argument error and change nothing. A dependency that is not a registered store fails with the invalid-stores error and changes nothing. Otherwise only the first matching entry's `deps` is replaced by the normalised list, and every other entry is unchanged. The call then fails with the infinite-loop error iff the updated graph has a cycle, and the new `deps` stay either way. On success the graph is acyclic and the result is the selected tokens. Conversely, a well-formed call that leaves the graph acyclic always succeeds |
| `FluxDispatcher.RunWaits` | app/main.js:26-46 | a handler's successive `waitFor` calls change only `deps`. With no calls nothing changes and nothing fails. A failure needs at least one call and is one of the three `waitFor` errors. A first call without its second argument fails and writes nothing |
| `FluxDispatcher.RunWaitsEffect` | app/main.js:26-46 | when none of the calls fails, each passed both arguments, the entry's `deps` are the stores of the last call (each call overwrites the one before), and the graph is acyclic |
| `FluxDispatcher.CallHandler` | app/main.js:101-105 | calling a handler runs its `waitFor` calls and changes only `deps`. It gives the handler's raw result (the `undefined` → `true` wrapping is applied afterwards, in `Settle`). A value is given only when the handler returned it. A thrown value is the handler's own. Any other failure needs the handler to have called `waitFor` |
| `FluxDispatcher.CallHandlerEffect` | app/main.js:101-105 | a handler that calls no `waitFor` leaves the registry unchanged and ends with its own return value or exception; one whose `waitFor` calls all succeeded leaves its entry's `deps` as its last call named |
| `FluxDispatcher.DispatchFrom` | app/main.js:101-111 | handlers are called in registration order, and each one that returned has its token wired to `Settle` of its result, index-aligned. The run completes with one settlement per entry, or stops at the first handler that throws. It reports that handler's own exception, or else a `waitFor` error, and then the stopping handler called `waitFor`. Stores and handlers are never changed |
| `FluxDispatcher.DispatchStep` | app/main.js:101-111 | one step of the `forEach`: a handler that throws ends the dispatch, and one that returns adds its settlement and goes on with the next handler |
| `FluxDispatcher.LiveSelection` | app/main.js:39-43 | while a dispatch is in progress, slot `i` of a `waitFor` selection is that dispatch's token `i` iff entry `i`'s store is named, and is empty iff it is not |
| `FluxDispatcher.StaleSelection` | app/main.js:112 | once `promises` is empty, a later `waitFor` selects no token |
| `FluxDispatcher.RegisterKeepsAcyclic` | app/main.js:79-83 | appending an entry with empty `deps` neither creates nor removes a cycle |
| `FluxDispatcher.CycleOutlivesWaitFor` | app/main.js:35-46 | a cycle that does not pass through the caller's entry makes that caller's `waitFor` fail, whatever it names, because a rejected write is never rolled back |
| `FluxDispatcher.MutualWaitRejected` | app/main.js:35-46 | when `a`'s entry depends on `b`, `b` waiting for `a` fails with the infinite-loop error, and `b`'s new `deps` stay recorded |
| `FluxDispatcher.CycleOfTwo` | app/main.js:38 | two entries that depend on each other form a cycle |
| `FluxDispatcher.Dispatcher.constructor` | app/main.js:66-69 | a new dispatcher has no entries and no live tokens |
| `FluxDispatcher.Dispatcher.Register` | app/main.js:73-84 | exactly one entry `{store, handler, deps: []}` is appended at the end; earlier entries, their order and the live tokens are unchanged |
| `FluxDispatcher.Dispatcher.WaitFor` | app/main.js:20-51 | the in-place `waitFor` leaves the registry and returns the result that `BindWait` gives, and keeps the live tokens. Every token it selects is the current dispatch's token of that entry |
| `FluxDispatcher.Dispatcher.Invoke` | app/main.js:105 | calling a handler in place has the effect and result `CallHandler` gives |
| `FluxDispatcher.Dispatcher.Dispatch` | app/main.js:86-113 | creates exactly one fresh token per entry, index-aligned, of a dispatch number never used before. The new registry and outcome are those `DispatchFrom` gives. `promises` is empty afterwards when every handler returned; it still holds this dispatch's tokens when one threw. The live tokens always belong to the latest dispatch |

## Left out

- Asynchronous behaviour is not modelled: promise scheduling, `Promise.all(...).then(callback.bind(store))`, the adoption of a returned thenable, and rejection propagation (app/main.js:44, 105-110). A token is an opaque value, and `Settle` records only how it will be settled.
- `JsValues.Settle`: for a returned thenable it records the thenable and the payload. It does not model the thenable's eventual value, nor the token rejecting when the thenable rejects.
- The text of the three `Error` objects `waitFor` throws is not modelled. A failure is one of three constructors, each documented with its message.
- The `onReady` callback of `waitFor` and receiver binding (`callback.call(context, …)`, `callback.bind(store)`) are not modelled. This includes a second argument that is present but is not a function.
- The code of `isValidDependencyLayout` and `compareArraysWithProp` is not part of this model. They are stated as the intended predicates: "no cycle along `deps` edges between registered entries" (`IsValidLayout`) and "every dependency is some entry's store" (`ValidStores`).
- The discarded `new Error('Dispatcher callback unsuccessful')` (app/main.js:108) has no effect and is not modelled.
- Handler bodies are opaque. A handler is a function of the payload alone, so a handler whose behaviour depends on earlier dispatches is not modelled.
- Handlers that catch a `waitFor` error and carry on are not modelled: a `waitFor` failure always leaves the handler.
- A handler that calls `register` or `dispatch` during a dispatch is not modelled.
- `waitFor` calls a handler makes after `dispatch` has returned are modelled as calls of `Dispatcher.WaitFor` at that later time.
- `deps` stores the caller's array by reference in the source. The model stores its value, so a caller that changes that array afterwards is not modelled.
- Numbers are reals. `NaN`, `-0` and BigInt `0n`, which are also falsy, are not modelled.
- The `dispatches` counter is not in the source. It only gives each dispatch's tokens an identity of their own.
- `Dispatcher.WaitFor` requires the caller's store to be registered. In the source this always holds, because a `waitFor` is only created for a store that is being registered, and entries are never removed.
