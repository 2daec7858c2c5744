# Client request dispatcher of the MiniKit LiveView hook

This project models the client-side request dispatcher of a Phoenix LiveView
mini-app bridge. The server sends a `client:request` event carrying
`{id, action, params}`. The browser looks `action` up in a registry of action
handlers and runs the handler with `{config, sdk, hook, params}`. It answers
with a `client:response` event carrying `{id, action, ok: true, result}` or
`{id, action, ok: false, error}`, pushed through the hook's `pushEvent`.

Modules:

- `Wrappers` and `JsValue` (`js_value.dfy`): JavaScript values, truthiness,
  and a caught value seen through `error?.message` and `String(error)`.
- `Envelope` (`envelope.dfy`): requests, responses, the pushed events, the
  echoed id, and the response object's shape.
- `Channel` (`channel.dfy`): the LiveView hook as a class that logs every
  `pushEvent` call. A transport function decides which calls throw.
- `Dispatcher` (`dispatcher.dfy`): the registry, the pure specification
  `Dispatch` of one request, `Log` of a sequence of requests, and the lemmas.
  The class `ClientRequestHandler` is the closure that
  `createClientRequestHandler` returns. Its method `Handle` is
  `handleClientRequest`, proved against `Dispatch`. Its invariant `Valid`
  says that the hook's pushes since construction are exactly `Log` of the
  requests served.

What the code does, and so what the model does:

- The code does not sanitise results. It pushes the handler's result as
  returned (`dispatcher.js:27`), BigInt values included, and so does the
  model (`ResultPassedThrough`).
- The registry is a plain object looked up on every request
  (`dispatcher.js:22`); there are no `register` or `resolve` operations.
  The default, `actionHandlers`, has two entries, `get_account` and
  `connect_account`. The model takes the registry's contents as constant
  over the handler's lifetime.
- A synchronous throw from the success push is caught, and a second,
  failure response is pushed (`FailedSendReportedAgain`). A throw from the
  catch block's push escapes, as a rejection of the callback's promise.
  That push is the only one on the unknown-action and handler-failure
  paths, and the second one after a failed success push.

## Model

| member | source | states |
|---|---|---|
| `JsValue.ErrorObject` | assets/js/minikit-hook/dispatcher.js:24 | `new Error(m)` with a non-empty `m` has the truthy message `m` |
| `JsValue.ErrorText` | assets/js/minikit-hook/dispatcher.js:33 | the reported error is the message when the message is truthy, and `String(error)` otherwise (no message, null, "", 0, false) |
| `Envelope.EchoId` | assets/js/minikit-hook/dispatcher.js:20 | an absent (undefined) id is echoed as null; a present id (null, 0 and "" included) is echoed unchanged |
| `Envelope.Encode` | assets/js/minikit-hook/dispatcher.js:27-34 | the response object has `id`, `action`, `ok`; `ok` is true exactly when `result` is present, false exactly when `error` is present; decoding by `ok` recovers the response |
| `Channel.Hook.PushEvent` | assets/js/minikit-hook/App.jsx:5-14 | each call is recorded in order; it throws exactly when the transport refuses the event |
| `Dispatcher.ActionHandlers` | assets/js/minikit-hook/dispatcher.js:4-13 | the default registry has exactly the keys `get_account` and `connect_account` |
| `Dispatcher.Reply` | assets/js/minikit-hook/dispatcher.js:20-34 | the response for a settled attempt echoes the request's id (null if absent) and action |
| `Dispatcher.Dispatch` | assets/js/minikit-hook/dispatcher.js:20-36 | one request: the handler is called once, with the context and params, iff the action is registered; one or two pushes, all `client:response` and correlated; the first is the reply; a second, failure push happens exactly when the success push threw; the promise rejects exactly when the last push threw |
| `Dispatcher.UnknownActionReported` | assets/js/minikit-hook/dispatcher.js:22-25 | an unregistered action calls no handler and pushes exactly one failure with `"Unknown action: " + action` |
| `Dispatcher.ResultPassedThrough` | assets/js/minikit-hook/dispatcher.js:26-27 | a resolved handler, when the push succeeds, gives one handler call, exactly one success push with the result unchanged, and no rejection |
| `Dispatcher.ThrownMessageReported` | assets/js/minikit-hook/dispatcher.js:28-33 | a handler that throws or rejects with a truthy message gives exactly one failure push whose error is that message |
| `Dispatcher.ThrownTextReported` | assets/js/minikit-hook/dispatcher.js:33 | with no message, or a falsy one such as "", the error is `String(error)` |
| `Dispatcher.FailedSendReportedAgain` | assets/js/minikit-hook/dispatcher.js:27-34 | when the success push throws, a second failure push reports that fault; the promise rejects only if the second push throws too |
| `Dispatcher.Log` | assets/js/minikit-hook/dispatcher.js:15-20 | serving n requests pushes between n and 2n events, every one a `client:response` |
| `Dispatcher.Invoked` | assets/js/minikit-hook/dispatcher.js:22-26 | serving n requests calls handlers at most n times, only for registered actions |
| `Dispatcher.ReliableLogMatchesRequests` | assets/js/minikit-hook/dispatcher.js:20-34 | with a hook that never throws, the i-th push is the response to the i-th request, and there are as many pushes as requests |
| `Dispatcher.NoRequestDropped` | assets/js/minikit-hook/dispatcher.js:21-34 | whatever the hook does, `pushEvent` is called with the response of every request served (a call that threw included), counted with multiplicity: n requests with equal responses give at least n such calls |
| `Dispatcher.NoResponseUnprompted` | assets/js/minikit-hook/dispatcher.js:27-34 | every push answers some request served: same echoed id, same action |
| `Dispatcher.InvokedOnlyAsRequested` | assets/js/minikit-hook/dispatcher.js:18-26 | every handler call is for a registered action named by some request, with `{config, sdk, hook}` from construction and that request's params |
| `Dispatcher.ClientRequestHandler.constructor` | assets/js/minikit-hook/dispatcher.js:17-18 | keeps `config`, `sdk`, `hook`; the registry is `deps.handlers` when supplied, else the default `actionHandlers` |
| `Dispatcher.ClientRequestHandler.Handle` | assets/js/minikit-hook/dispatcher.js:20-36 | appends exactly the pushes and handler calls of `Dispatch` for the request, returns its rejection, and keeps `Valid` (the hook's pushes are the `Log` of the requests served) |

## Left out

- Handler bodies: `get_account` and `connect_account` call `getAccount` and `connect` of `@wagmi/core`, which is not part of this model. They are abstract handlers passed to the constructor.
- A handler is a pure function of its argument. A handler that pushes events of its own through the `hook` it receives is not modelled.
- Asynchrony: each request is handled as one atomic step. Interleaving of concurrent requests, and handlers that never settle, are left out. `Log` covers requests handled one after another in any order.
- Registry lookup is a finite map. JavaScript's inherited properties (such as `"toString"`) are left out. So are registry entries that are falsy or not functions, a `deps.handlers` of `null`, and non-string `action` values.
- A request payload that is null or undefined is left out. Its destructuring rejects the callback's promise before the `try`, so nothing is pushed.
- Numbers are integers. Floating point, NaN and -0 are not modelled, including for truthiness.
- `String(error)` and the `error?.message` lookup are given as data in `Thrown`, because they depend on user-defined `toString` and getters.
- NoRequestDropped: holds only because reading `error?.message` and computing `String(error)` never throw in the model. In JavaScript either can throw (a throwing `message` getter, or a thrown `Object.create(null)`, which has no `toString`); the catch block then throws before its `pushEvent`, so nothing is pushed for that request and the promise rejects. This case is not modelled.
- Registry mutation: `actionHandlers` is an exported, mutable object, read on every request. The model takes the registry's contents as fixed at construction, so entries added or removed later are not modelled.
- The transport behind `pushEvent` is abstract: a function of the event says whether the call throws synchronously. The promise `pushEvent` returns is not awaited by the dispatcher, so its rejection is not modelled.
- The other pushes on the same hook (`miniapp:connect` in `index.js`, `wallet:connect` in `App.jsx`) are left out. `Valid` assumes only the dispatcher pushes after construction.
- `App.jsx`, `index.jsx` and `index.js` (React rendering, hook mounting, SDK start-up) are UI and lifecycle glue. They are not part of this model.
