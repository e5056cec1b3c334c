# WebviewTesting core, modelled in Dafny

This project models two small pieces of logic in the WebviewTesting app.

1. **The navigation completion bridge of `AsyncWebview`.** It turns WebKit's "start a
   navigation, then wait for a delegate callback" into one async call. The webview holds at most
   one pending record, `currentNavigation` (a suspended continuation plus the `WKNavigation` it
   waits for). `performNavigation` supersedes a pending record: it calls `stopLoading` and
   resumes the old caller with `newRequestMade`. It then runs the start callback. The callback
   either yields a navigation, which is recorded with the new caller, or yields nil, in which
   case the new caller fails at once with `noNavigationGenerated`. The internal delegate's
   `didFinish` matches the event to the record by identity. On a match it clears the record and
   resumes the caller with success. On a mismatch it resumes the caller with
   `mismatchedNavigationEntries` and keeps the record. With no record it calls `fatalError`.
   `ensure(onDomain:)` loads an empty document at `https://domain` unless the current host is
   already `domain`.
2. **The worker reply demultiplexer, `sendMessageToWorker`** (JavaScript held in the
   `actionsJavaScript` string). Each call opens a fresh `MessageChannel` and installs an
   `onmessage` handler on `port1`. It then posts the request to the active service worker
   together with `port2`. A reply whose `data.type` is exactly `"feedback"` goes to the feedback
   listener; when no listener was passed (`checkCacheStatus`, `deleteCache`), calling it makes
   the handler throw. A `null` or `undefined` payload makes the handler throw too, because
   reading its `type` fails. Only the remaining replies fulfill the promise. The handler is never removed, so feedback
   that arrives after the final reply still reaches the listener. Later final replies have no
   effect, because a settled promise stays settled. The three cache actions (`checkCacheStatus`,
   `addToCache`, `deleteCache`) each send `{action: …}` and project the final reply.

Layout:

- `wrappers.dfy`: module `Wrappers` (`Option`, `Result`).
- `navigation.dfy`: module `Navigation`. The bridge as pure functions over
  `Bridge(current, effects, continuations)`. `effects` is one ordered trace of `StopLoading`,
  `Started(request)` (the load the start callback submits) and `Resumed(caller, outcome)`.
  Callers are the continuations, numbered in creation order. `Run` applies a sequential
  interleaving of `performNavigation` calls and `didFinish` events; it yields `None` once a
  `didFinish` meets no record (the `fatalError`). The lemmas about the bridge are here.
- `async_webview.dfy`: module `AsyncWebviews`, the class `AsyncWebview`. Its fields are
  overwritten in place, and each method's `ensures` ties the new fields to the pure function of
  the old ones. The navigation-delegate slots are fields too: the `super` slot and the internal
  delegate's `externalNavigationDelegate`.
- `worker_replies.dfy`: module `WorkerReplies`. JavaScript values, property access (reading a
  property of `null`/`undefined` throws `TypeError`), one run of the `onmessage` handler
  (`OnMessage`), a stream of replies (`Receive`), and the lemmas about them.
- `cache_actions.dfy`: module `CacheActions`. The three cache actions: request, listener and
  result projection.
- `scripts.dfy`: module `Scripts`. The channel, the worker's inbox and a `WorkerCall` object
  whose fields the handler mutates. `SendMessageToWorker` creates a fresh channel and posts
  `port2` exactly once.

Two methods without contracts of their own are scenario checks: each calls the methods above
and asserts the outcome. `AsyncWebviews.SupersededThenCompleted` runs two overlapping loads, and
`Scripts.TwoCallsNoCrossTalk` runs two concurrent `checkCacheStatus` calls on one worker.

Where exactly-once resumption holds and where it fails: `Navigation.SafeIffAccounted` shows
that an event preserves "every finished caller was resumed exactly once, the pending one not
yet" if and only if it is *safe*. Over a whole interleaving from a new webview, exactly-once
holds if and only if every event was safe (`ExactlyOnceIffCooperative`): once lost, it is
never restored (`LostStaysLost`). An event is safe unless it is one of these three:

- a start callback yielding nil while a record is pending;
- a `didFinish` for another navigation;
- a `didFinish` with nothing pending.

The first two leave a stale record behind: a caller that has already been resumed stays in
`currentNavigation`. A third path does the same: `stopCurrentNavigationIfRunning` called on its
own, which nothing in the app does but the class exposes (`StaleAfterStop`). The next
completion then resumes that caller a second time (`StaleAfterNoNavigation`,
`StaleAfterMismatch`, `StaleAfterStop`), and so does the next supersession, which resumes the
recorded caller once more whatever it was resumed with before (`SupersessionResumesPending`).
A nil start callback with nothing pending is harmless.

The single-call lemmas `NoNavigationFailsCaller`, `NavigationRecorded` and
`SupersessionResumesPending` hold in every *fresh* state: one where no caller at or past the
counter has been resumed. Every `performNavigation` and `didFinish` keeps that, stale records
included (`FreshStep`), and so does `stopCurrentNavigationIfRunning` called on its own
(`StopKeepsFresh`). So every state a new webview reaches through these calls is fresh
(`FreshReachable` for interleavings of the first two).

Three behaviours of the code that a cleaner design of such a bridge would avoid; the model keeps them:

- The code never detaches the `onmessage` handler, so feedback sent after the final reply is
  still delivered to the listener.
- A reply whose `type` is missing or has any other value counts as final; it is not rejected.
- The internal delegate never forwards events to `externalNavigationDelegate`. That field is
  only stored and returned by the overridden property.

## Model

| member | source | states |
|---|---|---|
| `Navigation.SupersedeBeforeStart` | WebviewTesting/AsyncWebview.swift:62-75 | with a record pending, `performNavigation` keeps earlier effects, then does `stopLoading`, then resumes the pending caller with `newRequestMade`, and only then runs the start callback |
| `Navigation.NothingToSupersede` | WebviewTesting/AsyncWebview.swift:62-75 | with nothing pending, running the start callback is the first effect |
| `Navigation.NoNavigationFailsCaller` | WebviewTesting/AsyncWebview.swift:75-77 | in any fresh state, stale records included, a nil start callback resumes the new caller once with `noNavigationGenerated` and leaves `currentNavigation` exactly as it was |
| `Navigation.NavigationRecorded` | WebviewTesting/AsyncWebview.swift:79 | in any fresh state, stale records included, a start callback yielding `nav` makes `currentNavigation` exactly (new caller, `nav`), and that caller is not resumed |
| `Navigation.FinishMatching` | WebviewTesting/AsyncWebview.swift:39-44 | `didFinish` for the pending navigation clears the record and appends exactly one effect, a success resumption of its caller: no `stopLoading` and no load |
| `Navigation.FinishMismatched` | WebviewTesting/AsyncWebview.swift:39-41 | `didFinish` for another navigation appends exactly one effect, a `mismatchedNavigationEntries` resumption of the pending caller, and leaves the record unchanged |
| `Navigation.FinishWithNothingPendingIsFatal` | WebviewTesting/AsyncWebview.swift:35-37 | a `didFinish` with no record ends the interleaving (the `fatalError`) |
| `Navigation.FatalIsFinal` | WebviewTesting/AsyncWebview.swift:35-37 | nothing runs after the fatal case |
| `Navigation.EnsureOnSameDomain` | WebviewTesting/AsyncWebview.swift:108-111 | when the current host equals `domain`, `ensure(onDomain:)` changes nothing |
| `Navigation.EnsureOnOtherDomain` | WebviewTesting/AsyncWebview.swift:112-116 | otherwise it performs exactly one navigation, the `loadHTMLString("", https://domain)` one, and creates exactly one caller whose resumption is its outcome |
| `Navigation.SafeIffAccounted` | WebviewTesting/AsyncWebview.swift:35-79 | from an exactly-once state, an event keeps every finished caller resumed exactly once (the pending one not yet) if and only if it is safe |
| `Navigation.CooperativeRunAccounted` | WebviewTesting/AsyncWebview.swift:35-79 | over an interleaving of safe events no fatal error happens and exactly-once holds throughout |
| `Navigation.ExactlyOnceFromIdle` | WebviewTesting/AsyncWebview.swift:35-79 | from a fresh webview with safe events, every created caller is resumed exactly once except the pending one, which is resumed zero times |
| `Navigation.OnlyWhenCooperative` | WebviewTesting/AsyncWebview.swift:35-79 | conversely, if every created caller of a new webview has been resumed exactly once (the pending one not yet), then every start callback yielded a navigation or met no record and every completion matched the pending navigation |
| `Navigation.ExactlyOnceIffCooperative` | WebviewTesting/AsyncWebview.swift:35-79 | from a new webview, exactly-once holds after an interleaving if and only if every event of it was safe |
| `Navigation.StepCounts` | WebviewTesting/AsyncWebview.swift:35-79 | one event resumes an existing caller once more exactly when it is the pending one, and never makes a caller pending that was not |
| `Navigation.LostStaysLost` | WebviewTesting/AsyncWebview.swift:35-79 | in a fresh state where exactly-once already fails, it still fails after any non-fatal event |
| `Navigation.StaleAfterNoNavigation` | WebviewTesting/AsyncWebview.swift:63-79 | a nil start callback while a record is pending resumes that caller but keeps its record, so its completion resumes the same caller a second time |
| `Navigation.StaleAfterMismatch` | WebviewTesting/AsyncWebview.swift:39-44 | a mismatched completion resumes the pending caller but keeps its record, so its own completion resumes it a second time |
| `Navigation.StaleAfterStop` | WebviewTesting/AsyncWebview.swift:54-60 | `stopCurrentNavigationIfRunning` alone resumes the pending caller but keeps its record, so exactly-once is lost and its completion resumes the caller a second time |
| `Navigation.SupersessionResumesPending` | WebviewTesting/AsyncWebview.swift:63-67 | in any fresh state with a record pending, `performNavigation` resumes the recorded caller exactly once more; after a stale record that is its second resumption |
| `Navigation.FreshStep` | WebviewTesting/AsyncWebview.swift:35-79 | every `performNavigation` and every non-fatal `didFinish` keeps the state fresh: the pending caller was created, and no caller not yet created has been resumed |
| `Navigation.FreshReachable` | WebviewTesting/AsyncWebview.swift:35-79 | every state a new webview reaches without a `fatalError` is fresh |
| `Navigation.StopKeepsFresh` | WebviewTesting/AsyncWebview.swift:54-60 | `stopCurrentNavigationIfRunning` alone keeps the state fresh, so supersession after a stop still adds exactly one resumption |
| `Navigation.OverlappingBegins` | WebviewTesting/AsyncWebview.swift:62-79 | N back-to-back navigations from a fresh webview leave caller N-1 pending on the last navigation, and the resumption log is exactly callers 0..N-2 failed with `newRequestMade`, in order |
| `Navigation.LastDecidedByOwnCompletion` | WebviewTesting/AsyncWebview.swift:39-44 | after those N navigations, a completion decides the last caller alone: success on its own navigation, otherwise a mismatch with the record kept |
| `Navigation.PerformLog` | WebviewTesting/AsyncWebview.swift:62-79 | a navigation whose callback yields a navigation adds exactly one resumption to the log, `newRequestMade` of the superseded caller, and none when nothing was pending |
| `AsyncWebviews.AsyncWebview.constructor` | WebviewTesting/AsyncWebview.swift:49-52 | a new webview has no record, no effects and both delegate slots empty |
| `AsyncWebviews.AsyncWebview.StopCurrentNavigationIfRunning` | WebviewTesting/AsyncWebview.swift:54-60 | stops and fails the pending caller with `newRequestMade` without clearing the record; only `effects` changes |
| `AsyncWebviews.AsyncWebview.PerformNavigation` | WebviewTesting/AsyncWebview.swift:62-82 | the new fields are `PerformNavigation` of the old ones; the internal delegate goes into the super slot only if that slot was empty; the object invariant (only the internal delegate in the super slot, and a pending record only once it is installed) is kept |
| `AsyncWebviews.AsyncWebview.Load` | WebviewTesting/AsyncWebview.swift:84-88 | a navigation whose callback submits `super.load(request)` |
| `AsyncWebviews.AsyncWebview.LoadHTMLString` | WebviewTesting/AsyncWebview.swift:90-94 | a navigation whose callback submits `super.loadHTMLString(string, baseURL)` |
| `AsyncWebviews.AsyncWebview.DidFinish` | WebviewTesting/AsyncWebview.swift:30-45 | requires a pending record (the code aborts otherwise); the new fields are `DidFinishNavigation` of the old ones |
| `AsyncWebviews.AsyncWebview.GetNavigationDelegate` | WebviewTesting/AsyncWebview.swift:96-99 | the public property reads the external delegate, never the super slot |
| `AsyncWebviews.AsyncWebview.SetNavigationDelegate` | WebviewTesting/AsyncWebview.swift:101-103 | setting the public property changes only the external delegate field |
| `AsyncWebviews.AsyncWebview.Ensure` | WebviewTesting/AsyncWebview.swift:108-117 | no navigation and nothing changed when the host matches; otherwise exactly one `loadHTMLString("", https://domain)` navigation, whose caller is returned, with the internal delegate in the super slot afterwards |
| `WorkerReplies.Discriminant` | WebviewTesting/Scripts.swift:41-46 | a reply is feedback if and only if its `type` is exactly the string `"feedback"`; it is final if and only if it is not nullish and not feedback, so a missing or other `type` counts as final |
| `WorkerReplies.ReceiveAppend` | WebviewTesting/Scripts.swift:40-48 | the handler keeps no hidden state: receiving `msgs + more` equals receiving `msgs`, then `more` |
| `WorkerReplies.FeedbackDelivered` | WebviewTesting/Scripts.swift:40-43 | the listener receives every feedback reply in arrival order, including after settlement (none without a listener); every throwing handler run is counted |
| `WorkerReplies.SettledOnce` | WebviewTesting/Scripts.swift:44-48 | once settled, the promise keeps its result whatever arrives later |
| `WorkerReplies.SettlesOnFirstFinal` | WebviewTesting/Scripts.swift:39-48 | a call settles if and only if some final reply has arrived, and then with the data of the first one |
| `WorkerReplies.NeverSettlesWithoutFinal` | WebviewTesting/Scripts.swift:39-53 | without a final reply the call never settles; there is no timeout |
| `WorkerReplies.SettledResultReadable` | WebviewTesting/Scripts.swift:41-46 | a settled result is never `null`/`undefined`, so reading a property of it cannot throw |
| `CacheActions.RequestNamesAction` | WebviewTesting/Scripts.swift:58-81 | each request is `{action: name}` with its own name, and different actions send different requests |
| `CacheActions.CheckCacheStatusReturnsSizes` | WebviewTesting/Scripts.swift:58-64 | `checkCacheStatus` returns the `sizes` field of the first final reply, reading it never fails, and no listener receives feedback |
| `CacheActions.AddToCacheReturnsReply` | WebviewTesting/Scripts.swift:67-74 | `addToCache` returns the whole first final reply, and its listener receives every feedback reply unchanged and in order |
| `CacheActions.DeleteCacheReturnsReply` | WebviewTesting/Scripts.swift:76-81 | `deleteCache` returns the whole first final reply; it passes no listener, so every feedback reply makes the handler throw |
| `CacheActions.PendingWithoutFinal` | WebviewTesting/Scripts.swift:39-53 | no action returns until a final reply arrives |
| `Scripts.MessageChannel.constructor` | WebviewTesting/Scripts.swift:38 | a channel has two new, distinct ports |
| `Scripts.ActiveWorker.PostMessage` | WebviewTesting/Scripts.swift:52 | posting appends exactly one (message, transferred port) to the worker's inbox |
| `Scripts.WorkerCall.constructor` | WebviewTesting/Scripts.swift:38-40 | a call starts unsettled with no feedback, on a fresh channel |
| `Scripts.WorkerCall.OnMessage` | WebviewTesting/Scripts.swift:40-48 | one handler run changes the call's fields as `WorkerReplies.OnMessage` prescribes |
| `Scripts.WorkerCall.DeliverAll` | WebviewTesting/Scripts.swift:40-48 | in-order delivery of `msgs` leaves the call in state `Receive(old state, msgs)` |
| `Scripts.SendMessageToWorker` | WebviewTesting/Scripts.swift:37-53 | one fresh channel per call, the request posted with `port2` exactly once, and that port differs from every port posted before |
| `Scripts.Invoke` | WebviewTesting/Scripts.swift:58-81 | each cache action posts its own request, with a listener only for `addToCache` |

## Left out

- WebKit's effects of `stopLoading`, `super.load` and `super.loadHTMLString` are left out. A navigation is an opaque identity, and the value the start callback yields is a parameter (`started`).
- The `CheckedContinuation` runtime is left out. A continuation is a caller id plus its resumptions in the effect trace. The runtime trap on a second resumption is not modelled; the stale-record lemmas count the second resumption instead.
- The guard in `didFinish` against a webview that is not an `AsyncWebview` is left out (WebviewTesting/AsyncWebview.swift:31-33). `DidFinish` is a method of the webview itself, so that case cannot arise in the model.
- Navigation failures (`didFail…`) are left out. The internal delegate does not implement them, so the code never resumes a caller for them. In the model, a caller whose navigation fails simply stays pending.
- Nothing ever throws `AsyncWebviewError.noCurrentNavigation`. It is declared in `Navigation.AsyncWebviewError` and has no other use.
- The case where `URLComponents.url` yields nil for an unusable host is left out. The base URL is always `Url("https", domain)`.
- Concurrency between Swift tasks, main-actor confinement and the JavaScript event loop are left out. Events are a sequential interleaving of calls.
- `await navigator.serviceWorker.ready` is left out, together with the cases where it never resolves or `registration.active` is null. `SendMessageToWorker` posts at once.
- The JavaScript value model is simplified. Numbers are integers. Properties are own fields only (no prototype chain). Fulfilling with a thenable is treated like any other value. An exception thrown inside a supplied feedback listener is not modelled.
- `checkServiceWorkerStatus`, `registerWorker` and `removeWorker` are left out (WebviewTesting/Scripts.swift:15-35). They are browser API calls whose behaviour the source does not show.
- The worker-side script is not part of this model. So the claim that `addToCache` feedback sizes never decrease, and end at what `checkCacheStatus` reports, is not modelled.
- WebviewTesting/WebviewManager.swift is not part of this model. It holds thin `callAsyncJavaScript` wrappers, the one-element webview "pool" and `deleteAllStorage`. Its use of `ensure(onDomain:)` before each call is covered by `AsyncWebviews.AsyncWebview.Ensure`.
- WebviewTesting/StatusPanel.swift, WebviewTesting/WebviewView.swift and WebviewTesting/WebviewTestingApp.swift are not part of this model. They are SwiftUI views, button wiring and app bootstrap.
