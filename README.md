# sso-client-sdk session engine, in Dafny

This project models the core of the `sso-client-sdk` TypeScript library and proves properties of it. The library is a browser client for a single-sign-on server. The model covers:

- **`SSOClient`** (`client.dfy`): the session state machine. It holds a key/value store (`MemoryStorage`, `storage.dfy`), the authentication state, the auto-refresh timer and the event registry (`eventbus.dfy`). Modelled operations:
  - the event bus: `emit`, `on`, `once`, unsubscribe;
  - session changes: `logout`, `saveToken`/`setupAutoRefresh`, `updateAuthState`/`setLoading`/`clearError`/`handleError`;
  - the storage part of `login`, `loginWithPassword`, `register` and `handleCallback`;
  - `getCurrentUser`, `refreshToken`, `getAuthState` and `destroy`.
- **Utilities** (`src/utils/index.ts`):
  - the retry loop `fetchWithRetry` (`retry.dfy`);
  - the TTL cache `SimpleCache` (`cache.dfy`);
  - `createSSOError`, plus the client's `convertToSSOError` (`errors.dfy`);
  - `isValidEmail` and `validatePasswordStrength` (`validators.dfy`).
- **`OfflineManager`** (`offline.dfy`): a bounded FIFO of pending actions, drained in passes.
- **`PluginManager`** (`plugins.dfy`): a name-keyed plugin registry with fallible install and teardown hooks.
- **`PerformanceMonitor`** (`perf.dfy`): a bounded metric log with filtering by type.

Objects whose fields the library updates become Dafny classes. Their methods say, with `old`, what the new state is. A ghost `Valid()` invariant holds what every method preserves:

| class | invariant |
|---|---|
| cache | distinct keys |
| offline queue | within capacity, retry counters below 3 |
| plugin registry | distinct names |
| metric log | within `maxEvents` |
| client | components valid, registry well formed, authenticated exactly when a user is present, at most one pending refresh timer |

The specification functions each method is proved against are ordinary functions. They carry lemmas of their own:

- `Purge`, `SetEntries` and `Read` for the cache;
- `Drain` and `Enqueue` for the offline queue;
- `Survivors` for plugin teardown;
- `ByType` and `Push` for the metric log;
- `AfterEmit`, `Add` and `Unsubscribe` for the event registry;
- `RunFrom` for the retry loop;
- `Settle`, `RegisterPrecheck`, `CallbackPrecheck` and `AfterCallback` for the client.

Everything the library gets from its environment is an input of the operation that uses it:

| from the environment | modelled as |
|---|---|
| clock readings | `now` |
| generated ids and states | fresh values passed in |
| sampling | a boolean |
| `executeAction` outcome | an oracle |
| plugin hooks | "returns normally / throws" oracles |
| one `fetch` call | an `Attempt` (response, or thrown value) |
| a server reply | a `Reply` (parsed `{code, message, data}` envelope, or what was thrown) |

Where the library's own description and its code differ, the code is followed:

- A response whose status is in `retryableErrors` is turned into an error with code `HTTP_ERROR`. That error is retried only when `"HTTP_ERROR"` is itself in the list, so under the default policy a 503 is surfaced after one call (`Retry.DefaultPolicySurfaces503`).
- The refresh timer is armed for `refreshThreshold` seconds after each save. It is not armed relative to the token's expiry.
- `logout` emits no event. `login` is not debounced.
- There is no call coalescing or deduplication, and no filtering of self-authored cross-tab messages.
- Every failure of `handleCallback` is recorded as a `CALLBACK_ERROR`, keeping the message of the check that failed.
- A failed callback leaves the authentication state as it was. It does not force it to signed out.

## Model

| member | source | states |
|---|---|---|
| Errors.NewError | src/utils/index.ts:50-63 | `createSSOError(message, code)` carries that message and code, no status, and is not retryable |
| Errors.ConvertToSSOError | src/core/SSOClient.ts:149-156 | an error with a `code` passes through unchanged: an SDK error as it is, a `DOMException` with its message and numeric legacy code; anything else gets the default code and a non-empty message: its own message, else its `toString()`, else "未知错误" |
| Errors.TimeoutKeepsAbortCode | src/core/SSOClient.ts:150-151 | the `AbortError` of a timed-out request keeps its legacy code 20 through the conversion, never taking the caller's default code |
| Retry.FetchWithRetry | src/utils/index.ts:68-123 | the retry loop's result (outcome, waits slept, calls made) is exactly the run `RunFrom(cfg, attempt, 0)` |
| Retry.RunFromFacts | src/utils/index.ts:76-122 | a run makes 1 to `maxRetries + 1` calls with one wait between consecutive calls, the j-th wait being `retryDelay * backoffMultiplier^j`; every call but the last failed retryably; the last call is either an unlisted response, returned unchanged, or a failure that was not retryable or hit the last allowed call |
| Retry.AttemptsBounded | src/utils/index.ts:76-114 | at most `maxRetries + 1` calls, with waits `retryDelay * backoffMultiplier^k` in order |
| Retry.UnlistedResponseReturned | src/utils/index.ts:91-100 | a response whose status is not listed is returned as it is after one call, even when it is not ok |
| Retry.NonRetryablePropagates | src/utils/index.ts:109-118 | a thrown value that is neither an abort nor an error with a listed code propagates at once, with no wait |
| Retry.PersistentTimeout | src/utils/index.ts:101-122 | a call that always aborts is made `maxRetries + 1` times and the abort surfaces |
| Retry.ListedStatusNeedsHttpErrorCode | src/utils/index.ts:91-111 | a listed HTTP status is retried iff "HTTP_ERROR" is itself listed |
| Retry.DefaultPolicySurfaces503 | src/utils/index.ts:91-118 | under the client's default policy a 503 surfaces as an `HTTP_ERROR` after one call |
| Cache.PurgeMembers | src/utils/index.ts:176-183 | `cleanup` keeps exactly the entries not stale at `now` |
| Cache.PurgeDistinct | src/utils/index.ts:176-183 | `cleanup` keeps keys distinct |
| Cache.RemoveKeyFacts | src/utils/index.ts:168-170 | deleting a key removes exactly that entry and keeps the others |
| Cache.UpsertFacts | src/utils/index.ts:148-152 | `Map.set` leaves one entry for the key, holding the new value; a new key is appended, an existing one keeps its place |
| Cache.SetKeepsDistinct | src/utils/index.ts:136-153 | `set` keeps keys distinct |
| Cache.SetPurgesExpired | src/utils/index.ts:136-153 | after `set`, every entry is either the one just written or an older, non-stale entry of another key |
| Cache.GetAfterSet | src/utils/index.ts:136-166 | with `ttl >= 0`, `get` at the time of `set` returns the value just written and changes nothing |
| Cache.FiveSecondEntry | src/utils/index.ts:150-163 | a 5-second entry is still read 3 s later; 6 s later it reads as absent and is deleted |
| Cache.SetBounded | src/utils/index.ts:140-146 | with `maxSize >= 1`, a cache within `maxSize` stays within it, provided the oldest surviving key is not "" |
| Cache.EmptyOldestKeyOverfills | src/utils/index.ts:142-145 | an empty-string oldest key is not evicted, so a cache of size 1 grows to 2 |
| Cache.SimpleCache.constructor | src/utils/index.ts:132-134 | a new cache is empty, with the given `maxSize` |
| Cache.SimpleCache.Cleanup | src/utils/index.ts:176-183 | the loop leaves exactly `Purge(old entries, now)` |
| Cache.SimpleCache.Set | src/utils/index.ts:136-153 | the new entries are `SetEntries(...)`: purge, evict the oldest when full, then upsert with the TTL in milliseconds |
| Cache.SimpleCache.Get | src/utils/index.ts:155-166 | returns the value iff the entry exists and `now - timestamp <= ttl`; a stale entry is deleted and reads as absent |
| Cache.SimpleCache.Delete | src/utils/index.ts:168-170 | returns whether the key was present; afterwards it is absent |
| Cache.SimpleCache.Clear | src/utils/index.ts:172-174 | the cache is emptied |
| Validators.EmailCharacterization | src/utils/index.ts:200-203 | `isValidEmail(s)` iff `s` has no whitespace, exactly one '@' and a non-empty local part, and its domain has a '.' that is neither first nor last |
| Validators.EmailSampleValid | test-optimized.js:26 | "test@example.com" is a valid email |
| Validators.EmailSampleInvalid | test-optimized.js:27 | "invalid-email" is not a valid email |
| Validators.ValidatePasswordStrength | src/utils/index.ts:208-251 | the score plus the number of feedback lines is 5; `isValid` iff `score >= 4`; each feedback line is present iff its criterion is unmet, in checking order |
| Validators.PasswordSample | test-optimized.js:29 | "Test123!" scores 5, is valid and gets no feedback |
| Offline.DrainAppend | src/core/OfflineManager.ts:85-95 | a pass keeps the relative order of what it re-queues: draining a concatenation concatenates the drains |
| Offline.DrainFacts | src/core/OfflineManager.ts:82-95 | a pass never grows the queue; every action it keeps failed, has its counter raised by one, and has a counter in [1, 3) |
| Offline.DrainSingle | src/core/OfflineManager.ts:86-94 | a successful action leaves the queue; a failure with a raised counter below 3 is re-queued |
| Offline.EnqueueAllBelowCapacity | src/core/OfflineManager.ts:59-64 | while there is room, adding actions only appends them |
| Offline.OverflowEvictsFirst | src/core/OfflineManager.ts:59-64 | adding `maxQueueSize + 1` actions keeps the last `maxQueueSize`; the first is evicted |
| Offline.OfflineManager.constructor | src/core/OfflineManager.ts:10-41 | a new manager is empty with no timer; only when enabled does it listen for network events and read the network state |
| Offline.OfflineManager.ProcessQueue | src/core/OfflineManager.ts:77-101 | nothing happens offline or on an empty queue; otherwise the queue becomes `Drain(snapshot)` and the timer is armed when something was kept |
| Offline.OfflineManager.AddAction | src/core/OfflineManager.ts:46-72 | disabled: returns '' and changes nothing; otherwise appends a fresh action with no retries, drops the head on overflow and, when online, runs a pass |
| Offline.OfflineManager.GoOnline | src/core/OfflineManager.ts:29-32 | on a manager listening since construction, marks it online and runs a pass |
| Offline.OfflineManager.GoOffline | src/core/OfflineManager.ts:34-37 | on a manager listening since construction, marks it offline and stops the sync timer; the queue stays |
| Offline.OfflineManager.StopSyncTimer | src/core/OfflineManager.ts:128-133 | the sync timer is stopped and nothing else changes |
| Offline.OfflineManager.GetPendingActions | src/core/OfflineManager.ts:145-147 | the pending actions are within capacity and all have fewer than 3 retries |
| Offline.OfflineManager.ClearQueue | src/core/OfflineManager.ts:152-155 | the queue is emptied and the timer stopped |
| Offline.OfflineManager.Destroy | src/core/OfflineManager.ts:160-163 | the queue is emptied and the timer stopped |
| Offline.OfflineManager.SetEnabled | src/core/OfflineManager.ts:168-173 | sets the flag; disabling also empties the queue and stops the timer |
| Plugins.SurvivorsMembers | src/core/PluginManager.ts:75-79 | after `clear`, a plugin is left iff it was installed and its teardown threw |
| Plugins.ClearLeavesFailures | src/core/PluginManager.ts:75-79 | after `clear`, only plugins whose teardown threw are left, and no plugin is new |
| Plugins.PluginManager.constructor | src/core/PluginManager.ts:4-9 | a new registry is empty |
| Plugins.PluginManager.Install | src/core/PluginManager.ts:14-27 | an installed name is a no-op; otherwise the plugin is appended iff its hook returns normally |
| Plugins.PluginManager.Uninstall | src/core/PluginManager.ts:32-49 | an unknown name, or a teardown that throws: false, no change; otherwise the entry is removed and the result is true |
| Plugins.PluginManager.GetInstalledPlugins | src/core/PluginManager.ts:54-56 | the plugins listed have distinct names, and a name is among them iff it is installed |
| Plugins.PluginManager.GetPlugin | src/core/PluginManager.ts:61-70 | defined iff `isInstalled`, and then it is the plugin of that name |
| Plugins.PluginManager.Clear | src/core/PluginManager.ts:75-79 | uninstalling every name in order leaves `Survivors(old plugins)` |
| Perf.ByTypeMembers | src/core/PerformanceMonitor.ts:57-59 | filtering keeps exactly the events of the type |
| Perf.ByTypeAppend | src/core/PerformanceMonitor.ts:57-59 | filtering distributes over concatenation, so it keeps log order |
| Perf.ByTypeIdempotent | src/core/PerformanceMonitor.ts:57-59 | filtering twice by a type filters once |
| Perf.ByTypePartition | src/core/PerformanceMonitor.ts:57-59 | the four types' selections together count every event once |
| Perf.TotalDurationAppend | src/core/PerformanceMonitor.ts:68 | the duration total of a concatenation is the sum of the totals |
| Perf.SuccessCount | src/core/PerformanceMonitor.ts:79 | the success count is at most the selection size, and equal to it iff every event succeeded |
| Perf.Push | src/core/PerformanceMonitor.ts:34-39 | push then shift on overflow: the result is a suffix of `log + [m]`, one longer unless that exceeded `maxEvents` |
| Perf.PushBounded | src/core/PerformanceMonitor.ts:34-39 | a log within `maxEvents` stays within it; the newest event is the one pushed; at capacity exactly the oldest is dropped |
| Perf.PerformanceMonitor.constructor | src/core/PerformanceMonitor.ts:8-15 | an empty log, with the given or default `maxEvents` of 100 |
| Perf.PerformanceMonitor.Record | src/core/PerformanceMonitor.ts:20-45 | disabled or not sampled: no change; otherwise the log becomes `Push(old log, metric stamped now)` |
| Perf.PerformanceMonitor.GetMetrics | src/core/PerformanceMonitor.ts:50-52 | every logged event, oldest first, within `maxEvents` |
| Perf.PerformanceMonitor.GetMetricsByType | src/core/PerformanceMonitor.ts:57-59 | exactly the logged events of that type |
| Perf.PerformanceMonitor.GetAverageResponseTime | src/core/PerformanceMonitor.ts:64-70 | (total, count) over the selection; 0 for an empty selection |
| Perf.PerformanceMonitor.GetSuccessRate | src/core/PerformanceMonitor.ts:75-81 | (successes, count) over the selection, with successes <= count; 0 for an empty selection |
| Perf.PerformanceMonitor.Clear | src/core/PerformanceMonitor.ts:86-88 | the log is emptied; the flag stays |
| Perf.PerformanceMonitor.SetEnabled | src/core/PerformanceMonitor.ts:93-95 | only the flag changes |
| Storage.Get | src/core/SSOClient.ts:49-51 | a read yields the stored value iff it is present and non-empty |
| Storage.GetAfterSet | src/core/SSOClient.ts:49-55 | a write is read back unless it wrote ""; other keys read as before |
| Storage.GetAfterRemove | src/core/SSOClient.ts:49-59 | a removed key reads as absent; other keys read as before |
| Storage.MemoryStorage.GetItem | src/core/SSOClient.ts:49-51 | `getItem` yields the stored value, or null for a missing or empty one |
| Storage.MemoryStorage.SetItem | src/core/SSOClient.ts:53-55 | the key maps to the value |
| Storage.MemoryStorage.RemoveItem | src/core/SSOClient.ts:57-59 | the key is gone; a missing key is no change |
| EventBus.Add | src/core/SSOClient.ts:202-207 | `on`/`once` append the listener to its event's list; other events are untouched |
| EventBus.AddWellFormed | src/core/SSOClient.ts:201-228 | registering a fresh id keeps every list well formed |
| EventBus.PersistentMembers | src/core/SSOClient.ts:194 | after a dispatch, a listener stays iff it is not a `once` one |
| EventBus.PersistentAppend | src/core/SSOClient.ts:194 | dropping `once` listeners keeps the order of the rest |
| EventBus.PersistentIdempotent | src/core/SSOClient.ts:194-195 | a second emit without new registrations drops nothing more |
| EventBus.AfterEmit | src/core/SSOClient.ts:177-196 | after `emit(e)`, e has a list, and every other event's list is unchanged |
| EventBus.EmitKeepsPersistent | src/core/SSOClient.ts:177-196 | after `emit(e)`, a listener remains for e iff it was registered and is not a `once` one |
| EventBus.EmitWellFormed | src/core/SSOClient.ts:177-196 | `emit` keeps the registry well formed |
| EventBus.Unsubscribe | src/core/SSOClient.ts:210-216 | the returned function changes only its event's list, splicing out that listener |
| EventBus.RemoveIdExact | src/core/SSOClient.ts:211-215 | the splice removes exactly the listener with that identity; an absent one is no change |
| EventBus.UnsubscribeIdempotent | src/core/SSOClient.ts:210-216 | calling the returned function a second time changes nothing |
| EventBus.UnsubscribeWellFormed | src/core/SSOClient.ts:210-216 | unsubscribing keeps the registry well formed |
| EventBus.AddThenUnsubscribe | src/core/SSOClient.ts:201-216 | registering and then unsubscribing restores the event's list |
| Client.Settle | src/core/SSOClient.ts:334-352 | a reply is accepted iff its code is 200 and it has data; any other body throws an error with the call's code and `message || fallback`; a failed request throws what it threw |
| Client.RefreshDelay | src/core/SSOClient.ts:1132-1135 | the timer delay is `refreshThreshold * 1000` ms, or 300 s when the threshold is 0 |
| Client.DefaultRefreshEveryFiveMinutes | src/core/SSOClient.ts:87-88 | auto refresh is on by default and its timer fires after 300 000 ms; a threshold of 0 falls back to the same delay |
| Client.RegisterPrecheck | src/core/SSOClient.ts:370-381 | `register` fails before any request iff the email is invalid (`INVALID_EMAIL`) or the password is weak (`WEAK_PASSWORD`, listing the unmet criteria) |
| Client.RegisterSample | src/core/SSOClient.ts:370-381 | "test@example.com" with "Test123!" passes both checks |
| Client.CallbackPrecheck | src/core/SSOClient.ts:889-901 | the callback fails before any request iff an OAuth error is present, the code is missing or empty, or the state differs from the stored one |
| Client.CallbackError | src/core/SSOClient.ts:947-950 | every failure of the callback is a `CALLBACK_ERROR`, keeping an `Error`'s message |
| Client.CallbackCheckRecoded | src/core/SSOClient.ts:889-952 | a failed check is recorded as `CALLBACK_ERROR` with the check's message |
| Client.AfterCallback | src/core/SSOClient.ts:920-939 | after a successful callback the token is stored, the state is removed and the redirect target reads as absent; other keys read as before |
| Client.SSOClient.PendingTimerCount | src/core/SSOClient.ts:1127-1136 | at most one refresh timer is pending, and it is the one `refreshTimer` names |
| Client.SSOClient.constructor | src/core/SSOClient.ts:84-146 | fresh components built from the configuration (cache size; offline flag, capacity, network state and listening; no sync timer), an empty store, signed out, no timer, no listeners; every installed plugin is a configured one whose hook returned normally, and every configured plugin whose hook returns normally has its name installed |
| Client.SSOClient.Emit | src/core/SSOClient.ts:177-196 | every listener of the event is called in registration order, then the registry becomes `AfterEmit` |
| Client.SSOClient.On | src/core/SSOClient.ts:201-217 | a new persistent listener is appended to the event's list; the subscription names it |
| Client.SSOClient.Once | src/core/SSOClient.ts:222-237 | a new `once` listener is appended to the event's list; the subscription names it |
| Client.SSOClient.Unsubscribe | src/core/SSOClient.ts:210-216 | exactly that listener is removed, if still there |
| Client.SSOClient.GetAuthState | src/core/SSOClient.ts:1100-1102 | a copy of the state; authenticated iff it holds a user |
| Client.SSOClient.UpdateAuthState | src/core/SSOClient.ts:1139-1151 | the state becomes (user, isAuthenticated, not loading, no error) |
| Client.SSOClient.SetLoading | src/core/SSOClient.ts:1154-1156 | only `isLoading` changes |
| Client.SSOClient.ClearError | src/core/SSOClient.ts:1159-1161 | only `error` is cleared |
| Client.SSOClient.HandleError | src/core/SSOClient.ts:1164-1180 | the message becomes the state's error, then "error" is emitted with the error |
| Client.SSOClient.SetupAutoRefresh | src/core/SSOClient.ts:1127-1136 | any pending timer is cleared and exactly one new timer is pending, with the threshold's delay |
| Client.SSOClient.SaveToken | src/core/SSOClient.ts:1117-1124 | the token is stored under `sso_token`; with auto refresh the timer is re-armed |
| Client.SSOClient.Logout | src/core/SSOClient.ts:1061-1097 | the four session keys are removed, no timer is pending and the state is signed out; on a client already in that state nothing changes |
| Client.SSOClient.Login | src/core/SSOClient.ts:291-306 | a truthy redirect target is stored, and the given state (or a generated one) is stored under `sso_state` |
| Client.SSOClient.LoginWithPassword | src/core/SSOClient.ts:309-360 | an invalid email fails with `INVALID_EMAIL` before any request, with the store untouched; an accepted reply saves the token, signs in and emits "login"; otherwise the converted error is recorded and emitted |
| Client.SSOClient.Register | src/core/SSOClient.ts:363-414 | fails before any request on an invalid email or weak password, with the store untouched; an accepted reply saves the token and signs in; otherwise the converted error is recorded and emitted |
| Client.SSOClient.HandleCallback | src/core/SSOClient.ts:877-960 | a failed check or reply records a `CALLBACK_ERROR` and leaves store, timer and sign-in unchanged; an accepted reply saves the token, signs in and clears the state and redirect target |
| Client.SSOClient.GetCurrentUser | src/core/SSOClient.ts:963-993 | no stored token: nothing happens; 200 with data signs the user in; 401 logs out; anything else records a `USER_INFO_FETCH_ERROR` |
| Client.SSOClient.RefreshToken | src/core/SSOClient.ts:1022-1058 | no stored refresh token: nothing happens; an accepted reply saves the token and replaces the refresh token only when a non-empty one came back; any other reply logs out; a failed request records `TOKEN_REFRESH_ERROR` |
| Client.SSOClient.Destroy | src/core/SSOClient.ts:1204-1220 | no timer is pending, the offline queue is emptied, the plugins are cleared to their survivors, every listener is dropped and the cache is emptied; the authentication state, the listener id counter and the offline manager's online and enabled flags are kept |

## Left out

- Network, timers and the browser are not modelled. No request is issued; a reply or attempt outcome is an input. Timers are the offline sync flag and the client's set of pending timer ids. Navigation through `window.location` is not modelled, and `initStorage` always yields the in-memory store. `window` is taken to exist, so an enabled offline manager always registers its network handlers.
- A refresh timer firing (and so `refreshToken` running from it) and the offline sync interval firing are not modelled as events. Their effects are those of `RefreshToken` and `ProcessQueue`, which the model exposes directly.
- Interleaving at `await` points is not modelled. Each `processQueue` pass and each `fetchWithRetry` run is atomic, so actions added during a pass are not modelled.
- `Client.SSOClient.UpdateAuthState`: requires that a user is passed exactly when authenticating. The private method's five call sites in the source all pass `(user, true)` or `(null, false)`.
- `Client.SSOClient.constructor`: hook outcomes are given per plugin value. The contract states which plugins end up installed, not their order.
- The client's performance monitoring of `loginWithPassword`, `TabSync`, `ErrorReporter`, and the `onAuthChange`/`onError`/`onSuccess` callbacks are not modelled. Each callback is taken to return normally.
- `validateToken` is not modelled. The constructor would call it only for a stored token, and the in-memory store starts empty.
- `getProviders` and the two-factor, email-verification and password-reset endpoints are plain requests without logic of their own. So are the `onAuthChange` stub and the fire-and-forget logout request.
- `Retry.FetchWithRetry`: the request timeout is an attempt that threw a `DOMException` named `AbortError` with legacy code 20. Waits are returned, not slept. Response bodies are not modelled.
- Floating point is not modelled. The metric averages and rates are returned as (sum, count). TTLs and delays are integers.
- Strings are sequences of Unicode code points. JavaScript's `length` counts UTF-16 code units, so the password length check differs for characters outside the Basic Multilingual Plane.
- `MemoryStorage` is a plain object in the source. Keys such as `__proto__` or `toString` would read inherited properties; the model's map has none.
- Free-form payloads are not modelled. This covers the metric `metadata`, an action's `data` (kept as opaque text), an event's timestamp, the event handlers themselves, and the `details` of an error.
- `Perf.PerformanceMonitor.Record`: the `onMetrics` callback is not modelled.
