/**
 * `SSOClient` (src/core/SSOClient.ts): the session state machine. It owns a
 * key/value store, the authentication state, the auto-refresh timer and the
 * event registry, plus the cache, the offline queue and the plugin registry it
 * tears down in `destroy`.
 *
 * Server replies are inputs of the operations that await them; each is either
 * a parsed body or whatever was thrown while fetching or parsing it. The
 * browser timer table is modelled by the set of timer ids that are armed and
 * not yet cleared.
 */
module Client {
  import opened Wrappers
  import opened Errors
  import opened Validators
  import opened EventBus
  import opened Storage
  import Cache
  import Offline
  import Plugins

  // ---------------------------------------------------------------------------
  // Storage keys, error codes and messages

  const TokenKey := "sso_token"
  const RefreshTokenKey := "sso_refresh_token"
  const StateKey := "sso_state"
  const RedirectKey := "sso_redirect_after_login"

  /** The four keys that `logout` removes. */
  const SessionKeys: set<string> := {TokenKey, RefreshTokenKey, StateKey, RedirectKey}

  const InvalidEmailCode := "INVALID_EMAIL"
  const WeakPasswordCode := "WEAK_PASSWORD"
  const LoginErrorCode := "LOGIN_ERROR"
  const RegisterErrorCode := "REGISTER_ERROR"
  const OAuthErrorCode := "OAUTH_ERROR"
  const MissingCodeCode := "MISSING_CODE"
  const StateMismatchCode := "STATE_MISMATCH"
  const CallbackErrorCode := "CALLBACK_ERROR"
  const UserInfoErrorCode := "USER_INFO_FETCH_ERROR"
  const RefreshErrorCode := "TOKEN_REFRESH_ERROR"

  const InvalidEmailMessage := "邮箱格式不正确"
  const WeakPasswordPrefix := "密码强度不足: "
  const LoginFailedMessage := "登录失败"
  const RegisterFailedMessage := "注册失败"
  const OAuthErrorPrefix := "OAuth错误: "
  const MissingCodeMessage := "缺少授权码"
  const StateMismatchMessage := "State参数不匹配"
  const CallbackFailedMessage := "回调处理失败"
  const UserInfoFailedMessage := "获取用户信息失败"

  const DefaultRefreshThreshold: nat := 300

  // ---------------------------------------------------------------------------
  // Values

  /** `User`, with the fields the client itself reads. */
  datatype User = User(id: string, email: string, name: string)

  datatype AuthState = AuthState(user: Option<User>, isAuthenticated: bool, isLoading: bool, error: Option<string>)

  /** The state `updateAuthState(null, false)` installs. */
  const SignedOut := AuthState(None, false, false, None)

  /** The state `updateAuthState(user, true)` installs. */
  function SignedIn(u: User): (s: AuthState)
    ensures s.isAuthenticated && s.user == Some(u) && !s.isLoading && s.error.None?
  {
    AuthState(Some(u), true, false, None)
  }

  /** `LoginResult` and the callback's reply body. */
  datatype LoginData = LoginData(user: User, token: string)

  /** `TokenInfo`; an absent `refreshToken` is `None`. */
  datatype TokenData = TokenData(token: string, refreshToken: Option<string>, expiresAt: int)

  /**
   * The reply of one request: a parsed `ApiResponse` (its `code`, its `message`
   * and its optional `data`), or what was thrown while fetching or parsing it.
   */
  datatype Reply<T> = Replied(code: int, message: string, data: Option<T>) | Failed(thrown: Thrown)

  /** What the `try` block of a request makes of a reply: its data, or what it throws. */
  datatype Outcome<T> = Accepted(value: T) | Threw(thrown: Thrown)

  /**
   * `result.code === 200 && result.data` accepts; any other body throws
   * `createSSOError(result.message || fallback, code)`; a failed request
   * throws what it threw.
   */
  function Settle<T>(reply: Reply<T>, code: string, fallback: string): (o: Outcome<T>)
    ensures o.Accepted? <==> reply.Replied? && reply.code == 200 && reply.data.Some?
    ensures o.Accepted? ==> o.value == reply.data.value
    ensures reply.Failed? ==> o == Threw(reply.thrown)
    ensures reply.Replied? && o.Threw? ==> o.thrown.Coded? && o.thrown.err.code == Text(code)
    ensures reply.Replied? && o.Threw? && reply.message != "" ==> o.thrown.err.message == reply.message
    ensures reply.Replied? && o.Threw? && reply.message == "" ==> o.thrown.err.message == fallback
  {
    match reply
    case Replied(c, message, data) =>
      if c == 200 && data.Some? then Accepted(data.value)
      else Threw(Coded(NewError(if message != "" then message else fallback, code)))
    case Failed(t) => Threw(t)
  }

  /** The data an event carries: the `SSOError` of "error", the user and login method of "login". */
  datatype Payload = ErrorPayload(err: SSOError) | LoginPayload(user: User, loginMethod: string)

  /** One `emit`: the event, its payload and the listeners called, in the order called. */
  datatype Delivery = Delivery(event: string, payload: Payload, to: seq<Listener>)

  /** The function `on`/`once` return, as the listener it removes. */
  datatype Subscription = Subscription(event: string, id: nat)

  /** A `setTimeout` handle with its delay. */
  datatype Timer = Timer(id: nat, delayMs: nat)

  /** `config.refreshThreshold || 300`, in milliseconds. */
  function RefreshDelay(threshold: nat): (ms: nat)
    ensures threshold == 0 ==> ms == DefaultRefreshThreshold * 1000
    ensures threshold > 0 ==> ms == threshold * 1000
  {
    (if threshold == 0 then DefaultRefreshThreshold else threshold) * 1000
  }

  /** The configuration the client reads, `DefaultConfig` holding the defaults. */
  datatype Config = Config(
    autoRefresh: bool,
    refreshThreshold: nat,
    cacheMaxSize: nat,
    offlineEnabled: bool,
    maxQueueSize: nat,
    plugins: seq<Plugins.Plugin>)

  const DefaultConfig := Config(true, 300, 100, false, 50, [])

  /**
   * Under the defaults the session is refreshed every five minutes, and a
   * configured threshold of 0 falls back to that same delay.
   */
  lemma DefaultRefreshEveryFiveMinutes()
    ensures DefaultConfig.autoRefresh
    ensures RefreshDelay(DefaultConfig.refreshThreshold) == 5 * 60 * 1000
    ensures RefreshDelay(DefaultConfig.(refreshThreshold := 0).refreshThreshold) == RefreshDelay(DefaultConfig.refreshThreshold)
  {
  }

  // ---------------------------------------------------------------------------
  // Checks made before any request

  /** `Array.prototype.join`. */
  function Join(parts: seq<string>, sep: string): (s: string)
    ensures |parts| == 1 ==> s == parts[0]
    ensures parts == [] ==> s == ""
  {
    if parts == [] then ""
    else if |parts| == 1 then parts[0]
    else parts[0] + sep + Join(parts[1..], sep)
  }

  /**
   * The error `register` throws before any request: an invalid email first,
   * then a weak password, whose message lists the unmet criteria.
   */
  function RegisterPrecheck(email: string, password: string): (r: Option<SSOError>)
    ensures r.None? <==> IsValidEmail(email) && ValidatePasswordStrength(password).isValid
    ensures !IsValidEmail(email) ==> r == Some(NewError(InvalidEmailMessage, InvalidEmailCode))
    ensures IsValidEmail(email) && r.Some? ==>
      r.value.code == Text(WeakPasswordCode)
      && r.value.message == WeakPasswordPrefix + Join(UnmetLines(password), ", ")
  {
    if !IsValidEmail(email) then Some(NewError(InvalidEmailMessage, InvalidEmailCode))
    else
      var strength := ValidatePasswordStrength(password);
      if !strength.isValid then Some(NewError(WeakPasswordPrefix + Join(strength.feedback, ", "), WeakPasswordCode))
      else None
  }

  /** The sample account of test-optimized.js passes both checks of `register`. */
  lemma RegisterSample()
    ensures RegisterPrecheck("test@example.com", "Test123!") == None
  {
    EmailSampleValid();
    PasswordSample();
  }

  /**
   * The error `handleCallback` throws before any request: an OAuth error in
   * the URL, then a missing or empty code, then a state that differs from the
   * stored one (both may be absent, and then they agree).
   */
  function CallbackPrecheck(code: Option<string>, state: Option<string>, error: Option<string>, saved: Option<string>): (r: Option<SSOError>)
    ensures r.None? <==> (error.None? || error.value == "") && code.Some? && code.value != "" && state == saved
    ensures error.Some? && error.value != "" ==> r == Some(NewError(OAuthErrorPrefix + error.value, OAuthErrorCode))
    ensures r.Some? && r.value.code == Text(StateMismatchCode) <==> (error.None? || error.value == "") && code.Some? && code.value != "" && state != saved
  {
    if error.Some? && error.value != "" then Some(NewError(OAuthErrorPrefix + error.value, OAuthErrorCode))
    else if code.None? || code.value == "" then Some(NewError(MissingCodeMessage, MissingCodeCode))
    else if state != saved then Some(NewError(StateMismatchMessage, StateMismatchCode))
    else None
  }

  /**
   * The `catch` of `handleCallback`: whatever was thrown becomes a
   * `CALLBACK_ERROR`, keeping the message of an `Error`.
   */
  function CallbackError(t: Thrown): (e: SSOError)
    ensures e.code == Text(CallbackErrorCode) && e.status.None? && !e.retryable
    ensures IsErrorInstance(t) ==> e.message == ErrorMessage(t)
    ensures !IsErrorInstance(t) ==> e.message == CallbackFailedMessage
  {
    if IsErrorInstance(t) then NewError(ErrorMessage(t), CallbackErrorCode)
    else NewError(CallbackFailedMessage, CallbackErrorCode)
  }

  /** A failed check of `handleCallback` is recorded as a `CALLBACK_ERROR` with the check's message. */
  lemma CallbackCheckRecoded(code: Option<string>, state: Option<string>, error: Option<string>, saved: Option<string>)
    requires CallbackPrecheck(code, state, error, saved).Some?
    ensures var e := CallbackPrecheck(code, state, error, saved).value;
      CallbackError(Coded(e)) == NewError(e.message, CallbackErrorCode)
  {
  }

  /** Removing the four session keys one by one removes the set of them. */
  lemma RemoveSessionKeys(m: map<string, string>)
    ensures m - {TokenKey} - {RefreshTokenKey} - {StateKey} - {RedirectKey} == m - SessionKeys
  {
    var a := m - {TokenKey} - {RefreshTokenKey} - {StateKey} - {RedirectKey};
    assert a.Keys == m.Keys - SessionKeys;
  }

  /**
   * The store after a successful callback saved `token`: the state is removed,
   * and so is the redirect target when it reads as present.
   */
  function AfterCallback(data: map<string, string>, token: string): (r: map<string, string>)
    ensures TokenKey in r && r[TokenKey] == token
    ensures StateKey !in r && Get(r, RedirectKey).None?
    ensures forall k | k !in {TokenKey, StateKey, RedirectKey} :: Get(r, k) == Get(data, k)
  {
    var d := data[TokenKey := token] - {StateKey};
    if Get(d, RedirectKey).Some? then d - {RedirectKey} else d
  }

  // ---------------------------------------------------------------------------
  // The client

  class SSOClient {
    const storage: MemoryStorage
    const cache: Cache.SimpleCache<string>
    const offline: Offline.OfflineManager
    const plugins: Plugins.PluginManager
    const autoRefresh: bool
    const refreshThreshold: nat

    var authState: AuthState
    /** The handle `refreshTimer` holds; clearing the timer does not reset it. */
    var refreshTimer: Option<Timer>
    /** The ids of refresh timers armed and not cleared. */
    var pendingTimers: set<nat>
    var nextTimerId: nat
    var listeners: Registry
    var nextListenerId: nat
    /** Every `emit` so far, oldest first. */
    ghost var emitted: seq<Delivery>

    /** Only the timer `refreshTimer` names can be pending. */
    ghost predicate TimersValid()
      reads this
    {
      forall id | id in pendingTimers :: refreshTimer.Some? && id == refreshTimer.value.id
    }

    ghost predicate Valid()
      reads this, cache, offline, plugins
    {
      && cache.Valid() && offline.Valid() && plugins.Valid()
      && WellFormed(listeners, nextListenerId)
      && (authState.isAuthenticated <==> authState.user.Some?)
      && TimersValid()
    }

    /** At most one refresh timer is ever pending. */
    function PendingTimerCount(): (n: nat)
      reads this
      requires TimersValid()
      ensures n <= 1
      ensures n == 1 ==> refreshTimer.Some? && pendingTimers == {refreshTimer.value.id}
    {
      if refreshTimer.Some? && refreshTimer.value.id in pendingTimers then
        assert pendingTimers == {refreshTimer.value.id};
        1
      else
        assert pendingTimers == {};
        0
    }

    twostate predicate TimersKept()
      reads this
    {
      refreshTimer == old(refreshTimer) && pendingTimers == old(pendingTimers) && nextTimerId == old(nextTimerId)
    }

    /** `saveToken`'s effect on the timer: with auto refresh, one fresh timer replaces any pending one. */
    twostate predicate Rearmed()
      reads this
    {
      if autoRefresh then
        && refreshTimer == Some(Timer(old(nextTimerId), RefreshDelay(refreshThreshold)))
        && pendingTimers == {old(nextTimerId)}
        && nextTimerId == old(nextTimerId) + 1
      else
        refreshTimer == old(refreshTimer) && pendingTimers == old(pendingTimers) && nextTimerId == old(nextTimerId)
    }

    /** No listener was called, added or removed. */
    twostate predicate Silent()
      reads this
    {
      listeners == old(listeners) && nextListenerId == old(nextListenerId) && emitted == old(emitted)
    }

    /** One `emit(event, payload)` happened, and nothing else touched the registry. */
    twostate predicate Notified(event: string, payload: Payload)
      reads this
    {
      && listeners == AfterEmit(old(listeners), event)
      && nextListenerId == old(nextListenerId)
      && emitted == old(emitted) + [Delivery(event, payload, ListenersOf(old(listeners), event))]
    }

    /**
     * `new SSOClient(config)` with in-memory storage: the components are
     * created and the configured plugins installed in order, each one whose
     * hook returns normally and whose name is not taken yet. The store is
     * empty, so no stored token is validated.
     */
    constructor(config: Config, navigatorOnline: bool, hookThrows: Plugins.Plugin -> bool)
      ensures Valid()
      ensures fresh(storage) && fresh(cache) && fresh(offline) && fresh(plugins)
      ensures storage.data == map[] && cache.entries == [] && cache.maxSize == config.cacheMaxSize
      ensures offline.queue == [] && offline.isEnabled == config.offlineEnabled && !offline.syncTimerArmed
      ensures offline.maxQueueSize == config.maxQueueSize && offline.listening == config.offlineEnabled
      ensures offline.isOnline == (!config.offlineEnabled || navigatorOnline)
      ensures forall p | p in plugins.plugins :: p in config.plugins && !hookThrows(p)
      ensures forall p | p in config.plugins && !hookThrows(p) :: plugins.IsInstalled(p.name)
      ensures autoRefresh == config.autoRefresh && refreshThreshold == config.refreshThreshold
      ensures authState == SignedOut && refreshTimer.None? && pendingTimers == {}
      ensures listeners == map[] && emitted == []
    {
      var pm := new Plugins.PluginManager();
      var i := 0;
      while i < |config.plugins|
        invariant 0 <= i <= |config.plugins|
        invariant fresh(pm) && pm.Valid()
        invariant forall p | p in pm.plugins :: p in config.plugins[..i] && !hookThrows(p)
        invariant forall p | p in config.plugins[..i] && !hookThrows(p) :: pm.IsInstalled(p.name)
      {
        var p := config.plugins[i];
        ghost var before := pm.plugins;
        pm.Install(p, hookThrows(p));
        forall q | q in config.plugins[..i + 1] && !hookThrows(q) ensures pm.IsInstalled(q.name) {
          if q != p {
            assert q in config.plugins[..i];
            var k :| 0 <= k < |before| && before[k].name == q.name;
            assert pm.plugins[k] == before[k];
          }
        }
        assert config.plugins[..i + 1] == config.plugins[..i] + [p];
        i := i + 1;
      }
      assert config.plugins[..i] == config.plugins;
      storage := new MemoryStorage();
      cache := new Cache.SimpleCache(config.cacheMaxSize);
      offline := new Offline.OfflineManager(config.offlineEnabled, config.maxQueueSize, navigatorOnline);
      plugins := pm;
      autoRefresh := config.autoRefresh;
      refreshThreshold := config.refreshThreshold;
      authState := SignedOut;
      refreshTimer := None;
      pendingTimers := {};
      nextTimerId := 1;
      listeners := map[];
      nextListenerId := 0;
      emitted := [];
    }

    // -------------------------------------------------------------------------
    // Events

    /**
     * `emit(event, data)`: every listener registered for the event is called,
     * in registration order (a throwing handler is caught and the next one
     * still runs); then the `once` listeners are dropped from its list.
     */
    method Emit(event: string, payload: Payload)
      requires Valid()
      modifies this
      ensures Valid()
      ensures Notified(event, payload)
      ensures authState == old(authState) && TimersKept()
    {
      EmitWellFormed(listeners, nextListenerId, event);
      emitted := emitted + [Delivery(event, payload, ListenersOf(listeners, event))];
      listeners := AfterEmit(listeners, event);
    }

    /** `on(event, handler)`: a new persistent listener at the end of the event's list. */
    method On(event: string) returns (s: Subscription)
      requires Valid()
      modifies this
      ensures Valid()
      ensures s == Subscription(event, old(nextListenerId))
      ensures listeners == Add(old(listeners), Listener(old(nextListenerId), event, false))
      ensures nextListenerId == old(nextListenerId) + 1 && emitted == old(emitted)
      ensures authState == old(authState) && TimersKept()
    {
      AddWellFormed(listeners, nextListenerId, event, false);
      listeners := Add(listeners, Listener(nextListenerId, event, false));
      s := Subscription(event, nextListenerId);
      nextListenerId := nextListenerId + 1;
    }

    /** `once(event, handler)`: as `on`, for a listener the next emit of the event drops. */
    method Once(event: string) returns (s: Subscription)
      requires Valid()
      modifies this
      ensures Valid()
      ensures s == Subscription(event, old(nextListenerId))
      ensures listeners == Add(old(listeners), Listener(old(nextListenerId), event, true))
      ensures nextListenerId == old(nextListenerId) + 1 && emitted == old(emitted)
      ensures authState == old(authState) && TimersKept()
    {
      AddWellFormed(listeners, nextListenerId, event, true);
      listeners := Add(listeners, Listener(nextListenerId, event, true));
      s := Subscription(event, nextListenerId);
      nextListenerId := nextListenerId + 1;
    }

    /** Calling the function `on`/`once` returned: exactly that listener goes, if still there. */
    method Unsubscribe(s: Subscription)
      requires Valid()
      modifies this
      ensures Valid()
      ensures listeners == EventBus.Unsubscribe(old(listeners), s.event, s.id)
      ensures !HasId(ListenersOf(listeners, s.event), s.id)
      ensures forall l :: l in ListenersOf(listeners, s.event) <==> l in ListenersOf(old(listeners), s.event) && l.id != s.id
      ensures nextListenerId == old(nextListenerId) && emitted == old(emitted)
      ensures authState == old(authState) && TimersKept()
    {
      UnsubscribeWellFormed(listeners, nextListenerId, s.event, s.id);
      RemoveIdExact(ListenersOf(listeners, s.event), s.id);
      listeners := EventBus.Unsubscribe(listeners, s.event, s.id);
    }

    // -------------------------------------------------------------------------
    // Authentication state

    /** `getAuthState`: a copy of the state, authenticated exactly when it holds a user. */
    function GetAuthState(): (s: AuthState)
      reads this, cache, offline, plugins
      requires Valid()
      ensures s.isAuthenticated <==> s.user.Some?
      ensures s.user == authState.user && s.isLoading == authState.isLoading && s.error == authState.error
    {
      authState
    }

    /** `updateAuthState(user, isAuthenticated)`; every call passes a user exactly when authenticating. */
    method UpdateAuthState(user: Option<User>, isAuthenticated: bool)
      requires Valid() && (isAuthenticated <==> user.Some?)
      modifies this
      ensures Valid()
      ensures authState == AuthState(user, isAuthenticated, false, None)
      ensures Silent() && TimersKept()
    {
      authState := AuthState(user, isAuthenticated, false, None);
    }

    /** `setLoading`. */
    method SetLoading(isLoading: bool)
      requires Valid()
      modifies this
      ensures Valid()
      ensures authState == old(authState).(isLoading := isLoading)
      ensures Silent() && TimersKept()
    {
      authState := authState.(isLoading := isLoading);
    }

    /** `clearError`. */
    method ClearError()
      requires Valid()
      modifies this
      ensures Valid()
      ensures authState == old(authState).(error := None)
      ensures Silent() && TimersKept()
    {
      authState := authState.(error := None);
    }

    /** `handleError(error)`: the message becomes the state's error, then "error" is emitted. */
    method HandleError(e: SSOError)
      requires Valid()
      modifies this
      ensures Valid()
      ensures authState == old(authState).(error := Some(e.message))
      ensures Notified("error", ErrorPayload(e)) && TimersKept()
    {
      authState := authState.(error := Some(e.message));
      Emit("error", ErrorPayload(e));
    }

    // -------------------------------------------------------------------------
    // Tokens and the refresh timer

    /** `setupAutoRefresh`: clear the pending timer, if any, and arm one for the threshold. */
    method SetupAutoRefresh()
      requires Valid()
      modifies this
      ensures Valid()
      ensures refreshTimer == Some(Timer(old(nextTimerId), RefreshDelay(refreshThreshold)))
      ensures pendingTimers == {old(nextTimerId)} && nextTimerId == old(nextTimerId) + 1
      ensures authState == old(authState) && Silent()
    {
      if refreshTimer.Some? {
        pendingTimers := pendingTimers - {refreshTimer.value.id};
      }
      assert pendingTimers == {};
      refreshTimer := Some(Timer(nextTimerId, RefreshDelay(refreshThreshold)));
      pendingTimers := {nextTimerId};
      nextTimerId := nextTimerId + 1;
    }

    /** `saveToken(token)`: store it and, with auto refresh, re-arm the timer. */
    method SaveToken(token: string)
      requires Valid()
      modifies this, storage
      ensures Valid()
      ensures storage.data == old(storage.data)[TokenKey := token]
      ensures Rearmed()
      ensures authState == old(authState) && Silent()
    {
      storage.SetItem(TokenKey, token);
      if autoRefresh {
        SetupAutoRefresh();
      }
    }

    /**
     * `logout()`: the four session keys are removed, the pending timer is
     * cleared and the state is signed out. On a client already in that state
     * it changes nothing.
     */
    method Logout()
      requires Valid()
      modifies this, storage
      ensures Valid()
      ensures storage.data == old(storage.data) - SessionKeys
      ensures forall k | k in SessionKeys :: storage.GetItem(k).None?
      ensures pendingTimers == {} && refreshTimer == old(refreshTimer) && nextTimerId == old(nextTimerId)
      ensures authState == SignedOut && Silent()
      ensures old(storage.data) == old(storage.data) - SessionKeys && old(pendingTimers) == {} && old(authState) == SignedOut
              ==> storage.data == old(storage.data) && pendingTimers == old(pendingTimers) && authState == old(authState)
    {
      ghost var data := storage.data;
      storage.RemoveItem(TokenKey);
      storage.RemoveItem(RefreshTokenKey);
      storage.RemoveItem(StateKey);
      storage.RemoveItem(RedirectKey);
      RemoveSessionKeys(data);
      if refreshTimer.Some? {
        pendingTimers := pendingTimers - {refreshTimer.value.id};
      }
      assert pendingTimers == {};
      UpdateAuthState(None, false);
    }

    // -------------------------------------------------------------------------
    // Operations

    /**
     * The storage part of `login`: a truthy `redirectTo` is kept, and the given
     * state, or when it is empty or absent a generated one, is stored.
     */
    method Login(redirectTo: Option<string>, state: Option<string>, generated: string)
      requires Valid()
      modifies this, storage
      ensures Valid()
      ensures var d := if redirectTo.Some? && redirectTo.value != "" then old(storage.data)[RedirectKey := redirectTo.value] else old(storage.data);
        storage.data == d[StateKey := if state.Some? && state.value != "" then state.value else generated]
      ensures authState == old(authState) && Silent() && TimersKept()
    {
      if redirectTo.Some? && redirectTo.value != "" {
        storage.SetItem(RedirectKey, redirectTo.value);
      }
      var loginState := if state.Some? && state.value != "" then state.value else generated;
      storage.SetItem(StateKey, loginState);
    }

    /**
     * `loginWithPassword`: an invalid email fails with `INVALID_EMAIL` before
     * any request; an accepted reply saves the token, signs the user in and
     * emits "login"; anything else is recorded as an error.
     */
    method LoginWithPassword(email: string, password: string, reply: Reply<LoginData>) returns (r: Option<User>)
      requires Valid()
      modifies this, storage
      ensures Valid() && !authState.isLoading
      ensures !IsValidEmail(email) ==>
        && r.None? && storage.data == old(storage.data) && TimersKept()
        && authState == old(authState).(isLoading := false, error := Some(InvalidEmailMessage))
        && Notified("error", ErrorPayload(NewError(InvalidEmailMessage, InvalidEmailCode)))
      ensures IsValidEmail(email) ==>
        match Settle(reply, LoginErrorCode, LoginFailedMessage)
        case Accepted(d) =>
          && r == Some(d.user) && storage.data == old(storage.data)[TokenKey := d.token] && Rearmed()
          && authState == SignedIn(d.user) && Notified("login", LoginPayload(d.user, "password"))
        case Threw(t) =>
          var e := ConvertToSSOError(t, LoginErrorCode);
          && r.None? && storage.data == old(storage.data) && TimersKept()
          && authState == old(authState).(isLoading := false, error := Some(e.message))
          && Notified("error", ErrorPayload(e))
    {
      SetLoading(true);
      ClearError();
      if !IsValidEmail(email) {
        HandleError(ConvertToSSOError(Coded(NewError(InvalidEmailMessage, InvalidEmailCode)), LoginErrorCode));
        SetLoading(false);
        return None;
      }
      var outcome := Settle(reply, LoginErrorCode, LoginFailedMessage);
      match outcome
      case Accepted(d) =>
        SaveToken(d.token);
        UpdateAuthState(Some(d.user), true);
        Emit("login", LoginPayload(d.user, "password"));
        r := Some(d.user);
      case Threw(t) =>
        HandleError(ConvertToSSOError(t, LoginErrorCode));
        r := None;
      SetLoading(false);
    }

    /**
     * `register`: an invalid email or a weak password fails before any
     * request; an accepted reply saves the token and signs the user in;
     * anything else is recorded as an error.
     */
    method Register(email: string, password: string, reply: Reply<LoginData>) returns (r: Option<User>)
      requires Valid()
      modifies this, storage
      ensures Valid() && !authState.isLoading
      ensures RegisterPrecheck(email, password).Some? ==>
        var e := RegisterPrecheck(email, password).value;
        && r.None? && storage.data == old(storage.data) && TimersKept()
        && authState == old(authState).(isLoading := false, error := Some(e.message))
        && Notified("error", ErrorPayload(e))
      ensures RegisterPrecheck(email, password).None? ==>
        match Settle(reply, RegisterErrorCode, RegisterFailedMessage)
        case Accepted(d) =>
          && r == Some(d.user) && storage.data == old(storage.data)[TokenKey := d.token] && Rearmed()
          && authState == SignedIn(d.user) && Silent()
        case Threw(t) =>
          var e := ConvertToSSOError(t, RegisterErrorCode);
          && r.None? && storage.data == old(storage.data) && TimersKept()
          && authState == old(authState).(isLoading := false, error := Some(e.message))
          && Notified("error", ErrorPayload(e))
    {
      SetLoading(true);
      ClearError();
      var check := RegisterPrecheck(email, password);
      if check.Some? {
        HandleError(ConvertToSSOError(Coded(check.value), RegisterErrorCode));
        SetLoading(false);
        return None;
      }
      var outcome := Settle(reply, RegisterErrorCode, RegisterFailedMessage);
      match outcome
      case Accepted(d) =>
        SaveToken(d.token);
        UpdateAuthState(Some(d.user), true);
        r := Some(d.user);
      case Threw(t) =>
        HandleError(ConvertToSSOError(t, RegisterErrorCode));
        r := None;
      SetLoading(false);
    }

    /**
     * `handleCallback`: the query values `code`, `state` and `error` are
     * checked against each other and the stored state before any request; an
     * accepted reply saves the token, signs the user in and clears the stored
     * state and redirect target. Every failure is recorded as a
     * `CALLBACK_ERROR` and leaves the store, the timer and the sign-in as they
     * were.
     */
    method HandleCallback(code: Option<string>, state: Option<string>, error: Option<string>, reply: Reply<LoginData>)
      returns (r: Option<User>)
      requires Valid()
      modifies this, storage
      ensures Valid() && !authState.isLoading
      ensures CallbackPrecheck(code, state, error, old(storage.GetItem(StateKey))).Some? ==>
        var e := CallbackError(Coded(CallbackPrecheck(code, state, error, old(storage.GetItem(StateKey))).value));
        && r.None? && storage.data == old(storage.data) && TimersKept()
        && authState == old(authState).(isLoading := false, error := Some(e.message))
        && Notified("error", ErrorPayload(e))
      ensures CallbackPrecheck(code, state, error, old(storage.GetItem(StateKey))).None? ==>
        match Settle(reply, CallbackErrorCode, LoginFailedMessage)
        case Accepted(d) =>
          && r == Some(d.user) && storage.data == AfterCallback(old(storage.data), d.token) && Rearmed()
          && authState == SignedIn(d.user) && Silent()
        case Threw(t) =>
          var e := CallbackError(t);
          && r.None? && storage.data == old(storage.data) && TimersKept()
          && authState == old(authState).(isLoading := false, error := Some(e.message))
          && Notified("error", ErrorPayload(e))
    {
      SetLoading(true);
      var check := CallbackPrecheck(code, state, error, storage.GetItem(StateKey));
      if check.Some? {
        HandleError(CallbackError(Coded(check.value)));
        SetLoading(false);
        return None;
      }
      var outcome := Settle(reply, CallbackErrorCode, LoginFailedMessage);
      match outcome
      case Accepted(d) =>
        ghost var before := storage.data;
        SaveToken(d.token);
        UpdateAuthState(Some(d.user), true);
        storage.RemoveItem(StateKey);
        var redirect := storage.GetItem(RedirectKey);
        if redirect.Some? {
          storage.RemoveItem(RedirectKey);
        }
        assert storage.data == AfterCallback(before, d.token);
        r := Some(d.user);
      case Threw(t) =>
        HandleError(CallbackError(t));
        r := None;
      SetLoading(false);
    }

    /**
     * `getCurrentUser`: nothing without a stored token; an accepted reply
     * signs the user in, a 401 logs out, and anything else is recorded as a
     * `USER_INFO_FETCH_ERROR`.
     */
    method GetCurrentUser(reply: Reply<User>) returns (r: Option<User>)
      requires Valid()
      modifies this, storage
      ensures Valid()
      ensures old(storage.GetItem(TokenKey)).None? ==>
        r.None? && storage.data == old(storage.data) && authState == old(authState) && TimersKept() && Silent()
      ensures old(storage.GetItem(TokenKey)).Some? && reply.Replied? && reply.code == 200 && reply.data.Some? ==>
        && r == reply.data && storage.data == old(storage.data) && authState == SignedIn(reply.data.value)
        && TimersKept() && Silent()
      ensures old(storage.GetItem(TokenKey)).Some? && reply.Replied? && reply.code == 401 ==>
        && r.None? && storage.data == old(storage.data) - SessionKeys && authState == SignedOut
        && pendingTimers == {} && Silent()
      ensures old(storage.GetItem(TokenKey)).Some? && reply.Replied? && reply.code != 401 && !(reply.code == 200 && reply.data.Some?) ==>
        var e := NewError(if reply.message != "" then reply.message else UserInfoFailedMessage, UserInfoErrorCode);
        && r.None? && storage.data == old(storage.data) && TimersKept()
        && authState == old(authState).(error := Some(e.message)) && Notified("error", ErrorPayload(e))
      ensures old(storage.GetItem(TokenKey)).Some? && reply.Failed? ==>
        var e := ConvertToSSOError(reply.thrown, UserInfoErrorCode);
        && r.None? && storage.data == old(storage.data) && TimersKept()
        && authState == old(authState).(error := Some(e.message)) && Notified("error", ErrorPayload(e))
    {
      var token := storage.GetItem(TokenKey);
      if token.None? {
        return None;
      }
      match reply
      case Replied(c, message, data) =>
        if c == 200 && data.Some? {
          UpdateAuthState(data, true);
          r := data;
        } else if c == 401 {
          Logout();
          r := None;
        } else {
          var thrown := ErrorObj("Error", if message != "" then message else UserInfoFailedMessage);
          HandleError(ConvertToSSOError(thrown, UserInfoErrorCode));
          r := None;
        }
      case Failed(t) =>
        HandleError(ConvertToSSOError(t, UserInfoErrorCode));
        r := None;
    }

    /**
     * `refreshToken`: nothing without a stored refresh token; an accepted
     * reply saves the new token and replaces the refresh token only when a
     * non-empty one came back; any other reply logs out; a failed request is
     * recorded as a `TOKEN_REFRESH_ERROR`.
     */
    method RefreshToken(reply: Reply<TokenData>) returns (r: Option<string>)
      requires Valid()
      modifies this, storage
      ensures Valid()
      ensures old(storage.GetItem(RefreshTokenKey)).None? ==>
        r.None? && storage.data == old(storage.data) && authState == old(authState) && TimersKept() && Silent()
      ensures old(storage.GetItem(RefreshTokenKey)).Some? && reply.Replied? && reply.code == 200 && reply.data.Some? ==>
        var d := reply.data.value;
        var saved := old(storage.data)[TokenKey := d.token];
        && r == Some(d.token) && authState == old(authState) && Rearmed() && Silent()
        && storage.data == if d.refreshToken.Some? && d.refreshToken.value != "" then saved[RefreshTokenKey := d.refreshToken.value] else saved
      ensures old(storage.GetItem(RefreshTokenKey)).Some? && reply.Replied? && !(reply.code == 200 && reply.data.Some?) ==>
        && r.None? && storage.data == old(storage.data) - SessionKeys && authState == SignedOut
        && pendingTimers == {} && Silent()
      ensures old(storage.GetItem(RefreshTokenKey)).Some? && reply.Failed? ==>
        var e := ConvertToSSOError(reply.thrown, RefreshErrorCode);
        && r.None? && storage.data == old(storage.data) && TimersKept()
        && authState == old(authState).(error := Some(e.message)) && Notified("error", ErrorPayload(e))
    {
      var refreshToken := storage.GetItem(RefreshTokenKey);
      if refreshToken.None? {
        return None;
      }
      match reply
      case Replied(c, message, data) =>
        if c == 200 && data.Some? {
          var d := data.value;
          SaveToken(d.token);
          if d.refreshToken.Some? && d.refreshToken.value != "" {
            storage.SetItem(RefreshTokenKey, d.refreshToken.value);
          }
          r := Some(d.token);
        } else {
          Logout();
          r := None;
        }
      case Failed(t) =>
        HandleError(ConvertToSSOError(t, RefreshErrorCode));
        r := None;
    }

    /**
     * `destroy()`: the pending timer is cleared, the offline manager destroyed,
     * the plugins cleared, every listener dropped and the cache emptied.
     */
    method Destroy(teardownThrows: string -> bool)
      requires Valid()
      modifies this, offline, plugins, cache
      ensures Valid()
      ensures pendingTimers == {} && refreshTimer == old(refreshTimer) && nextTimerId == old(nextTimerId)
      ensures offline.queue == [] && !offline.syncTimerArmed
      ensures plugins.plugins == Plugins.Survivors(old(plugins.plugins), teardownThrows)
      ensures listeners == map[] && cache.entries == []
      ensures authState == old(authState) && emitted == old(emitted) && nextListenerId == old(nextListenerId)
      ensures offline.isOnline == old(offline.isOnline) && offline.isEnabled == old(offline.isEnabled)
    {
      if refreshTimer.Some? {
        pendingTimers := pendingTimers - {refreshTimer.value.id};
      }
      assert pendingTimers == {};
      offline.Destroy();
      plugins.Clear(teardownThrows);
      listeners := map[];
      cache.Clear();
    }
  }
}
