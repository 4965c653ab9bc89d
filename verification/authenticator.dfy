/**
 * Authentication against the vendor cloud (`authenticate` in utils.py).
 * The vendor's OAuth client is not modelled; what it does at each call is a
 * parameter (`AuthSdk`), and the calls the skill makes are the effect trace.
 */
module Authenticator {
  import opened Wrappers
  import opened Host
  import opened Config

  /** The token cache file: missing, present but not valid JSON, or holding a token. */
  datatype CacheFile = Absent | Unparsable | Holds(token: Token)

  /** How one call into the OAuth client ends. */
  datatype SdkOutcome = Completes | RaisesMissingToken | RaisesOther

  /** How the OAuth client answers each call the skill may make: building the
      client from the cached token, building it without a token, and the
      token exchange. */
  datatype AuthSdk = AuthSdk(restore: SdkOutcome, create: SdkOutcome, fetch: SdkOutcome)

  /** An authenticated vendor session and the way it was obtained. */
  datatype Session = Restored(token: Token) | Created(withOtp: bool)

  /** Exceptions that can leave `authenticate`. */
  datatype Failure = MissingTokenError | JsonDecodeError | OtherError

  datatype AuthResult = Granted(session: Session) | NoSession | Raised(failure: Failure)

  datatype AuthRun = AuthRun(result: AuthResult, effects: seq<Effect>)

  /** Which way a configuration and cache file lead, as a decision table:
      a cache file wins; otherwise credentials are needed, and with two-factor
      authentication enabled a one-time code is needed as well. */
  datatype Path = CachedToken | PasswordOnly | PasswordAndCode | NoAttempt

  function ChoosePath(cfg: Config, cache: CacheFile): Path {
    if !cache.Absent? then CachedToken
    else if !Truthy(cfg.username) || !Truthy(cfg.password) then NoAttempt
    else if !Truthy(cfg.twoFactorEnabled) then PasswordOnly
    else if Truthy(cfg.twoFactorCode) then PasswordAndCode
    else NoAttempt
  }

  /** The token exchange through a client built without a token. */
  function Exchange(username: Setting, password: Setting, code: Option<Setting>, fetch: SdkOutcome): (r: AuthRun)
    ensures r.effects == [NewAuth(None), FetchToken(username, password, code)]
    ensures r.result.Granted? <==> fetch == Completes
    ensures r.result.Granted? ==> r.result.session == Created(code.Some?)
    ensures fetch == RaisesMissingToken ==> r.result == NoSession
    // only a missing-token error is caught; any other error leaves the exchange
    ensures fetch == RaisesOther ==> r.result == Raised(OtherError)
  {
    var effects := [NewAuth(None), FetchToken(username, password, code)];
    match fetch
    case Completes => AuthRun(Granted(Created(code.Some?)), effects)
    case RaisesMissingToken => AuthRun(NoSession, effects)
    case RaisesOther => AuthRun(Raised(OtherError), effects)
  }

  /** Produces a vendor session, or none, from the configuration and the token cache. */
  function Authenticate(cfg: Config, cache: CacheFile, sdk: AuthSdk): (r: AuthRun)
    // a cache file is never followed by a token exchange
    ensures !cache.Absent? ==> Count(r.effects, IsFetch) == 0
    ensures cache.Holds? ==> r.effects == [NewAuth(Some(cache.token))]
    ensures cache.Holds? ==> (r.result.Granted? <==> sdk.restore == Completes)
    ensures cache.Holds? && r.result.Granted? ==> r.result.session == Restored(cache.token)
    ensures cache.Holds? && sdk.restore == RaisesMissingToken ==> r.result == NoSession
    ensures cache.Unparsable? ==> r.result == Raised(JsonDecodeError) && r.effects == []
    // without both credentials nothing is asked of the client
    ensures cache.Absent? && !(Truthy(cfg.username) && Truthy(cfg.password)) ==>
      r.result == NoSession && r.effects == []
    // two-factor authentication off: one exchange with username and password
    ensures cache.Absent? && Truthy(cfg.username) && Truthy(cfg.password) && !Truthy(cfg.twoFactorEnabled)
            && sdk.create == Completes ==>
      Count(r.effects, IsFetch) == 1 && FetchToken(cfg.username.value, cfg.password.value, None) in r.effects
    // two-factor authentication on, no code yet: no exchange and no session (an
    // exception other than a missing token while building the client still propagates)
    ensures cache.Absent? && Truthy(cfg.twoFactorEnabled) && !Truthy(cfg.twoFactorCode) ==>
      Count(r.effects, IsFetch) == 0 && !r.result.Granted?
      && (sdk.create != RaisesOther ==> r.result == NoSession)
    // two-factor authentication on with a code: one exchange carrying the code
    ensures cache.Absent? && Truthy(cfg.username) && Truthy(cfg.password) && Truthy(cfg.twoFactorEnabled)
            && Truthy(cfg.twoFactorCode) && sdk.create == Completes ==>
      Count(r.effects, IsFetch) == 1
      && FetchToken(cfg.username.value, cfg.password.value, Some(cfg.twoFactorCode.value)) in r.effects
    // a missing-token error is never propagated
    ensures r.result != Raised(MissingTokenError)
    ensures cache.Absent? && sdk.create == RaisesMissingToken ==> r.result == NoSession
    ensures cache.Absent? && sdk.create == Completes && sdk.fetch == RaisesMissingToken ==> r.result == NoSession
    // every other client error propagates
    ensures cache.Holds? && sdk.restore == RaisesOther ==> r.result == Raised(OtherError)
    ensures cache.Absent? && Truthy(cfg.username) && Truthy(cfg.password) && sdk.create == RaisesOther ==>
      r.result == Raised(OtherError)
    ensures cache.Absent? && Truthy(cfg.username) && Truthy(cfg.password) && sdk.create == Completes
            && (!Truthy(cfg.twoFactorEnabled) || Truthy(cfg.twoFactorCode)) && sdk.fetch == RaisesOther ==>
      r.result == Raised(OtherError)
    // with both credentials the client is always built first, before two-factor authentication is examined
    ensures cache.Absent? && Truthy(cfg.username) && Truthy(cfg.password) && sdk.create != Completes ==>
      r.effects == [NewAuth(None)]
    ensures cache.Absent? && Truthy(cfg.username) && Truthy(cfg.password) && sdk.create == Completes
            && !Truthy(cfg.twoFactorEnabled) ==>
      r.effects == [NewAuth(None), FetchToken(cfg.username.value, cfg.password.value, None)]
    ensures cache.Absent? && Truthy(cfg.username) && Truthy(cfg.password) && sdk.create == Completes
            && Truthy(cfg.twoFactorEnabled) && Truthy(cfg.twoFactorCode) ==>
      r.effects == [NewAuth(None), FetchToken(cfg.username.value, cfg.password.value, Some(cfg.twoFactorCode.value))]
    ensures cache.Absent? && Truthy(cfg.username) && Truthy(cfg.password) && sdk.create == Completes
            && Truthy(cfg.twoFactorEnabled) && !Truthy(cfg.twoFactorCode) ==>
      r.effects == [NewAuth(None)] && r.result == NoSession
  {
    match cache
    case Unparsable => AuthRun(Raised(JsonDecodeError), [])
    case Holds(token) =>
      var effects := [NewAuth(Some(token))];
      (match sdk.restore
       case Completes => AuthRun(Granted(Restored(token)), effects)
       case RaisesMissingToken => AuthRun(NoSession, effects)
       case RaisesOther => AuthRun(Raised(OtherError), effects))
    case Absent =>
      if !(Truthy(cfg.username) && Truthy(cfg.password)) then AuthRun(NoSession, [])
      else
        match sdk.create
        case RaisesMissingToken => AuthRun(NoSession, [NewAuth(None)])
        case RaisesOther => AuthRun(Raised(OtherError), [NewAuth(None)])
        case Completes =>
          if !Truthy(cfg.twoFactorEnabled) then
            Exchange(cfg.username.value, cfg.password.value, None, sdk.fetch)
          else if Truthy(cfg.twoFactorCode) then
            Exchange(cfg.username.value, cfg.password.value, Some(cfg.twoFactorCode.value), sdk.fetch)
          else AuthRun(NoSession, [NewAuth(None)])
  }

  /** `Authenticate` follows the decision table: a session is granted exactly
      when every client call on the chosen path completes, a token exchange
      happens exactly on the password paths once the client is built, and
      the session records the path taken. */
  lemma AuthenticateFollowsDecisionTable(cfg: Config, cache: CacheFile, sdk: AuthSdk)
    ensures var r := Authenticate(cfg, cache, sdk);
      var path := ChoosePath(cfg, cache);
      && (r.result.Granted? <==>
            (path == CachedToken && cache.Holds? && sdk.restore == Completes)
            || ((path == PasswordOnly || path == PasswordAndCode) && sdk.create == Completes && sdk.fetch == Completes))
      && (Count(r.effects, IsFetch) == 1 <==>
            (path == PasswordOnly || path == PasswordAndCode) && sdk.create == Completes)
      && Count(r.effects, IsFetch) <= 1
      && (r.result.Granted? ==>
            (r.result.session.Restored? <==> path == CachedToken)
            && (r.result.session == Created(false) <==> path == PasswordOnly)
            && (r.result.session == Created(true) <==> path == PasswordAndCode))
      && (path == NoAttempt ==> !r.result.Granted? && Count(r.effects, IsFetch) == 0)
  {
  }
}
