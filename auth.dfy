// The session manager of auth.js: an OAuth 2.0 authorization-code grant
// (section 4.1 of RFC 6749) with PKCE S256 (sections 4.1, 4.2 and 4.5 of
// RFC 7636) against the hosted identity provider, keeping its state in the
// tab's sessionStorage.
//
// sessionStorage is the `store` map of a SessionManager object. The clock
// (nowSec()), the random bytes, SHA-256 and the token endpoint come in as
// parameters; browser navigation is returned as a Navigation value.
// encodeURIComponent / decodeURIComponent are not modelled: the `state`
// parameter carries the return path as it is.

module Auth {
  import opened Wrappers
  import opened Text
  import opened Numbers
  import opened Js
  import opened Base64

  // The STORAGE key set (auth.js:27-33).
  const VerifierKey: string := "fc26_pkce_verifier"
  const AccessTokenKey: string := "fc26_access_token"
  const IdTokenKey: string := "fc26_id_token"
  const RefreshTokenKey: string := "fc26_refresh_token"
  const TokenExpKey: string := "fc26_token_exp"
  const StorageKeys: seq<string> := [VerifierKey, AccessTokenKey, IdTokenKey, RefreshTokenKey, TokenExpKey]

  /** Seconds of margin before the stored expiry at which the session already counts as expired. */
  const ExpirySkew: int := 30
  /** Token lifetime assumed when the token response carries no expires_in. */
  const DefaultLifetime: int := 3600
  /** Random bytes in a PKCE verifier. */
  const VerifierBytes: nat := 64
  const DefaultReturnTo: string := "index.html"
  /** What isLoggedIn reads when no expiry is stored. */
  const MissingExpiry: string := "0"

  // CONFIG (auth.js:8-25).
  const CognitoDomain: string := "https://main.d38idh1saq8gux.amplifyapp.com.auth.us-east-1.amazoncognito.com"
  const ClientId: string := "4h6ch2jh93i4e2ncc4a7s076df"
  const Scopes: seq<string> := ["openid", "email"]

  datatype Config = Config(
    cognitoDomain: string,
    clientId: string,
    redirectUri: string,
    logoutRedirectUri: string,
    scopes: seq<string>)

  /** CONFIG for a page served from `origin`. */
  function ConfigFor(origin: string): Config {
    Config(CognitoDomain, ClientId, origin + "/auth.html", origin, Scopes)
  }

  /** Array.prototype.join. */
  function Join(words: seq<string>, sep: string): string {
    if words == [] then ""
    else if |words| == 1 then words[0]
    else words[0] + sep + Join(words[1..], sep)
  }

  /** sessionStorage: key to stored text. */
  type Store = map<string, string>

  /** sessionStorage.getItem: null (None) for a missing key. */
  function GetSession(s: Store, k: string): Option<string> {
    if k in s then Some(s[k]) else None
  }

  /** Truthiness of a getItem result: present and non-empty. */
  predicate Stored(s: Store, k: string) {
    k in s && s[k] != ""
  }

  /** Number(getSession(tokenExp) || "0"). */
  function StoredExpiry(s: Store): Number {
    ParseNumber(if Stored(s, TokenExpKey) then s[TokenExpKey] else MissingExpiry)
  }

  /** isLoggedIn (auth.js:68-72). */
  predicate IsLoggedIn(s: Store, now: int) {
    Stored(s, AccessTokenKey) && Exceeds(StoredExpiry(s), (now + ExpirySkew) as real)
  }

  /** getAccessToken (auth.js:74-76). */
  function GetAccessToken(s: Store): Option<string> {
    GetSession(s, AccessTokenKey)
  }

  /** Number(tokens.expires_in || 3600). */
  function Lifetime(tokens: Record): Number {
    ToNumber(Or(Get(tokens, "expires_in"), Num(DefaultLifetime as real)))
  }

  /** String(nowSec() + lifetime): "NaN" or "Infinity" / "-Infinity" when the lifetime is one of those. */
  function ExpiryText(tokens: Record, now: int): string {
    match Lifetime(tokens)
    case Finite(e) => ToStr(Num(now as real + e))
    case NaN => "NaN"
    case Infinite(positive) => InfinityText(positive)
  }

  /** String(+Infinity) and String(-Infinity). */
  function InfinityText(positive: bool): string {
    if positive then "Infinity" else "-Infinity"
  }

  /** The writes of a successful callback (auth.js:145-150); setItem stores String(value). */
  function WithTokens(s: Store, tokens: Record, now: int): Store {
    var access := s[AccessTokenKey := ToStr(Get(tokens, "access_token"))];
    var id := access[IdTokenKey := ToStr(Or(Get(tokens, "id_token"), Str("")))];
    var refresh :=
      if Truthy(Get(tokens, "refresh_token")) then id[RefreshTokenKey := ToStr(Get(tokens, "refresh_token"))] else id;
    refresh[TokenExpKey := ExpiryText(tokens, now)]
  }

  /** The storage left by clearSession: the five STORAGE keys removed. */
  function Cleared(s: Store): Store {
    s - set k | k in StorageKeys
  }

  /** The authorize request that login navigates to (auth.js:88-96). */
  datatype AuthorizeRequest = AuthorizeRequest(
    endpoint: string,
    clientId: string,
    responseType: string,
    scope: string,
    redirectUri: string,
    codeChallengeMethod: string,
    codeChallenge: string,
    state: string)

  /** The logout request (auth.js:159-162). */
  datatype LogoutRequest = LogoutRequest(endpoint: string, clientId: string, logoutUri: string)

  /** The form-encoded POST to the token endpoint (auth.js:124-137). */
  datatype TokenRequest = TokenRequest(
    endpoint: string,
    grantType: string,
    clientId: string,
    code: string,
    redirectUri: string,
    codeVerifier: string)

  /** A browser navigation: `location.href = ...` to the provider, or `location.replace(path)`. */
  datatype Navigation =
    | Authorize(authorize: AuthorizeRequest)
    | SignOut(logout: LogoutRequest)
    | ReplaceWith(path: string)

  /**
   * What the token endpoint answered: no answer (fetch rejects), a non-2xx
   * status, a body that is not JSON, the JSON literal null, or any other JSON
   * value (a record; a primitive or an array has none of the token fields, so
   * it reads as the empty record).
   */
  datatype TokenResponse =
    | Unreachable
    | NotOk(status: int, text: string)
    | NotJson
    | JsonNull
    | Json(tokens: Record)

  /** The errors handleCallback throws. */
  datatype CallbackError =
    | ProviderError(error: string, description: string)
    | MissingVerifier
    | NetworkError
    | ExchangeFailed(status: int, text: string)
    | BadTokenBody
    | NullTokens

  datatype CallbackOutcome = Threw(err: CallbackError) | Navigated(nav: Navigation)

  /** The authorize request for a verifier (login, auth.js:83-96). */
  function AuthorizeRequestFor(config: Config, verifier: string, sha256: string -> seq<Byte>, returnTo: string): AuthorizeRequest {
    AuthorizeRequest(
      config.cognitoDomain + "/oauth2/authorize", config.clientId, "code", Join(config.scopes, " "),
      config.redirectUri, "S256", Base64UrlEncode(sha256(verifier)), returnTo)
  }

  /** The token request for a code and the stored verifier (auth.js:124-131). */
  function TokenRequestFor(config: Config, code: string, verifier: string): TokenRequest {
    TokenRequest(config.cognitoDomain + "/oauth2/token", "authorization_code", config.clientId, code, config.redirectUri, verifier)
  }

  /** URLSearchParams.get(name) read as a truthy string. */
  predicate HasParam(query: map<string, string>, name: string) {
    name in query && query[name] != ""
  }

  /** Where a successful callback goes: "./" + state, or "./index.html" without one. */
  function NextPath(query: map<string, string>): string {
    "./" + (if HasParam(query, "state") then query["state"] else DefaultReturnTo)
  }

  /** A PKCE code verifier as section 4.1 of RFC 7636 requires: 43 to 128 unreserved characters. */
  predicate IsPkceVerifier(v: string) {
    43 <= |v| <= 128
    && forall i :: 0 <= i < |v| ==> IsUrlChar(v[i]) || v[i] == '.' || v[i] == '~'
  }

  /** randomString(64): 64 random bytes, base64url-encoded, make a well-formed 86-character verifier. */
  lemma RandomStringIsVerifier(random: seq<Byte>)
    requires |random| == VerifierBytes
    ensures |Base64UrlEncode(random)| == 86
    ensures IsPkceVerifier(Base64UrlEncode(random))
  {
    Base64UrlEncodeShape(random);
  }

  /** Storage without an access token is never logged in. */
  lemma NoTokenNotLoggedIn(s: Store, now: int)
    requires !Stored(s, AccessTokenKey)
    ensures !IsLoggedIn(s, now)
  {
  }

  /** A missing or empty expiry reads as 0, which is never more than 30 s ahead of a clock past the epoch. */
  lemma MissingExpiryNotLoggedIn(s: Store, now: int)
    requires now >= 0 && !Stored(s, TokenExpKey)
    ensures !IsLoggedIn(s, now)
  {
    ParseNatDigits(0);
    assert NatToDigits(0) == "0";
  }

  /**
   * With an expiry stored as the decimal text of x, the session is valid iff
   * the token is non-empty and x - now > 30; at x - now == 30 it is not.
   */
  lemma LoggedInIffExpiry(s: Store, now: int, x: int)
    requires TokenExpKey in s && s[TokenExpKey] == IntToDecimal(x)
    ensures IsLoggedIn(s, now) <==> Stored(s, AccessTokenKey) && x - now > ExpirySkew
  {
    assert StoredExpiry(s) == Finite(x as real) by {
      assert Stored(s, TokenExpKey);
      IntToDecimalRoundTrip(x);
    }
  }

  lemma TruncOfInt(k: int)
    ensures Trunc(k as real) == k
  {
  }

  /** After tokens with an integral lifetime e are stored at `now`, the session is valid at `later` iff the token text is non-empty and later + 30 < now + e. */
  lemma LoggedInAfterTokens(s: Store, tokens: Record, now: int, e: int, later: int)
    requires Lifetime(tokens) == Finite(e as real)
    ensures IsLoggedIn(WithTokens(s, tokens, now), later)
        <==> ToStr(Get(tokens, "access_token")) != "" && later + ExpirySkew < now + e
  {
    var s' := WithTokens(s, tokens, now);
    TruncOfInt(now + e);
    assert s'[TokenExpKey] == IntToDecimal(now + e);
    LoggedInIffExpiry(s', later, now + e);
  }

  /** An expires_in that is not a number stores "NaN", and the session is never valid. */
  lemma LifetimeNotANumber(s: Store, tokens: Record, now: int, later: int)
    requires Lifetime(tokens) == NaN
    ensures WithTokens(s, tokens, now)[TokenExpKey] == "NaN"
    ensures !IsLoggedIn(WithTokens(s, tokens, now), later)
  {
    var s' := WithTokens(s, tokens, now);
    assert s'[TokenExpKey] == "NaN";
    assert StoredExpiry(s') == NaN by {
      assert Stored(s', TokenExpKey);
      ParseNaN();
    }
  }

  /** A stored "Infinity" or "-Infinity" reads back as that infinity. */
  lemma StoredInfinity(s: Store, positive: bool)
    requires TokenExpKey in s && s[TokenExpKey] == InfinityText(positive)
    ensures StoredExpiry(s) == Infinite(positive)
  {
    assert Stored(s, TokenExpKey);
    ParseInfinity();
  }

  /**
   * An infinite expires_in stores "Infinity" or "-Infinity"; with +Infinity the
   * session is valid at every later time whenever the token text is non-empty.
   */
  lemma LifetimeInfinite(s: Store, tokens: Record, now: int, later: int, positive: bool)
    requires Lifetime(tokens) == Infinite(positive)
    ensures WithTokens(s, tokens, now)[TokenExpKey] == InfinityText(positive)
    ensures IsLoggedIn(WithTokens(s, tokens, now), later) <==> positive && ToStr(Get(tokens, "access_token")) != ""
  {
    var s' := WithTokens(s, tokens, now);
    assert s'[TokenExpKey] == InfinityText(positive);
    StoredInfinity(s', positive);
    assert Stored(s', AccessTokenKey) <==> ToStr(Get(tokens, "access_token")) != "" by {
      assert s'[AccessTokenKey] == ToStr(Get(tokens, "access_token"));
    }
  }

  /** The exchange {access_token: "abc", expires_in: "Infinity"} never expires. */
  lemma ExchangeInfinity(s: Store, now: int, later: int)
    ensures var s' := WithTokens(s, map["access_token" := Str("abc"), "expires_in" := Str("Infinity")], now);
      s'[TokenExpKey] == "Infinity" && IsLoggedIn(s', later)
  {
    var t := map["access_token" := Str("abc"), "expires_in" := Str("Infinity")];
    assert Lifetime(t) == Infinite(true) by { ParseInfinity(); }
    assert ToStr(Get(t, "access_token")) == "abc";
    LifetimeInfinite(s, t, now, later, true);
  }

  /** The callback writes only the four token keys; the verifier and every other entry keep their values. */
  lemma WithTokensFrame(s: Store, tokens: Record, now: int)
    ensures var s' := WithTokens(s, tokens, now);
      && s'.Keys == s.Keys + {AccessTokenKey, IdTokenKey, TokenExpKey}
           + (if Truthy(Get(tokens, "refresh_token")) then {RefreshTokenKey} else {})
      && (forall k :: k in s && k != AccessTokenKey && k != IdTokenKey && k != RefreshTokenKey && k != TokenExpKey
            ==> s'[k] == s[k])
      && (!Truthy(Get(tokens, "refresh_token")) ==> GetSession(s', RefreshTokenKey) == GetSession(s, RefreshTokenKey))
  {
  }

  /** A token response without access_token stores the text "undefined", which counts as logged in. */
  lemma MissingAccessTokenStored(s: Store, tokens: Record, now: int, later: int)
    requires "access_token" !in tokens && "expires_in" !in tokens
    requires later + ExpirySkew < now + DefaultLifetime
    ensures GetAccessToken(WithTokens(s, tokens, now)) == Some("undefined")
    ensures IsLoggedIn(WithTokens(s, tokens, now), later)
  {
    assert Get(tokens, "expires_in") == Undefined && Get(tokens, "access_token") == Undefined;
    assert Lifetime(tokens) == Finite(DefaultLifetime as real);
    var s' := WithTokens(s, tokens, now);
    assert s'[AccessTokenKey] == "undefined";
    LoggedInAfterTokens(s, tokens, now, DefaultLifetime, later);
  }

  /** The exchange {access_token: "abc", expires_in: 3600} gives the token "abc" and a valid session at once. */
  lemma ExchangeOneHour(s: Store, now: int)
    ensures var s' := WithTokens(s, map["access_token" := Str("abc"), "expires_in" := Num(3600.0)], now);
      GetAccessToken(s') == Some("abc") && IsLoggedIn(s', now)
  {
    var t := map["access_token" := Str("abc"), "expires_in" := Num(3600.0)];
    assert Lifetime(t) == Finite(3600 as real) by {
      assert Get(t, "expires_in") == Num(3600.0);
    }
    assert ToStr(Get(t, "access_token")) == "abc" by {
      assert Get(t, "access_token") == Str("abc");
    }
    LoggedInAfterTokens(s, t, now, 3600, now);
  }

  /** The exchange {access_token: "tok1", id_token: "idt1", expires_in: 10} is already inside the 30 s margin: not logged in even at once. */
  lemma ExchangeTenSeconds(s: Store, now: int)
    ensures var s' := WithTokens(s, map["access_token" := Str("tok1"), "id_token" := Str("idt1"), "expires_in" := Num(10.0)], now);
      GetSession(s', IdTokenKey) == Some("idt1") && !IsLoggedIn(s', now)
  {
    var t := map["access_token" := Str("tok1"), "id_token" := Str("idt1"), "expires_in" := Num(10.0)];
    assert Lifetime(t) == Finite(10 as real);
    LoggedInAfterTokens(s, t, now, 10, now);
  }

  /** After clearSession there is no token and no session, and only the five STORAGE keys are gone. */
  lemma ClearedEffect(s: Store, now: int)
    ensures GetAccessToken(Cleared(s)) == None && GetSession(Cleared(s), VerifierKey) == None
    ensures !IsLoggedIn(Cleared(s), now)
    ensures forall k :: k in s && k !in StorageKeys ==> k in Cleared(s) && Cleared(s)[k] == s[k]
    ensures forall k :: k in Cleared(s) ==> k in s && k !in StorageKeys
  {
    assert AccessTokenKey in StorageKeys && VerifierKey in StorageKeys;
  }

  /** The session manager over the tab's sessionStorage. */
  class SessionManager {
    const config: Config
    var store: Store

    constructor (origin: string, initial: Store)
      ensures config == ConfigFor(origin) && store == initial
    {
      config := ConfigFor(origin);
      store := initial;
    }

    /** clearSession (auth.js:64-66): removes each STORAGE key in turn. */
    method ClearSession()
      modifies this
      ensures store == Cleared(old(store))
    {
      var i := 0;
      while i < |StorageKeys|
        invariant 0 <= i <= |StorageKeys|
        invariant store == old(store) - set j | 0 <= j < i :: StorageKeys[j]
      {
        store := store - {StorageKeys[i]};
        i := i + 1;
      }
      assert (set j | 0 <= j < |StorageKeys| :: StorageKeys[j]) == set k | k in StorageKeys;
    }

    /**
     * login (auth.js:78-99): stores a fresh verifier made from the random
     * bytes, then navigates to the authorize endpoint with
     * response_type=code, the S256 challenge of that verifier and the return
     * path as state.
     */
    method Login(returnTo: string, random: seq<Byte>, sha256: string -> seq<Byte>) returns (nav: Navigation)
      requires |random| == VerifierBytes
      modifies this
      ensures store == old(store)[VerifierKey := Base64UrlEncode(random)]
      ensures IsPkceVerifier(store[VerifierKey])
      ensures nav == Authorize(AuthorizeRequestFor(config, store[VerifierKey], sha256, returnTo))
      ensures nav.authorize.responseType == "code" && nav.authorize.codeChallengeMethod == "S256"
      ensures nav.authorize.codeChallenge == Base64UrlEncode(sha256(store[VerifierKey]))
    {
      var verifier := Base64UrlEncode(random);
      RandomStringIsVerifier(random);
      store := store[VerifierKey := verifier];
      var challenge := Base64UrlEncode(sha256(verifier));
      nav := Authorize(AuthorizeRequest(
        config.cognitoDomain + "/oauth2/authorize", config.clientId, "code", Join(config.scopes, " "),
        config.redirectUri, "S256", challenge, returnTo));
    }

    /**
     * handleCallback (auth.js:101-154). `exchange` is the token endpoint;
     * `sent` is the request made to it, if any. Storage is written only on
     * a successful exchange.
     */
    method HandleCallback(query: map<string, string>, now: int, exchange: TokenRequest -> TokenResponse)
      returns (outcome: CallbackOutcome, sent: Option<TokenRequest>)
      modifies this
      ensures HasParam(query, "error") ==>
        && outcome == Threw(ProviderError(query["error"], if HasParam(query, "error_description") then query["error_description"] else ""))
        && sent == None && store == old(store)
      ensures !HasParam(query, "error") && !HasParam(query, "code") ==>
        outcome == Navigated(ReplaceWith("./index.html")) && sent == None && store == old(store)
      ensures !HasParam(query, "error") && HasParam(query, "code") && !Stored(old(store), VerifierKey) ==>
        outcome == Threw(MissingVerifier) && sent == None && store == old(store)
      ensures !HasParam(query, "error") && HasParam(query, "code") && Stored(old(store), VerifierKey) ==>
        && sent == Some(TokenRequestFor(config, query["code"], old(store)[VerifierKey]))
        && match exchange(sent.value)
           case Unreachable => outcome == Threw(NetworkError) && store == old(store)
           case NotOk(status, text) => outcome == Threw(ExchangeFailed(status, text)) && store == old(store)
           case NotJson => outcome == Threw(BadTokenBody) && store == old(store)
           case JsonNull => outcome == Threw(NullTokens) && store == old(store)
           case Json(tokens) => outcome == Navigated(ReplaceWith(NextPath(query))) && store == WithTokens(old(store), tokens, now)
      ensures outcome.Threw? ==> store == old(store)
    {
      if HasParam(query, "error") {
        var desc := if HasParam(query, "error_description") then query["error_description"] else "";
        return Threw(ProviderError(query["error"], desc)), None;
      }
      if !HasParam(query, "code") {
        return Navigated(ReplaceWith("./index.html")), None;
      }
      if !Stored(store, VerifierKey) {
        return Threw(MissingVerifier), None;
      }
      var request := TokenRequest(
        config.cognitoDomain + "/oauth2/token", "authorization_code", config.clientId,
        query["code"], config.redirectUri, store[VerifierKey]);
      sent := Some(request);
      var response := exchange(request);
      match response
      case Unreachable =>
        outcome := Threw(NetworkError);
      case NotOk(status, text) =>
        outcome := Threw(ExchangeFailed(status, text));
      case NotJson =>
        outcome := Threw(BadTokenBody);
      case JsonNull =>
        outcome := Threw(NullTokens);
      case Json(tokens) =>
        store := store[AccessTokenKey := ToStr(Get(tokens, "access_token"))];
        store := store[IdTokenKey := ToStr(Or(Get(tokens, "id_token"), Str("")))];
        if Truthy(Get(tokens, "refresh_token")) {
          store := store[RefreshTokenKey := ToStr(Get(tokens, "refresh_token"))];
        }
        store := store[TokenExpKey := ExpiryText(tokens, now)];
        outcome := Navigated(ReplaceWith(NextPath(query)));
    }

    /** logout (auth.js:156-165): clears the session, then navigates to the provider's logout endpoint. */
    method Logout() returns (nav: Navigation)
      modifies this
      ensures store == Cleared(old(store))
      ensures nav == SignOut(LogoutRequest(config.cognitoDomain + "/logout", config.clientId, config.logoutRedirectUri))
    {
      ClearSession();
      nav := SignOut(LogoutRequest(config.cognitoDomain + "/logout", config.clientId, config.logoutRedirectUri));
    }

    /** requireLogin (auth.js:167-173): true and no effect when logged in, otherwise login and false. */
    method RequireLogin(returnTo: string, now: int, random: seq<Byte>, sha256: string -> seq<Byte>)
      returns (ok: bool, nav: Option<Navigation>)
      requires |random| == VerifierBytes
      modifies this
      ensures ok == IsLoggedIn(old(store), now)
      ensures ok ==> store == old(store) && nav == None
      ensures !ok ==>
        && store == old(store)[VerifierKey := Base64UrlEncode(random)]
        && nav == Some(Authorize(AuthorizeRequestFor(config, Base64UrlEncode(random), sha256, returnTo)))
        && nav.value.authorize.responseType == "code" && nav.value.authorize.codeChallengeMethod == "S256"
    {
      if !IsLoggedIn(store, now) {
        var n := Login(returnTo, random, sha256);
        return false, Some(n);
      }
      return true, None;
    }
  }

  /**
   * A login followed by the provider's redirect back with a code and the
   * same state sends the verifier that login stored, whose S256 challenge
   * the authorize request carried, and lands on the return path.
   */
  method LoginThenCallback(origin: string, s: Store, returnTo: string, code: string, now: int,
                           random: seq<Byte>, sha256: string -> seq<Byte>, exchange: TokenRequest -> TokenResponse)
    returns (login: Navigation, outcome: CallbackOutcome, sent: Option<TokenRequest>)
    requires |random| == VerifierBytes && code != "" && returnTo != ""
    ensures sent.Some? && sent.value.codeVerifier == Base64UrlEncode(random)
    ensures login.Authorize? && login.authorize.codeChallenge == Base64UrlEncode(sha256(sent.value.codeVerifier))
    ensures sent.value.redirectUri == login.authorize.redirectUri == origin + "/auth.html"
    ensures exchange(sent.value).Json? ==> outcome == Navigated(ReplaceWith("./" + returnTo))
  {
    var m := new SessionManager(origin, s);
    login := m.Login(returnTo, random, sha256);
    outcome, sent := m.HandleCallback(map["code" := code, "state" := returnTo], now, exchange);
  }
}
