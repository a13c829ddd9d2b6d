/** The in-memory OAuth 2.1 authorization server of the remote MCP endpoint
    (`SchwabMCPOAuthProvider`): dynamic client registration, the
    authorization-code grant with a browser consent step and a stored PKCE
    challenge (RFC 7636), the refresh-token grant with rotation, revocation,
    and lazy expiry of codes and tokens against a clock value `now`.
    Random token text (`secrets.token_hex`) is passed in as a parameter. */
module OAuth {
  import opened Common

  // Token lifetimes, in seconds.
  const ACCESS_TOKEN_TTL: int := 86400
  const AUTH_CODE_TTL: int := 300
  const REFRESH_TOKEN_TTL: int := 30 * 86400

  // Capacity limits. Only MAX_CLIENTS and MAX_STATE_MAPPINGS are enforced by the
  // provider; the three others are declared and never checked on insert.
  const MAX_CLIENTS: nat := 10
  const MAX_AUTH_CODES: nat := 50
  const MAX_ACCESS_TOKENS: nat := 50
  const MAX_REFRESH_TOKENS: nat := 50
  const MAX_STATE_MAPPINGS: nat := 50

  // Fixed prefixes of the generated code and token strings.
  const CODE_PREFIX: string := "schwab_mcp_"
  const ACCESS_PREFIX: string := "smcp_at_"
  const REFRESH_PREFIX: string := "smcp_rt_"

  /** A registered client. An empty `clientId` stands for a missing one:
      the provider only tests it for truthiness. */
  datatype ClientInfo = ClientInfo(clientId: string, redirectUris: seq<string>)

  /** The parameters of an authorization request. An empty `state` stands for
      an absent one (both are replaced by fresh random text). */
  datatype AuthorizationParams = AuthorizationParams(
    state: string,
    scopes: seq<string>,
    codeChallenge: string,
    redirectUri: string,
    redirectUriProvidedExplicitly: bool,
    resource: Option<string>)

  /** A pending consent. The provider stores every field as a string, so the
      explicit-redirect flag is kept as the text `str(flag)`. */
  datatype ConsentState = ConsentState(
    redirectUri: string,
    codeChallenge: string,
    explicitText: string,
    clientId: string,
    resource: Option<string>)

  datatype AuthCode = AuthCode(
    code: string,
    clientId: string,
    redirectUri: string,
    redirectUriProvidedExplicitly: bool,
    expiresAt: int,
    scopes: seq<string>,
    codeChallenge: string,
    resource: Option<string>)

  datatype AccessToken = AccessToken(
    token: string,
    clientId: string,
    scopes: seq<string>,
    expiresAt: Option<int>,
    resource: Option<string>)

  datatype RefreshToken = RefreshToken(
    token: string,
    clientId: string,
    scopes: seq<string>,
    expiresAt: Option<int>)

  /** The token response of the token endpoint. */
  datatype OAuthToken = OAuthToken(
    accessToken: string,
    tokenType: string,
    expiresIn: int,
    refreshToken: string,
    scope: string)

  datatype RegisterResult = Registered | MissingClientId | CapacityReached

  datatype TokenError =
    | InvalidAuthorizationCode
    | NoClientId
      /** `del` of a code that the expiry sweep had already removed (KeyError) */
    | SweptCodeKeyError

  datatype Result<T> = Success(value: T) | Failure(error: TokenError)

  /** Where the consent form sends the browser: the client's redirect URI with
      either a code or an error, and the original state. */
  datatype Redirect = Redirect(uri: string, code: Option<string>, error: Option<string>, state: string)

  datatype ConsentResponse = InvalidState | Redirected(redirect: Redirect)

  datatype ConsentPage = InvalidStatePage | ConsentForm(state: string, formAction: string)

  /** Python's `str(flag)` for a bool. */
  function BoolText(b: bool): (t: string)
    ensures (t == "True") == b
  {
    if b then "True" else "False"
  }

  /** `server_url.rstrip("/")`. */
  function TrimTrailingSlashes(s: string): (r: string)
    ensures |r| <= |s| && r == s[..|r|]
    ensures r == [] || r[|r| - 1] != '/'
    ensures forall i :: |r| <= i < |s| ==> s[i] == '/'
  {
    if s != [] && s[|s| - 1] == '/' then TrimTrailingSlashes(s[..|s| - 1]) else s
  }

  // ---------------------------------------------------------------------------
  // Expiry

  /** The expiry sweep keeps an entry whose expiry is unset, zero (falsy) or
      strictly later than `now`. */
  predicate SurvivesSweep(expiresAt: Option<int>, now: int) {
    expiresAt.None? || expiresAt.value == 0 || expiresAt.value > now
  }

  /** A lookup drops an entry whose expiry is set, non-zero and strictly
      earlier than `now`. */
  predicate ExpiredOnLoad(expiresAt: Option<int>, now: int) {
    expiresAt.Some? && expiresAt.value != 0 && expiresAt.value < now
  }

  /** The sweep and the lookups agree except at the instant `expires_at == now`,
      where a lookup still returns the entry and the sweep removes it. */
  lemma ExpiryBoundary(expiresAt: Option<int>, now: int)
    ensures SurvivesSweep(expiresAt, now) ==> !ExpiredOnLoad(expiresAt, now)
    ensures !SurvivesSweep(expiresAt, now) && !ExpiredOnLoad(expiresAt, now) <==> expiresAt == Some(now) && now != 0
  {
  }

  function CodeExpiry(c: AuthCode): Option<int> { Some(c.expiresAt) }
  function AccessExpiry(t: AccessToken): Option<int> { t.expiresAt }
  function RefreshExpiry(t: RefreshToken): Option<int> { t.expiresAt }

  /** One store after the expiry sweep: exactly the surviving entries, unchanged. */
  function Sweep<V>(m: map<string, V>, expiry: V -> Option<int>, now: int): (r: map<string, V>)
    ensures forall k :: k in r <==> k in m && SurvivesSweep(expiry(m[k]), now)
    ensures forall k :: k in r ==> r[k] == m[k]
  {
    map k | k in m && SurvivesSweep(expiry(m[k]), now) :: m[k]
  }

  // ---------------------------------------------------------------------------
  // The insertion-ordered consent map

  /** A string-keyed Python `dict` with its insertion order: `order` lists the
      keys, oldest first. */
  datatype OrderedMap<V> = OrderedMap(order: seq<string>, entries: map<string, V>)
  {
    ghost predicate Valid() {
      Distinct(order) && forall k :: k in entries <==> k in order
    }

    /** `d[k] = v`: a new key goes last, an existing key keeps its place. */
    function Put(k: string, v: V): OrderedMap<V> {
      OrderedMap(if k in entries then order else order + [k], entries[k := v])
    }

    /** `del d[k]` (for a present key) or `d.pop(k, None)`. */
    function Remove(k: string): OrderedMap<V> {
      OrderedMap(Without(order, k), entries - {k})
    }
  }

  /** `s` with every occurrence of `k` left out, the rest in order. */
  function Without(s: seq<string>, k: string): (r: seq<string>)
    ensures forall x :: x in r <==> x in s && x != k
    ensures k !in s ==> r == s
  {
    if s == [] then []
    else if s[0] == k then Without(s[1..], k)
    else [s[0]] + Without(s[1..], k)
  }

  /** Leaving a key out of a repetition-free order keeps it repetition-free,
      and leaving out its first key drops exactly that position. */
  lemma {:induction false} WithoutDistinct(s: seq<string>, k: string)
    requires Distinct(s)
    ensures Distinct(Without(s, k))
    ensures |s| > 0 && s[0] == k ==> Without(s, k) == s[1..]
  {
    if s != [] {
      assert Distinct(s[1..]) by {
        forall i, j | 0 <= i < j < |s[1..]| ensures s[1..][i] != s[1..][j] {
          assert s[1..][i] == s[i + 1] && s[1..][j] == s[j + 1];
        }
      }
      assert s[0] !in s[1..] by {
        forall j | 0 <= j < |s[1..]| ensures s[1..][j] != s[0] {
          assert s[1..][j] == s[j + 1];
        }
      }
      WithoutDistinct(s[1..], k);
      if s[0] != k {
        var r := Without(s, k);
        var t := Without(s[1..], k);
        assert r == [s[0]] + t;
        forall i, j | 0 <= i < j < |r| ensures r[i] != r[j] {
          if i == 0 {
            assert r[j] == t[j - 1];
            assert t[j - 1] in t;
          } else {
            assert r[i] == t[i - 1] && r[j] == t[j - 1];
          }
        }
      }
    }
  }

  /** A valid ordered map has as many keys as its order lists. */
  lemma {:induction false} OrderedSize<V>(m: OrderedMap<V>)
    requires m.Valid()
    ensures |m.entries| == |m.order|
  {
    DistinctCardinality(m.order);
    assert m.entries.Keys == set x | x in m.order;
  }

  /** The consent-map step of `authorize`: when the map is full, its oldest key
      is deleted first; then the state is stored. */
  function AdmitState(m: OrderedMap<ConsentState>, state: string, entry: ConsentState): OrderedMap<ConsentState>
    requires m.Valid()
  {
    if |m.entries| >= MAX_STATE_MAPPINGS then
      OrderedSize(m);
      m.Remove(m.order[0]).Put(state, entry)
    else
      m.Put(state, entry)
  }

  /** Storing a state keeps the consent map within its cap and evicts the
      oldest key first when it was full; every other pending state is kept. */
  lemma {:induction false} AdmitStateBounded(m: OrderedMap<ConsentState>, state: string, entry: ConsentState)
    requires m.Valid() && |m.entries| <= MAX_STATE_MAPPINGS
    ensures AdmitState(m, state, entry).Valid()
    ensures |AdmitState(m, state, entry).entries| <= MAX_STATE_MAPPINGS
    ensures AdmitState(m, state, entry).entries == (
      if |m.entries| >= MAX_STATE_MAPPINGS then (m.entries - {m.order[0]})[state := entry]
      else m.entries[state := entry])
    ensures |m.entries| < MAX_STATE_MAPPINGS ==>
      AdmitState(m, state, entry).order == (if state in m.entries then m.order else m.order + [state])
    ensures |m.entries| >= MAX_STATE_MAPPINGS ==>
      AdmitState(m, state, entry).order ==
        (if state in m.entries && state != m.order[0] then m.order[1..] else m.order[1..] + [state])
  {
    OrderedSize(m);
    var r := AdmitState(m, state, entry);
    var base := if |m.entries| >= MAX_STATE_MAPPINGS then m.Remove(m.order[0]) else m;
    if |m.entries| >= MAX_STATE_MAPPINGS {
      RemoveValid(m, m.order[0]);
    }
    PutValid(base, state, entry);
    OrderedSize(r);
    OrderedSize(base);
  }

  lemma {:induction false} RemoveValid<V>(m: OrderedMap<V>, k: string)
    requires m.Valid()
    ensures m.Remove(k).Valid()
    ensures |m.order| > 0 && m.order[0] == k ==> m.Remove(k).order == m.order[1..]
  {
    WithoutDistinct(m.order, k);
  }

  lemma {:induction false} PutValid<V>(m: OrderedMap<V>, k: string, v: V)
    requires m.Valid()
    ensures m.Put(k, v).Valid()
    ensures |m.Put(k, v).order| == if k in m.entries then |m.order| else |m.order| + 1
  {
    var o := m.Put(k, v).order;
    if k !in m.entries {
      forall i, j | 0 <= i < j < |o| ensures o[i] != o[j] {
        if j == |o| - 1 {
          assert o[i] == m.order[i];
        }
      }
    }
  }

  /** The pending consent that `authorize` records for a client's request. */
  function PendingConsent(client: ClientInfo, params: AuthorizationParams): ConsentState {
    ConsentState(params.redirectUri, params.codeChallenge,
                  BoolText(params.redirectUriProvidedExplicitly), client.clientId, params.resource)
  }

  /** `params.state or secrets.token_hex(16)`. */
  function ChosenState(params: AuthorizationParams, freshState: string): string {
    if params.state != "" then params.state else freshState
  }

  /** The code that an approved consent mints: scope `mcp`, valid for
      `AUTH_CODE_TTL` seconds, bound to the stored challenge, redirect URI and
      resource. */
  function CodeFromConsent(code: string, st: ConsentState, now: int): AuthCode {
    AuthCode(code, st.clientId, st.redirectUri, st.explicitText == "True",
             now + AUTH_CODE_TTL, ["mcp"], st.codeChallenge, st.resource)
  }

  /** Approving the consent for a flag round-trips it through its text form. */
  lemma ConsentKeepsExplicitFlag(client: ClientInfo, params: AuthorizationParams, code: string, now: int)
    ensures CodeFromConsent(code, PendingConsent(client, params), now).redirectUriProvidedExplicitly
            == params.redirectUriProvidedExplicitly
  {
  }

  function TokenResponse(accessToken: string, refreshToken: string, scopes: seq<string>): OAuthToken {
    OAuthToken(accessToken, "Bearer", ACCESS_TOKEN_TTL, refreshToken, Join(scopes, " "))
  }

  /** The generated access and refresh token strings never coincide. */
  lemma {:induction false} TokenPrefixesDiffer(atHex: string, rtHex: string)
    ensures ACCESS_PREFIX + atHex != REFRESH_PREFIX + rtHex
  {
    assert (ACCESS_PREFIX + atHex)[5] == 'a';
    assert (REFRESH_PREFIX + rtHex)[5] == 'r';
  }

  // ---------------------------------------------------------------------------
  // The provider

  class Provider {
    const serverUrl: string
    const oauthSecret: string
    var clients: map<string, ClientInfo>
    var authCodes: map<string, AuthCode>
    var accessTokens: map<string, AccessToken>
    var refreshTokens: map<string, RefreshToken>
    var stateMapping: OrderedMap<ConsentState>

    /** The invariants every operation keeps: the client cap, the consent-map
        cap, and every store keyed by its entry's own id. */
    ghost predicate Valid()
      reads this
    {
      && |clients| <= MAX_CLIENTS
      && (forall id :: id in clients ==> id != "" && clients[id].clientId == id)
      && stateMapping.Valid()
      && |stateMapping.entries| <= MAX_STATE_MAPPINGS
      && (forall c :: c in authCodes ==> authCodes[c].code == c)
      && (forall t :: t in accessTokens ==> accessTokens[t].token == t)
      && (forall t :: t in refreshTokens ==> refreshTokens[t].token == t)
    }

    constructor (serverUrl: string, oauthSecret: string)
      ensures Valid()
      ensures this.serverUrl == TrimTrailingSlashes(serverUrl) && this.oauthSecret == oauthSecret
      ensures clients == map[] && authCodes == map[] && accessTokens == map[] && refreshTokens == map[]
      ensures stateMapping == OrderedMap([], map[])
    {
      this.serverUrl := TrimTrailingSlashes(serverUrl);
      this.oauthSecret := oauthSecret;
      clients := map[];
      authCodes := map[];
      accessTokens := map[];
      refreshTokens := map[];
      stateMapping := OrderedMap([], map[]);
    }

    /** `_evict_expired`: each time-bounded store keeps exactly its surviving
        entries; clients and pending consents are untouched. */
    method EvictExpired(now: int)
      requires Valid()
      modifies this`authCodes, this`accessTokens, this`refreshTokens
      ensures Valid()
      ensures authCodes == Sweep(old(authCodes), CodeExpiry, now)
      ensures accessTokens == Sweep(old(accessTokens), AccessExpiry, now)
      ensures refreshTokens == Sweep(old(refreshTokens), RefreshExpiry, now)
    {
      authCodes := Sweep(authCodes, CodeExpiry, now);
      accessTokens := Sweep(accessTokens, AccessExpiry, now);
      refreshTokens := Sweep(refreshTokens, RefreshExpiry, now);
    }

    /** `get_client`. */
    function GetClient(clientId: string): (r: Option<ClientInfo>)
      reads this
      requires Valid()
      ensures r.Some? <==> clientId in clients
      ensures r.Some? ==> r.value == clients[clientId] && r.value.clientId == clientId
    {
      if clientId in clients then Some(clients[clientId]) else None
    }

    /** `register_client`: an empty id is rejected; a new id is rejected once
        the cap is reached; an existing id is overwritten even at the cap. */
    method RegisterClient(info: ClientInfo) returns (r: RegisterResult)
      requires Valid()
      modifies this`clients
      ensures Valid()
      ensures info.clientId == "" ==> r == MissingClientId
      ensures info.clientId != "" && info.clientId !in old(clients) && |old(clients)| >= MAX_CLIENTS
              ==> r == CapacityReached
      ensures r == Registered <==>
              info.clientId != "" && (info.clientId in old(clients) || |old(clients)| < MAX_CLIENTS)
      ensures r == Registered ==> clients == old(clients)[info.clientId := info]
      ensures r != Registered ==> clients == old(clients)
      ensures info.clientId in old(clients) ==> |clients| == |old(clients)|
    {
      if info.clientId == "" {
        return MissingClientId;
      }
      if info.clientId !in clients && |clients| >= MAX_CLIENTS {
        return CapacityReached;
      }
      clients := clients[info.clientId := info];
      r := Registered;
    }

    /** `authorize`: sweeps expired entries, records the pending consent under
        the caller's state (or fresh text), and returns the consent page URL. */
    method Authorize(client: ClientInfo, params: AuthorizationParams, freshState: string, now: int)
      returns (url: string)
      requires Valid()
      modifies this`authCodes, this`accessTokens, this`refreshTokens, this`stateMapping
      ensures Valid()
      ensures url == serverUrl + "/consent?state=" + ChosenState(params, freshState)
      ensures authCodes == Sweep(old(authCodes), CodeExpiry, now)
      ensures accessTokens == Sweep(old(accessTokens), AccessExpiry, now)
      ensures refreshTokens == Sweep(old(refreshTokens), RefreshExpiry, now)
      ensures stateMapping == AdmitState(old(stateMapping), ChosenState(params, freshState),
                                         PendingConsent(client, params))
    {
      EvictExpired(now);
      var state := ChosenState(params, freshState);
      AdmitStateBounded(stateMapping, state, PendingConsent(client, params));
      if |stateMapping.entries| >= MAX_STATE_MAPPINGS {
        OrderedSize(stateMapping);
        var oldestKey := stateMapping.order[0];
        stateMapping := stateMapping.Remove(oldestKey);
      }
      stateMapping := stateMapping.Put(state, PendingConsent(client, params));
      url := serverUrl + "/consent?state=" + state;
    }

    /** `get_consent_page`: the form for a pending state, a 400 page otherwise. */
    function GetConsentPage(state: string): (r: ConsentPage)
      reads this
      ensures r.ConsentForm? <==> state in stateMapping.entries
      ensures r.ConsentForm? ==> r.state == state && r.formAction == serverUrl + "/consent/approve"
    {
      if state !in stateMapping.entries then InvalidStatePage
      else ConsentForm(state, serverUrl + "/consent/approve")
    }

    /** `handle_consent`: an unknown or missing state gets 400 and changes
        nothing; otherwise the state is consumed, and on approval exactly one
        code is stored. */
    method HandleConsent(formState: Option<string>, action: Option<string>, codeHex: string, now: int)
      returns (resp: ConsentResponse)
      requires Valid()
      modifies this`authCodes, this`stateMapping
      ensures Valid()
      ensures formState.None? || formState.value !in old(stateMapping.entries) ==>
                resp == InvalidState && authCodes == old(authCodes) && stateMapping == old(stateMapping)
      ensures formState.Some? && formState.value in old(stateMapping.entries) ==>
                stateMapping == old(stateMapping).Remove(formState.value)
                && formState.value !in stateMapping.entries
      ensures formState.Some? && formState.value in old(stateMapping.entries) && action != Some("approve") ==>
                resp == Redirected(Redirect(old(stateMapping.entries)[formState.value].redirectUri,
                                            None, Some("access_denied"), formState.value))
                && authCodes == old(authCodes)
      ensures formState.Some? && formState.value in old(stateMapping.entries) && action == Some("approve") ==>
                resp == Redirected(Redirect(old(stateMapping.entries)[formState.value].redirectUri,
                                            Some(CODE_PREFIX + codeHex), None, formState.value))
                && authCodes == old(authCodes)[CODE_PREFIX + codeHex :=
                     CodeFromConsent(CODE_PREFIX + codeHex, old(stateMapping.entries)[formState.value], now)]
    {
      if formState.None? || formState.value !in stateMapping.entries {
        return InvalidState;
      }
      var state := formState.value;
      var stateData := stateMapping.entries[state];
      RemoveValid(stateMapping, state);
      OrderedSize(stateMapping);
      OrderedSize(stateMapping.Remove(state));
      if action != Some("approve") {
        stateMapping := stateMapping.Remove(state);
        return Redirected(Redirect(stateData.redirectUri, None, Some("access_denied"), state));
      }
      var code := CODE_PREFIX + codeHex;
      authCodes := authCodes[code := CodeFromConsent(code, stateData, now)];
      stateMapping := stateMapping.Remove(state);
      resp := Redirected(Redirect(stateData.redirectUri, Some(code), None, state));
    }

    /** `load_authorization_code`: a plain lookup, with no expiry test. */
    function LoadAuthorizationCode(client: ClientInfo, code: string): (r: Option<AuthCode>)
      reads this
      requires Valid()
      ensures r.Some? <==> code in authCodes
      ensures r.Some? ==> r.value.code == code
    {
      if code in authCodes then Some(authCodes[code]) else None
    }

    /** The old refresh token is deleted when it is still stored. */
    method DiscardRefreshToken(token: string)
      requires Valid()
      modifies this`refreshTokens
      ensures Valid()
      ensures refreshTokens == old(refreshTokens) - {token}
    {
      if token in refreshTokens {
        refreshTokens := refreshTokens - {token};
      }
    }

    /** The step both exchanges share: an access token valid one day and a
        refresh token valid thirty days are stored for the client, with the
        same scopes; everything else is unchanged. */
    method IssueTokens(clientId: string, scopes: seq<string>, resource: Option<string>,
                       accessStr: string, refreshStr: string, now: int)
      requires Valid()
      modifies this`accessTokens, this`refreshTokens
      ensures Valid()
      ensures accessTokens == old(accessTokens)[accessStr :=
                AccessToken(accessStr, clientId, scopes, Some(now + ACCESS_TOKEN_TTL), resource)]
      ensures refreshTokens == old(refreshTokens)[refreshStr :=
                RefreshToken(refreshStr, clientId, scopes, Some(now + REFRESH_TOKEN_TTL))]
    {
      accessTokens := accessTokens[accessStr :=
        AccessToken(accessStr, clientId, scopes, Some(now + ACCESS_TOKEN_TTL), resource)];
      refreshTokens := refreshTokens[refreshStr :=
        RefreshToken(refreshStr, clientId, scopes, Some(now + REFRESH_TOKEN_TTL))];
    }

    /** `exchange_authorization_code` as it is written: the code is
        tested, then expired entries are swept, then both tokens are stored,
        and only then is the code deleted, which raises if the sweep had
        already removed it. */
    method ExchangeAuthorizationCodeAsWritten(client: ClientInfo, code: AuthCode, atHex: string, rtHex: string, now: int)
      returns (r: Result<OAuthToken>)
      requires Valid()
      modifies this`authCodes, this`accessTokens, this`refreshTokens
      ensures Valid()
      ensures code.code !in old(authCodes) ==> r == Failure(InvalidAuthorizationCode)
      ensures code.code in old(authCodes) && client.clientId == "" ==> r == Failure(NoClientId)
      ensures r.Failure? && r.error != SweptCodeKeyError ==>
                authCodes == old(authCodes) && accessTokens == old(accessTokens)
                && refreshTokens == old(refreshTokens)
      ensures code.code in old(authCodes) && client.clientId != "" ==>
                && authCodes == Sweep(old(authCodes), CodeExpiry, now) - {code.code}
                && accessTokens == Sweep(old(accessTokens), AccessExpiry, now)[ACCESS_PREFIX + atHex :=
                     AccessToken(ACCESS_PREFIX + atHex, client.clientId, code.scopes,
                                 Some(now + ACCESS_TOKEN_TTL), code.resource)]
                && refreshTokens == Sweep(old(refreshTokens), RefreshExpiry, now)[REFRESH_PREFIX + rtHex :=
                     RefreshToken(REFRESH_PREFIX + rtHex, client.clientId, code.scopes,
                                  Some(now + REFRESH_TOKEN_TTL))]
                && (if code.code in Sweep(old(authCodes), CodeExpiry, now)
                    then r == Success(TokenResponse(ACCESS_PREFIX + atHex, REFRESH_PREFIX + rtHex, code.scopes))
                    else r == Failure(SweptCodeKeyError))
    {
      if code.code !in authCodes {
        return Failure(InvalidAuthorizationCode);
      }
      if client.clientId == "" {
        return Failure(NoClientId);
      }
      EvictExpired(now);
      var accessStr := ACCESS_PREFIX + atHex;
      var refreshStr := REFRESH_PREFIX + rtHex;
      IssueTokens(client.clientId, code.scopes, code.resource, accessStr, refreshStr, now);
      if code.code !in authCodes {
        return Failure(SweptCodeKeyError);
      }
      authCodes := authCodes - {code.code};
      r := Success(TokenResponse(accessStr, refreshStr, code.scopes));
    }

    /** `exchange_authorization_code` with the intended behaviour: a code that
        the expiry sweep removes is rejected before any token is issued. On
        success exactly one access token (valid one day) and one refresh token
        (valid thirty days) are stored and the code is gone. */
    method ExchangeAuthorizationCode(client: ClientInfo, code: AuthCode, atHex: string, rtHex: string, now: int)
      returns (r: Result<OAuthToken>)
      requires Valid()
      modifies this`authCodes, this`accessTokens, this`refreshTokens
      ensures Valid()
      ensures code.code !in old(authCodes) ==> r == Failure(InvalidAuthorizationCode)
      ensures code.code in old(authCodes) && client.clientId == "" ==> r == Failure(NoClientId)
      ensures r.Success? <==> code.code in Sweep(old(authCodes), CodeExpiry, now) && client.clientId != ""
      ensures client.clientId != "" ==> code.code !in authCodes
      ensures r.Failure? && code.code in old(authCodes) && client.clientId != "" ==>
                r == Failure(InvalidAuthorizationCode)
                && authCodes == Sweep(old(authCodes), CodeExpiry, now)
                && accessTokens == Sweep(old(accessTokens), AccessExpiry, now)
                && refreshTokens == Sweep(old(refreshTokens), RefreshExpiry, now)
      ensures r.Failure? && (code.code !in old(authCodes) || client.clientId == "") ==>
                authCodes == old(authCodes) && accessTokens == old(accessTokens)
                && refreshTokens == old(refreshTokens)
      ensures r.Success? ==>
                && r.value == TokenResponse(ACCESS_PREFIX + atHex, REFRESH_PREFIX + rtHex, code.scopes)
                && authCodes == Sweep(old(authCodes), CodeExpiry, now) - {code.code}
                && accessTokens == Sweep(old(accessTokens), AccessExpiry, now)[ACCESS_PREFIX + atHex :=
                     AccessToken(ACCESS_PREFIX + atHex, client.clientId, code.scopes,
                                 Some(now + ACCESS_TOKEN_TTL), code.resource)]
                && refreshTokens == Sweep(old(refreshTokens), RefreshExpiry, now)[REFRESH_PREFIX + rtHex :=
                     RefreshToken(REFRESH_PREFIX + rtHex, client.clientId, code.scopes,
                                  Some(now + REFRESH_TOKEN_TTL))]
    {
      if code.code !in authCodes {
        return Failure(InvalidAuthorizationCode);
      }
      if client.clientId == "" {
        return Failure(NoClientId);
      }
      EvictExpired(now);
      if code.code !in authCodes {
        return Failure(InvalidAuthorizationCode);
      }
      var accessStr := ACCESS_PREFIX + atHex;
      var refreshStr := REFRESH_PREFIX + rtHex;
      IssueTokens(client.clientId, code.scopes, code.resource, accessStr, refreshStr, now);
      authCodes := authCodes - {code.code};
      r := Success(TokenResponse(accessStr, refreshStr, code.scopes));
    }

    /** `load_access_token`: an entry expired strictly before `now` is deleted
        and not returned; any other entry is returned unchanged. */
    method LoadAccessToken(token: string, now: int) returns (r: Option<AccessToken>)
      requires Valid()
      modifies this`accessTokens
      ensures Valid()
      ensures token !in old(accessTokens) ==> r == None && accessTokens == old(accessTokens)
      ensures token in old(accessTokens) && ExpiredOnLoad(old(accessTokens)[token].expiresAt, now) ==>
                r == None && accessTokens == old(accessTokens) - {token}
      ensures token in old(accessTokens) && !ExpiredOnLoad(old(accessTokens)[token].expiresAt, now) ==>
                r == Some(old(accessTokens)[token]) && accessTokens == old(accessTokens)
    {
      if token !in accessTokens {
        return None;
      }
      var accessToken := accessTokens[token];
      if ExpiredOnLoad(accessToken.expiresAt, now) {
        accessTokens := accessTokens - {token};
        return None;
      }
      r := Some(accessToken);
    }

    /** `load_refresh_token`: the same lazy expiry on the refresh store. */
    method LoadRefreshToken(client: ClientInfo, token: string, now: int) returns (r: Option<RefreshToken>)
      requires Valid()
      modifies this`refreshTokens
      ensures Valid()
      ensures token !in old(refreshTokens) ==> r == None && refreshTokens == old(refreshTokens)
      ensures token in old(refreshTokens) && ExpiredOnLoad(old(refreshTokens)[token].expiresAt, now) ==>
                r == None && refreshTokens == old(refreshTokens) - {token}
      ensures token in old(refreshTokens) && !ExpiredOnLoad(old(refreshTokens)[token].expiresAt, now) ==>
                r == Some(old(refreshTokens)[token]) && refreshTokens == old(refreshTokens)
    {
      if token !in refreshTokens {
        return None;
      }
      var rt := refreshTokens[token];
      if ExpiredOnLoad(rt.expiresAt, now) {
        refreshTokens := refreshTokens - {token};
        return None;
      }
      r := Some(rt);
    }

    /** `exchange_refresh_token`: sweeps, deletes the presented refresh token,
        and issues a new pair with the requested scopes, or the presented
        token's scopes when none are requested. */
    method ExchangeRefreshToken(client: ClientInfo, presented: RefreshToken, scopes: seq<string>,
                                atHex: string, rtHex: string, now: int)
      returns (r: Result<OAuthToken>)
      requires Valid()
      modifies this`authCodes, this`accessTokens, this`refreshTokens
      ensures Valid()
      ensures client.clientId == "" ==>
                r == Failure(NoClientId) && authCodes == old(authCodes)
                && accessTokens == old(accessTokens) && refreshTokens == old(refreshTokens)
      ensures client.clientId != "" ==>
                var effective := if |scopes| > 0 then scopes else presented.scopes;
                && r == Success(TokenResponse(ACCESS_PREFIX + atHex, REFRESH_PREFIX + rtHex, effective))
                && authCodes == Sweep(old(authCodes), CodeExpiry, now)
                && accessTokens == Sweep(old(accessTokens), AccessExpiry, now)[ACCESS_PREFIX + atHex :=
                     AccessToken(ACCESS_PREFIX + atHex, client.clientId, effective,
                                 Some(now + ACCESS_TOKEN_TTL), None)]
                && refreshTokens == (Sweep(old(refreshTokens), RefreshExpiry, now) - {presented.token})[
                     REFRESH_PREFIX + rtHex :=
                     RefreshToken(REFRESH_PREFIX + rtHex, client.clientId, effective,
                                  Some(now + REFRESH_TOKEN_TTL))]
      ensures client.clientId != "" && presented.token != REFRESH_PREFIX + rtHex ==>
                presented.token !in refreshTokens
    {
      if client.clientId == "" {
        return Failure(NoClientId);
      }
      EvictExpired(now);
      DiscardRefreshToken(presented.token);
      ghost var revoked := refreshTokens;
      var accessStr := ACCESS_PREFIX + atHex;
      var newRefreshStr := REFRESH_PREFIX + rtHex;
      var effective := if |scopes| > 0 then scopes else presented.scopes;
      IssueTokens(client.clientId, effective, None, accessStr, newRefreshStr, now);
      assert presented.token != newRefreshStr ==> presented.token !in refreshTokens by {
        assert presented.token !in revoked;
      }
      r := Success(TokenResponse(accessStr, newRefreshStr, effective));
    }

    /** `revoke_token`: the token leaves both token stores; nothing else changes. */
    method RevokeToken(token: string)
      requires Valid()
      modifies this`accessTokens, this`refreshTokens
      ensures Valid()
      ensures accessTokens == old(accessTokens) - {token}
      ensures refreshTokens == old(refreshTokens) - {token}
    {
      accessTokens := accessTokens - {token};
      refreshTokens := refreshTokens - {token};
    }
  }

  // ---------------------------------------------------------------------------
  // Properties of call sequences, proved from the contracts above

  /** Exchanging the same code twice succeeds at most once. */
  method CodeIsSingleUse(p: Provider, client: ClientInfo, code: AuthCode, now: int, later: int,
                         hex1: string, hex2: string, hex3: string, hex4: string)
    returns (first: Result<OAuthToken>, second: Result<OAuthToken>)
    requires p.Valid()
    modifies p
    ensures first.Success? ==> second == Failure(InvalidAuthorizationCode)
  {
    first := p.ExchangeAuthorizationCode(client, code, hex1, hex2, now);
    second := p.ExchangeAuthorizationCode(client, code, hex3, hex4, later);
  }

  /** The same holds for the exchange as written: a successful exchange
      deletes the code, so the second one fails its membership test. */
  method CodeIsSingleUseAsWritten(p: Provider, client: ClientInfo, code: AuthCode, now: int, later: int,
                                  hex1: string, hex2: string, hex3: string, hex4: string)
    returns (first: Result<OAuthToken>, second: Result<OAuthToken>)
    requires p.Valid()
    modifies p
    ensures first.Success? ==> second == Failure(InvalidAuthorizationCode)
  {
    first := p.ExchangeAuthorizationCodeAsWritten(client, code, hex1, hex2, now);
    second := p.ExchangeAuthorizationCodeAsWritten(client, code, hex3, hex4, later);
  }

  /** As written, exchanging a code that expired before the sweep fails only
      after both tokens were stored: the caller gets an error, yet the new
      access and refresh tokens stay valid in the stores. */
  method ExpiredCodeLeavesTokens(p: Provider, client: ClientInfo, code: AuthCode, atHex: string, rtHex: string, now: int)
    returns (r: Result<OAuthToken>)
    requires p.Valid() && client.clientId != ""
    requires code.code in p.authCodes && p.authCodes[code.code].expiresAt == now && now != 0
    modifies p
    ensures r == Failure(SweptCodeKeyError)
    ensures ACCESS_PREFIX + atHex in p.accessTokens && REFRESH_PREFIX + rtHex in p.refreshTokens
  {
    r := p.ExchangeAuthorizationCodeAsWritten(client, code, atHex, rtHex, now);
  }

  /** With the intended check the same exchange is refused and issues nothing
      beyond what the sweep keeps. */
  method ExpiredCodeIsRefused(p: Provider, client: ClientInfo, code: AuthCode, atHex: string, rtHex: string, now: int)
    returns (r: Result<OAuthToken>)
    requires p.Valid() && client.clientId != ""
    requires code.code in p.authCodes && p.authCodes[code.code].expiresAt == now && now != 0
    modifies p
    ensures r == Failure(InvalidAuthorizationCode)
    ensures p.accessTokens == Sweep(old(p.accessTokens), AccessExpiry, now)
    ensures p.refreshTokens == Sweep(old(p.refreshTokens), RefreshExpiry, now)
  {
    r := p.ExchangeAuthorizationCode(client, code, atHex, rtHex, now);
  }

  /** A consent state is consumed by its first submission, approval or denial:
      a second submission for it gets the 400 response. */
  method ConsentIsSingleUse(p: Provider, state: string, action1: Option<string>, action2: Option<string>,
                            hex1: string, hex2: string, now: int)
    returns (first: ConsentResponse, second: ConsentResponse)
    requires p.Valid()
    modifies p
    ensures state in old(p.stateMapping.entries) ==> first.Redirected?
    ensures second == InvalidState
  {
    first := p.HandleConsent(Some(state), action1, hex1, now);
    second := p.HandleConsent(Some(state), action2, hex2, now);
  }

  /** Revoking twice leaves the stores as revoking once. */
  method RevokeIsIdempotent(p: Provider, token: string)
    requires p.Valid()
    modifies p
    ensures p.accessTokens == old(p.accessTokens) - {token}
    ensures p.refreshTokens == old(p.refreshTokens) - {token}
    ensures p.authCodes == old(p.authCodes) && p.clients == old(p.clients)
  {
    p.RevokeToken(token);
    p.RevokeToken(token);
  }

  /** After a refresh, the presented refresh token can no longer be loaded. */
  method RotatedTokenIsGone(p: Provider, client: ClientInfo, presented: RefreshToken, scopes: seq<string>,
                            atHex: string, rtHex: string, now: int)
    returns (loaded: Option<RefreshToken>)
    requires p.Valid() && client.clientId != "" && presented.token != REFRESH_PREFIX + rtHex
    modifies p
    ensures loaded == None
  {
    var _ := p.ExchangeRefreshToken(client, presented, scopes, atHex, rtHex, now);
    loaded := p.LoadRefreshToken(client, presented.token, now);
  }

  /** The next of a list of distinct ids is not among those before it, and
      adding it gives the ids up to and including it. */
  lemma NextIdIsNew(ids: seq<string>, i: nat, keys: set<string>)
    requires i < |ids| && Distinct(ids)
    requires forall k :: k in keys <==> k in ids[..i]
    ensures ids[i] !in keys
    ensures forall k :: k in keys + {ids[i]} <==> k in ids[..i + 1]
  {
    assert ids[..i + 1] == ids[..i] + [ids[i]];
    forall j | 0 <= j < i ensures ids[..i][j] != ids[i] {
      assert ids[..i][j] == ids[j];
    }
  }

  /** A new provider with each of a list of distinct ids registered in turn. */
  method FillRegistry(url: string, ids: seq<string>) returns (p: Provider)
    requires |ids| <= MAX_CLIENTS && Distinct(ids)
    requires forall i :: 0 <= i < |ids| ==> ids[i] != ""
    ensures fresh(p) && p.Valid()
    ensures |p.clients| == |ids|
    ensures forall k :: k in p.clients <==> k in ids
  {
    p := new Provider(url, "");
    var i := 0;
    while i < |ids|
      invariant 0 <= i <= |ids| && p.Valid()
      invariant |p.clients| == i
      invariant forall k :: k in p.clients <==> k in ids[..i]
    {
      RegisterNext(p, ids, i);
      i := i + 1;
    }
    assert ids[..i] == ids;
  }

  /** Registering the next id of the list adds exactly that id. */
  method RegisterNext(p: Provider, ids: seq<string>, i: nat)
    requires p.Valid() && i < |ids| <= MAX_CLIENTS && Distinct(ids) && ids[i] != ""
    requires |p.clients| == i && forall k :: k in p.clients <==> k in ids[..i]
    modifies p`clients
    ensures p.Valid() && |p.clients| == i + 1
    ensures forall k :: k in p.clients <==> k in ids[..i + 1]
  {
    NextIdIsNew(ids, i, p.clients.Keys);
    var _ := p.RegisterClient(ClientInfo(ids[i], []));
  }

  /** Ten distinct clients fill the registry; an eleventh is rejected, while
      re-registering one of the ten still succeeds. */
  method ClientCapScenario(url: string, ids: seq<string>, extra: string)
    returns (rejected: RegisterResult, reRegistered: RegisterResult)
    requires |ids| == MAX_CLIENTS && Distinct(ids) && extra !in ids
    requires forall i :: 0 <= i < |ids| ==> ids[i] != ""
    requires extra != ""
    ensures rejected == CapacityReached && reRegistered == Registered
  {
    var p := FillRegistry(url, ids);
    assert ids[0] in ids;
    rejected := p.RegisterClient(ClientInfo(extra, []));
    reRegistered := p.RegisterClient(ClientInfo(ids[0], ["https://example.invalid/cb"]));
  }
}
