# schwab-mcp remote core, in Dafny

This project models five sequential pieces of the schwab-mcp server and proves properties of them:

- **`OAuth`** models `SchwabMCPOAuthProvider`, the in-memory OAuth 2.1 authorization server of the remote endpoint. It covers:
  - dynamic client registration under a cap of ten clients
  - the authorization-code grant, including the browser consent step and the stored PKCE challenge (RFC 7636)
  - the refresh grant with rotation, and revocation
  - lazy expiry of codes and tokens against a clock value `now`

  The provider is a class. Its stores are `map` fields, and the insertion-ordered consent map is a key sequence paired with a map.
- **`RateLimit`** models the sliding-window rate limiter in front of the HTTP routes:
  - The first rule whose prefix starts the path is the one checked.
  - Each (client address, rule prefix) keeps a list of timestamps.
  - A request is rejected once the window holds `max_requests`.
  - Stale windows are swept once more than 1000 are tracked.
- **`Orders`** models the order tools: the validators of the equity, trailing-stop and option parameters, and the settings helper. It also models:
  - the response-payload shaping
  - the de-duplicating merge of a multi-status order listing
  - the bracket order's exit side
  - the combo order's leg check
  - the leg-type fill of a first-triggers-second order
  - tool registration

  The brokerage library's builders are modelled by the order record they produce.
- **`Approvals`** models the three-valued approval decision, the approval request, and the gate that approves everything. That gate leaves exactly one warning-level audit record per request.
- **`StoredOptions`** models the stored option-chain tools:
  - the parameterised query over stored contracts: fixed condition fragments, each with one `%s`, and a parallel list of parameters
  - the parameters of the snapshot listing and of the comparison
  - the row serialiser and the column/value records
  - registration

`Common` holds an ASCII-only `str.upper`, `startswith`, `str.join` and a few sequence facts.

Random token text (`secrets.token_hex`) and clock readings (`time.time`, `time.monotonic`) are parameters of the operations that use them.

Three behaviours of the code worth noting:

- The refresh grant does not itself check that the presented refresh token is known or unexpired. It deletes the token if present and issues a new pair.
- The expiry sweep removes an entry whose expiry equals `now`. The lookups still return such an entry, because their test is strict (`ExpiryBoundary`).
- A full consent map evicts its oldest state instead of rejecting the new one.

## Model

| member | source | states |
|---|---|---|
| OAuth.TrimTrailingSlashes | src/schwab_mcp/remote/oauth.py:70 | the result is a prefix of the URL that does not end in `/`, and everything it drops is `/` |
| OAuth.BoolText | src/schwab_mcp/remote/oauth.py:138-140 | `str(flag)` is `"True"` exactly when the flag is set |
| OAuth.ConsentKeepsExplicitFlag | src/schwab_mcp/remote/oauth.py:244 | the explicit-redirect flag stored as text and read back with `== "True"` is the flag the client sent |
| OAuth.ExpiryBoundary | src/schwab_mcp/remote/oauth.py:321-345 | an entry kept by the sweep is never dropped by a lookup; the two disagree exactly when the expiry equals a non-zero `now` |
| OAuth.Sweep | src/schwab_mcp/remote/oauth.py:80-94 | a swept store holds exactly the entries whose expiry is unset, zero or later than `now`, unchanged |
| OAuth.Without | src/schwab_mcp/remote/oauth.py:133 | deleting a key from the consent order keeps every other key and only those |
| OAuth.WithoutDistinct | src/schwab_mcp/remote/oauth.py:132-133 | deleting a key keeps the order free of repeats, and deleting the oldest key drops exactly the first position |
| OAuth.PutValid | src/schwab_mcp/remote/oauth.py:135-143 | storing a state keeps the ordered map consistent; a new key goes last and grows the order by one |
| OAuth.AdmitStateBounded | src/schwab_mcp/remote/oauth.py:130-143 | after storing a state the consent map holds at most 50 entries; when it was full the oldest key went first and every other pending state is kept |
| OAuth.TokenPrefixesDiffer | src/schwab_mcp/remote/oauth.py:290-291 | a generated access token never equals a generated refresh token |
| OAuth.Provider.constructor | src/schwab_mcp/remote/oauth.py:65-78 | the server URL loses trailing slashes and every store starts empty |
| OAuth.Provider.EvictExpired | src/schwab_mcp/remote/oauth.py:80-94 | codes and both token stores become their sweeps; clients and pending consents are untouched |
| OAuth.Provider.GetClient | src/schwab_mcp/remote/oauth.py:96-99 | a client is found exactly when registered, under its own id |
| OAuth.Provider.RegisterClient | src/schwab_mcp/remote/oauth.py:101-119 | an empty id is rejected; a new id is rejected at ten clients with the store unchanged; an existing id is overwritten even at the cap without growing the store |
| OAuth.Provider.Authorize | src/schwab_mcp/remote/oauth.py:122-146 | sweeps expired entries, stores the pending consent under the caller's state or fresh text with oldest-first eviction, and returns `server_url/consent?state=…` |
| OAuth.Provider.GetConsentPage | src/schwab_mcp/remote/oauth.py:148-217 | the form is served exactly for a pending state and posts to `server_url/consent/approve` |
| OAuth.Provider.HandleConsent | src/schwab_mcp/remote/oauth.py:219-268 | an unknown or missing state gets 400 and changes nothing; denial redirects with `access_denied` and the state; approval stores exactly one code (scope `mcp`, expiry now+300, the stored challenge, redirect and resource); either way the state is consumed |
| OAuth.Provider.LoadAuthorizationCode | src/schwab_mcp/remote/oauth.py:270-275 | a code is found exactly when stored, with no expiry test |
| OAuth.Provider.IssueTokens | src/schwab_mcp/remote/oauth.py:294-307 | one access token valid 86400 s and one refresh token valid 30·86400 s are stored with the same client and scopes; nothing else changes |
| OAuth.Provider.DiscardRefreshToken | src/schwab_mcp/remote/oauth.py:358-360 | the presented refresh token is gone afterwards, whether or not it was stored |
| OAuth.Provider.ExchangeAuthorizationCodeAsWritten | src/schwab_mcp/remote/oauth.py:277-319 | the exchange as written: an unknown code or an empty client id fails without changes; otherwise both tokens are stored after the sweep, and if the sweep removed the code the final delete fails |
| OAuth.Provider.ExchangeAuthorizationCode | src/schwab_mcp/remote/oauth.py:277-319 | succeeds exactly for a stored, unexpired code and a client id; on success one access and one refresh token are added and the code is deleted; a code removed by the sweep is refused before anything is issued |
| OAuth.Provider.LoadAccessToken | src/schwab_mcp/remote/oauth.py:321-330 | an entry that expired strictly before `now` is deleted and not returned; any other entry is returned unchanged |
| OAuth.Provider.LoadRefreshToken | src/schwab_mcp/remote/oauth.py:332-345 | the same lazy expiry on the refresh store |
| OAuth.Provider.ExchangeRefreshToken | src/schwab_mcp/remote/oauth.py:347-391 | an empty client id fails without changes; otherwise it sweeps, deletes the presented refresh token, and issues one new pair with the requested scopes, or the old token's scopes when none are requested |
| OAuth.Provider.RevokeToken | src/schwab_mcp/remote/oauth.py:393-398 | the token leaves both token stores and nothing else changes |
| OAuth.CodeIsSingleUse | src/schwab_mcp/remote/oauth.py:282-309 | exchanging the same code twice succeeds at most once |
| OAuth.CodeIsSingleUseAsWritten | src/schwab_mcp/remote/oauth.py:282-309 | with the exchange as written, too, a second exchange after a success is refused as an unknown code |
| OAuth.ConsentIsSingleUse | src/schwab_mcp/remote/oauth.py:225-265 | a pending state's first submission redirects and a second submission of it gets 400 |
| OAuth.RevokeIsIdempotent | src/schwab_mcp/remote/oauth.py:397-398 | revoking twice equals revoking once, and codes and clients are untouched |
| OAuth.RotatedTokenIsGone | src/schwab_mcp/remote/oauth.py:358-360 | after a refresh the presented refresh token can no longer be loaded |
| OAuth.ClientCapScenario | src/schwab_mcp/remote/oauth.py:107-119 | with ten distinct clients registered an eleventh is rejected, and re-registering one of the ten succeeds |
| OAuth.ExpiredCodeLeavesTokens | src/schwab_mcp/remote/oauth.py:282-309 | as written, a code that expires at the exchange instant yields an error while both new tokens remain stored |
| OAuth.ExpiredCodeIsRefused | src/schwab_mcp/remote/oauth.py:282-309 | with the intended check the same exchange is refused and no token is added |
| RateLimit.MatchRule | src/schwab_mcp/remote/rate_limit.py:78-79 | the first rule whose prefix starts the path, or none exactly when no prefix does |
| RateLimit.MatchedRuleGoverns | src/schwab_mcp/remote/rate_limit.py:78-94 | the rule that matches a path is the first rule with its own prefix, so each window is checked against only one rule |
| RateLimit.Recent | src/schwab_mcp/remote/rate_limit.py:104-106 | the filtered window is no longer than before and holds only timestamps after the cutoff |
| RateLimit.RecentMembers | src/schwab_mcp/remote/rate_limit.py:104-106 | a timestamp survives the filter exactly when it is after the cutoff |
| RateLimit.Admit | src/schwab_mcp/remote/rate_limit.py:104-111 | the request is rejected exactly when the filtered window already holds `max_requests`; a rejection appends nothing and an allowed request appends `now`; the window stays within the cap |
| RateLimit.RemoveStale | src/schwab_mcp/remote/rate_limit.py:119-129 | exactly the windows that are empty or whose newest timestamp is before the cutoff are removed; the rest are unchanged |
| RateLimit.MaxWindow | src/schwab_mcp/remote/rate_limit.py:121 | the largest window of the rules, attained by one of them |
| RateLimit.RateLimiter.constructor | src/schwab_mcp/remote/rate_limit.py:57-67 | an absent or empty rule list means the default rules; no window is tracked |
| RateLimit.RateLimiter.EvictStaleClients | src/schwab_mcp/remote/rate_limit.py:119-129 | deleting stale windows one by one leaves exactly the non-stale ones, within their caps |
| RateLimit.RateLimiter.IsRateLimited | src/schwab_mcp/remote/rate_limit.py:98-117 | the window becomes what `Admit` keeps; the stale sweep runs only on an allowed request with more than 1000 windows; every window stays within its rule's cap |
| RateLimit.RateLimiter.Handle | src/schwab_mcp/remote/rate_limit.py:69-96 | non-HTTP traffic and unmatched paths pass untouched; otherwise only the first matching rule is checked and a limited request gets 429 |
| RateLimit.BurstAllowed | src/schwab_mcp/remote/rate_limit.py:104-111 | up to `max_requests` requests inside one window are all allowed, and the window then holds exactly their timestamps |
| RateLimit.FullWindowRejects | src/schwab_mcp/remote/rate_limit.py:108-109 | with the window full, one more request inside it is rejected and leaves the window as it was |
| RateLimit.WindowResets | src/schwab_mcp/remote/rate_limit.py:104-111 | a request a full window after the newest timestamp finds the window empty and is allowed |
| RateLimit.TokenRuleScenario | src/schwab_mcp/remote/rate_limit.py:42 | under the `/token` rule, 20 requests in a minute pass, a 21st is rejected, and one a minute later passes |
| Orders.ApplyOrderSettings | src/schwab_mcp/tools/orders.py:44-52 | session and duration are set only when truthy, and nothing else of the order changes |
| Orders.ApplyOrderSettingsIdempotent | src/schwab_mcp/tools/orders.py:44-52 | applying the same settings twice is applying them once |
| Orders.EquityTableMatchesPriceRules | src/schwab_mcp/tools/orders.py:55-64 | the builder table covers exactly the valid type/side pairs, with a limit price for LIMIT and STOP_LIMIT and a stop price for STOP and STOP_LIMIT |
| Orders.EquityStopLimit | src/schwab_mcp/tools/orders.py:108-109 | the stop-limit helper receives the stop price first and the limit price second |
| Orders.BuildEquityOrderSpec | src/schwab_mcp/tools/orders.py:72-114 | the upper-cased type is checked first, then the side, then the limit price, then the stop price, each with its own error; an accepted order has one equity leg on the upper-cased side |
| Orders.EquityOrderAccepted | src/schwab_mcp/tools/orders.py:81-105 | an equity order is accepted exactly for a known type and side whose prices are those the type needs, and it carries those prices |
| Orders.EquityOrderCaseInsensitive | src/schwab_mcp/tools/orders.py:80-81 | upper-casing the type and side beforehand builds the same result |
| Common.UpperIdempotent | src/schwab_mcp/tools/orders.py:80-81 | upper-casing twice equals upper-casing once |
| Orders.TrailTypeOrDefault | src/schwab_mcp/tools/orders.py:432-438 | an absent or empty trail type becomes `VALUE` |
| Orders.BuildTrailingStopOrderSpec | src/schwab_mcp/tools/orders.py:117-136 | accepted exactly for BUY/SELL, trail type VALUE/PERCENT and a positive offset, with the error of the first failing check; the order trails the last price by the offset |
| Orders.BuildOptionOrderSpec | src/schwab_mcp/tools/orders.py:150-181 | accepted exactly for MARKET or LIMIT and an open/close instruction, with a price exactly for LIMIT; each rejection has its own error |
| Orders.HandleOrderResponse | src/schwab_mcp/tools/orders.py:184-208 | fails with no payload exactly when there is neither an order id nor a Location; otherwise the payload has `orderId` and `accountHash` exactly with an id and `location` exactly with the header |
| Orders.StatusFilters | src/schwab_mcp/tools/orders.py:256-290 | no status makes one unfiltered call, one name one filtered call, and a list one call per upper-cased name, in order |
| Orders.MergeOrders | src/schwab_mcp/tools/orders.py:266-283 | the merge loop computes the first-seen merge of all call results, in order |
| Orders.MergedSound | src/schwab_mcp/tools/orders.py:278-282 | every merged order was listed and has a non-empty id |
| Orders.MergedUnique | src/schwab_mcp/tools/orders.py:278-282 | no two merged orders share an id |
| Orders.MergedComplete | src/schwab_mcp/tools/orders.py:278-282 | every listed order with a non-empty id has its id among the merged ones |
| Orders.MergedFirstSeen | src/schwab_mcp/tools/orders.py:278-282 | each merged order is the first listed order with its id |
| Orders.ExitInstruction | src/schwab_mcp/tools/orders.py:714 | the exit side is a valid side other than the entry side |
| Orders.BracketOrder | src/schwab_mcp/tools/orders.py:704-750 | an invalid entry side is rejected first; otherwise the bracket is accepted exactly when the entry order is, with the entry's error otherwise |
| Orders.BracketExitsOppose | src/schwab_mcp/tools/orders.py:713-750 | an accepted bracket is an entry that triggers a one-cancels-other pair: a LIMIT at the profit price and a STOP at the loss price, both on the opposite side, with the entry's symbol, quantity, session and duration |
| Orders.ComboOrder | src/schwab_mcp/tools/orders.py:802-827 | fewer than two legs is an error; otherwise one SINGLE order with the upper-cased type, the price, the truthy settings and complex type, and one option leg per given leg, in order |
| Orders.WithLegType | src/schwab_mcp/tools/orders.py:621-624 | a leg without a type gets its instrument's asset type or `EQUITY`; a leg with one is unchanged |
| Orders.FillLegTypes | src/schwab_mcp/tools/orders.py:619-629 | the leg loop gives every leg its filled type and changes nothing else |
| Orders.FillLegTypesIdempotent | src/schwab_mcp/tools/orders.py:621-624 | filling an already-filled leg changes nothing |
| Orders.Register | src/schwab_mcp/tools/orders.py:837-871 | the read-only tools always, then the write tools marked as writes only when writes are allowed |
| Orders.WriteToolsOnlyWhenAllowed | src/schwab_mcp/tools/orders.py:858-871 | a tool is registered as a write exactly when it is a write tool and writes are allowed, and a write tool is never registered as read-only |
| Approvals.DecisionValue | src/schwab_mcp/approvals/base.py:12-17 | each decision's value is one of `approved`, `denied`, `expired` |
| Approvals.ParseDecision | src/schwab_mcp/approvals/base.py:12-17 | exactly those three values name a decision |
| Approvals.DecisionValueRoundTrip | src/schwab_mcp/approvals/base.py:12-17 | a decision and its value determine each other, and there are exactly three decisions |
| Approvals.ClientLabel | src/schwab_mcp/approvals/base.py:58 | a missing or empty client id is logged as `<unknown>`; any other id as itself |
| Approvals.NoOpRequire | src/schwab_mcp/approvals/base.py:52-62 | approves after exactly one warning record with the tool name, approval id, client label, request id and arguments |
| Approvals.NoOpAuditsEveryRequest | src/schwab_mcp/approvals/base.py:52-62 | over any series of calls every request is approved, with exactly one record per request, in request order |
| Approvals.LifecycleIsInert | src/schwab_mcp/approvals/base.py:34-38 | starting and stopping the gate anywhere in a series of calls changes no decision and no record |
| StoredOptions.PlaceholdersConcat | src/schwab_mcp/tools/stored_options.py:76 | placeholders of a concatenation are those of the parts, plus one if the seam forms `%s` |
| StoredOptions.FragmentHasOnePlaceholder | src/schwab_mcp/tools/stored_options.py:42-71 | a fixed condition fragment holds exactly one placeholder |
| StoredOptions.JoinedPlaceholders | src/schwab_mcp/tools/stored_options.py:76 | fragments joined with ` AND ` hold one placeholder each |
| StoredOptions.FragmentsAreFixed | src/schwab_mcp/tools/stored_options.py:42-71 | the symbol's and every filter's condition is a fixed fragment, and no two coincide |
| StoredOptions.TextFilter | src/schwab_mcp/tools/stored_options.py:45-47 | a string filter contributes exactly when present and non-empty; the put/call value is upper-cased |
| StoredOptions.NumberFilter | src/schwab_mcp/tools/stored_options.py:48-65 | a numeric filter contributes exactly when present, zero included |
| StoredOptions.IntegerFilter | src/schwab_mcp/tools/stored_options.py:66-71 | an integer filter contributes exactly when present, zero included |
| StoredOptions.FragmentsMatchValues | src/schwab_mcp/tools/stored_options.py:45-71 | conditions and parameters have equal length, and each position pairs a filter's fragment with that filter's value |
| StoredOptions.FragmentPresentIffSupplied | src/schwab_mcp/tools/stored_options.py:45-71 | a filter's fragment is among the conditions exactly when the filter is supplied |
| StoredOptions.QueryTextPlaceholders | src/schwab_mcp/tools/stored_options.py:79-91 | the statement text has exactly one placeholder more than its `WHERE` part: the limit's |
| StoredOptions.AddFilter | src/schwab_mcp/tools/stored_options.py:45-71 | one filter test appends its fragment and its value exactly when the filter is supplied |
| StoredOptions.QueryStoredOptions | src/schwab_mcp/tools/stored_options.py:39-92 | the placeholder database yields the error and no query; otherwise the symbol condition first, one condition and value per supplied filter in order, and the limit as the last parameter |
| StoredOptions.WhereOfFragments | src/schwab_mcp/tools/stored_options.py:76 | the joined conditions are non-empty text with one placeholder per condition |
| StoredOptions.QueryPlaceholdersMatchParams | src/schwab_mcp/tools/stored_options.py:42-92 | the statement's placeholders equal the number of parameters; the first parameter is the upper-cased symbol and the last is the limit |
| StoredOptions.FilterConditionIffSupplied | src/schwab_mcp/tools/stored_options.py:45-71 | each filter's condition is present exactly when supplied; an empty put/call is skipped and a zero open interest is kept |
| StoredOptions.SnapshotParams | src/schwab_mcp/tools/stored_options.py:126-151 | the placeholder database answers with the error; otherwise the upper-cased symbol and the limit when a symbol is given, the limit alone when not |
| StoredOptions.CompareParams | src/schwab_mcp/tools/stored_options.py:175-191 | the placeholder database answers with the error; otherwise the contract symbol as given, then the limit |
| StoredOptions.Padded | src/schwab_mcp/tools/stored_options.py:217-218 | zero-padding gives exactly `w` decimal digits |
| StoredOptions.PaddedRoundTrip | src/schwab_mcp/tools/stored_options.py:217-218 | reading the padded digits back gives the number |
| StoredOptions.IsoDate | src/schwab_mcp/tools/stored_options.py:217-218 | a date's ISO text is ten characters with `-` at positions 4 and 7 |
| StoredOptions.IsoDateRoundTrip | src/schwab_mcp/tools/stored_options.py:217-218 | a date's ISO text reads back as the same date |
| StoredOptions.IsoDateTime | src/schwab_mcp/tools/stored_options.py:217-218 | a date-time's ISO text starts with its date and `T`; microseconds and the offset add 7 and 6 characters exactly when present |
| StoredOptions.IsoDateTimeKeepsDate | src/schwab_mcp/tools/stored_options.py:217-218 | the first ten characters of a date-time's ISO text read back as its date |
| StoredOptions.SerializeValue | src/schwab_mcp/tools/stored_options.py:216-220 | dates and date-times become their ISO text and every other value is kept as it was |
| StoredOptions.SerializeRow | src/schwab_mcp/tools/stored_options.py:213-221 | the result has the row's length and is the row serialised value by value |
| StoredOptions.SerializeIdempotent | src/schwab_mcp/tools/stored_options.py:213-221 | a serialised value is JSON-ready, and serialising it again changes nothing |
| StoredOptions.PairUp | src/schwab_mcp/tools/stored_options.py:113 | the record has exactly the given columns as keys |
| StoredOptions.ZipRecord | src/schwab_mcp/tools/stored_options.py:113 | `dict(zip(…))` has as keys exactly the columns up to the shorter length |
| StoredOptions.ZipRecordExact | src/schwab_mcp/tools/stored_options.py:113 | with distinct columns and one value each, every column maps to its own value |
| StoredOptions.QueryRecordHasEveryColumn | src/schwab_mcp/tools/stored_options.py:94-113 | every row of the option query becomes a record mapping each of the 17 columns to its value |
| StoredOptions.Register | src/schwab_mcp/tools/stored_options.py:224-239 | the three read-only tools are registered whatever `allow_write` is |

## Left out

- Common.Upper: only ASCII `a`–`z` are mapped to upper case. Python's Unicode case mapping of other characters (`ſ`→`S`, `ı`→`I`, `ß`→`SS`, the last of which also changes the length) is not modelled, so an instruction such as `ſell` is rejected here where Python accepts it.
- Asynchronous execution, concurrency and atomicity between calls: each call is modelled as one atomic step.
- Logging, apart from the approval gate's audit record, which is modelled as data.
- The HTML of the consent page, Starlette request and response objects, and the encoding done by `construct_redirect_uri`. A redirect is modelled as its URI, code or error, and state.
- `secrets.token_hex`, `time.time` and `time.monotonic`, which are parameters. Times are integers, so sub-second clock values and float rule windows are not modelled.
- `MAX_AUTH_CODES`, `MAX_ACCESS_TOKENS` and `MAX_REFRESH_TOKENS`: the provider never checks them, so no bound is claimed for those stores.
- OAuth.Provider.ExchangeRefreshToken: it does not check that the presented token is known or unexpired, because the code does not; the SDK's lookup before the call is not part of this model.
- The brokerage library's order builders and the `build()` dictionaries are modelled by the `Builder` record. `construct_repeat_order` and `trigger_builder` on dictionaries are not modelled beyond the leg-type fill.
- Prices are `real`, not binary floats. The combo order's `str(price)` conversion is not modelled.
- Orders.StatusFilters: the lookup `Order.Status[name]` can raise `KeyError` for an unknown name. Names are kept as upper-cased strings and that error is not modelled.
- The single-status and no-status branches of `get_orders` return the API answer as is. The model covers only which calls are made and the multi-status merge.
- `extract_order_id` and the exceptions it raises are folded into an `Option`.
- A combo leg missing one of its keys would raise `KeyError`; every leg is modelled with its three fields.
- SQL execution and the database. The selected column list of the query is written `SELECT ... `; the statement's columns are `QUERY_COLUMNS`.
- StoredOptions.QueryStoredOptions: the nine `if` tests are written as nine `AddFilter` steps, one per filter, in the order `query_stored_options` tests them.
- StoredOptions.OffsetText: UTC offsets are whole minutes. Offsets with seconds or microseconds are not modelled.
- RateLimit.RateLimiter.IsRateLimited: it requires the rule to be the first with its prefix. `Handle` always passes such a rule (`MatchedRuleGoverns`), and no other caller exists.
- The Discord human-review backend of the approval gate, which is not part of this model.

## Findings

| source | as written | input that shows it | evidently intended | confidence | as-written member | corrected member |
|---|---|---|---|---|---|---|
| src/schwab_mcp/remote/oauth.py:282-309 | the code's presence is tested before the expiry sweep, and the code is deleted with `del` after both tokens are stored | a stored code with `expires_at == now`, exchanged at `now` by a client with an id: the lookup passes, the sweep removes the code, both tokens are stored, then `del` raises `KeyError` | an expired code is refused before any token is issued | not executed | OAuth.Provider.ExchangeAuthorizationCodeAsWritten | OAuth.Provider.ExchangeAuthorizationCode |
