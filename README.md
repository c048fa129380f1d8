# Dash-E-commerce payment back end, in Dafny

This project models the payment back end of a storefront that sells
software licences paid in DASH, and proves properties of that model. The
model covers these parts:

- **Payment verifier.** It classifies what the block explorer reports for
  an address (balance, transaction list) against the quoted amount. It then
  maps the answer to the state the customer sees.
- **Price oracle.** It filters the readings of three price sources, takes
  their median (the reading at index floor(n/2) of the sorted survivors) and
  turns a USD amount into a DASH quote.
- **HD wallet.** It picks the network, allocates the next derivation index
  from the address log, and derives the address at child path `m/0/<index>`.
- **Purchase routes.** These are create, cancel, verify-payment and the
  delivery cron. They are methods of one `Store` class that holds the
  `purchases` table, the `address_generation_logs` table and the
  `security_alerts` table. The rule is that a user has at most one
  outstanding purchase (pending or confirmed, not yet delivered). Create,
  cancel and the cron keep it; verify-payment keeps it only when the purchase
  it confirms was pending.
- **Request filter.** This is the fixed-window rate limiter (class
  `RateLimiter`), client-IP extraction and the country check.
- **Key manager.** It reads a secret from the environment, decrypts it,
  checks its integrity and caches it. This is class `KeyManager`, over the
  `ciphertext:iv:tag` hex framing of the encryption service.
- **Price countdown.** This is the component's once-a-second tick and its
  `m:ss` display (class `Countdown`).
- **Configuration.** The plan table and the configuration defaults.

Everything a route or service learns from outside is a parameter:
- the signed-in user;
- the clock;
- the HTTP replies of the price sources and the explorer;
- the environment, as a `map<string, string>`;
- database errors and the outcomes of e-mail sends.

The foreign libraries are function-typed parameters:
- HD key derivation and address parsing (dashcore-lib);
- AES-256-GCM sealing and opening;
- SHA-256.

Each of these is uninterpreted: nothing is assumed of it.

Files: `common.dfy`, `strings.dfy`, `constants.dfy`, `payment_verifier.dfy`,
`price_oracle.dfy`, `wallet.dfy`, `purchases.dfy`, `middleware.dfy`,
`encryption.dfy`, `key_manager.dfy` and `price_timer.dfy`, one module each.

## Model

| member | source | states |
|---|---|---|
| Common.ValueOr | src/utils/constants.js:22-35 | `m[key] \|\| fallback`: the fallback exactly when the key is absent, empty or already equal to it; otherwise the stored value |
| Strings.Split | src/utils/constants.js:29 | `split` always gives at least one part; no part holds the separator; joining the parts gives back the text |
| Constants.DefaultsWhenUnset | src/utils/constants.js:21-35 | with an empty environment the defaults apply: 72 h expiry, 3 confirmations, 120 s refresh, countries VE and CO, 5 requests per 900000 ms, network testnet |
| Constants.PlanTable | src/utils/constants.js:1-19 | exactly the three plans, priced 150, 150 and 249 USD, each keyed by its own name |
| PaymentVerifier.VerifyPayment | src/lib/dash/payment-verifier.js:5-76 | the checks run in order: amount tolerance, then zero balance, then transaction list, then confirmations of `txs[0]`. Each answer holds exactly when its conditions hold (both directions), and it carries the amount, txid, confirmations, block height and time. A failed fetch becomes "Payment verification failed: …" and never a reason |
| PaymentVerifier.GetPaymentStatus | src/lib/dash/payment-verifier.js:78-102 | confirmed, pending, awaiting_payment, amount_incorrect and unknown correspond one-to-one to the verifier answers verified, insufficient_confirmations, no_payment, amount_mismatch and no_transactions; errors propagate |
| PaymentVerifier.NoPaymentOnlyWhenNothingExpected | src/lib/dash/payment-verifier.js:13-34 | `no_payment` needs an expected amount of 0 and a zero balance |
| PaymentVerifier.EmptyAddressIsMismatch | src/lib/dash/payment-verifier.js:13-24 | for a positive expected amount, an empty address is `amount_mismatch` with difference equal to the expected amount, shown as amount_incorrect |
| PaymentVerifier.AwaitingPaymentUnreachable | src/lib/dash/payment-verifier.js:78-98 | for a positive expected amount the customer never sees awaiting_payment |
| PaymentVerifier.NegativeExpectedIsMismatch | src/lib/dash/payment-verifier.js:13-24 | a negative expected amount always gives `amount_mismatch` |
| PaymentVerifier.AmountDecidesFirst | src/lib/dash/payment-verifier.js:13-44 | when the amount checks decide, the transaction list plays no part |
| PaymentVerifier.ToleranceExample | src/lib/dash/payment-verifier.js:13-70 | 1.0005 DASH for 1 DASH is within 0.1%: one confirmation waits and five verify |
| PriceOracle.Survivors | src/lib/dash/price-oracle.js:16-18 | at most three readings survive, none of them zero |
| PriceOracle.SortAscending | src/lib/dash/price-oracle.js:63 | the sorted readings are a permutation of the readings, in ascending order |
| PriceOracle.Median | src/lib/dash/price-oracle.js:63-64 | the chosen price is one of the readings |
| PriceOracle.MedianRank | src/lib/dash/price-oracle.js:63-64 | at most floor(n/2) readings lie below the chosen one and at most n-1-floor(n/2) above it |
| PriceOracle.MedianBetweenExtremes | src/lib/dash/price-oracle.js:63-64 | the price lies between the smallest reading and the largest, both of which are readings |
| PriceOracle.OutlierResistance | src/lib/dash/price-oracle.js:62-64 | with three readings the median stays within the range of any two of them, so a single outlier cannot move it outside the others |
| PriceOracle.OutlierExample | src/lib/dash/price-oracle.js:62-64 | [10, 11, 100] gives 11 |
| PriceOracle.SmallMedians | src/lib/dash/price-oracle.js:64 | one reading gives that reading; two give the upper one |
| PriceOracle.QuerySources | src/lib/dash/price-oracle.js:5-55 | the pushed prices are the usable readings in query order (CoinGecko when truthy; Coinbase and Binance when positive); each source whose request threw adds one error |
| PriceOracle.GetDashPriceUSD | src/lib/dash/price-oracle.js:5-69 | fails with "Failed to fetch DASH price from all sources" exactly when no reading survives; otherwise the price is the median of the survivors, one of them and non-zero |
| PriceOracle.RoundHalfAway | src/lib/dash/price-oracle.js:79-80 | the integer chosen lies within one half of the value |
| PriceOracle.RoundError | src/lib/dash/price-oracle.js:79-80 | rounding to d decimals moves a value by at most half a unit in the d-th place |
| PriceOracle.CalculateDashAmount | src/lib/dash/price-oracle.js:71-86 | an oracle failure rejects the quote; otherwise the quote is the USD amount, USD/price rounded to 8 decimals, and the price rounded to 2 decimals, at the median price |
| PriceOracle.QuoteAccuracy | src/lib/dash/price-oracle.js:75-79 | the quoted DASH amount pays the USD amount at the oracle price to within \|price\| / (2·10^8), half a unit of the eighth decimal at that price |
| Wallet.NetworkFor | src/lib/dash/wallet.js:7 | testnet exactly when the configured network is "testnet" |
| Wallet.ChildPath | src/lib/dash/wallet.js:18 | the child path is `m/0/` followed by the decimal index |
| Wallet.ChildPathInjective | src/lib/dash/wallet.js:15-21 | different indices give different child paths |
| Wallet.GenerateAddress | src/lib/dash/wallet.js:15-25 | the address is the derivation at `m/0/<index>` of the key manager's xpub; a key or derivation error is re-thrown with the index |
| Wallet.ValidateAddress | src/lib/dash/wallet.js:27-34 | true exactly when the library parses the address for the wallet's network; a parse error gives false |
| Wallet.MaxIndex | src/lib/dash/wallet.js:40-47 | the first row of the descending query: a logged index at least every logged index |
| Wallet.NextAddressIndex | src/lib/dash/wallet.js:36-54 | 0 for an empty log, highest logged index + 1 otherwise; a query error becomes "Failed to generate unique address index" |
| Wallet.NextIndexIsFresh | src/lib/dash/wallet.js:40-49 | the index handed out is above every logged index, so not in the log, and the next one up from the highest |
| Wallet.NextIndexNonNegative | src/lib/dash/wallet.js:48-49 | a log of non-negative indices gives a non-negative index |
| Wallet.NextIndexAfterLogging | src/lib/dash/wallet.js:36-53 | once the index is logged the next call gives one more; without the log row the same index comes back |
| Wallet.LoggedIndicesDistinct | src/lib/dash/wallet.js:36-53 | calls that each log their index hand out strictly increasing, hence distinct, indices |
| Purchases.InsertKeepsLimit | src/app/api/purchase/create/route.js:37-84 | inserting an outstanding purchase for a user with none keeps at most one outstanding purchase per user |
| Purchases.ReleaseKeepsLimit | src/app/api/purchase/cancel/route.js:55-61 | replacing a row by one that is not outstanding keeps the rule |
| Purchases.ReleaseClearsUser | src/app/api/purchase/cancel/route.js:55-61 | releasing a user's outstanding purchase leaves the user with none, so a new one may be created |
| Purchases.UpdateOutstandingKeepsLimit | src/app/api/dash/verify-payment/route.js:69-79 | confirming a user's pending purchase keeps the rule |
| Purchases.CancelReleases | src/app/api/purchase/cancel/route.js:47-61 | a cancellable purchase is outstanding and its cancelled form is not |
| Purchases.LateConfirmationBreaksLimit | src/app/api/dash/verify-payment/route.js:34-79 | confirming a cancelled purchase, which the route allows, can leave a user with two outstanding purchases |
| Purchases.AttemptError | src/app/api/cron/process-deliveries/route.js:48-87 | a delivery fails exactly when the customer mail threw, the admin notification call threw (only its client or `ADMIN_EMAIL` lookup can, src/lib/email/resend-client.js:113-115) or the update failed; the first failure's message is kept, and an update failure is prefixed "Update failed: " |
| Purchases.AlertsFor | src/app/api/cron/process-deliveries/route.js:91-98 | one HIGH `delivery_failed` alert per error, with its purchase and message |
| Purchases.Deliver | src/app/api/cron/process-deliveries/route.js:45-100 | delivery neither adds nor removes purchases |
| Purchases.DeliverPointwise | src/app/api/cron/process-deliveries/route.js:45-100 | each selected purchase is marked sent with `delivered_at` exactly when its attempt succeeded; every other row is unchanged |
| Purchases.FailuresBound | src/app/api/cron/process-deliveries/route.js:78-86 | there are no more errors than purchases, each for a purchase of the batch |
| Purchases.DeliverKeepsLimit | src/app/api/cron/process-deliveries/route.js:66-72 | delivering keeps the one-outstanding rule |
| Purchases.UnsetSecretAdmitsLiteral | src/app/api/cron/process-deliveries/route.js:10-16 | with CRON_SECRET unset the check as written accepts `Bearer undefined`; the corrected check does not |
| Purchases.CronAuthorizedIntended | src/app/api/cron/process-deliveries/route.js:10-16 | with no secret configured no header passes; with one, exactly `Bearer <secret>` passes; whatever passes also passes the check as written |
| Purchases.LogIndices | src/lib/dash/wallet.js:40-47 | the query answer is the logged derivation indices, row by row |
| Purchases.Store.constructor | src/app/api/purchase/create/route.js:69-103 | the tables start empty and satisfy the one-outstanding rule |
| Purchases.Store.Insert | src/app/api/purchase/create/route.js:69-103 | the purchase goes in under a fresh id; the audit row follows with its id, address, index, IP and user agent when that unchecked insert succeeds |
| Purchases.Store.Open | src/app/api/purchase/create/route.js:60-103 | with the price quoted: a purchase is created exactly when the index query, the address derivation and the insert succeed, and then holds the plan, the quote, the derived address and `expires_at` = now + expiry hours, the audit row follows and the user has the one outstanding purchase; otherwise nothing changes |
| Purchases.Store.Create | src/app/api/purchase/create/route.js:9-146 | 401, then 400 for a plan not in the table, then 429 when the user has an outstanding purchase (nothing fetched or written), then 500 on any fault. Otherwise the pending/pending row holds the plan price, the oracle quote, the derived address and `expires_at` = now + expiry hours; the audit row follows and the rule is kept |
| Purchases.Store.Cancel | src/app/api/purchase/cancel/route.js:6-92 | 401, 400 without an id, 500 with the key manager's message when the admin client cannot be obtained, 404 for a missing or foreign purchase, 400 unless pending/pending (expiry is not checked), 500 with the update's message. Success changes only the status to cancelled and `updated_at`, and releases the user |
| Purchases.Store.VerifyPurchasePayment | src/app/api/dash/verify-payment/route.js:5-121 | 400, then 500 when the admin client cannot be obtained (nothing fetched or written), then 404. A confirmed purchase is returned unchanged. Past `expires_at` the status is set to expired without consulting the verifier. A verified payment confirms with txid and confirmations; an unverified one changes nothing and reports the reason with confirmations defaulting to 0; errors give 500 |
| Purchases.BatchStep | src/app/api/cron/process-deliveries/route.js:45-98 | one pass of the loop takes the table, the error list and the alert log each one step along their folds over the batch |
| Purchases.Store.DeliverBatch | src/app/api/cron/process-deliveries/route.js:38-100 | processed = batch size = successful + failed; failed = number of errors; the table is the delivered table and one alert is added per error |
| Purchases.Store.Visit | src/app/api/cron/process-deliveries/route.js:48-98 | one purchase of the batch: marked sent when its attempt succeeded, else a HIGH alert is written and the row is left as it was |
| Purchases.Store.ProcessDeliveries | src/app/api/cron/process-deliveries/route.js:7-125 | 401 exactly when the header differs from `Bearer ` followed by CRON_SECRET as the template literal renders it (`undefined` when unset, so `Bearer undefined` gets through; for an empty secret the raw header `Bearer ` would pass, a value that header parsing trims to `Bearer` before the route sees it), 500 with the raw message when the admin client cannot be obtained, then 500 on a query error; otherwise the summary counts, the errors and the delivered table; confirmed, undelivered purchases last updated 24 h ago or earlier are each visited once, and the rule is kept |
| Purchases.Store.ProcessDeliveriesIntended | src/app/api/cron/process-deliveries/route.js:10-16 | the route behind the corrected check: 401 exactly when no non-empty secret is configured and presented; otherwise the route as written, with its error list, delivered table, alerts and the rule kept |
| Middleware.ClientIp | src/middleware.js:43-45 | the first comma field of x-forwarded-for when non-empty, else x-real-ip, else 127.0.0.1; never empty |
| Middleware.ForwardedClientFirst | src/middleware.js:43 | for a proxy chain `client, p1, p2` the client address is the first hop |
| Middleware.RateKey | src/middleware.js:50 | the table key is `rate_limit:` followed by the address |
| Middleware.Kept | src/middleware.js:7-14 | cleanup keeps exactly the entries no older than one window, unchanged |
| Middleware.Counted | src/middleware.js:51-59 | the first request opens the window at now with count 1; within the window the count grows and the window start is kept; after it the count restarts at 1 |
| Middleware.RunWithinWindow | src/middleware.js:48-59 | n requests inside one window leave count n and the window opened at the first |
| Middleware.OverLimitExactlyAfter | src/middleware.js:58-61 | inside one window a request is over the limit exactly when more than the limit of requests have been made |
| Middleware.RateLimiter.constructor | src/middleware.js:5 | the table starts empty; the settings come from the configuration |
| Middleware.RateLimiter.CleanupOldEntries | src/middleware.js:7-14 | deletes exactly the entries older than one window; no stale entry remains |
| Middleware.RateLimiter.Increment | src/middleware.js:50-59 | writes back the counted entry for the key |
| Middleware.GeoRule | src/middleware.js:80-86 | no country block outside production, for 127.0.0.1 or a 192.168.* address, for an unknown country or a listed one; a block in every other case |
| Middleware.GeoExamples | src/middleware.js:80-86 | with the default countries VE and CO, a public address in Spain is refused in production only, and a 192.168.* address never is |
| Middleware.RateLimiter.Handle | src/middleware.js:38-98 | other paths pass untouched. Limited paths: cleanup, then the request is counted (rejected ones too); 429 with Retry-After 900 when the count exceeds the limit; else 403 exactly in production, for an address other than 127.0.0.1 or 192.168.*, with a known country outside the allowed list |
| Encryption.Hex | src/lib/security/encryption.js:22-23 | two lower-case hex digits per byte |
| Encryption.GenerateMasterKey | src/lib/security/encryption.js:48-50 | a generated master key is 64 hex characters |
| Encryption.FramedFields | src/lib/security/encryption.js:20-28 | three hex fields joined by ':' split back into those three fields |
| Encryption.Encrypt | src/lib/security/encryption.js:8-25 | the output splits into exactly three fields: ciphertext, iv and tag in hex |
| Encryption.Fields | src/lib/security/encryption.js:28-32 | parsing succeeds exactly when the first three fields are present and non-empty, and takes those three; otherwise "Invalid encrypted data format" |
| Encryption.Decrypt | src/lib/security/encryption.js:27-46 | a malformed frame is refused before the cipher is called; otherwise the cipher opens the three fields |
| Encryption.RoundTrip | src/lib/security/encryption.js:8-46 | decrypting what was encrypted hands the cipher exactly the ciphertext, iv and tag it produced |
| Encryption.EmptyCiphertextRejected | src/lib/security/encryption.js:20-32 | an empty ciphertext is framed as `:iv:tag`, which decrypt refuses |
| Encryption.ExtraFieldsIgnored | src/lib/security/encryption.js:28 | text after a third ':' does not change what decrypt does |
| KeyManager.MasterKey | src/lib/security/key-manager.js:5-13 | accepted exactly when present with length 64; "not found" when missing or empty, "must be 64 hex chars" otherwise |
| KeyManager.GeneratedKeyAccepted | src/lib/security/key-manager.js:11 | a key from the generator passes the length check |
| KeyManager.ValidateIntegrity | src/lib/security/key-manager.js:47-63 | passes exactly when no digest is recorded or the value's digest equals it; otherwise "Integrity check failed for <name>" |
| KeyManager.Fetch | src/lib/security/key-manager.js:24-38 | a missing `<name>_ENC` gives "Missing encrypted key: <name>_ENC"; a decrypt error gives "Failed to decrypt <name>: …"; a digest mismatch fails; otherwise the plaintext |
| KeyManager.FetchedValuesAreIntact | src/lib/security/key-manager.js:38-60 | a returned secret with a recorded digest has that digest |
| KeyManager.KeyManager.constructor | src/lib/security/key-manager.js:4-17 | an empty cache; caching on exactly in production |
| KeyManager.KeyManager.GetKey | src/lib/security/key-manager.js:19-45 | a cached name is answered from the cache without reading the environment. Otherwise the answer is the fetch, and only a successful fetch enters the cache, only in production. For an unchanged environment the cache is invisible: the answer equals a fresh fetch, and coherence is kept |
| KeyManager.KeyManager.ClearCache | src/lib/security/key-manager.js:65-67 | the cache is empty |
| KeyManager.Load | src/lib/security/key-manager.js:4-17 | construction fails exactly when the master-key check fails, with its message; otherwise a fresh manager with an empty cache |
| PriceTimer.Tick | src/components/payment/PriceUpdateTimer.jsx:10-16 | the callback fires exactly when the remaining time is at most 1; the count then resets to the interval; otherwise it drops by one; the range 1..interval is kept |
| PriceTimer.Periodic | src/components/payment/PriceUpdateTimer.jsx:6-16 | from the interval, after n ticks the countdown shows interval − n mod interval and the callback has fired n div interval times |
| PriceTimer.JsRem | src/components/payment/PriceUpdateTimer.jsx:23 | JavaScript `%`: the remainder takes the dividend's sign |
| PriceTimer.DisplayReadsBack | src/components/payment/PriceUpdateTimer.jsx:22-23 | the display of t splits into minutes and two-digit seconds that read back as t div 60 and t mod 60 and rebuild t |
| PriceTimer.DisplayExamples | src/components/payment/PriceUpdateTimer.jsx:5-6 | the 120 s default shows as 2:00; one second as 0:01 |
| PriceTimer.Countdown.constructor | src/components/payment/PriceUpdateTimer.jsx:5-6 | the countdown starts at the interval |
| PriceTimer.Countdown.OnTimer | src/components/payment/PriceUpdateTimer.jsx:9-16 | one timer callback advances the state by the tick reducer and keeps the range 1..interval |

## Left out

- Network and database I/O are parameters: the price-source HTTP calls, the block explorer, Supabase queries and inserts, and e-mail sends. Their timeouts and retries are not modelled.
- The database's id generation is modelled as a counter (`Store.nextId`); `updated_at` is set at insert to the creation time.
- Floating point is not modelled. `toFixed`/`parseFloat` are exact decimal rounding over `real`, halves away from zero, and the satoshi balance is divided exactly.
- `setHours` arithmetic (daylight-saving shifts) is modelled as adding or subtracting whole hours in milliseconds.
- `parseInt` is decimal only; hexadecimal prefixes such as `0x` are not modelled.
- The confirmation e-mail of the create route is ignored, since its failure never changes the response.
- The logger (`src/lib/logger.js`) and `console` output are not part of this model.
- Two concurrent create requests reading the same next index are not modelled. `Wallet.NextIndexAfterLogging` states the sequential fact they rely on.
- The country lookup is a function parameter, so its failure is a null country.
- Header names are matched case-sensitively in lower case.
- AES-256-GCM, SHA-256, HD derivation and address parsing are uninterpreted parameters.
- Random bytes for keys and IVs are inputs.
- The price-refresh callback of the countdown is reported as a `fired` flag; React effects and the interval timer are not modelled.
- The cron route's `runtime = 'edge'` setting and the response bodies' extra fields (timestamps, messages in Spanish) are not modelled.
- A failed send of the admin notification is caught inside `sendAdminNotification` (src/lib/email/resend-client.js:141-145) and the purchase is still marked sent; the model's `adminEmail` outcome is `Pass` in that case and `Fail` only when the call itself throws.
- The admin database client is created once and cached (src/lib/supabase/admin.js:6-21), and creating it reads `SUPABASE_SERVICE` through the key manager, which may throw. The routes take that outcome as a `clientError` input per request; the caching, which makes a failure possible only until the first success, is not modelled.
- A request body that is not JSON makes `request.json()` throw inside each route's `try`, and the route answers 500 (src/app/api/purchase/create/route.js:23, src/app/api/purchase/cancel/route.js:19, src/app/api/dash/verify-payment/route.js:7). The model's routes take the parsed field and do not model that 500; `None` stands only for an absent or falsy field.
- The cron's insert into `security_alerts` (src/app/api/cron/process-deliveries/route.js:91-98) is not checked by the route. `Purchases.Store.Visit` always appends the alert; a failed insert that leaves the table unchanged is not modelled.
- Constants.LoadConfig: a numeric variable that does not parse (parseInt gives NaN) makes the configuration `None`, and no operation is modelled under such a configuration. The program keeps running with NaN: every comparison with it is false, so a MIN_CONFIRMATIONS of NaN lets a matching payment verify with any number of confirmations (src/lib/dash/payment-verifier.js:51), and a RATE_LIMIT_REQUESTS of NaN never limits (src/middleware.js:61).
- `src/app/api/purchase/price/route.js` and the UI components are not part of this model.
- The verify-payment route lets a cancelled or expired purchase be rewritten to expired or confirmed, although the payment page treats confirmed, expired and cancelled as final states (src/components/payment/PaymentStatus.jsx:84 stops reconnecting once one of them is reached). The model follows the route, and `Purchases.LateConfirmationBreaksLimit` shows the consequence for the one-outstanding rule.

## Findings

| source | as written | input that shows it | evidently intended | confidence | as-written member | corrected member |
|---|---|---|---|---|---|---|
| src/app/api/cron/process-deliveries/route.js:11 | the header is compared with `` `Bearer ${process.env.CRON_SECRET}` ``, so an unset secret is interpolated as the text `undefined` | CRON_SECRET unset and header `authorization: Bearer undefined` gets past the check | no request is authorised unless a non-empty secret is configured and presented | high (not executed) | Purchases.UnsetSecretAdmitsLiteral | Purchases.Store.ProcessDeliveriesIntended |
