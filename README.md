# Ruckus Unleashed exporter: a verified model of the probe pipeline

`exporter.js` serves a Prometheus `/probe` endpoint for Ruckus Unleashed controllers. On each
probe it reuses or creates a per-target session, fetches three XML status documents from the
controller, extracts the AP, client and status records from the parsed trees, and derives gauges
from them into a fresh metric registry. One part of that work spans probes: airtime utilisation
is smoothed from the last reading and a short history kept per `mac-band` key.

The Dafny project models that pipeline and proves what it promises.

| file | module | what it holds |
|---|---|---|
| `js.dfy` | `Js` | the JavaScript semantics the handler relies on: parsed XML nodes, truthiness, `||`, property reads, `String(n)`, ASCII case mapping, `Number` arithmetic with NaN and infinities, `parseFloat`/`parseInt`, and `clean` |
| `extract.dfy` | `Extract` | `findAll`: its result defined as the hits of a pre-order walk, and the imperative recursive walk proved against it |
| `rules.dfy` | `Rules` | the small total rules: RSSI quality, client band, radio band fallback, role, model fallback, online status, memory percentages |
| `airtime.dfy` | `Airtime` | the smoothing state machine: a step function over the two dictionaries, its invariants, and a `Store` class whose `Observe` method is proved against the step |
| `scrape.dfy` | `Scrape` | the inventory map `apMap`, the signal-quality buckets, and the status walk with its totals; each loop is a method proved against a fold |
| `session.dfy` | `Session` | cookie-header assembly, CSRF-token extraction, the Basic credentials, the login result and the `SessionCache` class |
| `probe.dfy` | `Probe` | the whole handler as a function `Probe` from request and stores to response and stores, the method `Handle` proved against it, and lemmas about sessions, reply codes and totals |

Effects are modelled as follows:
- A registry is a map from (metric name, label pairs) to a JavaScript number.
- The network exchanges, the Base64 decoder and the XML parser are function parameters.
- The two airtime dictionaries are the fields of `Airtime.Store`.
- The session map is the field of `Session.SessionCache`.
- Probes run one after another.

## Model

| member | source | states |
|---|---|---|
| Js.Or | exporter.js:349-351 | `a \|\| b` is the first operand when it is truthy and the second otherwise; it is truthy exactly when either operand is |
| Js.LookupFinds | exporter.js:332 | a property read yields a field with that name, and it is undefined exactly when no field has the name |
| Js.Clean | exporter.js:344-345 | `clean` of a falsy value is 0; anything else gives a finite number or NaN, as `parseFloat` does |
| Js.KeepNumericExact | exporter.js:345 | the `[^0-9.-]` filter keeps a subsequence of its input holding exactly the input's digits, dots and minus signs |
| Js.KeepNumericIdempotent | exporter.js:345 | filtering twice gives what filtering once gives |
| Js.CleanWithoutDigits | exporter.js:344-345 | a non-empty text without digits cleans to NaN, not 0 |
| Js.CleanDecimal | exporter.js:344-345 | a plain decimal text, optionally negative, cleans to its value |
| Js.CleanOrZero | exporter.js:363 | `clean(v \|\| 0)` equals `clean(v)` |
| Js.LowerIdempotent | exporter.js:349 | lower-casing twice gives what lower-casing once gives |
| Js.ParseIntDigits | exporter.js:402-403 | `parseInt` of a string of decimal digits is its value |
| Js.ParseIntOfNatural | exporter.js:402-403 | `parseInt` of a parsed natural number below 10^21 is that number |
| Js.DigitsRoundTrip | exporter.js:402 | the decimal digits that `String(n)` writes read back as `n` |
| Extract.FoundIsPreOrder | exporter.js:328-342 | `findAll` returns the hits of the nodes in pre-order: each node's own hit comes before the hits below it |
| Extract.FoundMember | exporter.js:328-342 | a value is returned exactly when it is the hit of some node of the tree, found values included |
| Extract.FoundEmpty | exporter.js:328-342 | the result is empty exactly when no node has a truthy value under the key |
| Extract.FoundScalar | exporter.js:331 | a scalar contributes nothing |
| Extract.Children | exporter.js:338 | the walk descends into an array's elements and an object's values, in order |
| Extract.Search | exporter.js:330-338 | the recursive closure appends to `results` exactly what `Extract.Found` gives below `current` |
| Extract.FindAll | exporter.js:328-342 | the imperative walk returns the specifying function's result |
| Extract.FoundKeyed | exporter.js:332-338 | a found object is pushed and then searched as well |
| Extract.FoundKeyedThen | exporter.js:332-338 | a hit's own results come before those of the fields after it |
| Extract.NestedHit | exporter.js:332-338 | a hit nested inside a hit is found after it |
| Extract.ArrayExpanded | exporter.js:333-336 | an array under the key contributes its elements one by one |
| Extract.ThreeDepths | exporter.js:328-342 | hits at three depths come back in document order |
| Extract.FoundPassThrough | exporter.js:338 | a field under another name passes its value's results through unchanged |
| Rules.SignalQuality | exporter.js:366-375 | no bucket exactly for RSSI 0; a negative RSSI is good from -67, moderate from -75, else poor; a positive one is good from 30, moderate from 20, else poor; NaN is poor |
| Rules.SignalQualityMonotone | exporter.js:366-375 | on each side of zero a stronger signal never gets a worse label |
| Rules.SignalQualityExamples | exporter.js:366-375 | the thresholds on sample values |
| Rules.ClientBand | exporter.js:364 | the band is `5g` exactly when the `radio-band` text contains "5", else `2.4g` |
| Rules.ClientBandExamples | exporter.js:364 | the band rule on sample values, a numeric 5 included |
| Rules.RadioBand | exporter.js:435-436 | a truthy `radio-band` is used as text; otherwise `2.4g` exactly when `radio-id` is the string "0", else `5g` |
| Rules.RadioBandStrict | exporter.js:436 | `===` makes a numeric radio id 0 a `5g` radio |
| Rules.Role | exporter.js:399 | a missing role is `member`; a string role is lower-cased; any other role throws |
| Rules.RoleMasterAnyCase | exporter.js:399 | "Master" and "MASTER" both become `master` |
| Rules.FallbackModel | exporter.js:397 | a missing model is `UNKNOWN`; a string model is upper-cased; any other model throws |
| Rules.LooselyOneIsLooseEquality | exporter.js:479 | the case analysis used for `ap.state == "1"` agrees with ECMAScript's IsLooselyEqual against "1" on every property read: strings as text, numbers and booleans against ToNumber("1"), arrays and objects through their string, `undefined` never |
| Rules.LooselyUpIsLooseEquality | exporter.js:479 | the case analysis used for `ap.status == "up"` agrees with IsLooselyEqual against "up": no number or boolean equals it, since ToNumber("up") is NaN |
| Rules.OnlineStatus | exporter.js:479 | the status gauge is 1 exactly when `state` equals "1" or `status` equals "up" under ECMAScript's IsLooselyEqual, and 0 otherwise |
| Rules.OnlineStatusExamples | exporter.js:479 | loose equality on sample values: numeric 1, "1.0"-style numbers, case and spaces |
| Rules.MemoryUsage | exporter.js:415-417 | the percentage exists exactly when the total exceeds 0 and is then `(total-free)/total*100` |
| Rules.MemoryUsageBounded | exporter.js:415-417 | with `0 <= free <= total` the percentage lies in [0,100] |
| Rules.MemoryUsageSuppressed | exporter.js:415 | a total of 0, NaN or below 0 sets no gauge |
| Rules.ApMemory | exporter.js:406-417 | an AP's memory gauge exists exactly when its cleaned total exceeds 0 |
| Rules.ControllerMemoryAsWritten | exporter.js:423-428 | the controller gauge is set exactly when the raw `mem_total` is truthy, and agrees with the AP gauge when the cleaned total is positive |
| Rules.ControllerMemoryZeroTotal | exporter.js:423-428 | a `mem_total` of "0" sets the controller gauge to NaN or -Infinity |
| Rules.ControllerMemory | exporter.js:423-428 | guarded like the AP gauge, the controller gauge exists exactly when the cleaned total is positive, is then finite whenever `mem_avail` parses, and equals the AP gauge |
| Rules.ControllerMemoryZeroTotalSuppressed | exporter.js:423-428 | with the guard, a total of "0" sets nothing |
| Airtime.Instant | exporter.js:452-454 | the instantaneous value is ticks gained over seconds elapsed, and it is never negative |
| Airtime.RateScaled | exporter.js:454 | `(dT/(dU*100))*100` equals `dT/dU` |
| Airtime.PushWindow | exporter.js:456-459 | a push keeps the last at most 3 samples, ending with the new one |
| Airtime.PushKeeps | exporter.js:456-459 | a history of non-negative samples stays non-negative and holds 1 to 3 samples after a push |
| Airtime.MeanNonNegative | exporter.js:461-463 | the mean of non-negative samples is non-negative |
| Airtime.Clamp | exporter.js:466 | the clamped value lies in [0,100] and leaves a value in range unchanged |
| Airtime.FirstObservation | exporter.js:445-451 | a key with no stored state emits nothing and leaves the histories alone |
| Airtime.ReadingStored | exporter.js:469-472 | whichever branch runs, the stored state becomes the current ticks and uptime |
| Airtime.OtherKeysUnchanged | exporter.js:441-473 | no other key's state or history changes |
| Airtime.EmitsIffAdvances | exporter.js:447-451 | a value is emitted exactly when state exists, uptime has grown and ticks have not shrunk |
| Airtime.Reseeds | exporter.js:447-472 | a reading that does not advance only replaces the stored state |
| Airtime.AdvancingObservation | exporter.js:452-467 | an advancing reading pushes the instantaneous value and emits the clamped mean of the new history |
| Airtime.EmittedBounded | exporter.js:461-467 | every emitted value lies in [0,100] |
| Airtime.StepConsistent | exporter.js:456-459 | every stored history keeps 1 to 3 non-negative samples |
| Airtime.Store.constructor | exporter.js:13-14 | both dictionaries start empty |
| Airtime.Store.Observe | exporter.js:441-473 | the method updates the two dictionaries and emits exactly as the step function says |
| Airtime.ThreeReadings | exporter.js:441-473 | three readings of one radio: nothing, then 10, then the mean 13 of 10 and 16 |
| Scrape.BuildInventory | exporter.js:347-356 | the loop builds the specifying function's map |
| Scrape.InventoryKeys | exporter.js:347-356 | the keys are exactly the non-empty lower-cased inventory MACs |
| Scrape.InventoryLastWins | exporter.js:350-354 | for a repeated MAC the last record's name and model win |
| Scrape.InventoryLowerCase | exporter.js:349 | every key is already lower case |
| Scrape.CountSignals | exporter.js:358-383 | the loop builds the specifying function's buckets |
| Scrape.SignalCountsAreCounts | exporter.js:358-383 | each bucket holds the number of this probe's clients classified into it, exists exactly when that number is positive, and is a signal-quality series |
| Scrape.CountByCounts | exporter.js:358-383 | counting with any key function that yields only signal-quality keys leaves each series equal to the number of records under its key, and set exactly when that number is positive |
| Scrape.ZeroRssiUncounted | exporter.js:363-366 | a client whose cleaned RSSI is 0 adds to no bucket |
| Scrape.ReadStatusCases | exporter.js:392-428 | a record without a truthy MAC is skipped; one with a MAC throws exactly when its model fallback or its role throws; otherwise its role, its AP memory gauge, its controller gauge under the raw `mem_total` guard, and its client, RX and TX amounts are those of the rules |
| Scrape.RoleThrows | exporter.js:399 | a non-string role throws |
| Scrape.ModelThrows | exporter.js:395-397 | an AP missing from the inventory with a non-string model throws |
| Scrape.ObserveRadios | exporter.js:433-475 | the radio loop sets noise floors and airtime gauges and updates the store as the fold over the radios says |
| Scrape.ObserveStatus | exporter.js:392-482 | one record's effect on the registry, the totals and the store, or a throw that changes nothing further |
| Scrape.ScanStatus | exporter.js:391-483 | the status loop computes the specifying function's walk and stops at the first throw |
| Scrape.ThrowPersists | exporter.js:391-483 | once a record has thrown, the later records change nothing |
| Scrape.StatusTotals | exporter.js:391-431 | after a completed walk `netAps` counts the records with a truthy MAC, the masters are those whose role is `master`, and masters plus members equal `netAps` |
| Scrape.MacCountIndices | exporter.js:392-394 | the MAC count is the number of record positions with a truthy MAC |
| Scrape.CompletedWalkCounts | exporter.js:391-431 | a completed walk's AP total is the number of records with a truthy MAC, and masters plus members make up that total |
| Scrape.StatusSums | exporter.js:385-410 | a walk that completes from zero totals holds, for clients, RX and TX, the in-order `Add` of the amounts of the records with a truthy MAC |
| Scrape.MacSumPoisoned | exporter.js:408-410 | one counted record whose amount is NaN makes the sum NaN |
| Scrape.MacSumFinite | exporter.js:408-410 | when every counted amount is finite, the sum is the real sum of the amounts |
| Scrape.CompletedWalkSums | exporter.js:385-410 | after a completed walk each network total is that in-order sum: NaN once a counted record reads NaN, the real sum when all are finite |
| Scrape.RadiosKeep | exporter.js:433-475 | the radio loop touches only noise-floor and airtime series |
| Scrape.MemoryGaugeGuarded | exporter.js:415-417 | the AP memory gauge is set exactly when the cleaned total exceeds 0 and is otherwise left alone |
| Scrape.StatusKeepsAirtimeInRange | exporter.js:441-467 | every airtime gauge the walk sets lies in [0,100] |
| Scrape.FinishTotals | exporter.js:485-490 | the totals land on their six gauges and every other series keeps its value |
| Session.Before | exporter.js:210 | `split(sep)[0]` is the longest prefix without the separator |
| Session.Split | exporter.js:266 | `split` yields at least one field and no field holds the separator |
| Session.SplitJoin | exporter.js:266 | joining the fields with the separator gives the text back |
| Session.JoinSplit | exporter.js:231 | splitting a join of separator-free fields gives the fields back |
| Session.CookieHeaderRoundTrip | exporter.js:229-231 | read back, the cookie header lists exactly each Set-Cookie line's part before its first `;`, in order |
| Session.LoginCookiesReplace | exporter.js:228-232 | Set-Cookie lines on the login reply replace the initial cookies instead of merging with them |
| Session.InitialCookiesKept | exporter.js:209-211 | without them the login page's cookies are used |
| Session.MatchAt | exporter.js:237 | a match needs the token name at its start, and its capture holds no quote |
| Session.CsrfLeftmost | exporter.js:237 | the token is the capture of the leftmost match, and there is none exactly when no position matches |
| Session.CsrfQuoteFree | exporter.js:237 | the token never holds a quote |
| Session.CsrfRoundTrip | exporter.js:237 | a quote-free token assigned as `csrfToken = "t"` is read back |
| Session.BasicToken | exporter.js:264 | the encoded credentials are the header's word after `Basic ` |
| Session.CredentialsAsWrittenRoundTrip | exporter.js:264-266 | a user and a password without colons survive the split |
| Session.CredentialsAsWrittenTruncates | exporter.js:264-266 | as written, `user:p1:p2` yields the password `p1` where the intended reading gives `p1:p2` |
| Session.CredentialsRoundTrip | exporter.js:264-266 | read at the first colon, any password survives `user:password` |
| Session.LoginResultCases | exporter.js:206-252 | a login yields a session exactly when its exchange completes and the token page matches; the session holds a quote-free token and the cookies of the last reply that set any |
| Session.SessionCache.constructor | exporter.js:12 | the cache starts empty |
| Session.SessionCache.Cached | exporter.js:271 | the lookup finds the target's session exactly when one is cached |
| Session.SessionCache.Login | exporter.js:237-242 | the entry is written, for this target only, exactly when the login yields a session |
| Session.SessionCache.Forget | exporter.js:313 | only the target's entry is removed |
| Probe.IncludesAt | exporter.js:312 | `includes` holds exactly when the text occurs at some position |
| Probe.Collect | exporter.js:328-497 | parsing through totals: the registry, the code and the airtime store are those of the specifying functions |
| Probe.Handle | exporter.js:255-512 | the handler's response, session map and airtime store are those the `Probe` function gives |
| Probe.CachedSessionSkipsLogin | exporter.js:271-278 | with a cached session the login exchange is never consulted and no 401 follows |
| Probe.LoginFailure | exporter.js:272-277 | a 401 reply comes exactly from a cache miss whose login produced no session, and it leaves both stores unchanged with success 0 |
| Probe.ReplyCodes | exporter.js:255-512 | every reply is 401, 500 or 200 |
| Probe.SessionWrittenOnlyWithToken | exporter.js:239-242 | the cache gains an entry only for the probed target, and only from a login whose token page matched |
| Probe.OtherSessionsKept | exporter.js:271-315 | no probe touches another target's session |
| Probe.ExpiredSessionForgotten | exporter.js:312-315 | an inventory reply containing `login.jsp` drops the target's session, fails with 500 and success 0, and leaves the airtime store alone |
| Probe.SuccessGauge | exporter.js:497-511 | every reply carries the success gauge, 1 on a 200 and 0 otherwise |
| Probe.AirtimeOnlyFromWalk | exporter.js:385-475 | the airtime store changes only when the status walk runs |
| Probe.CompletedTotals | exporter.js:485-488 | on a 200 the AP total counts the status records with a truthy MAC, and the master and member counts add up to it |
| Probe.CompletedSums | exporter.js:485-490 | a probe answering 200 reports the clients, RX and TX network totals as the in-order sums over the status records with a truthy MAC |

## Left out

- The HTTP side is not modelled: the Express route and listener, headers, content types and the text of the 401 challenge. Only the status code and the registry of each reply are kept.
- The controller requests, the HTTPS agent and the timeouts are not modelled. The login exchange and the three fetches are function parameters, and `None` stands for a request that failed.
- `Promise.all` and concurrent probes are out of scope. Probes are sequential, and no races on the shared maps are modelled.
- The XML parser is a parameter: a document is a `Js.Node` tree, and a parser that throws is `None`. Parsed trees never hold `null`, so there is no null node.
- Base64 decoding of the Basic header is a parameter. The model keeps only the local `split(" ")[1]` and `split(":")` steps.
- `prom-client` is not modelled:
  - metric declarations, help texts and the exposition format;
  - the default `master` label on every series;
  - label-name validation and label-value conversion;
  - the zero that an unlabelled gauge reports before any `set`.
  The registry holds only the series a probe sets.
- Timings are out of scope: `performance.now`, the duration summary and the slowest-module gauge have no deterministic model.
- Logging, colours, dates, the banner and shutdown handling are out of scope.
- IEEE-754 rounding is not modelled. Numbers are exact reals with NaN and the two infinities, signed zero is ignored, and `parseFloat` and the ToNumber of loose equality read exact decimals. A number in a parsed document is an exact decimal. `String(n)` lays it out as JavaScript does, as plain digits below 10^21 and in exponent notation beyond, but does not round it to the nearest double.
- Property reads see an object's own fields only. Inherited properties such as `constructor` are left out. So are array indices and `length` as property names.
- `toLowerCase`/`toUpperCase` map ASCII letters only. The regular expression's `i` flag is exact for the pattern's letters in any case.
- Session.CsrfRoundTrip: covers one spelling and layout of the assignment, `csrfToken = "t"`. `Session.CsrfLeftmost` characterises every other page.
- The login request's form encoding (`URLSearchParams`) is out of scope, because the credentials only travel to the login parameter.
- `clean` of truthy text without digits gives NaN, as the code computes.
- `findAll` pushes every element of an array found under the key, whatever its type, as the code does.
- Login cookies replace the initial ones, as the code does.
- A failed login answers 401, as the code does.
- The pattern `[f|r]{2}` also accepts `|`, `ff` and `rr`, as the code's regular expression does.
- The general statement that the results of each child appear contiguously inside `findAll`'s result is not proved as a lemma of its own. The pre-order characterisation `Extract.FoundIsPreOrder` and the membership lemma `Extract.FoundMember` state the order and the contents.

## Findings

| source | as written | input that shows it | evidently intended | confidence | as-written member | corrected member |
|---|---|---|---|---|---|---|
| exporter.js:423-428 | the controller memory gauge is guarded by the raw `mem_total` being truthy | a master record with `mem_total` "0": the text is truthy, `clean` gives 0, and the gauge becomes NaN, or -Infinity when `mem_avail` is positive | the `memTotal > 0` guard of the AP gauge at exporter.js:415 | not executed | Rules.ControllerMemoryZeroTotal | Rules.ControllerMemoryZeroTotalSuppressed |
| exporter.js:264-266 | `const [user, pass] = text.split(":")` | `alice:pa:ss` gives the password `pa` | the user-id ends at the first colon and the password is the rest, as section 2 of RFC 7617 defines | not executed | Session.CredentialsAsWrittenTruncates | Session.CredentialsRoundTrip |
