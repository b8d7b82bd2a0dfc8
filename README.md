# Short-code lifecycle of the Redis URL shortener, in Dafny

This project models the core of the Go URL shortener in
`Redis-GO-URL-Shortener/api`. That core is made of three parts:

- the two URL helpers, `EnforceHTTP` and the self-referential domain guard
  `RemoveDomainError`;
- the create handler `ShortenURL`, which checks the per-client rate limit,
  validates and guards the URL, picks a custom or generated code, checks it
  for collisions and stores `code -> URL` with an expiry;
- the resolve handler `ResolveURL`, which looks a code up, answers 404, 500
  or a 301 redirect, and counts redirects in a global `"counter"` key.

Redis is replaced by an in-memory store. Each logical database is a
*partition*, a `map` from string keys to an `Entry` (a value plus a time to
live). Partition 0 holds the links. Partition 1 holds the per-client rate
records and the `"counter"` key. Time is counted in whole seconds, as Redis
counts TTLs. It passes only through an explicit `Advance(dt)` step, which
counts every TTL down and drops the keys whose time has run out.

Layout, one module per file:

- `helpers.dfy` (`Helpers`): `EnforceHTTP` and `RemoveDomainError`. Also the
  Go string operations they use. `strings.Replace(s, p, "", 1)` becomes
  `ReplaceFirst`, which replaces the leftmost match, wherever it is.
  `strings.Split(s, "/")[0]` becomes `FirstField`.
- `keyvalue.dfy` (`KeyValue`): time-to-live entries, with `Tick` for the
  TTL countdown, `TtlMinutes` for `TTL` read in whole minutes, and `AddTo`
  for `INCR`/`DECR`.
- `shorten.dfy` (`Shorten`): the request, response and outcome records. The
  create operation is `ShortenSpec`, a function of both partitions, and the
  lemmas about it.
- `resolve.dfy` (`Resolve`): the resolve operation `ResolveSpec`, its
  lemmas, and the create-then-resolve round trip.
- `service.dfy` (`Service`): the class `Store`, whose fields are the two
  partitions. `Shorten` and `Resolve` update those fields step by step, in
  the handlers' order, and are proved equal to the two functions. `Advance`
  is the clock.

The model takes as parameters everything the handlers get from outside:

- `isURL`: the verdict of `govalidator.IsURL`;
- `generated`: the six characters cut from `uuid.New()`;
- `Config(domain, quota)`: the `DOMAIN` and `API_QUOTA` settings;
- `ip`: the client address;
- `Reach(links, stats)`: which partitions answer during the request.

The model follows the code wherever the code does more or less than its
own comments and names suggest:

- The domain guard removes the *first occurrence anywhere* of `http://`,
  `https://` and `www.` (`helpers.go:29-31`), not only the leading
  "prefixes" the comment at `helpers.go:28` mentions. So `"short.www.ly"`
  is refused when the domain is `"short.ly"` (`Helpers.InnerWwwIsRemoved`).
- A request that is refused after the rate-limit step keeps the rate record
  that a client's first request creates (`shorten.go:52`).
- A first request is let through even when `API_QUOTA` is 0 or less, since
  the value it stores is not checked (`Shorten.FreshWindowBound`).
- A store failure is not always "unavailable". If partition 1 does not
  answer, the failed read is not a "missing key" (`redis.Nil`). It reads as
  `""`, which `strconv.Atoi` turns into 0, so the request is refused as
  rate-limited with a reset of 0 minutes. If partition 0 does not answer,
  the collision read also yields `""` and passes. Only the failed write
  gives "Unable to connect to server".
- A negative expiry stores the link with no TTL. go-redis sends no expiry
  for a duration that is not positive.
- `rate_limit_reset` is the TTL truncated to whole minutes. A key without an
  expiry reports 0.

## Model

| member | source | states |
|---|---|---|
| `Helpers.EnforceHTTP` | Redis-GO-URL-Shortener/api/helpers/helpers.go:10-17 | needs four characters; the result starts with "http"; it equals the input exactly when the input starts with "http", and is "http://" + input otherwise |
| `Helpers.EnforceHTTPIdempotent` | Redis-GO-URL-Shortener/api/helpers/helpers.go:12-16 | enforcing the scheme twice gives the same URL as enforcing it once |
| `Helpers.EnforceHTTPKeepsUrl` | Redis-GO-URL-Shortener/api/helpers/helpers.go:12-16 | the original URL is the unchanged tail of the result |
| `Helpers.ReplaceMisses` | Redis-GO-URL-Shortener/api/helpers/helpers.go:29-31 | `strings.Replace(s, p, q, 1)` leaves `s` as it is when `p` does not occur in it |
| `Helpers.ReplaceAtFirst` | Redis-GO-URL-Shortener/api/helpers/helpers.go:29-31 | `strings.Replace(s, p, q, 1)` replaces the leftmost occurrence of `p`, wherever it lies in `s`, by `q` |
| `Helpers.FirstField` | Redis-GO-URL-Shortener/api/helpers/helpers.go:34 | `strings.Split(s, "/")[0]` is the longest prefix of `s` without '/', ending at the end of `s` or just before its first '/' |
| `Helpers.RemoveDomainError` | Redis-GO-URL-Shortener/api/helpers/helpers.go:22-43 | true exactly when the URL is not the domain verbatim and its host (after removing the first "http://", "https://" and "www." and cutting at the first '/') is not the domain |
| `Helpers.HostOfLink` | Redis-GO-URL-Shortener/api/helpers/helpers.go:28-34 | for an optional "http://" or "https://", an optional "www.", a host without ':', '/' or "www.", and a path, the host the guard compares is exactly that host |
| `Helpers.SelfLinkRejected` | Redis-GO-URL-Shortener/api/helpers/helpers.go:36-39 | every such link to the service's own domain, with any scheme, "www." and path, is refused |
| `Helpers.OtherHostAccepted` | Redis-GO-URL-Shortener/api/helpers/helpers.go:41-42 | every such link to another host is allowed |
| `Helpers.InnerWwwIsRemoved` | Redis-GO-URL-Shortener/api/helpers/helpers.go:31 | a "www." inside the host is removed too, so a host like "short.www.ly" is refused as "short.ly" |
| `KeyValue.Tick` | Redis-GO-URL-Shortener/api/routes/shorten.go:109 | after `dt` seconds a key is still there exactly when its TTL outlasts `dt`; values never change and no key appears |
| `KeyValue.TickCompose` | Redis-GO-URL-Shortener/api/routes/shorten.go:52 | waiting `a` seconds and then `b` seconds leaves the store as waiting `a + b` seconds |
| `KeyValue.TickZero` | Redis-GO-URL-Shortener/api/routes/shorten.go:52 | no time passing changes nothing |
| `KeyValue.ExpiredKeyGone` | Redis-GO-URL-Shortener/api/routes/shorten.go:109 | a key with an expiry is gone once its TTL has elapsed |
| `KeyValue.LiveKeyKept` | Redis-GO-URL-Shortener/api/routes/resolve.go:22 | before that it is still there, with the same value |
| `KeyValue.TtlMinutes` | Redis-GO-URL-Shortener/api/routes/shorten.go:127-128 | `TTL` divided by a minute is the whole minutes left, truncated, and 0 for a missing key or one without an expiry |
| `KeyValue.AddTo` | Redis-GO-URL-Shortener/api/routes/shorten.go:124 | `INCR`/`DECR` changes the key by exactly the delta (a missing key counts as 0 and gets no expiry), keeps its TTL and touches no other key |
| `KeyValue.Aged` | Redis-GO-URL-Shortener/api/routes/shorten.go:127 | a TTL that survives `dt` seconds has exactly `dt` seconds less left |
| `Shorten.ChooseCode` | Redis-GO-URL-Shortener/api/routes/shorten.go:85-90 | the code is the custom code when it is non-empty, otherwise the 6-character generated id; it is never empty |
| `Shorten.DefaultExpiry` | Redis-GO-URL-Shortener/api/routes/shorten.go:104-106 | an expiry of 0 becomes 24 hours; any other expiry is kept |
| `Shorten.LinkTtl` | Redis-GO-URL-Shortener/api/routes/shorten.go:109 | a link set for `h` hours survives `dt` seconds exactly when `dt < h * 3600`, or for ever when `h` is not positive |
| `Shorten.Status` | Redis-GO-URL-Shortener/api/routes/shorten.go:57-134 | 200 exactly on success, 503 exactly for the rate limit and the domain guard, 400 exactly for an invalid URL, 403 exactly for a code in use, 500 exactly for a failed store write |
| `Shorten.CheckOrder` | Redis-GO-URL-Shortener/api/routes/shorten.go:49-114 | each outcome happens exactly when every earlier check passes and its own fails, in the order rate limit, URL validity, domain guard, collision, store write |
| `Shorten.FirstRequestCreatesRecord` | Redis-GO-URL-Shortener/api/routes/shorten.go:50-52 | with no record for the client, one holding `API_QUOTA` for 30 minutes is created and the request is not rate-limited |
| `Shorten.ExhaustedQuotaRefused` | Redis-GO-URL-Shortener/api/routes/shorten.go:55-63 | a record at or below zero refuses the request with its TTL in truncated minutes, and neither partition changes |
| `Shorten.UnreachableRatesRefuse` | Redis-GO-URL-Shortener/api/routes/shorten.go:53-63 | if the rate partition does not answer, every request is refused as rate-limited with 0 minutes, and nothing changes |
| `Shorten.RefusalWritesNothing` | Redis-GO-URL-Shortener/api/routes/shorten.go:57-114 | a refused request writes no link and does not decrement the quota; at most the new full record of a first request remains |
| `Shorten.SuccessfulCreate` | Redis-GO-URL-Shortener/api/routes/shorten.go:104-131 | success stores `code -> EnforceHTTP(url)` for the requested hours (24 when 0 was asked), takes exactly one from the client's quota and keeps its window, leaves all other keys alone, and answers the URL, DOMAIN + "/" + code, the hours, the new quota and the window's minutes |
| `Shorten.InUseNotOverwritten` | Redis-GO-URL-Shortener/api/routes/shorten.go:95-101 | a code that maps to a non-empty value is not overwritten and the request does not succeed |
| `Shorten.ShortNamesCode` | Redis-GO-URL-Shortener/api/routes/shorten.go:131 | `short` is DOMAIN + "/" followed by the stored code |
| `Shorten.CustomCodeTakenOnce` | Redis-GO-URL-Shortener/api/routes/shorten.go:86-101 | once a custom code is created, a second request for the same code never succeeds and changes no link, whatever its URL; when it passes the rate limit with a valid, allowed URL it is answered "URL short already in use" |
| `Shorten.WindowResets` | Redis-GO-URL-Shortener/api/routes/shorten.go:50-52 | once a client's window has elapsed, its next request is not rate-limited and leaves a new 30-minute record holding `API_QUOTA`, or one less when it succeeds |
| `Shorten.OneStep` | Redis-GO-URL-Shortener/api/routes/shorten.go:55-124 | with a record present, a request succeeds only when the record is positive, and then lowers it by exactly one; otherwise the value is unchanged; the record's window is never changed |
| `Shorten.QuotaBoundsSuccesses` | Redis-GO-URL-Shortener/api/routes/shorten.go:55-124 | with a record holding `v`, at most `max(v, 0)` of a series of requests succeed, whatever the time between them, as long as the last one comes before the record's window ends |
| `Shorten.FreshWindowBound` | Redis-GO-URL-Shortener/api/routes/shorten.go:49-124 | starting without a record, at most `API_QUOTA` of a series of requests succeed when every later request comes within 30 minutes of the first, or one request when the quota is 0 or less |
| `Shorten.ExampleSelfLink` | Redis-GO-URL-Shortener/api/routes/shorten.go:74-79 | with DOMAIN "short.ly", a request for "http://short.ly" is refused as self-referential |
| `Resolve.ResolveOutcomes` | Redis-GO-URL-Shortener/api/routes/resolve.go:22-41 | a store that does not answer gives 500, a missing code gives 404, and a present code redirects to exactly its stored value |
| `Resolve.CounterCountsRedirects` | Redis-GO-URL-Shortener/api/routes/resolve.go:36-38 | on a redirect, `"counter"` grows by exactly one; a failed increment does not change the redirect; nothing else in the partition changes |
| `Resolve.ResolveStatus` | Redis-GO-URL-Shortener/api/routes/resolve.go:23-41 | 301 exactly for a redirect, 404 exactly for a missing code, 500 exactly when the store does not answer |
| `Resolve.RoundTrip` | Redis-GO-URL-Shortener/api/routes/shorten.go:109 | after a successful create, resolving the code before its TTL elapses redirects to `EnforceHTTP(url)` |
| `Resolve.ExpiredCodeNotFound` | Redis-GO-URL-Shortener/api/routes/shorten.go:104-109 | once the requested hours have passed, the code is gone and resolving it gives 404 |
| `Resolve.ExampleRoundTrip` | Redis-GO-URL-Shortener/api/routes/resolve.go:22-41 | with DOMAIN "short.ly", creating "https://example.com/page" on an empty store answers "short.ly/" + code, quota 9 of 10 and 30 minutes, and resolving the code redirects to the page |
| `Service.Store.Shorten` | Redis-GO-URL-Shortener/api/routes/shorten.go:36-135 | the handler's store calls, done in place on the two partitions, give the reply and the new state that `ShortenSpec` gives; only a success changes the links, and only at its code |
| `Service.Store.Resolve` | Redis-GO-URL-Shortener/api/routes/resolve.go:13-42 | the handler, done in place, gives `ResolveSpec`'s reply; it may write only the rate partition, and of that only `"counter"` |
| `Service.Store.Advance` | Redis-GO-URL-Shortener/api/routes/shorten.go:52 | the clock: both partitions count down their TTLs by `dt` seconds |
| `Service.CreateWaitFollow` | Redis-GO-URL-Shortener/api/routes/resolve.go:22-41 | following the code at the end of `short` redirects to `EnforceHTTP(url)` before the requested hours have passed, and gives 404 once they have |

## Left out

- Parsing the JSON body ("cannot parse JSON", 400) and every other piece of Fiber plumbing. Requests and replies are datatype values; the JSON error messages are named beside each outcome.
- `govalidator.IsURL` is a boolean parameter. The model relies on it refusing strings of three characters or fewer: `EnforceHTTP` slices `url[:4]`, and the source depends on this too.
- `uuid.New()` is a parameter of exactly six characters. The model does not assume it is random or unique. A collision with a live code is refused as "in use", as in the source, with no retry.
- The race between the rate-limit check and the decrement across concurrent requests from one client. Each request is atomic here.
- Store failures are modelled per request and per partition (`Reach`). A partition that fails in the middle of a request is not modelled. Neither is a failed `SET` of the rate record alone, nor a failed `DECR`.
- `API_QUOTA` is an integer. A non-numeric setting is stored as text in Redis, read back as 0 by `strconv.Atoi`, and makes `DECR` fail. None of this is modelled.
- 64-bit limits: `expiry * 3600 * time.Second` can overflow, and so can `INCR`/`DECR`. Integers in the model are unbounded.
- Go strings are byte strings. The model uses sequences of characters, which agree with Go for ASCII URLs.
- Real time. The clock moves only through `Store.Advance`.
- `database/database.go` (client construction), `api/main.go` (routes and server start), logging, and the `go-twilio-verify` component are not part of this model.
- Helpers.HostOfLink, Helpers.SelfLinkRejected, Helpers.OtherHostAccepted: they cover hosts without ':', so a DOMAIN or link host with a port (such as "localhost:3000") lies outside them. `RemoveDomainError` itself handles such URLs, but nothing is proved about them beyond its own contract.
