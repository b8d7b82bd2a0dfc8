/**
 * The resolve operation (routes.ResolveURL): look the code up in the links
 * partition, answer 404, 500 or a 301 redirect, and on a redirect bump the
 * global "counter" key of the rate partition, ignoring any failure to do so.
 */
module Resolve {
  import opened Helpers
  import opened KeyValue
  import opened Shorten

  /** Every way a resolve request ends. */
  datatype Resolution =
    | Redirect(target: string)  // 301 to the stored URL
    | NotFound                  // 404 "short not found on database"
    | DbError                   // 500 "cannot connect to DB"

  /** A resolve's reply together with the rate partition after it (the links are never written). */
  datatype ResolveResult = ResolveResult(out: Resolution, stats: Partition<int>)

  const CounterKey := "counter"

  /** The redirect count as `INCR` sees it: a missing key is 0. */
  function Counter(stats: Partition<int>): int
  {
    if CounterKey in stats then stats[CounterKey].value else 0
  }

  /** The resolve operation, step by step as the handler takes them. */
  function ResolveSpec(links: Partition<string>, stats: Partition<int>, code: string, reach: Reach): ResolveResult
  {
    if !reach.links then ResolveResult(DbError, stats)
    else if code !in links then ResolveResult(NotFound, stats)
    else
      var counted := if reach.stats then AddTo(stats, CounterKey, 1) else stats;
      ResolveResult(Redirect(links[code].value), counted)
  }

  /** The HTTP status of each outcome. */
  function ResolveStatus(out: Resolution): (code: int)
    ensures code == 301 <==> out.Redirect?
    ensures code == 404 <==> out.NotFound?
    ensures code == 500 <==> out.DbError?
  {
    match out
    case Redirect(_) => 301
    case NotFound => 404
    case DbError => 500
  }

  /**
   * The three outcomes: a store that does not answer gives 500, a missing
   * code 404, and a present code a redirect to exactly its stored value.
   */
  lemma ResolveOutcomes(links: Partition<string>, stats: Partition<int>, code: string, reach: Reach)
    ensures var r := ResolveSpec(links, stats, code, reach);
      && (r.out == DbError <==> !reach.links)
      && (r.out == NotFound <==> reach.links && code !in links)
      && (r.out.Redirect? <==> reach.links && code in links)
      && (r.out.Redirect? ==> r.out.target == links[code].value)
  {
  }

  /**
   * Only a redirect is counted, by exactly one, and the count is
   * best-effort: when the rate partition does not answer the redirect still
   * happens. No other key of the rate partition changes.
   */
  lemma CounterCountsRedirects(links: Partition<string>, stats: Partition<int>, code: string, reach: Reach)
    ensures var r := ResolveSpec(links, stats, code, reach);
      && (r.out.Redirect? && reach.stats ==> Counter(r.stats) == Counter(stats) + 1)
      && (!r.out.Redirect? || !reach.stats ==> r.stats == stats)
      && (forall k :: k != CounterKey ==> (k in r.stats <==> k in stats) && (k in stats ==> r.stats[k] == stats[k]))
      && (r.out.Redirect? <==> reach.links && code in links)
  {
  }

  /**
   * Round trip: a code created, then resolved before its time to live has
   * run out, redirects to the URL with its scheme enforced.
   */
  lemma RoundTrip(
    links: Partition<string>, stats: Partition<int>, req: Request, ip: string,
    isURL: bool, generated: string, cfg: Config, reach: Reach, dt: nat, later: Reach)
    requires isURL ==> |req.url| >= 4
    requires |generated| == 6
    requires dt < DefaultExpiry(req.expiry) * SecondsPerHour || req.expiry < 0
    requires later.links
    ensures var r := ShortenSpec(links, stats, req, ip, isURL, generated, cfg, reach);
      r.out.Ok? ==>
        ResolveSpec(Tick(r.links, dt), Tick(r.stats, dt), ChooseCode(req.customShort, generated), later).out
          == Redirect(EnforceHTTP(req.url))
  {
    var r := ShortenSpec(links, stats, req, ip, isURL, generated, cfg, reach);
    if r.out.Ok? {
      var code := ChooseCode(req.customShort, generated);
      var hours := DefaultExpiry(req.expiry);
      SuccessfulCreate(links, stats, req, ip, isURL, generated, cfg, reach);
      assert Survives(LinkTtl(hours), dt);
      LiveKeyKept(r.links, code, dt);
    }
  }

  /** After its time to live a created code is gone: resolving it gives 404. */
  lemma ExpiredCodeNotFound(
    links: Partition<string>, stats: Partition<int>, req: Request, ip: string,
    isURL: bool, generated: string, cfg: Config, reach: Reach, dt: nat, later: Reach)
    requires isURL ==> |req.url| >= 4
    requires |generated| == 6
    requires req.expiry >= 0 && dt >= DefaultExpiry(req.expiry) * SecondsPerHour
    requires later.links
    ensures var r := ShortenSpec(links, stats, req, ip, isURL, generated, cfg, reach);
      r.out.Ok? ==>
        ResolveSpec(Tick(r.links, dt), Tick(r.stats, dt), ChooseCode(req.customShort, generated), later).out
          == NotFound
  {
    var r := ShortenSpec(links, stats, req, ip, isURL, generated, cfg, reach);
    if r.out.Ok? {
      var code := ChooseCode(req.customShort, generated);
      SuccessfulCreate(links, stats, req, ip, isURL, generated, cfg, reach);
      ExpiredKeyGone(r.links, code, dt);
    }
  }

  /**
   * The worked example: with DOMAIN "short.ly", creating a link to
   * "https://example.com/page" on an empty store answers "short.ly/" and
   * the generated code, and following that code redirects to the page.
   */
  lemma ExampleRoundTrip(url: string, generated: string)
    requires url == "https://example.com/page"
    requires |generated| == 6
    ensures var cfg := Config("short.ly", 10);
      var up := Reach(true, true);
      var r := ShortenSpec(map[], map[], Request(url, "", 0), "10.0.0.1", true, generated, cfg, up);
      && r.out.Ok?
      && r.out.resp.short == "short.ly/" + generated
      && r.out.resp.rateRemaining == 9
      && r.out.resp.rateLimitReset == 30
      && ResolveSpec(r.links, r.stats, generated, up).out == Redirect(url)
  {
    ExampleAllowed(url);
    assert url[..4] == "http";
    assert "short.ly" + "/" + generated == "short.ly/" + generated;
  }

  lemma ExampleAllowed(url: string)
    requires url == "https://example.com/page"
    ensures RemoveDomainError(url, "short.ly")
  {
    var host, path := "example.com", "/page";
    assert url == "https://" + "" + host + path;
    assert 'w' !in host;
    NoWwwWithoutW(host);
    OtherHostAccepted("short.ly", "https://", false, host, path);
  }
}
