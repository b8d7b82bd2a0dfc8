/**
 * The create operation (routes.ShortenURL) as a function of the two store
 * partitions it reads: the links (database 0, code -> URL) and the rate
 * records (database 1, client address -> remaining quota, next to the
 * global "counter" key). The things the handler asks the outside world for
 * are parameters: whether govalidator.IsURL accepts the URL, the six
 * characters cut from a fresh UUID, the DOMAIN and API_QUOTA settings, and
 * which partitions answer during the request.
 */
module Shorten {
  import opened Helpers
  import opened KeyValue

  /** The JSON body of a create request; `expiry` is in hours. */
  datatype Request = Request(url: string, customShort: string, expiry: int)

  /** The JSON body of a successful reply. */
  datatype Response = Response(
    url: string,
    short: string,
    expiry: int,
    rateRemaining: int,
    rateLimitReset: int)

  /** Every way a create request ends. */
  datatype Outcome =
    | RateLimited(resetMinutes: int)  // 503 "Rate limit exceeded"
    | InvalidURL                      // 400 "Invalid URL"
    | SelfReferential                 // 503 "haha... nice try"
    | InUse                           // 403 "URL short already in use"
    | StoreError                      // 500 "Unable to connect to server"
    | Ok(resp: Response)              // 200 with the response body

  /** The DOMAIN and API_QUOTA settings. */
  datatype Config = Config(domain: string, quota: int)

  /** Which partitions of the store answer during one request. */
  datatype Reach = Reach(links: bool, stats: bool)

  /** A create's reply together with both partitions after it. */
  datatype Result = Result(out: Outcome, links: Partition<string>, stats: Partition<int>)

  /** The rate-limit window: 30 * 60 seconds. */
  const RateWindow: Seconds := 1800

  const DefaultExpiryHours := 24

  const SecondsPerHour := 3600

  /** The rate record a first request from a client creates. */
  function FreshRecord(quota: int): Entry<int>
  {
    Entry(quota, Expires(RateWindow))
  }

  /** How the rate-limit step ends: go on (with the rate partition), or refuse. */
  datatype Gate = Admit(stats: Partition<int>) | Deny(resetMinutes: int)

  /**
   * The rate-limit step. A missing record is created with the quota and the
   * window and the request goes on; a record at or below zero refuses it
   * with the record's time to live in minutes. When the partition does not
   * answer, the failed read is not "missing": it is read back as "", which
   * strconv.Atoi turns into 0, and the failed TTL query reports 0 minutes.
   */
  function RateGate(stats: Partition<int>, ip: string, quota: int, up: bool): Gate
  {
    if !up then Deny(0)
    else if ip !in stats then Admit(stats[ip := FreshRecord(quota)])
    else if stats[ip].value <= 0 then Deny(TtlMinutes(stats, ip))
    else Admit(stats)
  }

  /** The custom code when one is given, otherwise the generated one. */
  function ChooseCode(custom: string, generated: string): (code: string)
    requires |generated| == 6
    ensures custom != "" ==> code == custom
    ensures custom == "" ==> code == generated && |code| == 6
    ensures code != ""
  {
    if custom == "" then generated else custom
  }

  /** An expiry of 0 hours means the default of 24. */
  function DefaultExpiry(hours: int): (h: int)
    ensures h != 0
    ensures hours != 0 ==> h == hours
    ensures hours == 0 ==> h == DefaultExpiryHours
  {
    if hours == 0 then DefaultExpiryHours else hours
  }

  /**
   * The time to live `SET` gives a link stored for `hours` hours. go-redis
   * sends no expiry for a duration that is not positive, so a negative
   * expiry stores the link for good.
   */
  function LinkTtl(hours: int): (t: Ttl)
    ensures forall dt: nat :: Survives(t, dt) <==> hours <= 0 || dt < hours * SecondsPerHour
  {
    if hours > 0 then Expires(hours * SecondsPerHour) else Persistent
  }

  /** The collision test: `GET code` yields a non-empty value. */
  predicate InUseBy(links: Partition<string>, code: string)
  {
    code in links && links[code].value != ""
  }

  /** The create operation, step by step as the handler takes them. */
  function ShortenSpec(
    links: Partition<string>, stats: Partition<int>, req: Request, ip: string,
    isURL: bool, generated: string, cfg: Config, reach: Reach): Result
    requires isURL ==> |req.url| >= 4
    requires |generated| == 6
  {
    match RateGate(stats, ip, cfg.quota, reach.stats)
    case Deny(minutes) => Result(RateLimited(minutes), links, stats)
    case Admit(st) =>
      if !isURL then Result(InvalidURL, links, st)
      else if !RemoveDomainError(req.url, cfg.domain) then Result(SelfReferential, links, st)
      else
        var url := EnforceHTTP(req.url);
        var code := ChooseCode(req.customShort, generated);
        if reach.links && InUseBy(links, code) then Result(InUse, links, st)
        else
          var hours := DefaultExpiry(req.expiry);
          if !reach.links then Result(StoreError, links, st)
          else
            var st' := AddTo(st, ip, -1);
            var resp := Response(url, cfg.domain + "/" + code, hours, st'[ip].value, TtlMinutes(st', ip));
            Result(Ok(resp), links[code := Entry(url, LinkTtl(hours))], st')
  }

  /** The HTTP status of each outcome. */
  function Status(out: Outcome): (code: int)
    ensures code == 200 <==> out.Ok?
    ensures code == 503 <==> out.RateLimited? || out.SelfReferential?
    ensures code == 400 <==> out.InvalidURL?
    ensures code == 403 <==> out.InUse?
    ensures code == 500 <==> out.StoreError?
  {
    match out
    case RateLimited(_) => 503
    case InvalidURL => 400
    case SelfReferential => 503
    case InUse => 403
    case StoreError => 500
    case Ok(_) => 200
  }

  // ---------------------------------------------------------------------
  // Properties of the create operation.

  /**
   * The checks run in a fixed order, and each outcome happens exactly when
   * the checks before it pass and its own fails: rate limit, URL validity,
   * domain guard, collision, store write.
   */
  lemma CheckOrder(
    links: Partition<string>, stats: Partition<int>, req: Request, ip: string,
    isURL: bool, generated: string, cfg: Config, reach: Reach)
    requires isURL ==> |req.url| >= 4
    requires |generated| == 6
    ensures var r := ShortenSpec(links, stats, req, ip, isURL, generated, cfg, reach);
      var admitted := RateGate(stats, ip, cfg.quota, reach.stats).Admit?;
      var allowed := isURL && RemoveDomainError(req.url, cfg.domain);
      var taken := reach.links && InUseBy(links, ChooseCode(req.customShort, generated));
      && (r.out.RateLimited? <==> !admitted)
      && (r.out == InvalidURL <==> admitted && !isURL)
      && (r.out == SelfReferential <==> admitted && isURL && !RemoveDomainError(req.url, cfg.domain))
      && (r.out == InUse <==> admitted && allowed && taken)
      && (r.out == StoreError <==> admitted && allowed && !reach.links)
      && (r.out.Ok? <==> admitted && allowed && reach.links && !taken)
  {
  }

  /** A client without a live record gets one holding the full quota for 30 minutes, and is let through. */
  lemma FirstRequestCreatesRecord(
    links: Partition<string>, stats: Partition<int>, req: Request, ip: string,
    isURL: bool, generated: string, cfg: Config, reach: Reach)
    requires isURL ==> |req.url| >= 4
    requires |generated| == 6
    requires reach.stats && ip !in stats
    ensures var r := ShortenSpec(links, stats, req, ip, isURL, generated, cfg, reach);
      && !r.out.RateLimited?
      && (!r.out.Ok? ==> r.stats == stats[ip := Entry(cfg.quota, Expires(1800))])
  {
  }

  /**
   * A client whose record is at or below zero is refused with the record's
   * time to live in whole minutes, and neither partition changes.
   */
  lemma ExhaustedQuotaRefused(
    links: Partition<string>, stats: Partition<int>, req: Request, ip: string,
    isURL: bool, generated: string, cfg: Config, reach: Reach)
    requires isURL ==> |req.url| >= 4
    requires |generated| == 6
    requires reach.stats && ip in stats && stats[ip].value <= 0
    ensures ShortenSpec(links, stats, req, ip, isURL, generated, cfg, reach)
         == Result(RateLimited(TtlMinutes(stats, ip)), links, stats)
  {
  }

  /** With the rate partition unreachable every request reads as rate limited, with 0 minutes. */
  lemma UnreachableRatesRefuse(
    links: Partition<string>, stats: Partition<int>, req: Request, ip: string,
    isURL: bool, generated: string, cfg: Config, reach: Reach)
    requires isURL ==> |req.url| >= 4
    requires |generated| == 6
    requires !reach.stats
    ensures ShortenSpec(links, stats, req, ip, isURL, generated, cfg, reach) == Result(RateLimited(0), links, stats)
  {
  }

  /**
   * A refused request writes no link and takes nothing from the quota: the
   * rate partition is as before, or (on a client's first request) holds
   * just the new full record.
   */
  lemma RefusalWritesNothing(
    links: Partition<string>, stats: Partition<int>, req: Request, ip: string,
    isURL: bool, generated: string, cfg: Config, reach: Reach)
    requires isURL ==> |req.url| >= 4
    requires |generated| == 6
    ensures var r := ShortenSpec(links, stats, req, ip, isURL, generated, cfg, reach);
      !r.out.Ok? ==>
        && r.links == links
        && (r.stats == stats || (ip !in stats && r.stats == stats[ip := FreshRecord(cfg.quota)]))
  {
  }

  /**
   * A successful create stores `code -> EnforceHTTP(url)` for the requested
   * number of hours (24 when 0 was asked), takes exactly one from the
   * client's quota without touching its window, leaves every other key
   * alone, and reports the new quota, the window's minutes and
   * DOMAIN + "/" + code.
   */
  lemma SuccessfulCreate(
    links: Partition<string>, stats: Partition<int>, req: Request, ip: string,
    isURL: bool, generated: string, cfg: Config, reach: Reach)
    requires isURL ==> |req.url| >= 4
    requires |generated| == 6
    ensures var r := ShortenSpec(links, stats, req, ip, isURL, generated, cfg, reach);
      var code := ChooseCode(req.customShort, generated);
      var hours := DefaultExpiry(req.expiry);
      var before := if ip in stats then stats[ip] else FreshRecord(cfg.quota);
      r.out.Ok? ==>
        && r.links == links[code := Entry(EnforceHTTP(req.url), LinkTtl(hours))]
        && ip in r.stats && r.stats[ip] == Entry(before.value - 1, before.ttl)
        && (forall k :: k != ip ==> (k in r.stats <==> k in stats) && (k in stats ==> r.stats[k] == stats[k]))
        && r.out.resp == Response(EnforceHTTP(req.url), cfg.domain + "/" + code, hours,
                                  before.value - 1, TtlMinutes(r.stats, ip))
  {
  }

  /** A code that is in use keeps its mapping: the request is refused and nothing is overwritten. */
  lemma InUseNotOverwritten(
    links: Partition<string>, stats: Partition<int>, req: Request, ip: string,
    isURL: bool, generated: string, cfg: Config, reach: Reach)
    requires isURL ==> |req.url| >= 4
    requires |generated| == 6
    requires reach.links && InUseBy(links, ChooseCode(req.customShort, generated))
    ensures var r := ShortenSpec(links, stats, req, ip, isURL, generated, cfg, reach);
      !r.out.Ok? && r.links == links
  {
  }

  /** The code a client reads back from `short` is the one stored. */
  lemma ShortNamesCode(
    links: Partition<string>, stats: Partition<int>, req: Request, ip: string,
    isURL: bool, generated: string, cfg: Config, reach: Reach)
    requires isURL ==> |req.url| >= 4
    requires |generated| == 6
    ensures var r := ShortenSpec(links, stats, req, ip, isURL, generated, cfg, reach);
      r.out.Ok? ==>
        var short := r.out.resp.short;
        && |short| > |cfg.domain|
        && short[..|cfg.domain| + 1] == cfg.domain + "/"
        && short[|cfg.domain| + 1..] == ChooseCode(req.customShort, generated)
        && short[|cfg.domain| + 1..] in r.links
  {
  }

  /**
   * Asking twice for the same custom code: once the first request has
   * created it, the second, whatever its URL, never succeeds and changes no
   * link; when it gets past the rate limit with a valid, allowed URL, it is
   * answered "URL short already in use".
   */
  lemma CustomCodeTakenOnce(
    links: Partition<string>, stats: Partition<int>, req1: Request, req2: Request, ip: string,
    isURL1: bool, isURL2: bool, gen1: string, gen2: string, cfg: Config, reach: Reach)
    requires isURL1 ==> |req1.url| >= 4
    requires isURL2 ==> |req2.url| >= 4
    requires |gen1| == 6 && |gen2| == 6
    requires req1.customShort != "" && req2.customShort == req1.customShort
    requires reach.links
    ensures var r1 := ShortenSpec(links, stats, req1, ip, isURL1, gen1, cfg, reach);
      var r2 := ShortenSpec(r1.links, r1.stats, req2, ip, isURL2, gen2, cfg, reach);
      r1.out.Ok? ==>
        && !r2.out.Ok? && r2.links == r1.links
        && (var admitted := RateGate(r1.stats, ip, cfg.quota, reach.stats).Admit?;
            admitted && isURL2 && RemoveDomainError(req2.url, cfg.domain) ==> r2.out == InUse)
  {
    var r1 := ShortenSpec(links, stats, req1, ip, isURL1, gen1, cfg, reach);
    if r1.out.Ok? {
      var code := req1.customShort;
      assert r1.links[code].value == EnforceHTTP(req1.url);
      InUseNotOverwritten(r1.links, r1.stats, req2, ip, isURL2, gen2, cfg, reach);
      CheckOrder(r1.links, r1.stats, req2, ip, isURL2, gen2, cfg, reach);
    }
  }

  /**
   * Once a client's window has passed, its record is gone, so its next
   * request is not rate limited and starts a full quota again: the record
   * it leaves holds API_QUOTA, or one less when it succeeds, for a new
   * 30-minute window.
   */
  lemma WindowResets(
    links: Partition<string>, stats: Partition<int>, req: Request, ip: string,
    isURL: bool, generated: string, cfg: Config, reach: Reach, dt: nat)
    requires isURL ==> |req.url| >= 4
    requires |generated| == 6
    requires ip in stats && stats[ip].ttl.Expires? && stats[ip].ttl.left <= dt
    requires reach.stats
    ensures var r := ShortenSpec(links, Tick(stats, dt), req, ip, isURL, generated, cfg, reach);
      && !r.out.RateLimited?
      && ip in r.stats
      && r.stats[ip] == (if r.out.Ok? then Entry(cfg.quota - 1, Expires(RateWindow)) else FreshRecord(cfg.quota))
  {
    ExpiredKeyGone(stats, ip, dt);
    FirstRequestCreatesRecord(links, Tick(stats, dt), req, ip, isURL, generated, cfg, reach);
    SuccessfulCreate(links, Tick(stats, dt), req, ip, isURL, generated, cfg, reach);
  }

  /** The worked example: with DOMAIN "short.ly", a link to "http://short.ly" is refused as self-referential. */
  lemma ExampleSelfLink(
    links: Partition<string>, stats: Partition<int>, url: string, ip: string,
    generated: string, reach: Reach)
    requires url == "http://short.ly"
    requires |generated| == 6
    requires reach.stats && ip !in stats
    ensures ShortenSpec(links, stats, Request(url, "", 0), ip, true, generated, Config("short.ly", 10), reach).out
         == SelfReferential
  {
    var domain := "short.ly";
    assert url == "http://" + "" + domain + "";
    NoWwwWithoutW(domain);
    SelfLinkRejected(domain, "http://", false, "");
  }

  // ---------------------------------------------------------------------
  // At most the quota per window.

  /** One create request of a series from the same client, made `dt` seconds after the one before. */
  datatype Call = Call(dt: nat, req: Request, isURL: bool, generated: string, reach: Reach)

  predicate WellFormed(calls: seq<Call>)
  {
    forall i :: 0 <= i < |calls| ==> (calls[i].isURL ==> |calls[i].req.url| >= 4) && |calls[i].generated| == 6
  }

  /** The seconds from the start of the series to its last request. */
  function Elapsed(calls: seq<Call>): nat
  {
    if calls == [] then 0 else calls[0].dt + Elapsed(calls[1..])
  }

  /** How many of `calls` succeed, each made once its `dt` seconds have passed. */
  function Successes(links: Partition<string>, stats: Partition<int>, ip: string, cfg: Config, calls: seq<Call>): nat
    requires WellFormed(calls)
    decreases |calls|
  {
    if calls == [] then 0
    else
      var c := calls[0];
      var r := ShortenSpec(Tick(links, c.dt), Tick(stats, c.dt), c.req, ip, c.isURL, c.generated, cfg, c.reach);
      (if r.out.Ok? then 1 else 0) + Successes(r.links, r.stats, ip, cfg, calls[1..])
  }

  function Max0(n: int): nat
  {
    if n > 0 then n else 0
  }

  lemma WellFormedTail(calls: seq<Call>)
    requires WellFormed(calls) && calls != []
    ensures WellFormed(calls[1..])
  {
    forall i | 0 <= i < |calls| - 1 ensures calls[1..][i] == calls[i + 1] { }
  }

  /**
   * What one request does to an existing record: at most one off, and only
   * on success; its window is never touched.
   */
  lemma OneStep(
    links: Partition<string>, stats: Partition<int>, req: Request, ip: string,
    isURL: bool, generated: string, cfg: Config, reach: Reach)
    requires isURL ==> |req.url| >= 4
    requires |generated| == 6
    requires ip in stats
    ensures var r := ShortenSpec(links, stats, req, ip, isURL, generated, cfg, reach);
      && ip in r.stats
      && r.stats[ip].ttl == stats[ip].ttl
      && (r.out.Ok? ==> stats[ip].value > 0 && r.stats[ip].value == stats[ip].value - 1)
      && (!r.out.Ok? ==> r.stats[ip].value == stats[ip].value)
  {
    var r := ShortenSpec(links, stats, req, ip, isURL, generated, cfg, reach);
    RefusalWritesNothing(links, stats, req, ip, isURL, generated, cfg, reach);
    SuccessfulCreate(links, stats, req, ip, isURL, generated, cfg, reach);
  }

  /**
   * A client whose record holds `v` gets at most `v` links created from
   * requests made before that record's window ends, however they are
   * spread over it.
   */
  lemma {:induction false} QuotaBoundsSuccesses(
    links: Partition<string>, stats: Partition<int>, ip: string, cfg: Config, calls: seq<Call>)
    requires WellFormed(calls)
    requires ip in stats && Survives(stats[ip].ttl, Elapsed(calls))
    ensures Successes(links, stats, ip, cfg, calls) <= Max0(stats[ip].value)
    decreases |calls|
  {
    if calls != [] {
      var c := calls[0];
      var l1, s1 := Tick(links, c.dt), Tick(stats, c.dt);
      LiveKeyKept(stats, ip, c.dt);
      var r := ShortenSpec(l1, s1, c.req, ip, c.isURL, c.generated, cfg, c.reach);
      OneStep(l1, s1, c.req, ip, c.isURL, c.generated, cfg, c.reach);
      WellFormedTail(calls);
      QuotaBoundsSuccesses(r.links, r.stats, ip, cfg, calls[1..]);
    }
  }

  /**
   * A client without a record gets at most API_QUOTA links from requests
   * made within the 30 minutes after its first one; a quota of 0 or less
   * still lets one request through, since the first request is never
   * checked against the value it stores.
   */
  lemma {:induction false} FreshWindowBound(
    links: Partition<string>, stats: Partition<int>, ip: string, cfg: Config, calls: seq<Call>)
    requires WellFormed(calls)
    requires ip !in stats
    requires calls != [] ==> Elapsed(calls[1..]) < RateWindow
    ensures Successes(links, stats, ip, cfg, calls) <= if cfg.quota > 0 then cfg.quota else 1
    decreases |calls|
  {
    if calls != [] {
      var c := calls[0];
      var l1, s1 := Tick(links, c.dt), Tick(stats, c.dt);
      var r := ShortenSpec(l1, s1, c.req, ip, c.isURL, c.generated, cfg, c.reach);
      WellFormedTail(calls);
      RefusalWritesNothing(l1, s1, c.req, ip, c.isURL, c.generated, cfg, c.reach);
      SuccessfulCreate(l1, s1, c.req, ip, c.isURL, c.generated, cfg, c.reach);
      if ip in r.stats {
        assert r.stats[ip].ttl == Expires(RateWindow);
        QuotaBoundsSuccesses(r.links, r.stats, ip, cfg, calls[1..]);
      } else {
        FreshWindowBound(r.links, r.stats, ip, cfg, calls[1..]);
      }
    }
  }
}
