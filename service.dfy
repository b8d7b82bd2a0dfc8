/**
 * The shortener's store as one object: the links partition (database 0)
 * and the rate partition (database 1), which the two handlers read and
 * write in place, and the clock that makes keys expire.
 */
module Service {
  import opened Helpers
  import opened KeyValue
  import opened Shorten
  import opened Resolve

  class Store {
    var links: Partition<string>
    var stats: Partition<int>

    /** An empty store. */
    constructor ()
      ensures links == map[] && stats == map[]
    {
      links := map[];
      stats := map[];
    }

    /** `dt` seconds pass: every time to live counts down, and keys whose time runs out expire. */
    method Advance(dt: nat)
      modifies this
      ensures links == Tick(old(links), dt)
      ensures stats == Tick(old(stats), dt)
    {
      links := Tick(links, dt);
      stats := Tick(stats, dt);
    }

    /**
     * routes.ShortenURL on this store, one store call at a time: the rate
     * record is created or checked, the URL is validated and guarded, the
     * code is chosen and checked, the link is written and the quota is
     * decremented.
     */
    method Shorten(req: Request, ip: string, isURL: bool, generated: string, cfg: Config, reach: Reach)
      returns (out: Outcome)
      requires isURL ==> |req.url| >= 4
      requires |generated| == 6
      modifies this
      ensures Result(out, links, stats) == ShortenSpec(old(links), old(stats), req, ip, isURL, generated, cfg, reach)
      ensures !out.Ok? ==> links == old(links)
      ensures out.Ok? ==> links == old(links)[ChooseCode(req.customShort, generated) := Entry(out.resp.url, LinkTtl(out.resp.expiry))]
    {
      var body := req;
      // The rate limit.
      if !reach.stats {
        return RateLimited(0);
      }
      if ip !in stats {
        stats := stats[ip := Entry(cfg.quota, Expires(RateWindow))];
      } else if stats[ip].value <= 0 {
        return RateLimited(TtlMinutes(stats, ip));
      }
      if !isURL {
        return InvalidURL;
      }
      if !RemoveDomainError(body.url, cfg.domain) {
        return SelfReferential;
      }
      body := body.(url := EnforceHTTP(body.url));
      var id: string;
      if body.customShort == "" {
        id := generated;
      } else {
        id := body.customShort;
      }
      // The collision check: a store that does not answer reads as "".
      if reach.links && id in links && links[id].value != "" {
        return InUse;
      }
      if body.expiry == 0 {
        body := body.(expiry := DefaultExpiryHours);
      }
      if !reach.links {
        return StoreError;
      }
      links := links[id := Entry(body.url, LinkTtl(body.expiry))];
      stats := AddTo(stats, ip, -1);
      out := Ok(Response(body.url, cfg.domain + "/" + id, body.expiry, stats[ip].value, TtlMinutes(stats, ip)));
    }

    /** routes.ResolveURL on this store: it writes at most the rate partition's "counter" key. */
    method Resolve(code: string, reach: Reach) returns (out: Resolution)
      modifies this`stats
      ensures ResolveResult(out, stats) == ResolveSpec(links, old(stats), code, reach)
      ensures forall k :: k != CounterKey ==> (k in stats <==> k in old(stats)) && (k in stats ==> stats[k] == old(stats)[k])
    {
      if !reach.links {
        return DbError;
      }
      if code !in links {
        return NotFound;
      }
      var value := links[code].value;
      if reach.stats {
        stats := AddTo(stats, CounterKey, 1);
      }
      out := Redirect(value);
    }
  }

  /**
   * A client's view of the round trip: create a link, let `dt` seconds
   * pass, and follow the code at the end of the returned short URL.
   */
  method CreateWaitFollow(store: Store, req: Request, ip: string, isURL: bool, generated: string, cfg: Config, dt: nat)
    returns (created: Outcome, followed: Resolution)
    requires isURL ==> |req.url| >= 4
    requires |generated| == 6
    modifies store
    ensures created.Ok? ==> isURL
    ensures created.Ok? && (dt < created.resp.expiry * SecondsPerHour || created.resp.expiry < 0) ==>
      followed == Redirect(EnforceHTTP(req.url))
    ensures created.Ok? && created.resp.expiry > 0 && dt >= created.resp.expiry * SecondsPerHour ==>
      followed == NotFound
  {
    var links0, stats0 := store.links, store.stats;
    var up := Reach(true, true);
    created := store.Shorten(req, ip, isURL, generated, cfg, up);
    store.Advance(dt);
    if created.Ok? {
      ShortNamesCode(links0, stats0, req, ip, isURL, generated, cfg, up);
      SuccessfulCreate(links0, stats0, req, ip, isURL, generated, cfg, up);
      if dt < created.resp.expiry * SecondsPerHour || req.expiry < 0 {
        RoundTrip(links0, stats0, req, ip, isURL, generated, cfg, up, dt, up);
      }
      if req.expiry >= 0 && dt >= created.resp.expiry * SecondsPerHour {
        ExpiredCodeNotFound(links0, stats0, req, ip, isURL, generated, cfg, up, dt, up);
      }
      var code := created.resp.short[|cfg.domain| + 1..];
      followed := store.Resolve(code, up);
    } else {
      followed := store.Resolve(ChooseCode(req.customShort, generated), up);
    }
  }
}
