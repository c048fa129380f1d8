/** The request filter in front of the purchase and payment routes: a
    fixed-window rate limiter over an in-memory table from client IP to
    (count, window start), then a country check. The clock, the request
    headers and the country lookup are inputs. */
module Middleware {
  import opened Common
  import Strings
  import Constants

  const LOCALHOST: string := "127.0.0.1"
  const RETRY_AFTER_SECONDS: nat := 900

  /** What the filter answers for one request. */
  datatype Decision = Next | TooManyRequests(retryAfter: nat) | RegionNotAllowed
  {
    function Status(): nat {
      match this
      case Next => 200
      case TooManyRequests(_) => 429
      case RegionNotAllowed => 403
    }
  }

  /** One row of the rate-limit table. */
  datatype Entry = Entry(count: nat, timestamp: int)

  /** Only the purchase and payment API paths are filtered. */
  predicate Limited(pathname: string) {
    Strings.StartsWith(pathname, "/api/purchase") || Strings.StartsWith(pathname, "/api/dash")
  }

  /** The client address: the first comma-separated field of
      `x-forwarded-for` when it is not empty, else `x-real-ip`, else the
      loopback address. Header names are taken in lower case. */
  function ClientIp(headers: map<string, string>): (ip: string)
    ensures ip != ""
    ensures "x-forwarded-for" in headers && Strings.Split(headers["x-forwarded-for"], ',')[0] != "" ==>
      ip == Strings.Split(headers["x-forwarded-for"], ',')[0]
    ensures ("x-forwarded-for" !in headers || Strings.Split(headers["x-forwarded-for"], ',')[0] == "") ==>
      ip == ValueOr(headers, "x-real-ip", LOCALHOST)
  {
    var first := if "x-forwarded-for" in headers then Strings.Split(headers["x-forwarded-for"], ',')[0] else "";
    if first != "" then first else ValueOr(headers, "x-real-ip", LOCALHOST)
  }

  /** A proxy chain `client, proxy1, proxy2` identifies the client by its
      first hop, whatever the proxies appended. */
  lemma ForwardedClientFirst(headers: map<string, string>, client: string, proxies: seq<string>)
    requires client != "" && ',' !in client
    requires "x-forwarded-for" in headers
    requires headers["x-forwarded-for"] == Strings.Join([client] + proxies, ',')
    requires Strings.Separated(proxies, ',')
    ensures ClientIp(headers) == client
  {
    var parts := [client] + proxies;
    assert Strings.Separated(parts, ',') by {
      forall i | 0 <= i < |parts| ensures ',' !in parts[i] {
        if i > 0 { assert parts[i] == proxies[i - 1]; }
      }
    }
    Strings.SplitJoin(parts, ',');
  }

  /** The table key under which an address is counted. */
  function RateKey(ip: string): (key: string)
    ensures Strings.StartsWith(key, "rate_limit:") && key[|"rate_limit:"|..] == ip
  {
    "rate_limit:" + ip
  }

  /** An entry is stale once more than one window has passed since it was opened. */
  predicate Stale(e: Entry, now: int, windowMs: int) {
    now - e.timestamp > windowMs
  }

  /** The table after the cleanup pass: stale entries dropped, the rest untouched. */
  function Kept(m: map<string, Entry>, now: int, windowMs: int): (k: map<string, Entry>)
    ensures k.Keys <= m.Keys
    ensures forall key :: key in k ==> k[key] == m[key] && !Stale(m[key], now, windowMs)
    ensures forall key :: key in m && !Stale(m[key], now, windowMs) ==> key in k
  {
    map key | key in m && !Stale(m[key], now, windowMs) :: m[key]
  }

  /** The entry for `key` after counting one more request at `now`. */
  function Counted(m: map<string, Entry>, key: string, now: int, windowMs: int): (e: Entry)
    // the first request opens the window at `now`
    ensures key !in m ==> e == Entry(1, now)
    // after the window the count starts again at 1
    ensures key in m && Stale(m[key], now, windowMs) ==> e == Entry(1, now)
    // within the window the count grows and the window start is kept
    ensures key in m && !Stale(m[key], now, windowMs) ==> e == Entry(m[key].count + 1, m[key].timestamp)
  {
    var data := if key in m then m[key] else Entry(0, now);
    var current := if Stale(data, now, windowMs) then Entry(0, now) else data;
    Entry(current.count + 1, current.timestamp)
  }

  /** The whole table after one limited request for `key` at `now`. */
  function Step(m: map<string, Entry>, key: string, now: int, windowMs: int): map<string, Entry>
  {
    var k := Kept(m, now, windowMs);
    k[key := Counted(k, key, now, windowMs)]
  }

  /** The table after a run of requests for one key at the given times. */
  function Run(m: map<string, Entry>, key: string, times: seq<int>, windowMs: int): (r: map<string, Entry>)
    ensures times != [] ==> key in r
    decreases |times|
  {
    if times == [] then m
    else Step(Run(m, key, times[..|times| - 1], windowMs), key, times[|times| - 1], windowMs)
  }

  /** Requests that all fall within one window of the first are counted in
      that window: after n of them the count is n and the window opened at
      the first. */
  lemma {:induction false} RunWithinWindow(m: map<string, Entry>, key: string, times: seq<int>, windowMs: int)
    requires key !in m && times != []
    requires forall i :: 0 <= i < |times| ==> times[0] <= times[i] <= times[0] + windowMs
    ensures Run(m, key, times, windowMs)[key] == Entry(|times|, times[0])
    decreases |times|
  {
    var n := |times|;
    if n == 1 {
      assert Kept(m, times[0], windowMs)[key := Entry(1, times[0])] == Run(m, key, times, windowMs);
    } else {
      var prefix := times[..n - 1];
      assert prefix[0] == times[0];
      RunWithinWindow(m, key, prefix, windowMs);
      var before := Run(m, key, prefix, windowMs);
      assert before[key] == Entry(n - 1, times[0]);
      assert !Stale(before[key], times[n - 1], windowMs);
      var k := Kept(before, times[n - 1], windowMs);
      assert key in k && k[key] == before[key];
    }
  }

  /** With a limit of `limit` requests per window, inside one window the
      requests up to the limit pass the counter and every later one is over it. */
  lemma OverLimitExactlyAfter(m: map<string, Entry>, key: string, times: seq<int>, windowMs: int, limit: int)
    requires key !in m && times != []
    requires forall i :: 0 <= i < |times| ==> times[0] <= times[i] <= times[0] + windowMs
    ensures Run(m, key, times, windowMs)[key].count > limit <==> |times| > limit
  {
    RunWithinWindow(m, key, times, windowMs);
  }

  /** Addresses the country check never applies to. */
  predicate GeoExempt(ip: string) {
    ip == LOCALHOST || Strings.StartsWith(ip, "192.168.")
  }

  /** The country check: only in production, only for outside addresses, and
      only when the lookup names a country (an unknown country is let through). */
  predicate GeoBlocked(production: bool, ip: string, country: Option<string>, allowed: seq<string>) {
    production && !GeoExempt(ip) && country.Some? && country.value != "" && country.value !in allowed
  }

  /** A request is refused by country only in production, never for the
      local or a 192.168.* address, never when the lookup gives no country,
      never for a listed country, and always otherwise. */
  lemma GeoRule(production: bool, ip: string, country: Option<string>, allowed: seq<string>)
    ensures !production ==> !GeoBlocked(production, ip, country, allowed)
    ensures ip == LOCALHOST || Strings.StartsWith(ip, "192.168.") ==> !GeoBlocked(production, ip, country, allowed)
    ensures country.None? || country == Some("") ==> !GeoBlocked(production, ip, country, allowed)
    ensures country.Some? && country.value in allowed ==> !GeoBlocked(production, ip, country, allowed)
    ensures production && ip != LOCALHOST && !Strings.StartsWith(ip, "192.168.") &&
      country.Some? && country.value != "" && country.value !in allowed
      ==> GeoBlocked(production, ip, country, allowed)
  {
  }

  /** With the default countries, a public address located in Spain is
      refused in production and let through elsewhere; a home-network
      address is let through from anywhere. */
  lemma GeoExamples()
    ensures GeoBlocked(true, "8.8.8.8", Some("ES"), ["VE", "CO"])
    ensures !GeoBlocked(false, "8.8.8.8", Some("ES"), ["VE", "CO"])
    ensures !GeoBlocked(true, "8.8.8.8", Some("VE"), ["VE", "CO"])
    ensures !GeoBlocked(true, "192.168.1.20", Some("ES"), ["VE", "CO"])
  {
    assert !Strings.StartsWith("8.8.8.8", "192.168.") by {
      assert "8.8.8.8"[0] != "192.168."[0];
    }
    assert Strings.StartsWith("192.168.1.20", "192.168.") by {
      assert "192.168.1.20"[..8] == "192.168.";
    }
  }

  /** The module-level rate-limit table and the settings it is read with. */
  class RateLimiter {
    var store: map<string, Entry>
    const limit: int
    const windowMs: int
    const allowedCountries: seq<string>
    const production: bool

    constructor(config: Constants.Config, env: map<string, string>)
      ensures store == map[]
      ensures limit == config.rateLimitRequests && windowMs == config.rateLimitWindowMs
      ensures allowedCountries == config.allowedCountries
      ensures production <==> "NODE_ENV" in env && env["NODE_ENV"] == "production"
    {
      store := map[];
      limit := config.rateLimitRequests;
      windowMs := config.rateLimitWindowMs;
      allowedCountries := config.allowedCountries;
      production := "NODE_ENV" in env && env["NODE_ENV"] == "production";
    }

    /** `cleanupOldEntries`: delete every entry older than one window. */
    method CleanupOldEntries(now: int)
      modifies this`store
      ensures store == Kept(old(store), now, windowMs)
      ensures forall key :: key in store ==> !Stale(store[key], now, windowMs)
    {
      ghost var start := store;
      var pending := store.Keys;
      while pending != {}
        invariant pending <= start.Keys && store.Keys <= start.Keys
        invariant forall key :: key in store ==> store[key] == start[key]
        invariant forall key :: key in start && (key in pending || !Stale(start[key], now, windowMs)) ==> key in store
        invariant forall key :: key in store && key !in pending ==> !Stale(start[key], now, windowMs)
        decreases pending
      {
        var key :| key in pending;
        if Stale(store[key], now, windowMs) {
          store := map k | k in store && k != key :: store[k];
        }
        pending := pending - {key};
      }
      assert store.Keys == Kept(start, now, windowMs).Keys;
    }

    /** Count one request for `key` at `now` and write the entry back. */
    method Increment(key: string, now: int) returns (count: nat)
      modifies this`store
      ensures store == old(store)[key := Counted(old(store), key, now, windowMs)]
      ensures count == store[key].count
    {
      var data := if key in store then store[key] else Entry(0, now);
      if now - data.timestamp > windowMs {
        data := Entry(0, now);
      }
      data := data.(count := data.count + 1);
      store := store[key := data];
      count := data.count;
    }

    /** The filter for one request: pass other paths through; otherwise clean
        the table, count the request (a rejected one is counted too), answer
        429 over the limit, then apply the country check. */
    method Handle(pathname: string, headers: map<string, string>, now: int, countryOf: string -> Option<string>)
      returns (d: Decision)
      modifies this`store
      ensures !Limited(pathname) ==> d == Next && store == old(store)
      ensures Limited(pathname) ==>
        var ip := ClientIp(headers);
        var key := RateKey(ip);
        && store == Step(old(store), key, now, windowMs)
        && (d.TooManyRequests? <==> store[key].count > limit)
        && (d.TooManyRequests? ==> d.retryAfter == RETRY_AFTER_SECONDS)
        && (d == RegionNotAllowed <==>
              store[key].count <= limit && GeoBlocked(production, ip, countryOf(ip), allowedCountries))
    {
      if !Limited(pathname) {
        return Next;
      }
      var ip := ClientIp(headers);
      CleanupOldEntries(now);
      var count := Increment(RateKey(ip), now);
      if count > limit {
        return TooManyRequests(RETRY_AFTER_SECONDS);
      }
      if production && ip != LOCALHOST && !Strings.StartsWith(ip, "192.168.") {
        var country := countryOf(ip);
        if country.Some? && country.value != "" && country.value !in allowedCountries {
          return RegionNotAllowed;
        }
      }
      d := Next;
    }
  }
}
