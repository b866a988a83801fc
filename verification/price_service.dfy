/**
 * Price resolution (backend/internal/services/price_service.go): the Redis cache, the
 * CoinGecko reply and the `price_caches` table, tried in that order, and the USD-intermediated
 * conversion built on top of the resolved map. Prices are exact reals.
 */
module Prices {
  import opened Wrappers
  import opened Models
  import opened Store

  /** The seven quoted symbols, in the order the cache is read. */
  const Symbols: seq<string> := ["BTC", "ETH", "USDT", "USDC", "ADA", "SOL", "MATIC"]

  /** CoinGecko coin id to quoted symbol. */
  const SymbolOfId: map<string, string> := map[
    "bitcoin" := "BTC", "ethereum" := "ETH", "tether" := "USDT", "usd-coin" := "USDC",
    "cardano" := "ADA", "solana" := "SOL", "polygon" := "MATIC"]

  /** The id table names each quoted symbol exactly once. */
  lemma IdTableShape()
    ensures SymbolOfId.Values == set s | s in Symbols
    ensures forall a, b :: a in SymbolOfId && b in SymbolOfId && SymbolOfId[a] == SymbolOfId[b] ==> a == b
  {
    IdTableInjective();
    forall s | s in Symbols
      ensures s in SymbolOfId.Values
    {
      var id :=
        if s == "BTC" then "bitcoin" else if s == "ETH" then "ethereum" else if s == "USDT" then "tether"
        else if s == "USDC" then "usd-coin" else if s == "ADA" then "cardano" else if s == "SOL" then "solana"
        else "polygon";
      assert SymbolOfId[id] == s;
    }
  }

  lemma IdTableInjective()
    ensures forall a, b :: a in SymbolOfId && b in SymbolOfId && SymbolOfId[a] == SymbolOfId[b] ==> a == b
  {
  }

  // ---------------------------------------------------------------- cache tier

  /** The Redis key of a symbol's price. */
  function CacheKey(symbol: string): (key: string)
    ensures |key| == |symbol| + 6 && key[..6] == "price:" && key[6..] == symbol
  {
    "price:" + symbol
  }

  lemma CacheKeyInjective()
    ensures forall a, b :: CacheKey(a) == CacheKey(b) ==> a == b
  {
    forall a, b | CacheKey(a) == CacheKey(b)
      ensures a == b
    {
      assert a == CacheKey(a)[6..];
    }
  }

  /** A cached value: the JSON encoding of a price, or text that does not decode as a number. */
  datatype CacheEntry = Encoded(price: real) | Undecodable

  /** The error go-redis reports for a missing key. */
  const RedisNil: string := "redis: nil"

  /**
   * Reading `symbols` from the cache in order: a missing key is an error, an entry that does
   * not decode is skipped. Only the missing-key error is modelled: a Redis outage, which go-redis
   * reports with another text, appears here as missing keys. `GetPrices` discards the error
   * either way and falls through to the next tier.
   */
  function ReadCache(entries: map<string, CacheEntry>, symbols: seq<string>): (r: Result<map<string, real>, string>)
    ensures r.Ok? <==> forall s :: s in symbols ==> CacheKey(s) in entries
    ensures r.Err? ==> r.error == RedisNil
    ensures r.Ok? ==> forall s :: s in r.value <==> s in symbols && entries[CacheKey(s)].Encoded?
    ensures r.Ok? ==> forall s :: s in r.value ==> r.value[s] == entries[CacheKey(s)].price
  {
    if symbols == [] then Ok(map[])
    else
      var init, s := symbols[..|symbols| - 1], symbols[|symbols| - 1];
      assert symbols == init + [s];
      match ReadCache(entries, init)
      case Err(e) => Err(e)
      case Ok(m) =>
        if CacheKey(s) !in entries then Err(RedisNil)
        else if entries[CacheKey(s)].Encoded? then Ok(m[s := entries[CacheKey(s)].price])
        else Ok(m)
  }

  /** The Redis keyspace the service uses (expiry is not modelled). */
  class RedisCache {
    var entries: map<string, CacheEntry>

    constructor()
      ensures entries == map[]
    {
      entries := map[];
    }
  }

  /** `getPricesFromCache`: all seven keys are required; undecodable values are skipped. */
  method GetPricesFromCache(cache: RedisCache) returns (r: Result<map<string, real>, string>)
    ensures r == ReadCache(cache.entries, Symbols)
  {
    var prices := map[];
    var i := 0;
    while i < |Symbols|
      invariant 0 <= i <= |Symbols|
      invariant ReadCache(cache.entries, Symbols[..i]) == Ok(prices)
    {
      var symbol := Symbols[i];
      assert Symbols[..i + 1][..i] == Symbols[..i];
      assert Symbols[..i + 1][i] == symbol;
      var key := CacheKey(symbol);
      if key !in cache.entries {
        assert symbol in Symbols;
        return Err(RedisNil);
      }
      var entry := cache.entries[key];
      if entry.Encoded? {
        prices := prices[symbol := entry.price];
      }
      i := i + 1;
    }
    assert Symbols[..i] == Symbols;
    return Ok(prices);
  }

  /** The cache entries written for the symbols of `prices` that lie in `keys`. */
  function CacheWrites(prices: map<string, real>, keys: set<string>): map<string, CacheEntry> {
    CacheKeyInjective();
    map s | s in prices && s in keys :: CacheKey(s) := Encoded(prices[s])
  }

  lemma CacheWritesStep(prices: map<string, real>, keys: set<string>, s: string)
    requires s in prices
    ensures CacheWrites(prices, keys + {s}) == CacheWrites(prices, keys)[CacheKey(s) := Encoded(prices[s])]
  {
    CacheKeyInjective();
  }

  /**
   * `cachePrices`: queues one SET per symbol and executes the pipeline; `execError` is the
   * outcome of `Exec`. A failed pipeline is taken to write nothing.
   */
  method CachePrices(cache: RedisCache, prices: map<string, real>, execError: Option<string>) returns (err: Option<string>)
    modifies cache
    ensures err == execError
    ensures execError.None? ==> cache.entries == old(cache.entries) + CacheWrites(prices, prices.Keys)
    ensures execError.Some? ==> cache.entries == old(cache.entries)
  {
    var queued: map<string, CacheEntry> := map[];
    var remaining := prices.Keys;
    while remaining != {}
      invariant remaining <= prices.Keys
      invariant queued == CacheWrites(prices, prices.Keys - remaining)
      invariant cache.entries == old(cache.entries)
      decreases |remaining|
    {
      var s :| s in remaining;
      CacheWritesStep(prices, prices.Keys - remaining, s);
      queued := queued[CacheKey(s) := Encoded(prices[s])];
      assert prices.Keys - (remaining - {s}) == (prices.Keys - remaining) + {s};
      remaining := remaining - {s};
    }
    assert prices.Keys - remaining == prices.Keys;
    if execError.Some? {
      return execError;
    }
    cache.entries := cache.entries + queued;
    return None;
  }

  /**
   * Once a full set of seven prices has been cached, reading the cache gives exactly those
   * prices back.
   */
  lemma CachedPricesReadBack(entries: map<string, CacheEntry>, prices: map<string, real>)
    requires prices.Keys == set s | s in Symbols
    ensures ReadCache(entries + CacheWrites(prices, prices.Keys), Symbols) == Ok(prices)
  {
    CacheKeyInjective();
    var after := entries + CacheWrites(prices, prices.Keys);
    forall s | s in Symbols
      ensures CacheKey(s) in after && after[CacheKey(s)] == Encoded(prices[s])
    {
      assert s in prices;
    }
    var r := ReadCache(after, Symbols);
    assert r.Ok?;
    assert r.value == prices;
  }

  /**
   * A cached set that lacks a symbol which was not cached before leaves the cache unusable:
   * the next read fails and the service goes upstream again.
   */
  lemma PartialCacheMisses(entries: map<string, CacheEntry>, prices: map<string, real>, s: string)
    requires s in Symbols && s !in prices && CacheKey(s) !in entries
    ensures ReadCache(entries + CacheWrites(prices, prices.Keys), Symbols).Err?
  {
    CacheKeyInjective();
  }

  // ---------------------------------------------------------------- upstream tier

  /** The decoded CoinGecko reply: coin id to (quote currency to price). */
  type Quotes = map<string, map<string, real>>

  /** A renaming table that sends distinct coin ids to distinct symbols. */
  ghost predicate Injective(table: map<string, string>) {
    forall a, b :: a in table && b in table && table[a] == table[b] ==> a == b
  }

  /** The USD prices of the coins in `ids`, renamed by `table`. */
  function Quoted(table: map<string, string>, quotes: Quotes, ids: set<string>): map<string, real>
    requires Injective(table) && ids <= table.Keys
  {
    map id | id in ids && id in quotes && "usd" in quotes[id] :: table[id] := quotes[id]["usd"]
  }

  /** Adding one coin id adds at most its own entry. */
  lemma QuotedStep(table: map<string, string>, quotes: Quotes, ids: set<string>, id: string)
    requires Injective(table) && ids <= table.Keys && id in table
    ensures Quoted(table, quotes, ids + {id}) ==
      if id in quotes && "usd" in quotes[id] then Quoted(table, quotes, ids)[table[id] := quotes[id]["usd"]]
      else Quoted(table, quotes, ids)
  {
  }

  /** The USD prices of the coins in `ids`, under their symbols. */
  function UpstreamPrices(quotes: Quotes, ids: set<string>): map<string, real>
    requires ids <= SymbolOfId.Keys
  {
    IdTableInjective();
    Quoted(SymbolOfId, quotes, ids)
  }

  lemma UpstreamStep(quotes: Quotes, ids: set<string>, id: string)
    requires ids <= SymbolOfId.Keys && id in SymbolOfId
    ensures UpstreamPrices(quotes, ids + {id}) ==
      if id in quotes && "usd" in quotes[id] then UpstreamPrices(quotes, ids)[SymbolOfId[id] := quotes[id]["usd"]]
      else UpstreamPrices(quotes, ids)
  {
    IdTableInjective();
    QuotedStep(SymbolOfId, quotes, ids, id);
  }

  /**
   * The upstream map holds only quoted symbols, and a symbol is present exactly when its coin
   * id is in the reply with a "usd" entry, with that price.
   */
  lemma UpstreamCharacterisation(quotes: Quotes)
    ensures UpstreamPrices(quotes, SymbolOfId.Keys).Keys <= set s | s in Symbols
    ensures forall id :: id in SymbolOfId ==>
      (SymbolOfId[id] in UpstreamPrices(quotes, SymbolOfId.Keys) <==> id in quotes && "usd" in quotes[id])
    ensures forall id :: id in SymbolOfId && id in quotes && "usd" in quotes[id] ==>
      UpstreamPrices(quotes, SymbolOfId.Keys)[SymbolOfId[id]] == quotes[id]["usd"]
  {
    IdTableShape();
  }

  /**
   * `fetchPricesFromAPI` after the HTTP exchange: `response` is the decoded reply or the
   * request's error. The mapping table is walked in an unspecified order, as Go's map range.
   */
  method FetchPricesFromAPI(response: Result<Quotes, string>) returns (r: Result<map<string, real>, string>)
    ensures response.Err? ==> r == Err(response.error)
    ensures response.Ok? ==> r == Ok(UpstreamPrices(response.value, SymbolOfId.Keys))
  {
    if response.Err? {
      return Err(response.error);
    }
    var quotes := response.value;
    var prices := map[];
    var remaining := SymbolOfId.Keys;
    while remaining != {}
      invariant remaining <= SymbolOfId.Keys
      invariant prices == UpstreamPrices(quotes, SymbolOfId.Keys - remaining)
      decreases |remaining|
    {
      var id :| id in remaining;
      UpstreamStep(quotes, SymbolOfId.Keys - remaining, id);
      if id in quotes && "usd" in quotes[id] {
        prices := prices[SymbolOfId[id] := quotes[id]["usd"]];
      }
      assert SymbolOfId.Keys - (remaining - {id}) == (SymbolOfId.Keys - remaining) + {id};
      remaining := remaining - {id};
    }
    assert SymbolOfId.Keys - remaining == SymbolOfId.Keys;
    return Ok(prices);
  }

  // ---------------------------------------------------------------- database tier

  /** The rows `storePricesInDB` saves: one per symbol not in `skipped`, keyed by currency. */
  function Upserts(prices: map<string, real>, skipped: set<string>, now: Time): map<string, PriceCache> {
    map c | c in prices && c !in skipped :: PriceCache(c, prices[c], now)
  }

  lemma UnionUpdate<K, V>(base: map<K, V>, rows: map<K, V>, k: K, v: V)
    ensures (base + rows)[k := v] == base + rows[k := v]
  {
  }

  /** Saving one more symbol adds (or replaces) its row. */
  lemma UpsertsStep(prices: map<string, real>, skipped: set<string>, c: string, now: Time)
    requires c in prices
    ensures Upserts(prices, skipped - {c}, now) == Upserts(prices, skipped, now)[c := PriceCache(c, prices[c], now)]
  {
  }

  /**
   * `storePricesInDB`: saves each price; `failing` are the symbols whose save fails, which is
   * only logged, so the operation always reports success.
   */
  method StorePricesInDB(db: Database, prices: map<string, real>, failing: set<string>, now: Time) returns (err: Option<string>)
    requires db.Valid()
    modifies db`priceRows
    ensures db.Valid()
    ensures err == None
    ensures db.priceRows == old(db.priceRows) + Upserts(prices, failing, now)
  {
    var remaining := prices.Keys;
    while remaining != {}
      invariant remaining <= prices.Keys
      invariant db.Valid()
      invariant db.priceRows == old(db.priceRows) + Upserts(prices, failing + remaining, now)
      decreases |remaining|
    {
      var c :| c in remaining;
      if c !in failing {
        ghost var saved := Upserts(prices, failing + remaining, now);
        db.priceRows := db.priceRows[c := PriceCache(c, prices[c], now)];
        UpsertsStep(prices, failing + remaining, c, now);
        UnionUpdate(old(db.priceRows), saved, c, PriceCache(c, prices[c], now));
        assert failing + (remaining - {c}) == (failing + remaining) - {c};
      } else {
        assert failing + (remaining - {c}) == failing + remaining;
      }
      remaining := remaining - {c};
    }
    return None;
  }

  /** The price map made from the rows with keys in `keys`. */
  function SnapshotOf(rows: map<string, PriceCache>, keys: set<string>): map<string, real> {
    map c | c in rows && c in keys :: rows[c].priceUsd
  }

  /** The fallback map: one entry per stored row. */
  function Snapshot(rows: map<string, PriceCache>): map<string, real> {
    SnapshotOf(rows, rows.Keys)
  }

  /** The fallback returns exactly one entry per row; an empty table gives an empty map. */
  lemma SnapshotShape(rows: map<string, PriceCache>)
    ensures Snapshot(rows).Keys == rows.Keys
    ensures |Snapshot(rows)| == |rows|
    ensures rows == map[] ==> Snapshot(rows) == map[]
  {
    assert Snapshot(rows).Keys == rows.Keys;
  }

  /** After a fully successful save, the fallback serves the saved prices. */
  lemma StoredPricesReadBack(rows: map<string, PriceCache>, prices: map<string, real>, now: Time)
    ensures forall c :: c in prices ==>
      c in Snapshot(rows + Upserts(prices, {}, now)) && Snapshot(rows + Upserts(prices, {}, now))[c] == prices[c]
  {
  }

  /** `getPricesFromDB`: `findError` is the outcome of the table scan. */
  method GetPricesFromDB(db: Database, findError: Option<string>) returns (r: Result<map<string, real>, string>)
    requires db.Valid()
    ensures findError.Some? ==> r == Err("failed to fetch prices from database: " + findError.value)
    ensures findError.None? ==> r == Ok(Snapshot(db.priceRows))
  {
    if findError.Some? {
      return Err("failed to fetch prices from database: " + findError.value);
    }
    var rows := db.priceRows;
    var prices := map[];
    var remaining := rows.Keys;
    while remaining != {}
      invariant remaining <= rows.Keys
      invariant prices == SnapshotOf(rows, rows.Keys - remaining)
      decreases |remaining|
    {
      var c :| c in remaining;
      var row := rows[c];
      prices := prices[row.currency := row.priceUsd];
      assert rows.Keys - (remaining - {c}) == (rows.Keys - remaining) + {c};
      remaining := remaining - {c};
    }
    assert rows.Keys - remaining == rows.Keys;
    return Ok(prices);
  }

  // ---------------------------------------------------------------- tiering

  /**
   * What `GetPrices` returns: a non-empty cache read, else the upstream map, else the
   * database snapshot.
   */
  function Resolve(entries: map<string, CacheEntry>, upstream: Result<Quotes, string>,
                   rows: map<string, PriceCache>, findError: Option<string>): (r: Result<map<string, real>, string>)
    ensures r.Err? <==> (ReadCache(entries, Symbols).Err? || ReadCache(entries, Symbols).value == map[])
                        && upstream.Err? && findError.Some?
    ensures ReadCache(entries, Symbols).Ok? && ReadCache(entries, Symbols).value != map[] ==> r == ReadCache(entries, Symbols)
    ensures ReadCache(entries, Symbols).Err? || ReadCache(entries, Symbols).value == map[] ==>
      && (upstream.Ok? ==> r == Ok(UpstreamPrices(upstream.value, SymbolOfId.Keys)))
      && (upstream.Err? && findError.Some? ==> r == Err("failed to fetch prices from database: " + findError.value))
      && (upstream.Err? && findError.None? ==> r == Ok(Snapshot(rows)))
  {
    var cached := ReadCache(entries, Symbols);
    if cached.Ok? && |cached.value| > 0 then cached
    else if upstream.Ok? then Ok(UpstreamPrices(upstream.value, SymbolOfId.Keys))
    else if findError.Some? then Err("failed to fetch prices from database: " + findError.value)
    else Ok(Snapshot(rows))
  }

  /**
   * `GetPrices`. The inputs stand for the outside world: the CoinGecko reply, the outcome of
   * the cache pipeline, the symbols whose database save fails, the outcome of the database
   * scan, and the clock. A cache hit touches nothing; an upstream answer is written to the
   * cache and the database; an upstream failure falls back to the database untouched.
   */
  method GetPrices(cache: RedisCache, db: Database, upstream: Result<Quotes, string>,
                   execError: Option<string>, failingRows: set<string>, findError: Option<string>, now: Time)
    returns (r: Result<map<string, real>, string>)
    requires db.Valid()
    modifies cache, db`priceRows
    ensures db.Valid()
    ensures r == Resolve(old(cache.entries), upstream, old(db.priceRows), findError)
    ensures var fetched := (ReadCache(old(cache.entries), Symbols).Err? || ReadCache(old(cache.entries), Symbols).value == map[])
                           && upstream.Ok?;
            if fetched then
              var prices := UpstreamPrices(upstream.value, SymbolOfId.Keys);
              && cache.entries == (if execError.None? then old(cache.entries) + CacheWrites(prices, prices.Keys) else old(cache.entries))
              && db.priceRows == old(db.priceRows) + Upserts(prices, failingRows, now)
            else cache.entries == old(cache.entries) && db.priceRows == old(db.priceRows)
  {
    var cached := GetPricesFromCache(cache);
    if cached.Ok? && |cached.value| > 0 {
      return cached;
    }
    var prices := FetchPricesFromAPI(upstream);
    if prices.Err? {
      r := GetPricesFromDB(db, findError);
      return;
    }
    var cacheErr := CachePrices(cache, prices.value, execError);
    var storeErr := StorePricesInDB(db, prices.value, failingRows, now);
    return prices;
  }

  // ---------------------------------------------------------------- lookups

  /** A resolved map in which `currency`, if quoted, has a non-zero price (it is a divisor). */
  predicate NonZeroPrice(resolved: Result<map<string, real>, string>, currency: string) {
    resolved.Ok? && currency in resolved.value ==> resolved.value[currency] != 0.0
  }

  /** `GetPrice` over the outcome of `GetPrices`. */
  function GetPrice(resolved: Result<map<string, real>, string>, currency: string): (r: Result<real, string>)
    ensures resolved.Err? ==> r == Err(resolved.error)
    ensures resolved.Ok? ==> (r.Ok? <==> currency in resolved.value)
    ensures r.Ok? ==> r.value == resolved.value[currency]
    ensures resolved.Ok? && r.Err? ==> r.error == "price not found for currency: " + currency
  {
    match resolved
    case Err(e) => Err(e)
    case Ok(prices) =>
      if currency in prices then Ok(prices[currency])
      else Err("price not found for currency: " + currency)
  }

  /**
   * `CalculateExchangeRate` over the outcome of `GetPrices`: the amount valued in USD at the
   * source price and expressed in the target currency. The source symbol is looked up first.
   */
  function CalculateExchangeRate(resolved: Result<map<string, real>, string>, fromCurrency: string,
                                 toCurrency: string, amount: real): (r: Result<real, string>)
    requires NonZeroPrice(resolved, toCurrency)
    ensures resolved.Err? ==> r == Err(resolved.error)
    ensures resolved.Ok? ==> (r.Ok? <==> fromCurrency in resolved.value && toCurrency in resolved.value)
    ensures resolved.Ok? && fromCurrency !in resolved.value ==> r == Err("price not found for currency: " + fromCurrency)
    ensures resolved.Ok? && fromCurrency in resolved.value && toCurrency !in resolved.value ==>
      r == Err("price not found for currency: " + toCurrency)
    ensures r.Ok? ==> r.value * resolved.value[toCurrency] == amount * resolved.value[fromCurrency]
  {
    match resolved
    case Err(e) => Err(e)
    case Ok(prices) =>
      if fromCurrency !in prices then Err("price not found for currency: " + fromCurrency)
      else if toCurrency !in prices then Err("price not found for currency: " + toCurrency)
      else Ok(amount * prices[fromCurrency] / prices[toCurrency])
  }

  /** The conversion is the quotient of the two `GetPrice` lookups, with the same errors. */
  lemma RateAgreesWithGetPrice(resolved: Result<map<string, real>, string>, fromCurrency: string, toCurrency: string, amount: real)
    requires NonZeroPrice(resolved, toCurrency)
    ensures GetPrice(resolved, fromCurrency).Err? ==>
      CalculateExchangeRate(resolved, fromCurrency, toCurrency, amount) == Err(GetPrice(resolved, fromCurrency).error)
    ensures GetPrice(resolved, fromCurrency).Ok? && GetPrice(resolved, toCurrency).Err? ==>
      CalculateExchangeRate(resolved, fromCurrency, toCurrency, amount) == Err(GetPrice(resolved, toCurrency).error)
    ensures GetPrice(resolved, fromCurrency).Ok? && GetPrice(resolved, toCurrency).Ok? ==>
      && CalculateExchangeRate(resolved, fromCurrency, toCurrency, amount).Ok?
      && CalculateExchangeRate(resolved, fromCurrency, toCurrency, amount).value
         == amount * GetPrice(resolved, fromCurrency).value / GetPrice(resolved, toCurrency).value
  {
    match resolved
    case Err(_) =>
    case Ok(prices) =>
      if fromCurrency in prices && toCurrency in prices {
        var r := CalculateExchangeRate(resolved, fromCurrency, toCurrency, amount);
        assert r.value == amount * prices[fromCurrency] / prices[toCurrency];
        var pf, pt := GetPrice(resolved, fromCurrency).value, GetPrice(resolved, toCurrency).value;
        assert pf == prices[fromCurrency] && pt == prices[toCurrency];
      }
  }

  /** Converting a currency into itself returns the amount. */
  lemma RateIdentity(prices: map<string, real>, currency: string, amount: real)
    requires currency in prices && prices[currency] != 0.0
    ensures CalculateExchangeRate(Ok(prices), currency, currency, amount) == Ok(amount)
  {
  }

  /** Converting through an intermediate currency equals converting directly. */
  lemma RateComposes(prices: map<string, real>, a: string, b: string, c: string, amount: real)
    requires a in prices && b in prices && c in prices
    requires prices[b] != 0.0 && prices[c] != 0.0
    ensures CalculateExchangeRate(Ok(prices), b, c, CalculateExchangeRate(Ok(prices), a, b, amount).value)
         == CalculateExchangeRate(Ok(prices), a, c, amount)
  {
    var u := amount * prices[a];
    var x := CalculateExchangeRate(Ok(prices), a, b, amount).value;
    assert x == u / prices[b];
    assert x * prices[b] == u;
    assert CalculateExchangeRate(Ok(prices), b, c, x).value == x * prices[b] / prices[c];
  }

  /** Converting there and back returns the amount when both prices are non-zero. */
  lemma RateRoundTrip(prices: map<string, real>, a: string, b: string, amount: real)
    requires a in prices && b in prices && prices[a] != 0.0 && prices[b] != 0.0
    ensures CalculateExchangeRate(Ok(prices), b, a, CalculateExchangeRate(Ok(prices), a, b, amount).value) == Ok(amount)
  {
    RateComposes(prices, a, b, a, amount);
    RateIdentity(prices, a, amount);
  }
}
