/**
 * Token metadata lookup with a read-through cache (`get_token`): the symbol
 * is normalised, a symbol that is too long is refused, and otherwise the
 * cache entry under "stkn:<symbol>" is used when present, or the upstream
 * registry is asked and its answer stored with the configured time-to-live.
 */
module Tokens {
  import opened Wrappers
  import opened Text

  /** The token's metadata record; only the icon URL is used by the proxy. */
  datatype Metadata = Metadata(icon: Option<string>, extra: map<string, string>)

  /** A token as the registry describes it. */
  datatype Token = Token(symbol: string, fields: map<string, string>, metadata: Metadata)

  /**
   * How a token record becomes the returned token: `encode` serialises the
   * registry's record for the cache (`json.dumps(dict(res))`), `decode`
   * rebuilds a token from cached text (`Token(**json.loads(res))`) and
   * `rebuild` from the registry's record itself (`Token(**dict(res))`).
   * The two rebuilding steps may raise, which is None here.
   */
  datatype Codec = Codec(encode: Token -> string, decode: string -> Option<Token>, rebuild: Token -> Option<Token>)

  /** Rebuilding from the cached text gives what rebuilding from the record gave. */
  ghost predicate RoundTrips(c: Codec) {
    forall t :: c.decode(c.encode(t)) == c.rebuild(t)
  }

  /** A cache value with the expiry (in seconds) it was stored with. */
  datatype Entry = Entry(value: string, ttl: nat)

  /** The exceptions `get_token` raises. `Unhandled` is any exception no route catches. */
  datatype Failure = TooLong | NotFound(message: string) | Unhandled

  const MaxSymbolLength := 20
  const KeyPrefix := "stkn:"

  /** The symbol as it is checked, keyed and queried: stripped, then upper-cased. */
  function Normalize(symbol: string): (n: string)
    ensures IsStripped(n)
    ensures forall i :: 0 <= i < |n| ==> !('a' <= n[i] <= 'z')
    ensures |n| <= |symbol|
  {
    var s := Strip(symbol);
    UpperKeepsStripped(s);
    Upper(s)
  }

  /** Normalising twice gives the same symbol as normalising once. */
  lemma {:induction false} NormalizeIdempotent(symbol: string)
    ensures Normalize(Normalize(symbol)) == Normalize(symbol)
  {
    var n := Normalize(symbol);
    assert [] + n + [] == n;
    StripCharacterization([], n, []);
    UpperIdempotent(Strip(symbol));
  }

  function CacheKey(symbol: string): string {
    KeyPrefix + symbol
  }

  /** Distinct symbols never share a cache entry. */
  lemma {:induction false} CacheKeyInjective(a: string, b: string)
    requires CacheKey(a) == CacheKey(b)
    ensures a == b
  {
    assert a == CacheKey(a)[|KeyPrefix|..];
    assert b == CacheKey(b)[|KeyPrefix|..];
  }

  function NotFoundMessage(symbol: string): string {
    "Symbol '" + symbol + "' was not found on SteemEngine."
  }

  /** Which way a lookup went. */
  datatype Path = Rejected | Hit | Missing | Filled

  /** What a lookup returns and the cache it leaves behind. */
  datatype Outcome = Outcome(path: Path, result: Result<Token, Failure>, store: map<string, Entry>)

  /**
   * One call of `get_token` against the cache `store`, with `upstream` the
   * registry's answer for each symbol and `ttl` the configured CACHE_TIME.
   * Only the entry under the normalised symbol's key can change, and only
   * when the registry had to be asked and found the token. The entry is
   * written before the token is rebuilt, so it stays even when that fails.
   */
  function Lookup(store: map<string, Entry>, symbol: string, upstream: string -> Option<Token>,
                  codec: Codec, ttl: nat): (o: Outcome)
    ensures forall k :: k != CacheKey(Normalize(symbol)) ==>
      (k in o.store <==> k in store) && (k in store ==> o.store[k] == store[k])
    ensures o.path != Filled ==> o.store == store
    ensures o.result.Success? ==> CacheKey(Normalize(symbol)) in o.store
  {
    var sym := Normalize(symbol);
    if |sym| > MaxSymbolLength then
      Outcome(Rejected, Failure(TooLong), store)
    else
      var key := CacheKey(sym);
      if key !in store then
        match upstream(sym)
        case None => Outcome(Missing, Failure(NotFound(NotFoundMessage(sym))), store)
        case Some(t) =>
          var filled := store[key := Entry(codec.encode(t), ttl)];
          match codec.rebuild(t)
          case None => Outcome(Filled, Failure(Unhandled), filled)
          case Some(u) => Outcome(Filled, Success(u), filled)
      else
        match codec.decode(store[key].value)
        case None => Outcome(Hit, Failure(Unhandled), store)
        case Some(t) => Outcome(Hit, Success(t), store)
  }

  /** Looking up a symbol and looking up its normalised form are the same call. */
  lemma {:induction false} LookupNormalizesFirst(store: map<string, Entry>, symbol: string, upstream: string -> Option<Token>,
                              codec: Codec, ttl: nat)
    ensures Lookup(store, Normalize(symbol), upstream, codec, ttl) == Lookup(store, symbol, upstream, codec, ttl)
  {
    NormalizeIdempotent(symbol);
  }

  /**
   * A normalised symbol longer than 20 characters is refused with TooLong, the
   * cache is left as it was, and neither the cache's contents nor the
   * registry have any say in the outcome.
   */
  lemma {:induction false} TooLongIsRejected(store: map<string, Entry>, symbol: string, upstream: string -> Option<Token>,
                          codec: Codec, ttl: nat, otherStore: map<string, Entry>, otherUpstream: string -> Option<Token>)
    requires |Normalize(symbol)| > MaxSymbolLength
    ensures Lookup(store, symbol, upstream, codec, ttl) == Outcome(Rejected, Failure(TooLong), store)
    ensures Lookup(otherStore, symbol, otherUpstream, codec, ttl).result == Failure(TooLong)
  {
  }

  /** A refusal happens exactly when the normalised symbol is too long. */
  lemma {:induction false} TooLongExactly(store: map<string, Entry>, symbol: string, upstream: string -> Option<Token>,
                       codec: Codec, ttl: nat)
    ensures Lookup(store, symbol, upstream, codec, ttl).result == Failure(TooLong) <==> |Normalize(symbol)| > MaxSymbolLength
  {
  }

  /**
   * On a hit the stored text is parsed and returned, the cache is unchanged,
   * and the registry's answer plays no part.
   */
  lemma {:induction false} HitUsesCache(store: map<string, Entry>, symbol: string, upstream: string -> Option<Token>,
                     codec: Codec, ttl: nat, otherUpstream: string -> Option<Token>)
    requires |Normalize(symbol)| <= MaxSymbolLength
    requires CacheKey(Normalize(symbol)) in store
    ensures var o := Lookup(store, symbol, upstream, codec, ttl);
      && o.path == Hit
      && o.store == store
      && o.result == (match codec.decode(store[CacheKey(Normalize(symbol))].value)
                      case Some(t) => Success(t)
                      case None => Failure(Unhandled))
      && Lookup(store, symbol, otherUpstream, codec, ttl) == o
  {
  }

  /** On a miss that the registry cannot answer, the call fails with NotFound and the cache is unchanged. */
  lemma {:induction false} MissNotFound(store: map<string, Entry>, symbol: string, upstream: string -> Option<Token>,
                     codec: Codec, ttl: nat)
    requires |Normalize(symbol)| <= MaxSymbolLength
    requires CacheKey(Normalize(symbol)) !in store
    requires upstream(Normalize(symbol)).None?
    ensures Lookup(store, symbol, upstream, codec, ttl)
         == Outcome(Missing, Failure(NotFound(NotFoundMessage(Normalize(symbol)))), store)
  {
  }

  /**
   * On a miss that the registry answers, the answer is stored, serialised,
   * under the symbol's key with the configured expiry, and the token rebuilt
   * from it is returned, or the failure to rebuild it escapes.
   */
  lemma {:induction false} MissFillsCache(store: map<string, Entry>, symbol: string, upstream: string -> Option<Token>,
                       codec: Codec, ttl: nat, t: Token)
    requires |Normalize(symbol)| <= MaxSymbolLength
    requires CacheKey(Normalize(symbol)) !in store
    requires upstream(Normalize(symbol)) == Some(t)
    ensures var o := Lookup(store, symbol, upstream, codec, ttl);
      && o.result == (match codec.rebuild(t)
                      case Some(u) => Success(u)
                      case None => Failure(Unhandled))
      && o.store == store[CacheKey(Normalize(symbol)) := Entry(codec.encode(t), ttl)]
  {
  }

  /**
   * After a successful lookup, asking again for the same symbol is a cache
   * hit that returns the same token without the registry, whatever it would
   * now answer.
   */
  lemma {:induction false} SecondCallHits(store: map<string, Entry>, symbol: string, upstream: string -> Option<Token>,
                       codec: Codec, ttl: nat, laterUpstream: string -> Option<Token>)
    requires RoundTrips(codec)
    requires Lookup(store, symbol, upstream, codec, ttl).result.Success?
    ensures var o := Lookup(store, symbol, upstream, codec, ttl);
      Lookup(o.store, symbol, laterUpstream, codec, ttl) == Outcome(Hit, o.result, o.store)
  {
    var o := Lookup(store, symbol, upstream, codec, ttl);
    if o.path == Filled {
      var t := upstream(Normalize(symbol)).value;
      assert codec.decode(codec.encode(t)) == codec.rebuild(t);
    }
  }

  /**
   * The Redis keyspace seen by the proxy, with ghost records of the keys
   * read and the symbols sent to the registry.
   */
  class TokenCache {
    var store: map<string, Entry>
    const codec: Codec
    /** CACHE_TIME, the expiry in seconds given to every entry this proxy writes. */
    const cacheTime: nat
    ghost var keysRead: seq<string>
    ghost var upstreamQueries: seq<string>

    /** Redis refuses a SET whose expiry is not positive. */
    constructor (codec: Codec, cacheTime: nat, initial: map<string, Entry>)
      requires cacheTime > 0
      ensures this.codec == codec && this.cacheTime == cacheTime && store == initial
      ensures keysRead == [] && upstreamQueries == []
    {
      this.codec := codec;
      this.cacheTime := cacheTime;
      store := initial;
      keysRead := [];
      upstreamQueries := [];
    }

    /**
     * `get_token`. The result and the new cache are those of Lookup; the
     * cache is read only for a symbol that passed the length check, and
     * the registry is asked only when that read found nothing.
     */
    method GetToken(symbol: string, upstream: string -> Option<Token>) returns (r: Result<Token, Failure>)
      modifies this
      ensures var o := Lookup(old(store), symbol, upstream, codec, cacheTime);
        r == o.result && store == o.store
      ensures keysRead == old(keysRead) +
        (if |Normalize(symbol)| > MaxSymbolLength then [] else [CacheKey(Normalize(symbol))])
      ensures upstreamQueries == old(upstreamQueries) +
        (if Lookup(old(store), symbol, upstream, codec, cacheTime).path.Hit? ||
            Lookup(old(store), symbol, upstream, codec, cacheTime).path.Rejected?
         then [] else [Normalize(symbol)])
    {
      ghost var o := Lookup(store, symbol, upstream, codec, cacheTime);
      var sym := Normalize(symbol);
      if |sym| > MaxSymbolLength {
        assert o.path == Rejected && o.store == store;
        return Failure(TooLong);
      }
      var key := CacheKey(sym);
      keysRead := keysRead + [key];
      var cached: Option<Entry> := if key in store then Some(store[key]) else None;
      if cached.None? {
        var answer := upstream(sym);
        upstreamQueries := upstreamQueries + [sym];
        if answer.None? {
          assert o == Outcome(Missing, Failure(NotFound(NotFoundMessage(sym))), store);
          return Failure(NotFound(NotFoundMessage(sym)));
        }
        store := store[key := Entry(codec.encode(answer.value), cacheTime)];
        var rebuilt := codec.rebuild(answer.value);
        r := if rebuilt.Some? then Success(rebuilt.value) else Failure(Unhandled);
        assert o == Outcome(Filled, r, store);
      } else {
        var parsed := codec.decode(cached.value.value);
        r := if parsed.Some? then Success(parsed.value) else Failure(Unhandled);
        assert o == Outcome(Hit, r, store);
      }
    }
  }
}
