/**
 * The two token routes: `/token/<sym>` answers with the token's metadata and
 * `/token/<sym>/icon` with its icon. Both turn the too-long and not-found
 * errors into a JSON error body with status 400; every other exception is
 * left uncaught and becomes a server error.
 */
module Routes {
  import opened Wrappers
  import opened Text
  import opened Tokens
  import opened Icons

  const TooLongMessage := "Symbol is too long. Refusing to look up."

  /** A JSON body: `{error: false, result: ...}` or `{error: true, message: ...}`. */
  datatype Body = TokenResult(token: Token) | ErrorMessage(message: string)

  /** What the HTTP client returns for an icon URL. */
  datatype Download = Download(headers: Headers, body: seq<bv8>)

  datatype Response =
    | Json(body: Body, status: nat)
    | Image(savedAs: string, mime: string, attachmentName: string, data: seq<bv8>)
    | ServerError

  /** The response both routes give for a too-long symbol. */
  const TooLongResponse := Json(ErrorMessage(TooLongMessage), 400)

  /**
   * The routes' `except` clauses: a too-long symbol gets the fixed message,
   * a missing token the exception's own message, both with status 400; any
   * other exception escapes.
   */
  function ErrorResponse(f: Failure): (resp: Response)
    ensures resp.Json? <==> !f.Unhandled?
    ensures resp.Json? ==> resp.status == 400 && resp.body.ErrorMessage?
    ensures f.TooLong? ==> resp == TooLongResponse
    ensures f.NotFound? ==> resp.body.message == f.message
  {
    match f
    case TooLong => TooLongResponse
    case NotFound(message) => Json(ErrorMessage(message), 400)
    case Unhandled => ServerError
  }

  /** No not-found message can be mistaken for the too-long one. */
  lemma {:induction false} NotFoundIsNotTooLong(symbol: string)
    ensures NotFoundMessage(symbol) != TooLongMessage
  {
    assert NotFoundMessage(symbol)[7] == '\'';
    assert TooLongMessage[7] == 'i';
  }

  /** `token_data` once `get_token` has given `r`. */
  function TokenDataResponse(r: Result<Token, Failure>): (resp: Response)
    ensures r.Success? ==> resp == Json(TokenResult(r.value), 200)
    ensures r.Failure? ==> resp == ErrorResponse(r.error)
    ensures !resp.ServerError? ==> resp.Json?
  {
    match r
    case Success(t) => Json(TokenResult(t), 200)
    case Failure(f) => ErrorResponse(f)
  }

  /** The metadata route answers with the too-long error exactly when the normalised symbol is too long. */
  lemma {:induction false} DataRouteTooLongExactly(store: map<string, Entry>, sym: string, upstream: string -> Option<Token>,
                                codec: Codec, ttl: nat)
    ensures TokenDataResponse(Lookup(store, sym, upstream, codec, ttl).result) == TooLongResponse
        <==> |Normalize(sym)| > MaxSymbolLength
  {
    NotFoundIsNotTooLong(Normalize(sym));
  }

  /** The icon route after the token's icon URL is known and the download has been made. */
  function IconFromUrl(sym: string, url: string, d: Download, parse: FilenameParser): (resp: Response)
    ensures !resp.Json?
    ensures resp.ServerError? <==> ChooseExtension(url, d.headers, parse).None?
    ensures resp.Image? ==>
      var ext := LastSegment(resp.attachmentName, '.');
      && ChooseExtension(url, d.headers, parse) == Some(ext)
      && resp.savedAs == sym + "." + ext
      && resp.mime == Mime(d.headers, ext)
      && resp.data == d.body
  {
    match PlanIcon(sym, url, d.headers, parse)
    case None => ServerError
    case Some(p) => Image(p.saveName, p.mime, p.attachmentName, d.body)
  }

  /**
   * `token_icon` as written: a token without an icon URL makes `url.split`
   * raise AttributeError, which the handler meant for the length check
   * catches, so the answer is the too-long error.
   */
  function TokenIconResponseAsWritten(sym: string, r: Result<Token, Failure>, fetch: string -> Download,
                                      parse: FilenameParser): (resp: Response)
    ensures r.Failure? ==> resp == ErrorResponse(r.error)
    ensures r.Success? && r.value.metadata.icon.None? ==> resp == TooLongResponse
    ensures resp.Image? <==>
      && r.Success? && r.value.metadata.icon.Some?
      && var url := r.value.metadata.icon.value;
         ChooseExtension(url, fetch(url).headers, parse).Some?
  {
    match r
    case Failure(f) => ErrorResponse(f)
    case Success(t) =>
      match t.metadata.icon
      case None => ErrorResponse(TooLong)
      case Some(url) => IconFromUrl(sym, url, fetch(url), parse)
  }

  /**
   * `token_icon` with a missing icon URL treated like every other failure
   * the route does not handle: it escapes as a server error instead of
   * being reported as a too-long symbol. Errors of the lookup are answered
   * as on the metadata route, and an icon is served exactly for a token with
   * an icon URL from whose download an extension is found, under names and
   * a MIME type that agree on that extension.
   */
  function TokenIconResponse(sym: string, r: Result<Token, Failure>, fetch: string -> Download,
                             parse: FilenameParser): (resp: Response)
    ensures r.Failure? ==> resp == ErrorResponse(r.error) == TokenDataResponse(r)
    ensures r.Success? ==> !resp.Json?
    ensures resp.Image? <==>
      && r.Success? && r.value.metadata.icon.Some?
      && var url := r.value.metadata.icon.value;
         ChooseExtension(url, fetch(url).headers, parse).Some?
    ensures resp.Image? ==>
      && r.Success? && r.value.metadata.icon.Some?
      && var url := r.value.metadata.icon.value;
         var ext := LastSegment(resp.attachmentName, '.');
         && ChooseExtension(url, fetch(url).headers, parse) == Some(ext)
         && resp.savedAs == sym + "." + ext
         && resp.mime == Mime(fetch(url).headers, ext)
         && resp.data == fetch(url).body
  {
    match r
    case Failure(f) => ErrorResponse(f)
    case Success(t) =>
      match t.metadata.icon
      case None => ServerError
      case Some(url) => IconFromUrl(sym, url, fetch(url), parse)
  }

  /** The icon route answers with the too-long error exactly when the normalised symbol is too long. */
  lemma {:induction false} IconRouteTooLongExactly(store: map<string, Entry>, sym: string, upstream: string -> Option<Token>,
                                codec: Codec, ttl: nat, fetch: string -> Download, parse: FilenameParser)
    ensures TokenIconResponse(sym, Lookup(store, sym, upstream, codec, ttl).result, fetch, parse) == TooLongResponse
        <==> |Normalize(sym)| > MaxSymbolLength
  {
    NotFoundIsNotTooLong(Normalize(sym));
  }

  /**
   * The route as written breaks that equivalence: a symbol of acceptable
   * length whose token has no icon URL is answered as too long.
   */
  lemma {:induction false} AsWrittenMissingIconIsTooLong(store: map<string, Entry>, sym: string, upstream: string -> Option<Token>,
                                      codec: Codec, ttl: nat, fetch: string -> Download, parse: FilenameParser)
    requires |Normalize(sym)| <= MaxSymbolLength
    requires CacheKey(Normalize(sym)) !in store
    requires upstream(Normalize(sym)).Some?
    requires var t := codec.rebuild(upstream(Normalize(sym)).value); t.Some? && t.value.metadata.icon.None?
    ensures TokenIconResponseAsWritten(sym, Lookup(store, sym, upstream, codec, ttl).result, fetch, parse)
         == TooLongResponse
  {
  }

  /**
   * The two icon responses differ exactly on a found token without an icon
   * URL: every lookup failure and every token with an icon URL is answered
   * the same way by both.
   */
  lemma {:induction false} IconResponsesDifferExactly(sym: string, r: Result<Token, Failure>, fetch: string -> Download,
                                                      parse: FilenameParser)
    ensures TokenIconResponse(sym, r, fetch, parse) != TokenIconResponseAsWritten(sym, r, fetch, parse)
        <==> r.Success? && r.value.metadata.icon.None?
  {
  }

  /** The icon directory on disk: file name to contents. */
  class IconDirectory {
    var files: map<string, seq<bv8>>

    constructor (initial: map<string, seq<bv8>>)
      ensures files == initial
    {
      files := initial;
    }
  }

  /** `token_data`: look the symbol up (updating the cache) and answer. */
  method TokenData(cache: TokenCache, sym: string, upstream: string -> Option<Token>) returns (resp: Response)
    modifies cache
    ensures var o := Lookup(old(cache.store), sym, upstream, cache.codec, cache.cacheTime);
      resp == TokenDataResponse(o.result) && cache.store == o.store
  {
    var r := cache.GetToken(sym, upstream);
    resp := TokenDataResponse(r);
  }

  /**
   * `token_icon` with the correction of TokenIconResponse: look the symbol
   * up, download the icon, write it to the icon directory under its saved
   * name and serve what was written. A token without an icon URL escapes as
   * a server error here, where the route as written (TokenIconResponseAsWritten)
   * answers that the symbol is too long. The directory changes only when an
   * icon is served.
   */
  method TokenIcon(cache: TokenCache, icons: IconDirectory, sym: string, upstream: string -> Option<Token>,
                   fetch: string -> Download, parse: FilenameParser) returns (resp: Response)
    modifies cache, icons
    ensures var o := Lookup(old(cache.store), sym, upstream, cache.codec, cache.cacheTime);
      resp == TokenIconResponse(sym, o.result, fetch, parse) && cache.store == o.store
    ensures resp.Image? ==> icons.files == old(icons.files)[resp.savedAs := resp.data]
    ensures !resp.Image? ==> icons.files == old(icons.files)
  {
    var r := cache.GetToken(sym, upstream);
    if r.Failure? {
      return ErrorResponse(r.error);
    }
    var icon := r.value.metadata.icon;
    if icon.None? {
      return ServerError;
    }
    var url := icon.value;
    var download := fetch(url);
    var plan := PlanIcon(sym, url, download.headers, parse);
    if plan.None? {
      return ServerError;
    }
    icons.files := icons.files[plan.value.saveName := download.body];
    var data := icons.files[plan.value.saveName];
    resp := Image(plan.value.saveName, plan.value.mime, plan.value.attachmentName, data);
  }
}
