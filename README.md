# SteemEngine token image proxy: a Dafny model

This project models the request logic of a small HTTP proxy for a token
registry. The proxy looks up token metadata through a read-through cache and
serves token icons downloaded from the icon URL in that metadata.

- **Lookup** (`get_token`). The symbol is stripped and upper-cased. A
  normalised symbol longer than 20 characters is refused. Otherwise the
  cache key is `"stkn:" + symbol`. On a hit the stored JSON is parsed and
  returned. On a miss the registry is asked. No answer is a not-found error.
  A found record is stored, serialised, with the configured expiry
  (CACHE_TIME); then a token is rebuilt from it and returned. The Redis keyspace is the `store` field of
  class `Tokens.TokenCache`. `GetToken` updates it in place. The pure
  function `Tokens.Lookup` specifies one call, and the lemmas beside it
  state each path.
- **Icon naming** (`token_icon`). The extension is the URL's last
  dot-segment, lower-cased and stripped, when it is one of jpg, jpeg, png,
  tiff, svg, gif, webm or webp. Otherwise it is the last dot-segment of the
  Content-Disposition filename. When that header is missing, the default
  value `attachment; filename=image.png` is parsed instead. The MIME type is
  the download's Content-Type. Without one it is `image/svg+xml` for svg and
  `image/<ext>` for anything else. The icon is saved as `<sym>.<ext>`, using
  the route's symbol as given, and is served as `icon.<ext>`.
- **Error mapping**. Both routes answer a too-long symbol with
  `{error: true, message: "Symbol is too long. Refusing to look up."}` and
  a missing token with `{error: true, message: <the exception's text>}`,
  both with status 400. Every other exception escapes as a server error.
  As written, the icon route also answers a token without an icon URL as
  too long (see "## Findings"). `Routes.TokenIconResponseAsWritten` models
  that route as written. The method `Routes.TokenIcon` follows the
  corrected `Routes.TokenIconResponse`, where such a token escapes as a
  server error. `Routes.IconResponsesDifferExactly` proves that this token is
  the only case where the two differ.

The Python string operations this needs are modelled on `seq<char>` in
module `Text`: `strip`, `upper`, `lower`, `split(sep)` and `join`.

Outside services are parameters:
- the registry is a function from symbol to an optional token;
- JSON serialisation and `Token(**res)` are a `Codec` holding an encoder, a decoder of cached text and a rebuilder of the registry's record; the last two may fail;
- the Content-Disposition parser is a function from header value to an optional filename;
- the HTTP download is a function from URL to headers and body.

Two facts about these libraries are assumed, and only by the lemmas that need them:
- `RoundTrips`: decoding the encoded record gives the same result as rebuilding the token from the record itself;
- `ParsesDefault`: the default disposition value has filename `image.png`.

Where this model follows the code rather than the usual reading:
- **Cache hit test.** The code tests `empty(res)` on what Redis returns. The
  Redis client is created without `decode_responses` (core.py:65), so it
  returns bytes. `empty` is true only for `None` and `''`, and `b''` is not
  `''`. So any present key is a hit, even one holding an empty value; the
  value then fails to parse and the failure escapes. A miss means the key is
  absent.
- **Header names.** Response headers are kept as the HTTP client's
  case-insensitive dictionary stores them, keyed by the lower-cased name.
  The type `Icons.Headers` admits only maps whose keys are lower-case.
  Lookups use the folded names `content-type` and `content-disposition`.

## Model

| member | source | states |
|---|---|---|
| `Text.Strip` | app.py:23 | the result is no longer than the input and neither starts nor ends with whitespace |
| `Text.StripRemovesOnlySpace` | app.py:23 | the input is the result with only whitespace before and after it |
| `Text.StripCharacterization` | app.py:23 | conversely, stripping whitespace-surrounded stripped text gives exactly that text, so Strip is the unique function so described |
| `Text.StripIdempotent` | app.py:66 | stripping twice is stripping once |
| `Text.Upper` | app.py:23 | same length, each character upper-cased, no lower-case ASCII letter left |
| `Text.Lower` | app.py:66 | same length, each character lower-cased, no upper-case ASCII letter left |
| `Text.Split` | app.py:65 | `split` gives at least one part, no part holds the separator, and joining the parts gives the input back |
| `Text.SplitJoin` | app.py:65 | the other direction of the round trip: splitting a join of separator-free parts gives the parts back |
| `Text.LastSegment` | app.py:65-66 | `split(sep)[-1]` is a separator-free suffix of the input, either the whole input or preceded by the separator |
| `Text.LastSegmentAfterSep` | app.py:75 | the segment after a final separator is recovered exactly |
| `Tokens.Normalize` | app.py:23 | the normalised symbol is stripped, has no lower-case ASCII letter and is no longer than the input |
| `Tokens.NormalizeIdempotent` | app.py:23 | normalising twice is normalising once |
| `Tokens.CacheKeyInjective` | app.py:26 | distinct symbols have distinct cache keys |
| `Tokens.Lookup` | app.py:21-39 | no key other than `"stkn:" + normalised symbol` changes; the cache changes only on the path that fills it; a successful lookup leaves the key present |
| `Tokens.LookupNormalizesFirst` | app.py:23-31 | looking up a symbol and looking up its normalised form are the same call, so every check and lookup sees the normalised symbol |
| `Tokens.TooLongIsRejected` | app.py:24-25 | a normalised symbol over 20 characters fails with TooLong, the cache is unchanged, and neither the cache contents nor the registry affect the result |
| `Tokens.TooLongExactly` | app.py:24-25 | the call fails with TooLong if and only if the normalised symbol is over 20 characters |
| `Tokens.HitUsesCache` | app.py:28-37 | on a hit the result is the parsed stored value, or an escaping failure when it does not parse; the cache is unchanged and the registry's answer plays no part |
| `Tokens.MissNotFound` | app.py:30-33 | on a miss with no registry answer, the call fails with the not-found message for the normalised symbol and the cache is unchanged |
| `Tokens.MissFillsCache` | app.py:30-35 | on a miss with an answer, the cache gains only its encoding under the key, with expiry CACHE_TIME, and the token rebuilt from the record is returned, or the rebuild's failure escapes with the entry already written |
| `Tokens.SecondCallHits` | app.py:28-39 | after a successful lookup, an immediate second lookup of the same symbol is a hit that returns the same token and cache, whatever the registry now says, given that decoding the stored text gives what the rebuild gave |
| `Tokens.TokenCache.constructor` | app.py:27 | the keyspace starts as given, with the configured codec and expiry |
| `Tokens.TokenCache.GetToken` | app.py:21-39 | result and new cache are those of Lookup; the cache key is read only after the length check passes, and the registry is asked only when that read found nothing |
| `Icons.KnownExtensionsHaveNoDot` | app.py:69 | none of the eight known extensions contains a dot |
| `Icons.ChooseExtension` | app.py:65-75 | a known URL extension is used as is; any extension chosen contains no dot |
| `Icons.ExtensionFromUrl` | app.py:65-70 | a URL ending in a dot and a known extension, in any case and with surrounding whitespace, yields that extension whatever the headers |
| `Icons.ExtensionFromDisposition` | app.py:71-75 | otherwise the extension is the last dot-segment of the Content-Disposition filename |
| `Icons.ExtensionDefaultsToPng` | app.py:73-75 | with no known URL extension and no Content-Disposition header, the extension is `png` |
| `Icons.NoExtensionExactly` | app.py:69-75 | no extension is found exactly when the URL is not conclusive and the disposition value has no filename |
| `Icons.DefaultMime` | app.py:77 | the derived MIME type is `image/` followed by the extension, or by `svg+xml` for `svg` |
| `Icons.DefaultMimeInjective` | app.py:77 | distinct extensions get distinct derived MIME types, except that `svg` and `svg+xml` share one |
| `Icons.Mime` | app.py:77 | the Content-Type header when present, otherwise the derived MIME type |
| `Icons.FileNamesCarryExtension` | app.py:78-86 | the saved name is `sym + "." + ext`, the served name starts with `icon.`, and a dot-free extension is the last dot-segment of both |
| `Icons.PlanIcon` | app.py:65-86 | a plan exists exactly when an extension is chosen, and then the saved name, served name and MIME type all agree on that extension |
| `Routes.ErrorResponse` | app.py:52-56 | too-long and not-found become a JSON error with status 400, with the fixed message and the exception's message; any other failure is a server error |
| `Routes.NotFoundIsNotTooLong` | app.py:33 | no not-found message equals the too-long message |
| `Routes.TokenDataResponse` | app.py:47-56 | a found token is answered with status 200 and its record; a failure with ErrorResponse |
| `Routes.DataRouteTooLongExactly` | app.py:47-56 | the metadata route gives the too-long answer if and only if the normalised symbol is over 20 characters |
| `Routes.IconFromUrl` | app.py:63-86 | never JSON; a server error exactly when no extension is found; otherwise the saved name, MIME type and served name agree on the chosen extension and the bytes are the download's |
| `Routes.TokenIconResponseAsWritten` | app.py:59-91 | lookup failures are answered as on the metadata route; a token without an icon URL is answered as too long; an icon is served if and only if the token has an icon URL and an extension is found for it |
| `Routes.TokenIconResponse` | app.py:59-91 | lookup failures are answered exactly as on the metadata route; an icon is served if and only if the lookup found a token with an icon URL and an extension is found for its download, and then under names and a MIME type that agree on that extension, with the downloaded bytes |
| `Routes.IconRouteTooLongExactly` | app.py:59-91 | the icon route gives the too-long answer if and only if the normalised symbol is over 20 characters |
| `Routes.AsWrittenMissingIconIsTooLong` | app.py:63-89 | as written, a symbol of acceptable length whose token has no icon URL is answered as too long |
| `Routes.IconResponsesDifferExactly` | app.py:59-91 | the corrected and the as-written icon responses differ if and only if the lookup found a token without an icon URL |
| `Routes.IconDirectory.constructor` | app.py:78 | the icon directory starts with the given files |
| `Routes.TokenData` | app.py:47-56 | the response and the new cache are those of Lookup followed by TokenDataResponse |
| `Routes.TokenIcon` | app.py:59-91 | the corrected route of "## Findings": the response and new cache follow Lookup and TokenIconResponse, so a token without an icon URL is a server error and not the too-long answer of the code as written; the icon directory gains exactly the served bytes under the saved name, and is unchanged when no icon is served |

## Left out

- core.py is not part of this model. It reads configuration from the environment, sets up logging and creates the Redis and registry clients. Only CACHE_TIME appears here, as the `cacheTime` of `TokenCache`. Its default of 600 seconds is not modelled.
- Tokens.TokenCache.constructor: requires CACHE_TIME to be positive, because Redis refuses a SET with a non-positive expiry; the failure that would follow is not modelled.
- Redis expiry: an entry records the expiry it was stored with, but no clock is modelled, so entries never disappear.
- Redis connection and command errors: these escape as server errors and are not modelled.
- JSON encoding and decoding and `Token(**res)`: these are the `Codec` parameter. Only `Tokens.SecondCallHits` relies on the round trip. Whether the rebuilt token equals the registry's record is not assumed. A failing `json.dumps` is not modelled.
- The registry RPC: this is a parameter, and each call of `GetToken` sees one fixed answer per symbol.
- The Content-Disposition parser: this is a parameter. Only `Icons.ExtensionDefaultsToPng` relies on its reading of the default value.
- The streamed HTTP download: it is a parameter giving headers and body. Network errors and the 10-second timeout escape and are not modelled.
- The chunked write and the read-back: the icon file is one map update, and the bytes served are the bytes written.
- The directory prefix of the saved path: only the file name is modelled.
- Disk errors: writing the icon always succeeds in the model. In the code, `open` fails, and the failure escapes as a server error, when the saved name is not a valid path, for example an extension taken from the Content-Disposition filename that contains `/` or a NUL character (`filename=a.png/x` gives `png/x`). `Routes.TokenIcon` instead serves such an icon and records the file.
- `send_file`, Flask routing, `jsonify` and logging are not modelled.
- The index route `/` is not modelled. It returns a constant JSON body and has no logic.
- Text.Upper: maps ASCII letters only. Python's `upper` also maps other letters, and can change the length (`ß` becomes `SS`), so for a symbol with a non-ASCII letter the model's normalised symbol can differ from Python's. Its length check, cache key, registry query and not-found message are then not modelled (`é` stays `é` here, where Python gives `É`).
- Text.Lower: maps ASCII letters only, for the same reason.
- Token: only the icon URL of the metadata is given structure. Other fields are opaque string maps.
- Concurrent requests are not modelled. Two requests can race on filling the cache and on writing the same icon file.

## Findings

| source | as written | input that shows it | evidently intended | confidence | as-written member | corrected member |
|---|---|---|---|---|---|---|
| app.py:63-66, app.py:87-89 | a token with no icon URL makes `url.split` raise AttributeError. The handler meant for the length check catches it and answers that the symbol is too long | any registered token whose symbol is at most 20 characters and whose metadata has no icon | only a too-long symbol gets the too-long answer. A missing icon escapes like every other unhandled failure | medium, not executed | `Routes.TokenIconResponseAsWritten`, `Routes.AsWrittenMissingIconIsTooLong` | `Routes.TokenIconResponse`, `Routes.IconRouteTooLongExactly` |
