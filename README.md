# URL shortener: short codes and the in-memory store

This project models the core of a small Go URL-shortening service in Dafny. The
service's one source file, `main.go`, derives an 8-character short code from a
URL and keeps URL records in a global map. It has three parts:

- **Short-code derivation** (`generateshorturl`). The URL's bytes are hashed with
  MD5. The 16-byte digest is hex-encoded with lower-case digits, high nibble
  first, and the first 8 digits are kept. Those 8 digits encode the first 4
  digest bytes. Module `Hex` models `hex.EncodeToString`. Module `Codec` models
  the derivation.
- **The store** (`urlDb`, `createUrl`, `geturl`). Module `Store` has two pure
  specifications on maps. `Put` is the map after one create. `Lookup` is the
  lookup. The class `Store.UrlDb` holds the map, and its methods are proved
  against `Put` and `Lookup`. `createUrl` writes under the code with no
  condition, so the last write wins. `geturl` is an exact-key lookup that fails
  with "url not found".
- **The redirect id** (`redirect`, line 84). The id is the request path with
  the literal prefix `"/redirect/"` cut off. The route registered for this
  handler only matches paths that start with that prefix, so the model takes
  the prefix as a precondition.

Go strings are byte strings, so every string here is a `seq<byte>`
(`Bytes.GoString`). MD5 is a parameter: a `Codec.Digester` is any function from
a byte string to 16 bytes. The store is built with one such function and keeps
it in a constant, so every proof holds for MD5 in particular. The creation
timestamp is a parameter of `CreateUrl`.

The class keeps a ghost log `Created` of every call of `createUrl`, in order.
Its invariant says the map is exactly what replaying that log from the empty
map (`Store.Replay`) produces. Two consequences are proved:

- The keys are exactly the codes of the URLs created, so an id that no create
  produced is never found.
- Every record found was written by the latest create whose URL has that code.

A second invariant, `Store.WellKeyed`, follows from the first. It says that each
record sits under its own code, that its `id` and `shortUrl` are that code, and
that the code is the one derived from its original URL. From it follow two more
facts: only 8-digit lower-case hex ids can ever be found, and no key other than
a URL's own code holds that URL. So each URL is held by at most one entry, and
by none once a later create with a colliding code has overwritten it.

## Model

| member | source | states |
|---|---|---|
| `Hex.Encode` | main.go:27 | The encoding of `n` bytes is `2n` characters, all lower-case hex digits. |
| `Hex.EncodeAt` | main.go:27 | Byte `i` is written at positions `2i` and `2i+1`, high nibble first. |
| `Hex.DigitTable` | main.go:27 | The digit for nibble `n` is entry `n` of "0123456789abcdef". |
| `Hex.EncodePrefix` | main.go:27-28 | The first `2k` digits of an encoding are the encoding of the first `k` bytes. |
| `Hex.DecodeEncode` | main.go:27 | Decoding an encoding gives back the bytes, so the encoding loses nothing. |
| `Hex.EncodeInjective` | main.go:27 | Two byte strings have equal encodings if and only if they are equal. |
| `Codec.ShortCode` | main.go:23-29 | The code is always 8 lower-case hex digits. It is a function of the URL's bytes alone. |
| `Codec.ShortCodeEncodesDigestPrefix` | main.go:26-28 | Cutting the encoded digest to 8 digits gives the encoding of the first 4 digest bytes. |
| `Codec.SameCodeIffSameDigestPrefix` | main.go:23-29 | Two URLs get the same code if and only if their digests agree on the first 4 bytes. |
| `Codec.ShortCodeDecodes` | main.go:26-28 | Decoding a code gives back the first 4 digest bytes. |
| `Store.Put` | main.go:33-40 | After a create, the key set is the old key set plus the URL's code, and grows by one exactly when the code was new. The record under the code has `id == shortUrl ==` code, the URL and the timestamp. Every other key keeps its record. |
| `Store.Lookup` | main.go:46-52 | A lookup fails with `NotFound` exactly when the id is not a key. Otherwise it returns the stored record. |
| `Store.PutKeepsWellKeyed` | main.go:33-40 | A create preserves the store invariant `WellKeyed`. |
| `Store.OnlyCodesAreFound` | main.go:46-52 | In a well-keyed store, a lookup of any id that is not 8 lower-case hex digits fails. |
| `Store.AtMostOneHolder` | main.go:35-38 | In a well-keyed store, the keys holding a given URL are at most that URL's code. None remain after a colliding create overwrote it. |
| `Store.HoldersOf` | main.go:35-38 | In a well-keyed store where the URL's code still holds the URL, that code is exactly the set of keys holding it. |
| `Store.CreateTwice` | main.go:32-43 | In a well-keyed store, creating the same URL twice leaves the key set as after the first create. Exactly one entry then holds the URL. |
| `Store.LastWriteWins` | main.go:35-40 | After creating `u1` then `u2`, `u1`'s code still finds `u1`'s record if and only if the digests differ in their first 4 bytes or the second call repeated the first. On a collision it finds `u2`'s record. |
| `Store.ReplaySnoc` | main.go:35-40 | One more create is one more `Put` on the map the earlier creates left. |
| `Store.ReplayKeys` | main.go:32-43 | The keys of the map are exactly the codes of the URLs created so far. Nothing else is stored and nothing is removed. |
| `Store.ReplayWellKeyed` | main.go:33-40 | Every map reachable by creates is well-keyed. |
| `Store.NeverCreatedNotFound` | main.go:46-52 | A lookup of an id that no create produced fails with `NotFound`. |
| `Store.LastIsLatestWriter` | main.go:35-40 | The last create's record is found under its code, and it holds that create's URL and timestamp. |
| `Store.LatestWriterSnoc` | main.go:35-40 | A create under a different code leaves the record found under an id as it was. |
| `Store.FoundIsLatestCreate` | main.go:35-52 | Every record found was written by the latest create whose URL has that code. It holds that create's URL and timestamp. |
| `Store.RedirectId` | main.go:84 | For a path that starts with "/redirect/", prefix + id == path, so nothing is normalised. |
| `Store.RedirectAfterCreate` | main.go:84-86 | After creating a URL, the id taken from "/redirect/" + its code finds a record holding that URL. |
| `Store.UrlDb.constructor` | main.go:20 | The database starts empty, with no creates recorded. |
| `Store.UrlDb.CreateUrl` | main.go:32-43 | Returns the URL's code, which is 8 lower-case hex digits. The new map is `Put` of the old one. The create is appended to the log, and both invariants hold afterwards. |
| `Store.UrlDb.GetUrl` | main.go:46-52 | Returns `Lookup` of the current map and changes nothing. When no create so far produced the id, the result is `Failure(NotFound)`. |
| `Store.UrlDb.Redirect` | main.go:83-93 | Answers 302 exactly when the stripped id is a key. The 302 carries the stored original URL, which is the argument handed to `http.Redirect`. Otherwise it answers 404. |

## Left out

- MD5 internals (RFC 1321, main.go:24-26): the digest is an abstract function parameter returning 16 bytes. The hash itself is not verified.
- `time.Now().Format(time.RFC3339)` (main.go:39): the clock is replaced by the `now` parameter of `CreateUrl`. Its format is not modelled.
- Store.UrlDb.GetUrl: on a miss, Go also returns the zero `URL{}` beside the error. The model returns `Failure(NotFound)` without that record, which only the logging at main.go:87 reads, and that logging is left out.
- `handler` (main.go:55-57): fixed greeting, no state.
- `shorturlhandler` (main.go:60-80): JSON decoding, the 400 answer and JSON encoding are framework I/O. Its only core step is the call to `createUrl`, which `CreateUrl` models.
- Store.UrlDb.Redirect: writing the response (`http.Error`, `http.Redirect`) and the `fmt.Println` logging at lines 85 and 87 are left out. Only the 302/404 decision and the argument handed to `http.Redirect` are modelled. `http.Redirect` rewrites that argument before sending it: a location with no scheme and no host is resolved against the request path and cleaned, so a stored `""` is sent as `/redirect/`. Non-ASCII bytes are escaped. The model does not describe the Location header actually sent.
- `main` (main.go:95-104): route registration and `ListenAndServe` are network setup. The route's guarantee that paths start with "/redirect/" becomes the precondition of `RedirectId` and `Redirect`. The mux's own path cleaning is not modelled.
- Concurrency: Go serves each request on its own goroutine, and the writes to the global map are unsynchronised. The model is strictly sequential.
- `Hex.Decode` is not in the source. It is the inverse of the encoder and serves to state that the encoding is injective.
