# Rendezvous servlet: a Dafny model

App Inventor's rendezvous servlet lets the blocks editor and a phone that is
being debugged over WiFi find each other. The phone POSTs a small form body,
`key=<code>&ipaddr=<address>&...`. The editor then GETs `/<servlet>/<code>`
and receives those fields back as JSON. The data matters for a few seconds.

On every GET, and on every POST whose body line parses and has a `key`
field, the servlet asks the App Engine capabilities service whether memcache
is usable. Then it uses exactly one storage tier. The other POSTs (no body
line, a body that does not parse, no `key`) end before that question and use
neither tier.

- **memcache**, the normal case. A POST stores the whole field map under the
  servlet's fixed UUID followed by the key, expiring 300 seconds later. A GET
  returns every stored field.
- **the datastore**, used only when the memcache status is `DISABLED`. A POST
  keeps only the `ipaddr` field, under the bare key, and it never expires. A
  GET rebuilds the two-field object `{key, ipaddr}`.

The tiers are never combined: the datastore is not a backing store behind the
cache.

The model is split into five modules:

- `JavaSplit` (`java_split.dfy`) models `java.lang.String.split` for a
  one-character delimiter. With limit zero, trailing empty strings are
  dropped, and a string without the delimiter comes back whole. With a
  positive limit, at most that many pieces are returned, empty ones
  included.
- `FormBody` (`query_map.dfy`) models `getQueryMap`. There is a
  specification function `QueryMap` and a method `GetQueryMap` with the
  servlet's loop.
- `Capabilities` (`tier.dfy`) models the capability status and
  `memcacheNotAvailable`.
- `Rendezvous` (`rendezvous.dfy`) holds three things:
  - the value-level specification of `doPost` and `doGet` (`Store`, `Fetch`);
  - the class `RendezvousServlet`, whose `cache`, `datastore` and `now`
    fields stand for the two backing services and the clock;
  - the round-trip and tier-exclusivity lemmas.
- `Wrappers` (`wrappers.dfy`) holds `Option`.

How the servlet's I/O is represented:

- The servlet's printed replies become constructors of `PostOutcome` and
  `GetOutcome`. A JSON reply becomes the field map it encodes.
- The capability probe becomes a `CapabilityStatus` argument of each request. A POST that ends before the probe ignores it.
- The first line of the POST body becomes an `Option<string>`. `None` stands
  for the `null` returned by `readLine`.

The header comment of `RendezvousServlet.java` quotes the Python original that
the servlet replaces. The Java code differs from it, and the model follows the
Java code:

- A successful memcache POST replies `OK`. The Python original returns the
  stored bundle.
- An empty key is accepted. For example, `key==x` parses to the key `""`,
  because the value is the text up to the next `=`. The Python original
  rejects an empty key.
- Names and values are not URL-decoded. The Python original reads the
  decoded form fields.

A body line that does not parse is handled as follows. The reply
`queryString is null` is only for a missing line. A segment without a value
part (`a`, `a=`, `=`, an empty segment) makes `getQueryMap` throw an
`ArrayIndexOutOfBoundsException`. The request then fails (`Exception`), and
nothing is written.

## Model

| member | source | states |
|---|---|---|
| `Capabilities.MemcacheNotAvailable` | appinventor/appengine/src/com/google/appinventor/server/RendezvousServlet.java:204-212 | the datastore is selected exactly when the memcache status is DISABLED; every other status, including an unknown one, keeps memcache |
| `JavaSplit.SplitLimit` | appinventor/appengine/src/com/google/appinventor/server/RendezvousServlet.java:114 | `split("/", 5)` returns 1 to 5 pieces that join back to the URI; no piece but the last holds `/`, and the last holds one only when the limit was reached |
| `JavaSplit.Split` | appinventor/appengine/src/com/google/appinventor/server/RendezvousServlet.java:194 | `split` with limit zero returns a string without the delimiter whole; otherwise it returns a prefix of the cut at every delimiter that ends in a non-empty piece (or is empty), and everything it drops is empty, so every trailing empty piece is dropped |
| `JavaSplit.PiecesJoin` | appinventor/appengine/src/com/google/appinventor/server/RendezvousServlet.java:194 | the cut at every delimiter loses nothing: its pieces are delimiter-free and join back to the input |
| `JavaSplit.PiecesOfJoin` | appinventor/appengine/src/com/google/appinventor/server/RendezvousServlet.java:194 | inverse direction: any delimiter-free list of pieces is recovered by cutting its join |
| `JavaSplit.SplitOfJoin` | appinventor/appengine/src/com/google/appinventor/server/RendezvousServlet.java:194 | `split` of a join of delimiter-free pieces whose last piece is non-empty returns exactly those pieces |
| `JavaSplit.PiecesAllEmpty` | appinventor/appengine/src/com/google/appinventor/server/RendezvousServlet.java:197-198 | every piece of the cut is empty exactly when the input consists of delimiters only |
| `FormBody.GetQueryMap` | appinventor/appengine/src/com/google/appinventor/server/RendezvousServlet.java:193-202 | the loop over the `&`-segments returns what the specification `QueryMap` gives: the map built by putting each segment's name and value in turn, or failure |
| `FormBody.ParseSegmentDefined` | appinventor/appengine/src/com/google/appinventor/server/RendezvousServlet.java:197-198 | a segment parses exactly when some `=` is followed later by a character other than `=`; otherwise index 0 or 1 of its split is missing |
| `FormBody.ParseSegmentShape` | appinventor/appengine/src/com/google/appinventor/server/RendezvousServlet.java:197-198 | a parsed segment starts with `name=value`: the name is the text before the first `=`, the value the text up to the next `=` or the end |
| `FormBody.ParseSegmentOfPair` | appinventor/appengine/src/com/google/appinventor/server/RendezvousServlet.java:197-198 | `name=value` with no `=` in either and a non-empty value parses back to `(name, value)` |
| `FormBody.CollectStep` | appinventor/appengine/src/com/google/appinventor/server/RendezvousServlet.java:196-200 | one turn of the loop: a segment that parses puts its name and value into the map built so far |
| `FormBody.CollectDefined` | appinventor/appengine/src/com/google/appinventor/server/RendezvousServlet.java:196-200 | the loop completes exactly when every segment parses; one bad segment fails the whole body |
| `FormBody.CollectLastWins` | appinventor/appengine/src/com/google/appinventor/server/RendezvousServlet.java:196-200 | a name is a key of the result exactly when some segment carries it, and it is bound to the value of the last such segment |
| `FormBody.QueryMapDefined` | appinventor/appengine/src/com/google/appinventor/server/RendezvousServlet.java:193-202 | `getQueryMap` returns a map exactly when every `&`-segment of the line has a value part |
| `FormBody.QueryMapOfEncode` | appinventor/appengine/src/com/google/appinventor/server/RendezvousServlet.java:193-202 | round trip: a body `n1=v1&n2=v2&...` with no separator in the texts and non-empty values parses to the map that puts the pairs in order |
| `FormBody.MissingValueFails` | appinventor/appengine/src/com/google/appinventor/server/RendezvousServlet.java:197-198 | the bodies `a` and `a=` make the parser fail |
| `Rendezvous.CacheNameInjective` | appinventor/appengine/src/com/google/appinventor/server/RendezvousServlet.java:137 | the UUID prefix keeps distinct keys under distinct memcache names |
| `Rendezvous.UriKey` | appinventor/appengine/src/com/google/appinventor/server/RendezvousServlet.java:114-115 | the GET key is a suffix of the request URI, preceded by `/` unless it is the whole URI |
| `Rendezvous.UriKeyOfServletPath` | appinventor/appengine/src/com/google/appinventor/server/RendezvousServlet.java:114-115 | for `/<servlet>/<key>` the key is the last component |
| `Rendezvous.UriKeyOfNestedPath` | appinventor/appengine/src/com/google/appinventor/server/RendezvousServlet.java:114-115 | for `/<servlet>/<dir>/<key>` the key is the last component |
| `Rendezvous.UriKeyKeepsDeepSlashes` | appinventor/appengine/src/com/google/appinventor/server/RendezvousServlet.java:114-115 | with limit 5, everything after the fourth `/` is the key, slashes included |
| `Rendezvous.Store` | appinventor/appengine/src/com/google/appinventor/server/RendezvousServlet.java:157-187 | `queryString is null` is replied exactly when there is no body line; an unparseable line fails; no `key` gives `no key`; fallback without `ipaddr` gives `no ipaddress`; every failure writes nothing; a fallback success sets `datastore[key] := ipaddr` and leaves the cache alone; a parsed body with `key` succeeds: with memcache usable it replies `OK`, on fallback it replies `OK (Datastore)` when `ipaddr` is present and `no ipaddress` otherwise; a memcache success puts the whole field map under UUID+key, expiring 300 s later, and leaves the datastore alone |
| `Rendezvous.RendezvousServlet.DoPost` | appinventor/appengine/src/com/google/appinventor/server/RendezvousServlet.java:157-187 | the servlet's POST gives the reply and leaves the two stores as `Store` says; the clock is unchanged |
| `Rendezvous.RendezvousServlet.DoGet` | appinventor/appengine/src/com/google/appinventor/server/RendezvousServlet.java:113-155 | the servlet's GET changes nothing. On fallback it replies `{key, ipaddr}` on a datastore hit and nothing on a miss. With memcache it replies all fields of an unexpired map entry, an empty line for an entry of another type, and nothing otherwise |
| `Rendezvous.CopyFields` | appinventor/appengine/src/com/google/appinventor/server/RendezvousServlet.java:143-152 | the loop over the cached map's keys puts every field, and only those, into the JSON object |
| `Rendezvous.RendezvousServlet.constructor` | appinventor/appengine/src/com/google/appinventor/server/RendezvousServlet.java:103-107 | the servlet works on the shared cache and datastore it is handed |
| `Rendezvous.RendezvousServlet.AdvanceClock` | appinventor/appengine/src/com/google/appinventor/server/RendezvousServlet.java:185 | time passing changes neither store; memcache entries only age toward their expiry |
| `Rendezvous.CachedPostRoundTrip` | appinventor/appengine/src/com/google/appinventor/server/RendezvousServlet.java:137-152 | with memcache usable for both requests, a GET of the posted key made no earlier than the POST and less than 300 s after it returns exactly the posted field map, whatever the stores held before (so the last writer wins) |
| `Rendezvous.CachedPostExpires` | appinventor/appengine/src/com/google/appinventor/server/RendezvousServlet.java:185 | 300 s or more after the POST, the same GET returns nothing |
| `Rendezvous.DatastorePostRoundTrip` | appinventor/appengine/src/com/google/appinventor/server/RendezvousServlet.java:120-133 | with memcache disabled for both, a GET of the posted key returns exactly `{key, ipaddr}` at any later time |
| `Rendezvous.PostInvisibleToOtherTier` | appinventor/appengine/src/com/google/appinventor/server/RendezvousServlet.java:120-137 | a POST made under one tier leaves every GET under the other tier as it was: a value posted through memcache is not found once memcache is disabled |
| `Rendezvous.PostLeavesOtherKeys` | appinventor/appengine/src/com/google/appinventor/server/RendezvousServlet.java:180-185 | a POST changes the GET reply for its own key only |
| `Rendezvous.NeverStoredIsAbsent` | appinventor/appengine/src/com/google/appinventor/server/RendezvousServlet.java:122-141 | a key held by neither tier is reported absent whichever tier is selected |
| `Rendezvous.CacheMissPersists` | appinventor/appengine/src/com/google/appinventor/server/RendezvousServlet.java:137-141 | a memcache miss stays a miss as the clock advances, so repeated GETs agree until expiry and after it |
| `Rendezvous.PhoneBodyParses` | appinventor/appengine/src/com/google/appinventor/server/RendezvousServlet.java:193-202 | the body `key=<k>&ipaddr=<ip>` parses to exactly those two fields |
| `Rendezvous.ExchangeThroughMemcache` | appinventor/appengine/src/com/google/appinventor/server/RendezvousServlet.java:113-187 | phone posts `key=<k>&ipaddr=<ip>` with memcache enabled → reply `OK`, and the editor's GET of `/<servlet>/<k>` within 300 s returns `{key: k, ipaddr: ip}` |
| `Rendezvous.ExchangeThroughDatastore` | appinventor/appengine/src/com/google/appinventor/server/RendezvousServlet.java:113-187 | the same exchange with memcache disabled → reply `OK (Datastore)`, and the GET returns `{key: k, ipaddr: ip}` rebuilt from the datastore |

## Left out

- Servlet plumbing is not modelled: request and response objects, the writer, the reader, `init` and `destroy`. Only the first body line and the reply are modelled.
- JSON encoding with `org.json` is not modelled; the reply carries the field map instead. The `JSONException` handlers cannot fire for string keys and values, so they are not modelled either.
- The capabilities service is not called; its answer is an argument of each request.
- The memcache service is a map with expiry times. Eviction under memory pressure and silent put failures are not modelled.
- The datastore is a plain map from key to address. `StorageIo` is not part of this model, so the last-used timestamp it records is not modelled.
- HTTP status codes are not modelled. A parser exception is the single outcome `Exception`.
- Concurrent requests and same-key races are not modelled. Each request is one atomic step.
- No cleanup of stale datastore entries is modelled; the code has none.
- The Python original quoted in the file header is not modelled.
- `Rendezvous.UriKey`: its contract says only that the key is a `/`-delimited suffix of the URI. The exact component is stated by lemmas for two slashes (`UriKeyOfServletPath`), three slashes (`UriKeyOfNestedPath`) and four or more (`UriKeyKeepsDeepSlashes`). For a URI with no `/` or only one, it follows from `JavaSplit.SplitLimit`'s contract: the single piece, or the text after that `/`.
