/**
  The rendezvous servlet: a short-lived meeting point where the blocks editor
  and a phone exchange a few connection parameters under a shared key.

  A POST stores the fields of its form body under the body's `key` field, a GET
  on `.../<key>` returns them. Every GET, and every POST whose body parses and
  has a `key` field, asks the capability probe which tier to use and touches
  that tier only; the other POSTs (no body line, a body that does not parse,
  no `key`) end before the probe and touch neither tier:
  - memcache (the usual case): the whole field map is put under the servlet's
    fixed UUID followed by the key, to expire 300 seconds later;
  - the datastore (when memcache is DISABLED): only the `ipaddr` field is kept,
    under the bare key, and it never expires; a GET rebuilds `{key, ipaddr}`.

  The two backing stores are explicit state here: `cache` maps a namespaced
  name to an entry with its expiry time, `datastore` maps a key to an address,
  and `now` is the clock in seconds. The JSON text the servlet prints is
  replaced by the field map it encodes, and its other replies by constructors.
*/
module Rendezvous {
  import opened Wrappers
  import opened JavaSplit
  import opened FormBody
  import opened Capabilities

  /** The servlet's fixed namespace for its memcache entries. */
  const RendezvousUuid: string := "c96d8ac6-e571-48bb-9e1f-58df18574e43"

  /** Lifetime of a memcache entry, in seconds. */
  const TtlSeconds: int := 300

  /** What memcache holds under a name: the servlet's field map, or an object some other writer left. */
  datatype CacheValue = Params(fields: map<string, string>) | Foreign

  /** A memcache entry is returned while the clock is before `expiresAt`. */
  datatype CacheEntry = CacheEntry(value: CacheValue, expiresAt: int)

  /** The two backing tiers. */
  datatype Tiers = Tiers(cache: map<string, CacheEntry>, datastore: map<string, string>)

  /** The reply of a POST; `Exception` is the failure thrown by the body parser. */
  datatype PostOutcome =
    | QueryStringNull   // "queryString is null"
    | NoKey             // "no key"
    | NoIpAddress       // "no ipaddress"
    | OkDatastore       // "OK (Datastore)"
    | Ok                // "OK"
    | Exception         // getQueryMap threw: the request fails

  /** The reply of a GET: nothing printed, a JSON object of fields, or an empty line. */
  datatype GetOutcome = Nothing | Bundle(fields: map<string, string>) | BlankLine

  /** The memcache name of a rendezvous key. */
  function CacheName(key: string): string
  {
    RendezvousUuid + key
  }

  /** Distinct keys never share a memcache name. */
  lemma CacheNameInjective(k1: string, k2: string)
    requires CacheName(k1) == CacheName(k2)
    ensures k1 == k2
  {
    assert k1 == CacheName(k1)[|RendezvousUuid|..];
    assert k2 == CacheName(k2)[|RendezvousUuid|..];
  }

  /** `memcache.get(name)`: the stored value if there is one and it has not expired. */
  function CacheGet(cache: map<string, CacheEntry>, now: int, name: string): Option<CacheValue>
  {
    if name in cache && now < cache[name].expiresAt then Some(cache[name].value) else None
  }

  /**
    The key of a GET: the last element of the request URI split on `/` with
    limit 5. It is a suffix of the URI, preceded by a `/` unless it is the whole URI.
  */
  function UriKey(uri: string): (key: string)
    ensures |key| <= |uri| && uri[|uri| - |key|..] == key
    ensures |key| < |uri| ==> uri[|uri| - |key| - 1] == '/'
  {
    var uriComponents := SplitLimit(uri, '/', 5);
    JoinEndsWithLast(uriComponents, '/');
    uriComponents[|uriComponents| - 1]
  }

  /** The parsed body of a POST, or None when there is no body line or it does not parse. */
  function PostParams(body: Option<string>): Option<map<string, string>>
  {
    if body.None? then None else QueryMap(body.value)
  }

  /**
    `doPost`, on values: the reply and the tiers afterwards. Every failure leaves
    both tiers as they were; a success writes one entry into the selected tier only.
  */
  function Store(t: Tiers, now: int, body: Option<string>, status: CapabilityStatus): (r: (PostOutcome, Tiers))
    ensures body.None? ==> r == (QueryStringNull, t)
    ensures r.0 == QueryStringNull <==> body.None?
    ensures PostParams(body).Some? && "key" in PostParams(body).value && !MemcacheNotAvailable(status) ==> r.0 == Ok
    ensures PostParams(body).Some? && "key" in PostParams(body).value && MemcacheNotAvailable(status) ==>
      r.0 == (if "ipaddr" in PostParams(body).value then OkDatastore else NoIpAddress)
    ensures r.0 == Exception <==> body.Some? && QueryMap(body.value).None?
    ensures r.0 == NoKey <==> PostParams(body).Some? && "key" !in PostParams(body).value
    ensures r.0 != Ok && r.0 != OkDatastore ==> r.1 == t
    ensures MemcacheNotAvailable(status) ==> r.1.cache == t.cache && r.0 != Ok
    ensures !MemcacheNotAvailable(status) ==> r.1.datastore == t.datastore && r.0 != OkDatastore && r.0 != NoIpAddress
    ensures r.0 == NoIpAddress ==> "ipaddr" !in PostParams(body).value
    ensures r.0 == OkDatastore ==>
      var p := PostParams(body).value;
      "key" in p && "ipaddr" in p && r.1.datastore == t.datastore[p["key"] := p["ipaddr"]]
    ensures r.0 == Ok ==>
      var p := PostParams(body).value;
      "key" in p && r.1.cache == t.cache[CacheName(p["key"]) := CacheEntry(Params(p), now + TtlSeconds)]
  {
    if body.None? then (QueryStringNull, t)
    else
      match QueryMap(body.value)
      case None => (Exception, t)
      case Some(params) =>
        if "key" !in params then (NoKey, t)
        else
          var key := params["key"];
          if MemcacheNotAvailable(status) then
            if "ipaddr" !in params then (NoIpAddress, t)
            else (OkDatastore, t.(datastore := t.datastore[key := params["ipaddr"]]))
          else (Ok, t.(cache := t.cache[CacheName(key) := CacheEntry(Params(params), now + TtlSeconds)]))
  }

  /** `doGet`, on values: what a GET of `uri` replies, reading the selected tier only. */
  function Fetch(t: Tiers, now: int, uri: string, status: CapabilityStatus): GetOutcome
  {
    var key := UriKey(uri);
    if MemcacheNotAvailable(status) then
      if key in t.datastore then Bundle(map["key" := key, "ipaddr" := t.datastore[key]]) else Nothing
    else
      match CacheGet(t.cache, now, CacheName(key))
      case None => Nothing
      case Some(Params(fields)) => Bundle(fields)
      case Some(Foreign) => BlankLine
  }

  /** The loop of `doGet` that puts every field of the cached map into the JSON object. */
  method CopyFields(m: map<string, string>) returns (json: map<string, string>)
    ensures json == m
  {
    json := map[];
    var todo := m.Keys;
    while todo != {}
      invariant todo <= m.Keys
      invariant json.Keys == m.Keys - todo
      invariant forall k :: k in json ==> json[k] == m[k]
      decreases todo
    {
      var k :| k in todo;
      json := json[k := m[k]];
      todo := todo - {k};
    }
  }

  /** The servlet with its two backing stores and the clock made explicit. */
  class RendezvousServlet {
    var cache: map<string, CacheEntry>
    var datastore: map<string, string>
    var now: int

    function State(): Tiers
      reads this
    {
      Tiers(cache, datastore)
    }

    /** The servlet is handed the shared stores it works on, and the clock. */
    constructor (cache: map<string, CacheEntry>, datastore: map<string, string>, now: int)
      ensures State() == Tiers(cache, datastore) && this.now == now
    {
      this.cache := cache;
      this.datastore := datastore;
      this.now := now;
    }

    /** Time passes; nothing is stored or removed, entries simply age. */
    method AdvanceClock(seconds: nat)
      modifies this
      ensures now == old(now) + seconds && State() == old(State())
    {
      now := now + seconds;
    }

    /** `doPost`: `body` is the first line of the request body, None when there is none. */
    method DoPost(body: Option<string>, status: CapabilityStatus) returns (out: PostOutcome)
      modifies this
      ensures (out, State()) == Store(old(State()), now, body, status)
      ensures now == old(now)
    {
      if body.None? {
        return QueryStringNull;
      }
      var params := GetQueryMap(body.value);
      if params.None? {
        return Exception;
      }
      var p := params.value;
      if "key" !in p {
        return NoKey;
      }
      var key := p["key"];
      if MemcacheNotAvailable(status) {
        if "ipaddr" !in p {
          return NoIpAddress;
        }
        datastore := datastore[key := p["ipaddr"]];
        return OkDatastore;
      }
      cache := cache[CacheName(key) := CacheEntry(Params(p), now + TtlSeconds)];
      out := Ok;
    }

    /** `doGet`: reads the selected tier and changes nothing. */
    method DoGet(uri: string, status: CapabilityStatus) returns (out: GetOutcome)
      ensures out == Fetch(State(), now, uri, status)
    {
      var key := UriKey(uri);
      if MemcacheNotAvailable(status) {
        if key !in datastore {
          return Nothing;
        }
        var json := map["key" := key];
        json := json["ipaddr" := datastore[key]];
        return Bundle(json);
      }
      var value := CacheGet(cache, now, CacheName(key));
      if value.None? {
        return Nothing;
      }
      match value.value
      case Params(fields) =>
        var json := CopyFields(fields);
        out := Bundle(json);
      case Foreign =>
        out := BlankLine;
    }
  }

  // ---- Round trips and tier exclusivity ----

  /** With memcache usable for both requests, a GET within 300 seconds returns exactly the posted fields. */
  lemma CachedPostRoundTrip(t: Tiers, now: int, body: Option<string>, status: CapabilityStatus,
                            later: int, uri: string, getStatus: CapabilityStatus)
    requires status != Disabled && getStatus != Disabled
    requires Store(t, now, body, status).0 == Ok
    requires UriKey(uri) == PostParams(body).value["key"]
    requires now <= later < now + TtlSeconds
    ensures Fetch(Store(t, now, body, status).1, later, uri, getStatus) == Bundle(PostParams(body).value)
  {
  }

  /** Once 300 seconds have passed, the posted fields are gone from the memcache tier. */
  lemma CachedPostExpires(t: Tiers, now: int, body: Option<string>, status: CapabilityStatus,
                          later: int, uri: string, getStatus: CapabilityStatus)
    requires status != Disabled && getStatus != Disabled
    requires Store(t, now, body, status).0 == Ok
    requires UriKey(uri) == PostParams(body).value["key"]
    requires later >= now + TtlSeconds
    ensures Fetch(Store(t, now, body, status).1, later, uri, getStatus) == Nothing
  {
  }

  /** On the datastore tier a GET returns the key and the posted address, however much later. */
  lemma DatastorePostRoundTrip(t: Tiers, now: int, body: Option<string>, later: int, uri: string)
    requires Store(t, now, body, Disabled).0 == OkDatastore
    requires UriKey(uri) == PostParams(body).value["key"]
    ensures Fetch(Store(t, now, body, Disabled).1, later, uri, Disabled) ==
      Bundle(map["key" := UriKey(uri), "ipaddr" := PostParams(body).value["ipaddr"]])
  {
  }

  /**
    Tier exclusivity: a POST under one tier is invisible to a GET under the other,
    whatever the key, because the write reached only the tier the POST selected.
  */
  lemma PostInvisibleToOtherTier(t: Tiers, now: int, body: Option<string>, status: CapabilityStatus,
                                 later: int, uri: string, getStatus: CapabilityStatus)
    requires MemcacheNotAvailable(status) != MemcacheNotAvailable(getStatus)
    ensures Fetch(Store(t, now, body, status).1, later, uri, getStatus) == Fetch(t, later, uri, getStatus)
  {
  }

  /** A POST changes what GET returns for its own key only. */
  lemma PostLeavesOtherKeys(t: Tiers, now: int, body: Option<string>, status: CapabilityStatus,
                            later: int, uri: string, getStatus: CapabilityStatus)
    requires PostParams(body).Some? && "key" in PostParams(body).value
    requires UriKey(uri) != PostParams(body).value["key"]
    ensures Fetch(Store(t, now, body, status).1, later, uri, getStatus) == Fetch(t, later, uri, getStatus)
  {
    var key := PostParams(body).value["key"];
    if CacheName(UriKey(uri)) == CacheName(key) {
      CacheNameInjective(UriKey(uri), key);
    }
  }

  /** A key that neither tier holds is reported absent, whichever tier is selected. */
  lemma NeverStoredIsAbsent(t: Tiers, now: int, uri: string, status: CapabilityStatus)
    requires UriKey(uri) !in t.datastore && CacheName(UriKey(uri)) !in t.cache
    ensures Fetch(t, now, uri, status) == Nothing
  {
  }

  /** A memcache miss stays a miss as time goes on, until another POST. */
  lemma CacheMissPersists(t: Tiers, now: int, later: int, uri: string, status: CapabilityStatus)
    requires status != Disabled && now <= later
    requires Fetch(t, now, uri, status) == Nothing
    ensures Fetch(t, later, uri, status) == Nothing
  {
  }

  // ---- The exchange between the blocks editor and a phone ----

  /** Text that can travel as a form value and as the last component of a URI. */
  predicate PlainText(x: string)
  {
    x != [] && '&' !in x && '=' !in x && '/' !in x
  }

  /** The body `key=<key>&ipaddr=<ip>` that the phone posts parses to its two fields. */
  lemma PhoneBodyParses(key: string, ip: string)
    requires PlainText(key) && PlainText(ip)
    ensures QueryMap("key=" + key + "&ipaddr=" + ip) == Some(map["key" := key, "ipaddr" := ip])
  {
    var pairs := [("key", key), ("ipaddr", ip)];
    assert Encode(pairs) == "key=" + key + "&ipaddr=" + ip by {
      var segs := Segments(pairs);
      assert "key" + "=" == "key=" && "ipaddr" + "=" == "ipaddr=";
      assert |segs| == 2 && segs[0] == "key" + "=" + key && segs[1] == "ipaddr" + "=" + ip;
      assert segs == ["key=" + key, "ipaddr=" + ip];
      assert Join(segs[1..], '&') == "ipaddr=" + ip;
    }
    assert ToMap(pairs) == map["key" := key, "ipaddr" := ip] by {
      assert ToMap(pairs[..1]) == map["key" := key];
    }
    assert Encodable(pairs);
    QueryMapOfEncode(pairs);
  }

  /**
    The exchange with memcache usable: the phone posts its address under `key`,
    and the editor's GET of `/<servlet>/<key>` within 300 seconds sees both fields.
  */
  lemma ExchangeThroughMemcache(t: Tiers, now: int, servlet: string, key: string, ip: string, later: int)
    requires '/' !in servlet && PlainText(key) && PlainText(ip)
    requires now <= later < now + TtlSeconds
    ensures var (reply, after) := Store(t, now, Some("key=" + key + "&ipaddr=" + ip), Enabled);
      reply == Ok &&
      Fetch(after, later, "/" + servlet + "/" + key, Enabled) == Bundle(map["key" := key, "ipaddr" := ip])
  {
    var body := Some("key=" + key + "&ipaddr=" + ip);
    PhoneBodyParses(key, ip);
    assert Store(t, now, body, Enabled).0 == Ok;
    UriKeyOfServletPath(servlet, key);
    CachedPostRoundTrip(t, now, body, Enabled, later, "/" + servlet + "/" + key, Enabled);
  }

  /** The same exchange with memcache disabled goes through the datastore and rebuilds the two fields. */
  lemma ExchangeThroughDatastore(t: Tiers, now: int, servlet: string, key: string, ip: string, later: int)
    requires '/' !in servlet && PlainText(key) && PlainText(ip)
    ensures var (reply, after) := Store(t, now, Some("key=" + key + "&ipaddr=" + ip), Disabled);
      reply == OkDatastore &&
      Fetch(after, later, "/" + servlet + "/" + key, Disabled) == Bundle(map["key" := key, "ipaddr" := ip])
  {
    var body := Some("key=" + key + "&ipaddr=" + ip);
    PhoneBodyParses(key, ip);
    assert Store(t, now, body, Disabled).0 == OkDatastore;
    UriKeyOfServletPath(servlet, key);
    DatastorePostRoundTrip(t, now, body, later, "/" + servlet + "/" + key);
  }

  // ---- The key of a GET ----

  /** For a servlet path `/<servlet>/<key>` the key is the last component. */
  lemma UriKeyOfServletPath(servlet: string, key: string)
    requires '/' !in servlet && '/' !in key
    ensures UriKey("/" + servlet + "/" + key) == key
  {
    var uri := "/" + servlet + "/" + key;
    assert uri == [] + ['/'] + (servlet + ['/'] + key);
    SplitLimitStep([], '/', servlet + ['/'] + key, 5);
    SplitLimitStep(servlet, '/', key, 4);
  }

  /** For a path one level deeper, `/<servlet>/<dir>/<key>`, the key is still the last component. */
  lemma UriKeyOfNestedPath(servlet: string, dir: string, key: string)
    requires '/' !in servlet && '/' !in dir && '/' !in key
    ensures UriKey("/" + servlet + "/" + dir + "/" + key) == key
  {
    var uri := "/" + servlet + "/" + dir + "/" + key;
    assert uri == [] + ['/'] + (servlet + ['/'] + (dir + ['/'] + key));
    SplitLimitStep([], '/', servlet + ['/'] + (dir + ['/'] + key), 5);
    SplitLimitStep(servlet, '/', dir + ['/'] + key, 4);
    SplitLimitStep(dir, '/', key, 3);
  }

  /** The limit of five keeps every `/` after the fourth in the key. */
  lemma UriKeyKeepsDeepSlashes(a: string, b: string, c: string, rest: string)
    requires '/' !in a && '/' !in b && '/' !in c
    ensures UriKey("/" + a + "/" + b + "/" + c + "/" + rest) == rest
  {
    var uri := "/" + a + "/" + b + "/" + c + "/" + rest;
    assert uri == [] + ['/'] + (a + ['/'] + (b + ['/'] + (c + ['/'] + rest)));
    SplitLimitStep([], '/', a + ['/'] + (b + ['/'] + (c + ['/'] + rest)), 5);
    SplitLimitStep(a, '/', b + ['/'] + (c + ['/'] + rest), 4);
    SplitLimitStep(b, '/', c + ['/'] + rest, 3);
    SplitLimitStep(c, '/', rest, 2);
  }
}
