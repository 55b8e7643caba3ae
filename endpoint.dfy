/** The pure decisions of the device session in `src/session/ble.js`:
    endpoint resolution (`getEndpoint`), the chunking of `write`, the
    subscription table of `startNotifications` / `stopNotifications`, and
    the repair of that table after a write. The session class applies them. */
module Endpoint {
  import opened JsValue
  import opened Uuid
  import opened Gatt
  import opened Discovery

  /** How an awaited step ends here: a value, a rejection with its reason,
      or a promise that never settles because the callback that should
      settle it throws first. */
  datatype Promise<+T> = Resolved(value: T) | Rejected(reason: Value) | NeverSettles

  /** In a class body (strict code) the assignment `serviceUuid = service.uuid`
      names an undeclared variable and throws; with no service at all,
      reading `service.uuid` throws first. */
  const UndeclaredServiceUuid := Err("serviceUuid is not defined")
  const NoFirstService := Err("Cannot read property 'uuid' of undefined")

  predicate IsConnected(p: Option<Peripheral>)
  {
    p.Some? && p.value.state == Connected
  }

  /** `services.find(item => item.uuid === id)`. */
  function FindService(services: seq<Service>, id: Value): (r: Option<Service>)
    ensures r.Some? ==> r.value in services && Str(r.value.uuid) == id
  {
    if services == [] then None
    else if Str(services[0].uuid) == id then Some(services[0])
    else FindService(services[1..], id)
  }

  /** `find` returns the first service with the uuid, and nothing exactly
      when no service has it. */
  lemma {:induction false} FindServiceFirst(services: seq<Service>, id: Value)
    ensures var r := FindService(services, id);
      && (r.Some? ==> exists i :: 0 <= i < |services| && services[i] == r.value &&
                        Str(services[i].uuid) == id && forall j :: 0 <= j < i ==> Str(services[j].uuid) != id)
      && (r.None? <==> forall i :: 0 <= i < |services| ==> Str(services[i].uuid) != id)
  {
    if services != [] && Str(services[0].uuid) != id {
      FindServiceFirst(services[1..], id);
      assert forall i :: 1 <= i < |services| ==> services[i] == services[1..][i - 1];
      if FindService(services, id).Some? {
        var i :| 0 <= i < |services[1..]| && services[1..][i] == FindService(services, id).value &&
                 Str(services[1..][i].uuid) == id && forall j :: 0 <= j < i ==> Str(services[1..][j].uuid) != id;
        assert services[i + 1] == FindService(services, id).value;
        assert forall j :: 0 <= j < i + 1 ==> Str(services[j].uuid) != id by {
          forall j | 0 <= j < i + 1 ensures Str(services[j].uuid) != id {
            if j > 0 { assert services[j] == services[1..][j - 1]; }
          }
        }
      }
    }
  }

  /** What the adapter answers to `service.discoverCharacteristics([id])`:
      the characteristics of the service with that uuid, in order. */
  function Discovered(service: Service, id: Value): (r: seq<Characteristic>)
    ensures forall c :: c in r <==> c in service.characteristics && Str(c.uuid) == id
  {
    Matching(service.characteristics, id)
  }

  function Matching(cs: seq<Characteristic>, id: Value): (r: seq<Characteristic>)
    ensures forall c :: c in r <==> c in cs && Str(c.uuid) == id
  {
    if cs == [] then []
    else
      var rest := Matching(cs[1..], id);
      assert forall c :: c in cs <==> c == cs[0] || c in cs[1..];
      (if Str(cs[0].uuid) == id then [cs[0]] else []) + rest
  }

  /** `characteristics.find(item => item.properties.includes(type))`. */
  function FirstWithProperty(cs: seq<Characteristic>, ty: string): (r: Option<Characteristic>)
    ensures r.Some? ==> r.value in cs && ty in r.value.properties
  {
    if cs == [] then None
    else if ty in cs[0].properties then Some(cs[0])
    else FirstWithProperty(cs[1..], ty)
  }

  /** `find` returns the first characteristic with the property, and nothing
      exactly when none has it. */
  lemma {:induction false} FirstWithPropertyFirst(cs: seq<Characteristic>, ty: string)
    ensures var r := FirstWithProperty(cs, ty);
      && (r.Some? ==> exists i :: 0 <= i < |cs| && cs[i] == r.value && ty in cs[i].properties &&
                        forall j :: 0 <= j < i ==> ty !in cs[j].properties)
      && (r.None? <==> forall i :: 0 <= i < |cs| ==> ty !in cs[i].properties)
  {
    if cs != [] && ty !in cs[0].properties {
      FirstWithPropertyFirst(cs[1..], ty);
      assert forall i :: 1 <= i < |cs| ==> cs[i] == cs[1..][i - 1];
      if FirstWithProperty(cs, ty).Some? {
        var i :| 0 <= i < |cs[1..]| && cs[1..][i] == FirstWithProperty(cs, ty).value && ty in cs[1..][i].properties &&
                 forall j :: 0 <= j < i ==> ty !in cs[1..][j].properties;
        assert cs[i + 1] == FirstWithProperty(cs, ty).value;
        assert forall j :: 0 <= j < i + 1 ==> ty !in cs[j].properties by {
          forall j | 0 <= j < i + 1 ensures ty !in cs[j].properties {
            if j > 0 { assert cs[j] == cs[1..][j - 1]; }
          }
        }
      }
    }
  }

  /** The key `getEndpoint` caches a characteristic under: the property key
      of the normalised `characteristicId`. */
  function CacheKey(params: Value): Option<string>
  {
    match GetUUID(Get(params, "characteristicId"))
    case None => None
    case Some(id) => Some(ToJsString(id))
  }

  /** One run of `getEndpoint`: its outcome, the adapter lookup it issued,
      and the endpoint cache afterwards. */
  datatype Resolution = Resolution(result: Promise<Characteristic>, lookup: seq<AdapterOp>, cache: map<string, Characteristic>)

  /** `getEndpoint(errorText, params, type)`. `lookupFails` is the adapter
      reporting an error from `discoverCharacteristics`; the callback then
      reads the undeclared `serviceUuid` and throws, so the promise never
      settles. */
  function ResolveEndpoint(
    peripheral: Option<Peripheral>, services: Option<seq<Service>>, cache: map<string, Characteristic>,
    params: Value, ty: string, errorText: string, lookupFails: bool): (r: Resolution)
    requires peripheral.Some? ==> services.Some?
    ensures |r.lookup| <= 1
    ensures r.result.Resolved? || r.cache == cache
  {
    if !IsConnected(peripheral) then
      Resolution(Rejected(Str("Peripheral is not connected for " + errorText)), [], cache)
    else match GetUUID(Get(params, "characteristicId"))
      case None => Resolution(Rejected(SplitError), [], cache)
      case Some(characteristicId) =>
        var key := ToJsString(characteristicId);
        if key in cache then Resolution(Resolved(cache[key]), [], cache)
        else
          var serviceId := Get(params, "serviceId");
          if !Truthy(serviceId) then
            if services.value == [] then Resolution(Rejected(NoFirstService), [], cache)
            else Resolution(Rejected(UndeclaredServiceUuid), [], cache)
          else match GetUUID(serviceId)
            case None => Resolution(Rejected(SplitError), [], cache)
            case Some(sid) =>
              match FindService(services.value, sid)
              case None => Resolution(Rejected(Str("Could not determine service UUID for " + errorText)), [], cache)
              case Some(service) =>
                var lookup := [DiscoverCharacteristics(service.uuid, [characteristicId])];
                if lookupFails then Resolution(NeverSettles, lookup, cache)
                else match FirstWithProperty(Discovered(service, characteristicId), ty)
                  case None => Resolution(Rejected(Str("failed to collect " + ty + " characteristic from service")), lookup, cache)
                  case Some(c) => Resolution(Resolved(c), lookup, cache[key := c])
  }

  /** The guards of `getEndpoint`: a disconnected peripheral rejects at
      once; a `characteristicId` that `getUUID` cannot normalise throws; a
      cached characteristic answers without a lookup; an uncached key
      without `serviceId` rejects without one. */
  lemma ResolveEndpointGuards(
    peripheral: Option<Peripheral>, services: Option<seq<Service>>, cache: map<string, Characteristic>,
    params: Value, ty: string, errorText: string, lookupFails: bool)
    requires peripheral.Some? ==> services.Some?
    ensures var r := ResolveEndpoint(peripheral, services, cache, params, ty, errorText, lookupFails);
      && (!IsConnected(peripheral) ==> r == Resolution(Rejected(Str("Peripheral is not connected for " + errorText)), [], cache))
      && (IsConnected(peripheral) && CacheKey(params).None? ==> r == Resolution(Rejected(SplitError), [], cache))
      && (IsConnected(peripheral) && CacheKey(params).Some? && CacheKey(params).value in cache ==>
            r == Resolution(Resolved(cache[CacheKey(params).value]), [], cache))
      && ((IsConnected(peripheral) && CacheKey(params).Some? && CacheKey(params).value !in cache &&
           !Truthy(Get(params, "serviceId"))) ==> r.result.Rejected? && r.lookup == [])
  {
  }

  /** An uncached key on a connected peripheral that names no service to
      ask: without `serviceId` the first service's uuid is read, which
      throws (with no service, reading it throws first); a `serviceId` that
      `getUUID` cannot normalise throws; one naming no known service
      rejects. None of them issues a lookup. */
  lemma ResolveEndpointNoService(
    peripheral: Option<Peripheral>, services: Option<seq<Service>>, cache: map<string, Characteristic>,
    params: Value, ty: string, errorText: string, lookupFails: bool)
    requires peripheral.Some? ==> services.Some?
    requires IsConnected(peripheral) && CacheKey(params).Some? && CacheKey(params).value !in cache
    ensures var r := ResolveEndpoint(peripheral, services, cache, params, ty, errorText, lookupFails);
      var serviceId := Get(params, "serviceId");
      && (!Truthy(serviceId) ==>
            r == Resolution(Rejected(if services.value == [] then NoFirstService else UndeclaredServiceUuid), [], cache))
      && (Truthy(serviceId) && GetUUID(serviceId).None? ==> r == Resolution(Rejected(SplitError), [], cache))
      && (Truthy(serviceId) && GetUUID(serviceId).Some? && FindService(services.value, GetUUID(serviceId).value).None? ==>
            r == Resolution(Rejected(Str("Could not determine service UUID for " + errorText)), [], cache))
  {
    assert CacheKey(params) == Some(ToJsString(GetUUID(Get(params, "characteristicId")).value));
  }

  /** An uncached key on a connected peripheral whose `serviceId` names a
      known service: that service is asked once for the characteristic;
      then the first discovered characteristic with the requested property
      is cached and returned, or the call rejects with "failed to collect",
      or, when the lookup fails, the promise never settles. */
  lemma ResolveEndpointFound(
    peripheral: Option<Peripheral>, services: Option<seq<Service>>, cache: map<string, Characteristic>,
    params: Value, ty: string, errorText: string, lookupFails: bool)
    requires peripheral.Some? ==> services.Some?
    requires IsConnected(peripheral) && CacheKey(params).Some? && CacheKey(params).value !in cache
    requires Truthy(Get(params, "serviceId")) && GetUUID(Get(params, "serviceId")).Some?
    requires FindService(services.value, GetUUID(Get(params, "serviceId")).value).Some?
    ensures var r := ResolveEndpoint(peripheral, services, cache, params, ty, errorText, lookupFails);
      var service := FindService(services.value, GetUUID(Get(params, "serviceId")).value).value;
      var characteristicId := GetUUID(Get(params, "characteristicId")).value;
      var first := FirstWithProperty(Discovered(service, characteristicId), ty);
      && r.lookup == [DiscoverCharacteristics(service.uuid, [characteristicId])]
      && (lookupFails ==> r.result == NeverSettles && r.cache == cache)
      && (!lookupFails && first.None? ==>
            r.result == Rejected(Str("failed to collect " + ty + " characteristic from service")) && r.cache == cache)
      && (!lookupFails && first.Some? ==>
            r.result == Resolved(first.value) && r.cache == cache[CacheKey(params).value := first.value])
  {
    assert CacheKey(params) == Some(ToJsString(GetUUID(Get(params, "characteristicId")).value));
  }

  /** Only a resolution changes the cache, and only under the
      characteristic's key. */
  lemma ResolveEndpointCache(
    peripheral: Option<Peripheral>, services: Option<seq<Service>>, cache: map<string, Characteristic>,
    params: Value, ty: string, errorText: string, lookupFails: bool)
    requires peripheral.Some? ==> services.Some?
    ensures var r := ResolveEndpoint(peripheral, services, cache, params, ty, errorText, lookupFails);
      && (r.result.Resolved? ==> CacheKey(params).Some? && r.cache == cache[CacheKey(params).value := r.result.value])
      && (!r.result.Resolved? ==> r.cache == cache)
  {
    if IsConnected(peripheral) && GetUUID(Get(params, "characteristicId")).Some? {
      assert CacheKey(params) == Some(ToJsString(GetUUID(Get(params, "characteristicId")).value));
    }
  }

  /** A lookup happens only for an uncached key and a truthy `serviceId`; it
      asks one service with that uuid for the characteristic; a characteristic
      it resolves to has the requested property and belongs to that service;
      a promise that never settles follows a failed lookup. */
  lemma ResolveEndpointLookup(
    peripheral: Option<Peripheral>, services: Option<seq<Service>>, cache: map<string, Characteristic>,
    params: Value, ty: string, errorText: string, lookupFails: bool)
    requires peripheral.Some? ==> services.Some?
    ensures var r := ResolveEndpoint(peripheral, services, cache, params, ty, errorText, lookupFails);
      && (r.lookup != [] ==> CacheKey(params).Some? && CacheKey(params).value !in cache && Truthy(Get(params, "serviceId")))
      && (r.result.Resolved? && r.lookup != [] ==>
            ty in r.result.value.properties && GetUUID(Get(params, "serviceId")).Some? &&
            exists s :: s in services.value && Str(s.uuid) == GetUUID(Get(params, "serviceId")).value &&
              r.lookup == [DiscoverCharacteristics(s.uuid, [GetUUID(Get(params, "characteristicId")).value])] &&
              r.result.value in s.characteristics)
      && (r.result.NeverSettles? ==> lookupFails && |r.lookup| == 1)
  {
    var r := ResolveEndpoint(peripheral, services, cache, params, ty, errorText, lookupFails);
    if IsConnected(peripheral) && GetUUID(Get(params, "characteristicId")).Some? {
      assert CacheKey(params) == Some(ToJsString(GetUUID(Get(params, "characteristicId")).value));
    }
    if r.result.Resolved? && r.lookup != [] {
      var service := FindService(services.value, GetUUID(Get(params, "serviceId")).value).value;
      assert r.result.value in Discovered(service, GetUUID(Get(params, "characteristicId")).value);
    }
  }

  /** A characteristic that resolved once is returned from the cache on every
      later call, whatever type is then asked for and without a lookup. */
  lemma CachedEndpointIgnoresType(
    peripheral: Option<Peripheral>, services: Option<seq<Service>>, cache: map<string, Characteristic>,
    params: Value, ty: string, ty2: string, errorText: string, lookupFails: bool)
    requires peripheral.Some? ==> services.Some?
    requires ResolveEndpoint(peripheral, services, cache, params, ty, errorText, lookupFails).result.Resolved?
    ensures var first := ResolveEndpoint(peripheral, services, cache, params, ty, errorText, lookupFails);
      ResolveEndpoint(peripheral, services, first.cache, params, ty2, errorText, lookupFails) ==
        Resolution(first.result, [], first.cache)
  {
    ResolveEndpointCache(peripheral, services, cache, params, ty, errorText, lookupFails);
  }

  // ---------------------------------------------------------------------
  // Chunked writes

  /** `buffer.slice(start, end)`: both ends clamp to the buffer, and a range
      that is empty after clamping gives an empty buffer. */
  function Slice(b: seq<byte>, start: nat, end: nat): (r: seq<byte>)
    ensures |r| <= |b|
  {
    var e := if end < |b| then end else |b|;
    if start < e then b[start..e] else []
  }

  /** The chunks the loop `for (i = start; i < buffer.length; i += 20)` hands
      to the adapter: `buffer.slice(i, 20)` for each `i`. */
  function ChunksFrom(b: seq<byte>, start: nat): seq<seq<byte>>
    decreases |b| - start
  {
    if start >= |b| then [] else [Slice(b, start, 20)] + ChunksFrom(b, start + 20)
  }

  /** The chunks `write` hands to the adapter for the whole buffer: chunk
      `k` is `buffer.slice(20 * k, 20)`, and there is one exactly when the
      buffer is not empty. */
  function ChunksAsWritten(b: seq<byte>): (r: seq<seq<byte>>)
    ensures (r == []) <==> (b == [])
    ensures forall k :: 0 <= k < |r| ==> r[k] == Slice(b, 20 * k, 20)
  {
    ChunksFromLayout(b, 0);
    ChunksFrom(b, 0)
  }

  lemma {:induction false} ChunksFromLayout(b: seq<byte>, start: nat)
    ensures start >= |b| ==> ChunksFrom(b, start) == []
    ensures start < |b| ==> 20 * (|ChunksFrom(b, start)| - 1) < |b| - start <= 20 * |ChunksFrom(b, start)|
    ensures forall k :: 0 <= k < |ChunksFrom(b, start)| ==> ChunksFrom(b, start)[k] == Slice(b, start + 20 * k, 20)
    decreases |b| - start
  {
    if start < |b| {
      ChunksFromLayout(b, start + 20);
      var rest := ChunksFrom(b, start + 20);
      forall k | 1 <= k < |ChunksFrom(b, start)|
        ensures ChunksFrom(b, start)[k] == Slice(b, start + 20 * k, 20)
      {
        assert ChunksFrom(b, start)[k] == rest[k - 1];
      }
    }
  }

  /** `write` issues one chunk per `i = 0, 20, 40, …` below the length, that
      is ⌈L/20⌉ chunks, the k-th being `buffer.slice(20 * k, 20)`. */
  lemma ChunkLayout(b: seq<byte>)
    ensures |ChunksAsWritten(b)| == (|b| + 19) / 20
    ensures 20 * |ChunksAsWritten(b)| - 20 < |b| <= 20 * |ChunksAsWritten(b)|
    ensures forall k :: 0 <= k < |ChunksAsWritten(b)| ==> ChunksAsWritten(b)[k] == Slice(b, 20 * k, 20)
  {
    ChunksFromLayout(b, 0);
  }

  function Concat(chunks: seq<seq<byte>>): seq<byte>
  {
    if chunks == [] then [] else chunks[0] + Concat(chunks[1..])
  }

  /** Since the end index stays 20, only the first chunk carries bytes: the
      bytes sent are the first 20 of the buffer, whatever its length. */
  lemma OnlyFirstChunkCarriesData(b: seq<byte>)
    ensures forall k :: 0 < k < |ChunksAsWritten(b)| ==> ChunksAsWritten(b)[k] == []
    ensures Concat(ChunksAsWritten(b)) == b[..if |b| < 20 then |b| else 20]
  {
    ChunkLayout(b);
    var chunks := ChunksAsWritten(b);
    if b != [] {
      AllEmptyConcat(chunks[1..]);
      assert chunks[0] == Slice(b, 0, 20);
    }
  }

  lemma {:induction false} AllEmptyConcat(chunks: seq<seq<byte>>)
    requires forall k :: 0 <= k < |chunks| ==> chunks[k] == []
    ensures Concat(chunks) == []
  {
    if chunks != [] {
      AllEmptyConcat(chunks[1..]);
    }
  }

  /** A buffer longer than one chunk is not sent whole. */
  lemma LongWriteLosesBytes(b: seq<byte>)
    requires |b| > 20
    ensures Concat(ChunksAsWritten(b)) != b
  {
    OnlyFirstChunkCarriesData(b);
  }

  /** The adapter writes for a list of chunks, in order. */
  function ChunkWrites(h: Handle, chunks: seq<seq<byte>>, withoutResponse: bool): (ops: seq<AdapterOp>)
    ensures |ops| == |chunks|
    ensures forall k :: 0 <= k < |chunks| ==> ops[k] == WriteChunk(h, chunks[k], withoutResponse)
  {
    if chunks == [] then []
    else ChunkWrites(h, chunks[..|chunks| - 1], withoutResponse) + [WriteChunk(h, chunks[|chunks| - 1], withoutResponse)]
  }

  lemma ChunkWritesSnoc(h: Handle, chunks: seq<seq<byte>>, k: nat, withoutResponse: bool)
    requires k < |chunks|
    ensures ChunkWrites(h, chunks[..k + 1], withoutResponse) ==
            ChunkWrites(h, chunks[..k], withoutResponse) + [WriteChunk(h, chunks[k], withoutResponse)]
  {
    assert chunks[..k + 1][..k] == chunks[..k];
  }

  /** Chunk `k` exists exactly when its offset `20 * k` is inside the buffer. */
  lemma ChunkIndex(b: seq<byte>, k: nat)
    ensures k < |ChunksAsWritten(b)| <==> 20 * k < |b|
    ensures k < |ChunksAsWritten(b)| ==> ChunksAsWritten(b)[k] == Slice(b, 20 * k, 20)
  {
    ChunksFromLayout(b, 0);
  }

  /** The chunk index of the first adapter error among `n` chunks, or `n`. */
  function FirstFailure(writeError: nat -> Option<string>, n: nat): (k: nat)
    ensures k <= n
    ensures forall j :: 0 <= j < k ==> writeError(j).None?
    ensures k < n ==> writeError(k).Some?
  {
    if n == 0 then 0
    else
      var k := FirstFailure(writeError, n - 1);
      if k < n - 1 then k else if writeError(n - 1).Some? then n - 1 else n
  }

  /** The first failure is the one index before which every write succeeds
      and at which, inside the range, one fails. */
  lemma FirstFailureIs(writeError: nat -> Option<string>, n: nat, k: nat)
    requires k <= n
    requires forall j :: 0 <= j < k ==> writeError(j).None?
    requires k < n ==> writeError(k).Some?
    ensures FirstFailure(writeError, n) == k
  {
  }

  /** The writes the loop of `write` issues: every chunk up to and including
      the first one the adapter fails. */
  function IssuedWrites(h: Handle, buffer: seq<byte>, withoutResponse: bool, writeError: nat -> Option<string>)
    : (r: seq<AdapterOp>)
    ensures |r| <= |ChunksAsWritten(buffer)|
    ensures forall k :: 0 <= k < |r| ==> r[k] == WriteChunk(h, ChunksAsWritten(buffer)[k], withoutResponse)
    ensures forall k :: 0 <= k < |r| - 1 ==> writeError(k).None?
    ensures |r| < |ChunksAsWritten(buffer)| ==> 0 < |r| && writeError(|r| - 1).Some?
  {
    var chunks := ChunksAsWritten(buffer);
    var k := FirstFailure(writeError, |chunks|);
    ChunkWrites(h, chunks[..if k < |chunks| then k + 1 else k], withoutResponse)
  }

  /** The adapter error that ends the loop of `write`, if any. */
  function WriteFailure(buffer: seq<byte>, writeError: nat -> Option<string>): Option<string>
  {
    var n := |ChunksAsWritten(buffer)|;
    var k := FirstFailure(writeError, n);
    if k < n then writeError(k) else None
  }

  /** One turn of the loop of `write`: chunk `k`, at offset `20 * k`, is
      appended to the writes issued so far. */
  lemma WriteStep(h: Handle, buffer: seq<byte>, withoutResponse: bool, k: nat, before: seq<AdapterOp>, log: seq<AdapterOp>)
    requires 20 * k < |buffer| && k <= |ChunksAsWritten(buffer)|
    requires log == before + ChunkWrites(h, ChunksAsWritten(buffer)[..k], withoutResponse)
    ensures k < |ChunksAsWritten(buffer)|
    ensures log + [WriteChunk(h, Slice(buffer, 20 * k, 20), withoutResponse)] ==
            before + ChunkWrites(h, ChunksAsWritten(buffer)[..k + 1], withoutResponse)
  {
    ChunkIndex(buffer, k);
    ChunkWritesSnoc(h, ChunksAsWritten(buffer), k, withoutResponse);
  }

  /** The loop of `write` stops after chunk `k` when the adapter fails it. */
  lemma WriteStopsAt(h: Handle, buffer: seq<byte>, withoutResponse: bool, writeError: nat -> Option<string>, k: nat)
    requires k < |ChunksAsWritten(buffer)|
    requires forall j :: 0 <= j < k ==> writeError(j).None?
    requires writeError(k).Some?
    ensures IssuedWrites(h, buffer, withoutResponse, writeError) == ChunkWrites(h, ChunksAsWritten(buffer)[..k + 1], withoutResponse)
    ensures WriteFailure(buffer, writeError) == writeError(k)
  {
    FirstFailureIs(writeError, |ChunksAsWritten(buffer)|, k);
  }

  /** The loop of `write` ends past the buffer when no chunk fails. */
  lemma WriteRunsOut(h: Handle, buffer: seq<byte>, withoutResponse: bool, writeError: nat -> Option<string>, k: nat)
    requires 20 * k >= |buffer| && k <= |ChunksAsWritten(buffer)|
    requires forall j :: 0 <= j < k ==> writeError(j).None?
    ensures IssuedWrites(h, buffer, withoutResponse, writeError) == ChunkWrites(h, ChunksAsWritten(buffer)[..k], withoutResponse)
    ensures WriteFailure(buffer, writeError).None?
  {
    var chunks := ChunksAsWritten(buffer);
    ChunkIndex(buffer, k);
    assert k == |chunks|;
    assert chunks[..k] == chunks;
    FirstFailureIs(writeError, |chunks|, k);
  }

  // ---------------------------------------------------------------------
  // Subscriptions

  /** The subscription table after `startNotifications` for `c`: an entry
      under the normalised uuid, unless one is already there. */
  function Subscribed(notify: map<string, Characteristic>, c: Characteristic): (r: map<string, Characteristic>)
    ensures UuidOfString(c.uuid) in r
    ensures r.Keys == notify.Keys + {UuidOfString(c.uuid)}
    ensures UuidOfString(c.uuid) in notify ==> r == notify
    ensures forall k :: k in notify ==> r[k] == notify[k]
    ensures UuidOfString(c.uuid) !in notify ==> r[UuidOfString(c.uuid)] == c
  {
    var key := UuidOfString(c.uuid);
    if key in notify then notify else notify[key := c]
  }

  /** The adapter subscription `startNotifications` issues for `c`: one,
      only when the table has no entry for its uuid yet. */
  function SubscribeOps(notify: map<string, Characteristic>, c: Characteristic): (ops: seq<AdapterOp>)
    ensures |ops| <= 1
    ensures ops == [] <==> UuidOfString(c.uuid) in notify
  {
    if UuidOfString(c.uuid) in notify then [] else [Subscribe(c.handle)]
  }

  /** Starting notifications twice for characteristics with the same uuid
      subscribes once; after `stopNotifications` deletes the entry, a new
      start subscribes again. */
  lemma SubscribeAtMostOnce(notify: map<string, Characteristic>, c: Characteristic, c2: Characteristic)
    requires UuidOfString(c2.uuid) == UuidOfString(c.uuid)
    ensures SubscribeOps(Subscribed(notify, c), c2) == []
    ensures Subscribed(Subscribed(notify, c), c2) == Subscribed(notify, c)
    ensures SubscribeOps(Subscribed(notify, c) - {UuidOfString(c.uuid)}, c2) == [Subscribe(c2.handle)]
  {
  }

  /** The entry the repair pass leaves for one subscription: the adapter's
      current object when it is a different object, else the entry itself. */
  function Repaired(c: Characteristic, current: map<CharacteristicPath, Characteristic>): (r: Characteristic)
    ensures r.handle == c.handle <==> r == c
    ensures r != c ==> PathOf(c) in current && r == current[PathOf(c)]
  {
    if PathOf(c) in current && current[PathOf(c)].handle != c.handle then current[PathOf(c)] else c
  }

  /** Some subscribed characteristic has no current object; the repair pass
      throws when it reaches one. */
  predicate RepairFails(notify: map<string, Characteristic>, current: map<CharacteristicPath, Characteristic>)
    ensures RepairFails(notify, current) ==> notify != map[]
    ensures !RepairFails(notify, current) ==> forall id :: id in notify ==> PathOf(notify[id]) in current
  {
    exists id :: id in notify && PathOf(notify[id]) !in current
  }

  /** The objects the repair pass may transfer listeners to. */
  function RepairTargets(notify: map<string, Characteristic>, current: map<CharacteristicPath, Characteristic>): set<Handle>
  {
    set id | id in notify && PathOf(notify[id]) in current :: current[PathOf(notify[id])].handle
  }

  /** The repair pass moves the entry `id` onto a different object. */
  predicate Moves(notify: map<string, Characteristic>, current: map<CharacteristicPath, Characteristic>, id: string)
  {
    id in notify && Repaired(notify[id], current).handle != notify[id].handle
  }

  /** No two moved entries land on the same object, and no moved entry lands
      on an object another moved entry leaves: then no transfer overwrites
      another, whatever the order of the pass. */
  predicate RepairDisjoint(notify: map<string, Characteristic>, current: map<CharacteristicPath, Characteristic>)
  {
    forall id1, id2 :: id1 in notify && id2 in notify && id1 != id2 && Moves(notify, current, id1) && Moves(notify, current, id2) ==>
      && Repaired(notify[id1], current).handle != Repaired(notify[id2], current).handle
      && Repaired(notify[id1], current).handle != notify[id2].handle
  }
}
