/** `BLESession` of `src/session/ble.js`: a JSON-RPC session that drives one
    Bluetooth LE peripheral through the adapter. The adapter is a log of the
    calls made into it; its answers are parameters. */
module Ble {
  import opened JsValue
  import opened JsonRpc
  import opened Uuid
  import opened Gatt
  import opened Discovery
  import opened Endpoint

  const ReadErrorPrefix := "Error while attempting to read: "
  const WriteErrorPrefix := "Error while attempting to write: "
  const MethodNotFound := Err("Method not found")
  const AlreadyConnected := Err("already connected to peripheral")
  const CannotDiscover := Err("cannot discover when connected")
  /** Storing a completion in the table `dispose` set to null. */
  const NullTableError := Err("Cannot set property of null")
  /** The completion `pingMe` registers; it only logs the answer. */
  const PingCompletion := Token("log ping result")

  /** What one inbound message meets outside the session: whether its
      responses encode, whether a completion it reaches throws, and the
      adapter's answers to the calls it leads to. `writeError(k)` is the
      adapter's answer to the k-th chunk of a write. `lookupFails` answers
      the first characteristic lookup a call makes, and
      `fallThroughLookupFails` the second one, which `case 'read'` makes
      when it falls through into `case 'startNotifications'`. */
  datatype Env = Env(
    encodes: bool,
    handlerThrows: bool,
    connectError: Value,
    discovered: Reply<seq<Service>>,
    lookupFails: bool,
    fallThroughLookupFails: bool,
    decoded: Reply<seq<byte>>,
    writeError: nat -> Option<string>,
    readReply: Reply<string>,
    current: map<CharacteristicPath, Characteristic>)

  /** The params of `didDiscoverPeripheral`. */
  function DiscoveryParams(p: Peripheral): (v: Value)
    ensures v.Obj? && v.fields.Keys == {"peripheralId", "name", "rssi"}
    ensures Get(v, "peripheralId") == Str(p.id) && Get(v, "rssi") == Num(p.rssi)
    ensures Get(v, "name") == if p.advertisement.Some? && p.advertisement.value.localName.Some?
                               then Str(p.advertisement.value.localName.value) else Undefined
  {
    var name := if p.advertisement.Some? && p.advertisement.value.localName.Some?
                then Str(p.advertisement.value.localName.value) else Undefined;
    Obj(map["peripheralId" := Str(p.id), "name" := name, "rssi" := Num(p.rssi)])
  }

  /** The params of `characteristicDidChange`. */
  function ChangeParams(c: Characteristic, data: string): (v: Value)
    ensures v.Obj? && v.fields.Keys == {"serviceId", "characteristicId", "encoding", "message"}
    ensures Get(v, "serviceId") == Str(c.serviceUuid) && Get(v, "characteristicId") == Str(c.uuid)
    ensures Get(v, "encoding") == Str("base64") && Get(v, "message") == Str(data)
  {
    Obj(map["serviceId" := Str(c.serviceUuid), "characteristicId" := Str(c.uuid),
            "encoding" := Str("base64"), "message" := Str(data)])
  }

  /** `(this.services || []).map(service => service.uuid)`. */
  function ServiceUuids(services: Option<seq<Service>>): (r: seq<Value>)
    ensures services.None? ==> r == []
    ensures services.Some? ==> |r| == |services.value| && forall i :: 0 <= i < |r| ==> r[i] == Str(services.value[i].uuid)
  {
    if services.None? then []
    else seq(|services.value|, i requires 0 <= i < |services.value| => Str(services.value[i].uuid))
  }

  /** The `new Error(error)` of a failed service discovery, whose `error` is
      the connect callback's falsy argument. */
  function DiscoveryFailure(connectError: Value): Value
  {
    Err(if connectError == Undefined then "" else ToJsString(connectError))
  }

  /** The method names `didReceiveCall` serves, and any other name. */
  datatype CallName =
    | DiscoverCall | ConnectCall | DisconnectCall | WriteCall | ReadCall
    | StartNotificationsCall | StopNotificationsCall | GetServicesCall | PingMeCall
    | UnknownCall

  const CallNames: set<string> := {"discover", "connect", "disconnect", "write", "read",
                                   "startNotifications", "stopNotifications", "getServices", "pingMe"}

  /** The `case` of the `switch` in `didReceiveCall` a method name selects. */
  function CallOf(name: string): (c: CallName)
    ensures c.UnknownCall? <==> name !in CallNames
    ensures c.DiscoverCall? <==> name == "discover"
    ensures c.ConnectCall? <==> name == "connect"
    ensures c.DisconnectCall? <==> name == "disconnect"
    ensures c.WriteCall? <==> name == "write"
    ensures c.ReadCall? <==> name == "read"
    ensures c.StartNotificationsCall? <==> name == "startNotifications"
    ensures c.StopNotificationsCall? <==> name == "stopNotifications"
    ensures c.GetServicesCall? <==> name == "getServices"
    ensures c.PingMeCall? <==> name == "pingMe"
  {
    if name == "discover" then DiscoverCall
    else if name == "connect" then ConnectCall
    else if name == "disconnect" then DisconnectCall
    else if name == "write" then WriteCall
    else if name == "read" then ReadCall
    else if name == "startNotifications" then StartNotificationsCall
    else if name == "stopNotifications" then StopNotificationsCall
    else if name == "getServices" then GetServicesCall
    else if name == "pingMe" then PingMeCall
    else UnknownCall
  }

  /** `after` extends `before`, and every message added answers `id`. */
  ghost predicate Answers(before: seq<Message>, after: seq<Message>, id: Value)
  {
    && |before| <= |after|
    && after[..|before|] == before
    && forall k :: |before| <= k < |after| ==> after[k].id == id
  }

  /** Appending messages that all answer `id` keeps `Answers`. */
  lemma AnswersAppend(before: seq<Message>, ms: seq<Message>, id: Value)
    requires forall k :: 0 <= k < |ms| ==> ms[k].id == id
    ensures Answers(before, before + ms, id)
  {
    assert forall k :: |before| <= k < |before + ms| ==> (before + ms)[k] == ms[k - |before|];
  }

  /** How a call's promise ends when its handler's promise ends as `p`. */
  function Outcome<T>(p: Promise<T>): (r: Promise<()>)
    ensures r.Resolved? <==> p.Resolved?
    ensures p.Rejected? ==> r == Rejected(p.reason)
    ensures r.NeverSettles? <==> p.NeverSettles?
  {
    match p
    case Resolved(_) => Resolved(())
    case Rejected(e) => Rejected(e)
    case NeverSettles => NeverSettles
  }

  /** What one completion call of an inbound call puts on the wire. */
  function Answer(disposed: bool, id: Value, result: Value, encodes: bool): (ms: seq<Message>)
    ensures |ms| == if disposed then 0 else 1
    ensures forall k :: 0 <= k < |ms| ==> ms[k].id == id && ms[k].jsonrpc == Version
  {
    if disposed then [] else [ResponseSent(id, result, Null, encodes)]
  }

  /** `to._events = from._events`: the object `to` carries a data listener
      exactly when `from` does; no other object changes. */
  function TransferListeners(listeners: set<Handle>, from: Handle, to: Handle): (r: set<Handle>)
    ensures to in r <==> from in listeners
    ensures forall h :: h != to ==> (h in r <==> h in listeners)
  {
    if from in listeners then listeners + {to} else listeners - {to}
  }

  /** The subscription table once the entries in `done` are repaired. */
  function RepairedIn(start: map<string, Characteristic>, done: set<string>, current: map<CharacteristicPath, Characteristic>)
    : (r: map<string, Characteristic>)
    ensures r.Keys == start.Keys
    ensures forall id :: id in r ==> r[id] == if id in done then Repaired(start[id], current) else start[id]
  {
    map id | id in start :: if id in done then Repaired(start[id], current) else start[id]
  }

  lemma RepairedInNone(start: map<string, Characteristic>, current: map<CharacteristicPath, Characteristic>)
    ensures RepairedIn(start, start.Keys - start.Keys, current) == start
  {
    assert start.Keys - start.Keys == {};
  }

  lemma RepairedInStep(start: map<string, Characteristic>, pending: set<string>, id: string,
                       current: map<CharacteristicPath, Characteristic>)
    requires id in start && id in pending
    ensures RepairedIn(start, start.Keys - pending, current)[id := Repaired(start[id], current)] ==
            RepairedIn(start, start.Keys - (pending - {id}), current)
  {
    assert start.Keys - (pending - {id}) == (start.Keys - pending) + {id};
  }

  /** The listeners while the repair pass runs, against those it started
      with (`before`): every pending moved entry's object keeps its own, and
      every finished moved entry's new object carries its old object's. */
  ghost predicate ListenersTransferred(start: map<string, Characteristic>, current: map<CharacteristicPath, Characteristic>,
                                       pending: set<string>, now: set<Handle>, before: set<Handle>)
  {
    && (forall id :: id in pending && Moves(start, current, id) ==>
          (start[id].handle in now <==> start[id].handle in before))
    && (forall id :: id !in pending && Moves(start, current, id) ==>
          (Repaired(start[id], current).handle in now <==> start[id].handle in before))
  }

  /** The invariant of the repair pass over `start` while `pending` is
      left: the finished entries are repaired and had a current object,
      only objects the pass may transfer to changed their listeners, and,
      when no transfer can overwrite another, `ListenersTransferred`. */
  ghost predicate RepairProgress(start: map<string, Characteristic>, current: map<CharacteristicPath, Characteristic>,
                                 pending: set<string>, notify: map<string, Characteristic>,
                                 listeners: set<Handle>, before: set<Handle>)
  {
    && pending <= start.Keys
    && notify == RepairedIn(start, start.Keys - pending, current)
    && (forall id :: id in start && id !in pending ==> PathOf(start[id]) in current)
    && (forall h :: h !in RepairTargets(start, current) ==> (h in listeners <==> h in before))
    && (RepairDisjoint(start, current) ==> ListenersTransferred(start, current, pending, listeners, before))
  }

  lemma RepairProgressStart(start: map<string, Characteristic>, current: map<CharacteristicPath, Characteristic>,
                            before: set<Handle>)
    ensures RepairProgress(start, current, start.Keys, start, before, before)
  {
    RepairedInNone(start, current);
  }

  /** When nothing is pending, every entry is repaired and, when no transfer
      can overwrite another, every moved entry's new object carries its old
      object's listeners. */
  lemma RepairProgressDone(start: map<string, Characteristic>, current: map<CharacteristicPath, Characteristic>,
                           notify: map<string, Characteristic>, listeners: set<Handle>, before: set<Handle>)
    requires RepairProgress(start, current, {}, notify, listeners, before)
    ensures notify.Keys == start.Keys && !RepairFails(start, current)
    ensures forall id :: id in notify ==> notify[id] == Repaired(start[id], current)
    ensures forall h :: h !in RepairTargets(start, current) ==> (h in listeners <==> h in before)
    ensures RepairDisjoint(start, current) ==>
              forall id :: Moves(start, current, id) ==>
                (Repaired(start[id], current).handle in listeners <==> start[id].handle in before)
  {
    assert start.Keys - {} == start.Keys;
  }

  /** What the repair pass over `start` leaves in the table (`notify`) and
      the listeners, against those it started with (`before`): the same
      keys; a throw exactly when `RepairFails`; every entry kept or
      repaired, and every entry repaired when nothing threw; only objects
      the pass may transfer to changed their listeners; and, when nothing
      threw and no transfer can overwrite another, every moved entry's new
      object carries its old object's listeners. */
  ghost predicate RepairOutcome(start: map<string, Characteristic>, before: set<Handle>,
                                current: map<CharacteristicPath, Characteristic>, threw: bool,
                                notify: map<string, Characteristic>, listeners: set<Handle>)
  {
    && notify.Keys == start.Keys
    && (threw <==> RepairFails(start, current))
    && (forall id :: id in notify ==> notify[id] == start[id] || notify[id] == Repaired(start[id], current))
    && (!threw ==> forall id :: id in notify ==> notify[id] == Repaired(start[id], current))
    && (forall h :: h !in RepairTargets(start, current) ==> (h in listeners <==> h in before))
    && (!threw && RepairDisjoint(start, current) ==>
          forall id :: Moves(start, current, id) ==>
            (Repaired(start[id], current).handle in listeners <==> start[id].handle in before))
  }

  /** One repair step keeps `ListenersTransferred` when no transfer can
      overwrite another. */
  lemma ListenersTransferredStep(start: map<string, Characteristic>, current: map<CharacteristicPath, Characteristic>,
                                 pending: set<string>, id: string, prev: set<Handle>, next: set<Handle>, before: set<Handle>)
    requires RepairDisjoint(start, current) && id in pending && id in start
    requires ListenersTransferred(start, current, pending, prev, before)
    requires next == if Moves(start, current, id)
                     then TransferListeners(prev, start[id].handle, Repaired(start[id], current).handle)
                     else prev
    ensures ListenersTransferred(start, current, pending - {id}, next, before)
  {
    if Moves(start, current, id) {
      var to := Repaired(start[id], current).handle;
      forall j | j in pending - {id} && Moves(start, current, j)
        ensures start[j].handle in next <==> start[j].handle in prev
      {
        assert start[j].handle != to;
      }
      forall j | j !in pending && Moves(start, current, j)
        ensures Repaired(start[j], current).handle in next <==> Repaired(start[j], current).handle in prev
      {
        assert Repaired(start[j], current).handle != to;
      }
    }
  }

  /** The state `startNotifications` leaves once `getEndpoint` ended as
      `res`, against the table, listeners and adapter log it started with:
      a resolved characteristic is subscribed (at most once) and carries a
      data listener; otherwise nothing but the lookup happens. */
  ghost predicate StartedAfter(res: Resolution, notify0: map<string, Characteristic>, listeners0: set<Handle>,
                               log0: seq<AdapterOp>, notify: map<string, Characteristic>, listeners: set<Handle>,
                               log: seq<AdapterOp>)
  {
    if res.result.Resolved? then
      && notify == Subscribed(notify0, res.result.value)
      && listeners == listeners0 + {res.result.value.handle}
      && log == log0 + res.lookup + SubscribeOps(notify0, res.result.value)
    else notify == notify0 && listeners == listeners0 && log == log0 + res.lookup
  }

  /** `case 'startNotifications'` from the cache, table, listeners and log
      it starts with: it ends as `getEndpoint` does, keeps the cache that
      `getEndpoint` leaves, and `StartedAfter` holds. */
  ghost predicate StartCase(peripheral: Option<Peripheral>, services: Option<seq<Service>>,
                            cache0: map<string, Characteristic>, params: Value, lookupFails: bool,
                            notify0: map<string, Characteristic>, listeners0: set<Handle>, log0: seq<AdapterOp>,
                            r: Promise<()>, cache: map<string, Characteristic>,
                            notify: map<string, Characteristic>, listeners: set<Handle>, log: seq<AdapterOp>)
    requires peripheral.Some? ==> services.Some?
  {
    var res := ResolveEndpoint(peripheral, services, cache0, params, "notify", "startNotifications request", lookupFails);
    && r == Outcome(res.result)
    && cache == res.cache
    && StartedAfter(res, notify0, listeners0, log0, notify, listeners, log)
  }

  /** `read` from the cache, table, listeners and log it starts with: the
      cache `getEndpoint` leaves; an unresolved endpoint becomes an error
      value (or a promise that never settles) after its lookup; a resolved
      one is read, and subscribed too when the read succeeded and
      `startNotifications` is set. */
  ghost predicate ReadCase(peripheral: Option<Peripheral>, services: Option<seq<Service>>,
                           cache0: map<string, Characteristic>, params: Value, lookupFails: bool, readReply: Reply<string>,
                           notify0: map<string, Characteristic>, listeners0: set<Handle>, log0: seq<AdapterOp>,
                           r: Promise<Value>, cache: map<string, Characteristic>,
                           notify: map<string, Characteristic>, listeners: set<Handle>, log: seq<AdapterOp>)
    requires peripheral.Some? ==> services.Some?
  {
    var res := ResolveEndpoint(peripheral, services, cache0, params, "read", "read request", lookupFails);
    && cache == res.cache
    && (!res.result.Resolved? ==>
          && r == (if res.result.Rejected? then Resolved(Err(ReadErrorPrefix + MessageOf(res.result.reason))) else NeverSettles)
          && log == log0 + res.lookup && notify == notify0 && listeners == listeners0)
    && (res.result.Resolved? && (readReply.Fail? || !Truthy(Get(params, "startNotifications"))) ==>
          && r == (if readReply.Fail? then Resolved(Err(ReadErrorPrefix + readReply.message)) else Resolved(Str(readReply.value)))
          && log == log0 + res.lookup + [ReadValue(res.result.value.handle)]
          && notify == notify0 && listeners == listeners0)
    && (res.result.Resolved? && readReply.Ok? && Truthy(Get(params, "startNotifications")) ==>
          var c := res.result.value;
          && r == Resolved(Str(readReply.value))
          && notify == Subscribed(notify0, c)
          && log == log0 + res.lookup + [ReadValue(c.handle)] + SubscribeOps(notify0, c)
          && listeners == listeners0 + {c.handle})
  }

  /** The whole of `case 'read'`, its fall-through included, from the cache,
      table, listeners and log it starts with. When `read` never settles
      nothing follows. When its endpoint resolved to `c`, the fall-through
      finds `c` in the cache, so `c` ends up read and subscribed, at most
      once. When it was rejected, the fall-through resolves the endpoint
      afresh, with a lookup of its own, as `case 'startNotifications'`. */
  ghost predicate ReadCallCase(peripheral: Option<Peripheral>, services: Option<seq<Service>>,
                               cache0: map<string, Characteristic>, params: Value, env: Env,
                               notify0: map<string, Characteristic>, listeners0: set<Handle>, log0: seq<AdapterOp>,
                               r: Promise<()>, cache: map<string, Characteristic>,
                               notify: map<string, Characteristic>, listeners: set<Handle>, log: seq<AdapterOp>)
    requires peripheral.Some? ==> services.Some?
  {
    var res := ResolveEndpoint(peripheral, services, cache0, params, "read", "read request", env.lookupFails);
    && (res.result.NeverSettles? ==>
          && r.NeverSettles? && cache == res.cache && log == log0 + res.lookup
          && notify == notify0 && listeners == listeners0)
    && (res.result.Resolved? ==>
          var c := res.result.value;
          && r == Resolved(())
          && cache == res.cache
          && notify == Subscribed(notify0, c)
          && listeners == listeners0 + {c.handle}
          && log == log0 + res.lookup + [ReadValue(c.handle)] + SubscribeOps(notify0, c))
    && (res.result.Rejected? ==>
          StartCase(peripheral, services, cache0, params, env.fallThroughLookupFails,
                    notify0, listeners0, log0 + res.lookup, r, cache, notify, listeners, log))
  }

  /** After `read` resolved its endpoint, the fall-through's `getEndpoint`
      answers from the cache with the same characteristic, without a lookup. */
  lemma CachedFallThrough(peripheral: Option<Peripheral>, services: Option<seq<Service>>,
                          cache0: map<string, Characteristic>, params: Value, lookupFails: bool, fallThroughLookupFails: bool)
    requires peripheral.Some? ==> services.Some?
    requires ResolveEndpoint(peripheral, services, cache0, params, "read", "read request", lookupFails).result.Resolved?
    ensures var res := ResolveEndpoint(peripheral, services, cache0, params, "read", "read request", lookupFails);
      ResolveEndpoint(peripheral, services, res.cache, params, "notify", "startNotifications request", fallThroughLookupFails)
        == Resolution(res.result, [], res.cache)
  {
    var res := ResolveEndpoint(peripheral, services, cache0, params, "read", "read request", lookupFails);
    ResolveEndpointCache(peripheral, services, cache0, params, "read", "read request", lookupFails);
    ResolveEndpointGuards(peripheral, services, res.cache, params, "notify", "startNotifications request", fallThroughLookupFails);
  }

  /** `read` followed by the fall-through into `case 'startNotifications'`
      gives `ReadCallCase`. */
  lemma ReadThenStart(peripheral: Option<Peripheral>, services: Option<seq<Service>>,
                      cache0: map<string, Characteristic>, params: Value, env: Env,
                      notify0: map<string, Characteristic>, listeners0: set<Handle>, log0: seq<AdapterOp>,
                      value: Promise<Value>, cache1: map<string, Characteristic>,
                      notify1: map<string, Characteristic>, listeners1: set<Handle>, log1: seq<AdapterOp>,
                      r: Promise<()>, cache: map<string, Characteristic>,
                      notify: map<string, Characteristic>, listeners: set<Handle>, log: seq<AdapterOp>)
    requires peripheral.Some? ==> services.Some?
    requires ReadCase(peripheral, services, cache0, params, env.lookupFails, env.readReply,
                      notify0, listeners0, log0, value, cache1, notify1, listeners1, log1)
    requires value.NeverSettles? ==> r.NeverSettles?
    requires !value.Resolved? ==> cache == cache1 && notify == notify1 && listeners == listeners1 && log == log1
    requires value.Resolved? ==>
               StartCase(peripheral, services, cache1, params, env.fallThroughLookupFails,
                         notify1, listeners1, log1, r, cache, notify, listeners, log)
    ensures ReadCallCase(peripheral, services, cache0, params, env, notify0, listeners0, log0,
                         r, cache, notify, listeners, log)
    ensures value.NeverSettles? <==>
              ResolveEndpoint(peripheral, services, cache0, params, "read", "read request", env.lookupFails).result.NeverSettles?
  {
    var res := ResolveEndpoint(peripheral, services, cache0, params, "read", "read request", env.lookupFails);
    if res.result.Resolved? {
      var c := res.result.value;
      CachedFallThrough(peripheral, services, cache0, params, env.lookupFails, env.fallThroughLookupFails);
      SubscribeAtMostOnce(notify0, c, c);
      assert log == log0 + res.lookup + [ReadValue(c.handle)] + SubscribeOps(notify0, c);
    } else if res.result.Rejected? {
      assert cache1 == cache0 && notify1 == notify0 && listeners1 == listeners0 && log1 == log0 + res.lookup;
    }
  }

  /** What the first step of `stopAllNotifications` issues: nothing for an
      empty table, otherwise one `notify(false)` for one of its entries. */
  ghost predicate StopsOneNotification(notify: map<string, Characteristic>, ops: seq<AdapterOp>)
  {
    if notify == map[] then ops == []
    else exists id :: id in notify && ops == [SetNotify(notify[id].handle, false)]
  }

  class BleSession {
    const session: Session
    var peripheral: Option<Peripheral>
    var services: Option<seq<Service>>
    /** Resolved endpoints, by normalised characteristic id. */
    var characteristics: map<string, Characteristic>
    /** Subscribed characteristics, by normalised uuid. */
    var notifyCharacteristics: map<string, Characteristic>
    var reportedPeripherals: map<string, Peripheral>
    /** `scanningTimeId` is truthy. */
    var scanningTimeId: bool
    /** A scan timeout is really scheduled; `clearTimeout` in `discover`
        cancels it but leaves `scanningTimeId` truthy. */
    var timerArmed: bool
    /** The `discover` listeners registered with the adapter, each by its
        registration number, with the filters it captured. */
    var listeners: map<nat, Value>
    var registrations: nat
    /** `this.discoverListener`: the last registration, if any. */
    var discoverListener: Option<nat>
    /** Peripherals with a `disconnect` listener of this session. */
    var disconnectListeners: set<string>
    /** Characteristic objects that carry a `data` listener. */
    var dataListeners: set<Handle>
    var adapterLog: seq<AdapterOp>

    /** A peripheral is held exactly when its services are. */
    ghost predicate Linked()
      reads this`peripheral, this`services
    {
      peripheral.Some? <==> services.Some?
    }

    /** The connection fields agree, listener ids are ones already issued,
        and the JSON-RPC session keeps its own invariant. A method that
        changes none of the fields read here keeps it by its frame alone. */
    ghost predicate Valid()
      reads this`peripheral, this`services, this`listeners, this`registrations, this`discoverListener,
            session`nextId, session`handlers, session`disposed
    {
      && session.Valid()
      && Linked()
      && (forall k :: k in listeners ==> k < registrations)
      && (discoverListener.Some? ==> discoverListener.value < registrations)
    }

    constructor ()
      ensures Valid() && fresh(session)
      ensures session.nextId == 0 && session.handlers == map[] && session.outbox == [] && !session.disposed
      ensures peripheral.None? && services.None?
      ensures characteristics == map[] && notifyCharacteristics == map[] && reportedPeripherals == map[]
      ensures !scanningTimeId && !timerArmed
      ensures listeners == map[] && registrations == 0 && discoverListener.None?
      ensures disconnectListeners == {} && dataListeners == {} && adapterLog == []
    {
      session := new Session();
      peripheral := None;
      services := None;
      characteristics := map[];
      notifyCharacteristics := map[];
      reportedPeripherals := map[];
      scanningTimeId := false;
      timerArmed := false;
      listeners := map[];
      registrations := 0;
      discoverListener := None;
      disconnectListeners := {};
      dataListeners := {};
      adapterLog := [];
    }

    /** `discover`: refused once services are known; otherwise cancels a
        pending scan timeout, forgets the reported peripherals, starts
        scanning with duplicates and registers one more listener. Earlier
        listeners stay registered. */
    method Discover(params: Value) returns (threw: bool)
      requires Valid()
      modifies this`timerArmed, this`reportedPeripherals, this`adapterLog,
               this`listeners, this`registrations, this`discoverListener
      ensures Valid()
      ensures threw <==> services.Some?
      ensures threw ==>
                && timerArmed == old(timerArmed) && reportedPeripherals == old(reportedPeripherals)
                && adapterLog == old(adapterLog) && listeners == old(listeners)
                && registrations == old(registrations) && discoverListener == old(discoverListener)
      ensures !threw ==>
                && timerArmed == (old(timerArmed) && !scanningTimeId)
                && reportedPeripherals == map[]
                && adapterLog == old(adapterLog) + [StartScanning(true), AddDiscoverListener]
                && old(registrations) !in old(listeners)
                && listeners == old(listeners)[old(registrations) := Get(params, "filters")]
                && registrations == old(registrations) + 1
                && discoverListener == Some(old(registrations))
    {
      if services.Some? {
        return true;
      }
      var filters := Get(params, "filters");
      if scanningTimeId {
        timerArmed := false;
      }
      reportedPeripherals := map[];
      adapterLog := adapterLog + [StartScanning(true)];
      discoverListener := Some(registrations);
      listeners := listeners[registrations := filters];
      registrations := registrations + 1;
      adapterLog := adapterLog + [AddDiscoverListener];
      threw := false;
    }

    /** One registered listener meets an advertisement: on a match the
        peripheral is recorded under its id (a later report overwrites an
        earlier one), reported to the client, and a scan timeout is armed
        unless `scanningTimeId` is already set. A match reports only when
        the matching filter is itself truthy. A filter that throws, or a
        match after `dispose` nulled the table, ends in a throw. */
    method OnAdvertisementReceived(listener: nat, p: Peripheral, encodes: bool) returns (threw: bool)
      requires Valid() && listener in listeners
      modifies this`reportedPeripherals, this`scanningTimeId, this`timerArmed,
               session`nextId, session`handlers, session`outbox
      ensures Valid()
      ensures session.nextId == old(session.nextId) && session.handlers == old(session.handlers)
      ensures var f := if p.advertisement.None? then NotFound else SelectFilter(listeners[listener], p.advertisement.value);
        && threw == (f.Threw? || (Reports(f) && session.disposed))
        && (Reports(f) && !session.disposed ==>
              && reportedPeripherals == old(reportedPeripherals)[p.id := p]
              && session.outbox == old(session.outbox) +
                   (if encodes then [MakeRequest("didDiscoverPeripheral", DiscoveryParams(p), Undefined)] else [])
              && scanningTimeId
              && timerArmed == (old(timerArmed) || !old(scanningTimeId)))
        && (!(Reports(f) && !session.disposed) ==>
              && reportedPeripherals == old(reportedPeripherals) && session.outbox == old(session.outbox)
              && scanningTimeId == old(scanningTimeId) && timerArmed == old(timerArmed))
    {
      if p.advertisement.None? {
        return false;
      }
      var f := SelectFilter(listeners[listener], p.advertisement.value);
      if f.Threw? {
        return true;
      }
      if !Reports(f) {
        return false;
      }
      if session.disposed {
        return true;
      }
      reportedPeripherals := reportedPeripherals[p.id := p];
      var _ := session.SendRemoteRequest("didDiscoverPeripheral", DiscoveryParams(p), None, encodes);
      if !scanningTimeId {
        scanningTimeId := true;
        timerArmed := true;
      }
      threw := false;
    }

    /** The scan timeout fires: scanning stops and the current listener is
        removed; an older one stays. */
    method OnScanTimeout()
      requires Valid() && timerArmed
      modifies this`scanningTimeId, this`timerArmed, this`adapterLog, this`listeners
      ensures Valid()
      ensures !scanningTimeId && !timerArmed
      ensures adapterLog == old(adapterLog) + [StopScanning] + (if discoverListener.Some? then [RemoveDiscoverListener] else [])
      ensures listeners == if discoverListener.Some? then old(listeners) - {discoverListener.value} else old(listeners)
    {
      scanningTimeId := false;
      timerArmed := false;
      adapterLog := adapterLog + [StopScanning];
      if discoverListener.Some? {
        adapterLog := adapterLog + [RemoveDiscoverListener];
        listeners := listeners - {discoverListener.value};
      }
    }

    /** `connect`: refuses while connected and for an id never reported;
        otherwise stops a scan in progress, connects, registers a
        disconnect listener, discovers everything and only then adopts the
        peripheral and its services. */
    method Connect(params: Value, connectError: Value, discovered: Reply<seq<Service>>) returns (r: Promise<()>)
      requires Valid()
      modifies this`peripheral, this`services, this`scanningTimeId, this`timerArmed,
               this`adapterLog, this`disconnectListeners
      ensures Valid()
      ensures !r.NeverSettles?
      ensures IsConnected(old(peripheral)) ==>
                && r == Rejected(AlreadyConnected)
                && peripheral == old(peripheral) && services == old(services)
                && scanningTimeId == old(scanningTimeId) && timerArmed == old(timerArmed)
                && adapterLog == old(adapterLog) && disconnectListeners == old(disconnectListeners)
      ensures var id := ToJsString(Get(params, "peripheralId"));
        !IsConnected(old(peripheral)) && id !in reportedPeripherals ==>
                && r == Rejected(Err("invalid peripheral ID: " + id))
                && peripheral == old(peripheral) && services == old(services)
                && scanningTimeId == old(scanningTimeId) && timerArmed == old(timerArmed)
                && adapterLog == old(adapterLog) && disconnectListeners == old(disconnectListeners)
      ensures var id := ToJsString(Get(params, "peripheralId"));
        !IsConnected(old(peripheral)) && id in reportedPeripherals ==>
                var p := reportedPeripherals[id];
                && !scanningTimeId && timerArmed == (old(timerArmed) && !old(scanningTimeId))
                && disconnectListeners == old(disconnectListeners) + {p.id}
                && adapterLog == old(adapterLog) + (if old(scanningTimeId) then [StopScanning] else []) +
                                 [ConnectPeripheral(p.id), AddDisconnectListener(p.id)] +
                                 (if Truthy(connectError) then [] else [DiscoverAll(p.id)])
                && (Truthy(connectError) ==>
                      r == Rejected(Err(ToJsString(connectError))) && peripheral == old(peripheral) && services == old(services))
                && (!Truthy(connectError) && discovered.Fail? ==>
                      r == Rejected(DiscoveryFailure(connectError)) && peripheral == old(peripheral) && services == old(services))
                && (!Truthy(connectError) && discovered.Ok? ==>
                      r == Resolved(()) && services == Some(discovered.value) && peripheral == Some(p.(state := Connected)))
    {
      if IsConnected(peripheral) {
        return Rejected(AlreadyConnected);
      }
      var id := ToJsString(Get(params, "peripheralId"));
      if id !in reportedPeripherals {
        return Rejected(Err("invalid peripheral ID: " + id));
      }
      r := ConnectReported(reportedPeripherals[id], connectError, discovered);
    }

    /** The part of `connect` after the peripheral is found: stop a running
        scan, connect, listen for the disconnect, discover the services. */
    method ConnectReported(p: Peripheral, connectError: Value, discovered: Reply<seq<Service>>) returns (r: Promise<()>)
      requires Linked()
      modifies this`peripheral, this`services, this`scanningTimeId, this`timerArmed,
               this`adapterLog, this`disconnectListeners
      ensures Linked()
      ensures !scanningTimeId && timerArmed == (old(timerArmed) && !old(scanningTimeId))
      ensures disconnectListeners == old(disconnectListeners) + {p.id}
      ensures adapterLog == old(adapterLog) + (if old(scanningTimeId) then [StopScanning] else []) +
                            [ConnectPeripheral(p.id), AddDisconnectListener(p.id)] +
                            (if Truthy(connectError) then [] else [DiscoverAll(p.id)])
      ensures Truthy(connectError) ==>
                r == Rejected(Err(ToJsString(connectError))) && peripheral == old(peripheral) && services == old(services)
      ensures !Truthy(connectError) && discovered.Fail? ==>
                r == Rejected(DiscoveryFailure(connectError)) && peripheral == old(peripheral) && services == old(services)
      ensures !Truthy(connectError) && discovered.Ok? ==>
                r == Resolved(()) && services == Some(discovered.value) && peripheral == Some(p.(state := Connected))
    {
      if scanningTimeId {
        timerArmed := false;
        scanningTimeId := false;
        adapterLog := adapterLog + [StopScanning];
      }
      adapterLog := adapterLog + [ConnectPeripheral(p.id), AddDisconnectListener(p.id)];
      disconnectListeners := disconnectListeners + {p.id};
      if Truthy(connectError) {
        return Rejected(Err(ToJsString(connectError)));
      }
      adapterLog := adapterLog + [DiscoverAll(p.id)];
      if discovered.Fail? {
        return Rejected(DiscoveryFailure(connectError));
      }
      services := Some(discovered.value);
      peripheral := Some(p.(state := Connected));
      r := Resolved(());
    }

    /** `disconnect`: asks the adapter to disconnect only a connected
        peripheral. The adapter marks it `disconnecting` before the call
        returns, and `disconnected` once it reports the disconnect. */
    method Disconnect()
      modifies this`peripheral, this`adapterLog
      ensures peripheral == if IsConnected(old(peripheral)) then Some(old(peripheral).value.(state := Disconnecting)) else old(peripheral)
      ensures adapterLog == old(adapterLog) +
                if IsConnected(old(peripheral)) then [DisconnectPeripheral(old(peripheral).value.id)] else []
    {
      if IsConnected(peripheral) {
        adapterLog := adapterLog + [DisconnectPeripheral(peripheral.value.id)];
        peripheral := Some(peripheral.value.(state := Disconnecting));
      }
    }

    /** The adapter reports that peripheral `id` disconnected, and the
        listener `connect` registered on it calls `disconnect`. That call
        looks at the session's current peripheral, whichever it is. */
    method OnPeripheralDisconnected(id: string)
      requires Valid() && id in disconnectListeners
      modifies this`peripheral, this`adapterLog
      ensures Valid()
      ensures var reported := if old(peripheral).Some? && old(peripheral).value.id == id
                              then Some(old(peripheral).value.(state := Disconnected)) else old(peripheral);
        && peripheral == (if IsConnected(reported) then Some(reported.value.(state := Disconnecting)) else reported)
        && adapterLog == old(adapterLog) + if IsConnected(reported) then [DisconnectPeripheral(reported.value.id)] else []
    {
      if peripheral.Some? && peripheral.value.id == id {
        peripheral := Some(peripheral.value.(state := Disconnected));
      }
      Disconnect();
    }

    /** `getEndpoint`, applied to the session. */
    method GetEndpoint(errorText: string, params: Value, ty: string, lookupFails: bool) returns (r: Promise<Characteristic>)
      requires Linked()
      modifies this`characteristics, this`adapterLog
      ensures var res := ResolveEndpoint(peripheral, services, old(characteristics), params, ty, errorText, lookupFails);
        r == res.result && characteristics == res.cache && adapterLog == old(adapterLog) + res.lookup
    {
      var res := ResolveEndpoint(peripheral, services, characteristics, params, ty, errorText, lookupFails);
      characteristics := res.cache;
      adapterLog := adapterLog + res.lookup;
      r := res.result;
    }

    /** `write`: decodes the message, resolves the endpoint and writes the
        chunks `buffer.slice(i, 20)` for `i = 0, 20, …` one after another,
        stopping at the first adapter error. It never rejects: every error
        becomes an `Error` value returned as the result. */
    method Write(params: Value, decoded: Reply<seq<byte>>, lookupFails: bool, writeError: nat -> Option<string>)
      returns (r: Promise<Value>)
      requires Linked()
      modifies this`characteristics, this`adapterLog
      ensures !r.Rejected?
      ensures decoded.Fail? ==>
                r == Resolved(Err(WriteErrorPrefix + decoded.message)) &&
                characteristics == old(characteristics) && adapterLog == old(adapterLog)
      ensures decoded.Ok? ==>
        var res := ResolveEndpoint(peripheral, services, old(characteristics), params, "write", "write request", lookupFails);
        && characteristics == res.cache
        && (res.result.NeverSettles? ==> r.NeverSettles? && adapterLog == old(adapterLog) + res.lookup)
        && (res.result.Rejected? ==>
              r == Resolved(Err(WriteErrorPrefix + MessageOf(res.result.reason))) && adapterLog == old(adapterLog) + res.lookup)
        && (res.result.Resolved? ==>
              var failure := WriteFailure(decoded.value, writeError);
              && adapterLog == old(adapterLog) + res.lookup +
                   IssuedWrites(res.result.value.handle, decoded.value, !Truthy(Get(params, "withResponse")), writeError)
              && r == if failure.Some? then Resolved(Err(WriteErrorPrefix + failure.value)) else Resolved(Num(|decoded.value|)))
    {
      if decoded.Fail? {
        return Resolved(Err(WriteErrorPrefix + decoded.message));
      }
      var buffer := decoded.value;
      var endpoint := GetEndpoint("write request", params, "write", lookupFails);
      if endpoint.NeverSettles? {
        return NeverSettles;
      }
      if endpoint.Rejected? {
        return Resolved(Err(WriteErrorPrefix + MessageOf(endpoint.reason)));
      }
      var failure := WriteChunks(endpoint.value.handle, buffer, !Truthy(Get(params, "withResponse")), writeError);
      r := if failure.Some? then Resolved(Err(WriteErrorPrefix + failure.value)) else Resolved(Num(|buffer|));
    }

    /** The loop of `write`: chunk `i / 20` is `buffer.slice(i, 20)`, and the
        first adapter error ends the loop after its chunk. */
    method WriteChunks(h: Handle, buffer: seq<byte>, withoutResponse: bool, writeError: nat -> Option<string>)
      returns (failure: Option<string>)
      modifies this`adapterLog
      ensures adapterLog == old(adapterLog) + IssuedWrites(h, buffer, withoutResponse, writeError)
      ensures failure == WriteFailure(buffer, writeError)
    {
      ghost var before := adapterLog;
      var i, k := 0, 0;
      while i < |buffer|
        invariant i == 20 * k && k <= |ChunksAsWritten(buffer)|
        invariant forall j :: 0 <= j < k ==> writeError(j).None?
        invariant adapterLog == before + ChunkWrites(h, ChunksAsWritten(buffer)[..k], withoutResponse)
        decreases |buffer| - i
      {
        WriteStep(h, buffer, withoutResponse, k, before, adapterLog);
        adapterLog := adapterLog + [WriteChunk(h, Slice(buffer, i, 20), withoutResponse)];
        failure := writeError(k);
        if failure.Some? {
          WriteStopsAt(h, buffer, withoutResponse, writeError, k);
          return;
        }
        i := i + 20;
        k := k + 1;
      }
      WriteRunsOut(h, buffer, withoutResponse, writeError, k);
      failure := None;
    }

    /** The subscription step of `startNotifications` for a known
        characteristic: subscribe unless an entry for its uuid exists, and
        attach a data listener unless the object has one. */
    method Subscribe(c: Characteristic)
      modifies this`notifyCharacteristics, this`adapterLog, this`dataListeners
      ensures notifyCharacteristics == Subscribed(old(notifyCharacteristics), c)
      ensures adapterLog == old(adapterLog) + SubscribeOps(old(notifyCharacteristics), c)
      ensures dataListeners == old(dataListeners) + {c.handle}
    {
      var uuid := UuidOfString(c.uuid);
      if uuid !in notifyCharacteristics {
        notifyCharacteristics := notifyCharacteristics[uuid := c];
        adapterLog := adapterLog + [Gatt.Subscribe(c.handle)];
      }
      if c.handle !in dataListeners {
        dataListeners := dataListeners + {c.handle};
      }
    }

    /** `startNotifications`: uses the given characteristic when it can
        notify, otherwise resolves a `notify` endpoint; a failed resolution
        is the call's rejection. */
    method StartNotifications(params: Value, given: Option<Characteristic>, lookupFails: bool) returns (r: Promise<()>)
      requires Linked()
      modifies this`characteristics, this`adapterLog, this`notifyCharacteristics, this`dataListeners
      ensures given.Some? && "notify" in given.value.properties ==>
                && r == Resolved(()) && characteristics == old(characteristics)
                && notifyCharacteristics == Subscribed(old(notifyCharacteristics), given.value)
                && adapterLog == old(adapterLog) + SubscribeOps(old(notifyCharacteristics), given.value)
                && dataListeners == old(dataListeners) + {given.value.handle}
      ensures !(given.Some? && "notify" in given.value.properties) ==>
        var res := ResolveEndpoint(peripheral, services, old(characteristics), params, "notify", "startNotifications request", lookupFails);
        && characteristics == res.cache
        && (res.result.Resolved? ==>
              && r == Resolved(())
              && notifyCharacteristics == Subscribed(old(notifyCharacteristics), res.result.value)
              && adapterLog == old(adapterLog) + res.lookup + SubscribeOps(old(notifyCharacteristics), res.result.value)
              && dataListeners == old(dataListeners) + {res.result.value.handle})
        && (!res.result.Resolved? ==>
              && r == (if res.result.Rejected? then Rejected(res.result.reason) else NeverSettles)
              && notifyCharacteristics == old(notifyCharacteristics) && dataListeners == old(dataListeners)
              && adapterLog == old(adapterLog) + res.lookup)
    {
      var c: Characteristic;
      if given.Some? && "notify" in given.value.properties {
        c := given.value;
      } else {
        var endpoint := GetEndpoint("startNotifications request", params, "notify", lookupFails);
        if endpoint.Rejected? {
          return Rejected(endpoint.reason);
        }
        if endpoint.NeverSettles? {
          return NeverSettles;
        }
        c := endpoint.value;
      }
      Subscribe(c);
      r := Resolved(());
    }

    /** `read`: resolves the endpoint, reads it, and subscribes it too when
        `startNotifications` is set. Like `write` it never rejects. */
    method Read(params: Value, lookupFails: bool, readReply: Reply<string>) returns (r: Promise<Value>)
      requires Linked()
      modifies this`characteristics, this`adapterLog, this`notifyCharacteristics, this`dataListeners
      ensures !r.Rejected?
      ensures ReadCase(peripheral, services, old(characteristics), params, lookupFails, readReply,
                       old(notifyCharacteristics), old(dataListeners), old(adapterLog),
                       r, characteristics, notifyCharacteristics, dataListeners, adapterLog)
    {
      var endpoint := GetEndpoint("read request", params, "read", lookupFails);
      if endpoint.Rejected? {
        return Resolved(Err(ReadErrorPrefix + MessageOf(endpoint.reason)));
      }
      if endpoint.NeverSettles? {
        return NeverSettles;
      }
      // The cache now answers a `notify` request for the same parameters
      // with the characteristic just resolved, before any lookup.
      CachedEndpointIgnoresType(peripheral, services, old(characteristics), params, "read", "notify", "read request", lookupFails);
      r := ReadResolved(params, endpoint.value, lookupFails, readReply);
    }

    /** The part of `read` after the endpoint resolved to `c`: read it, and
        subscribe it when asked, which for a characteristic without
        `notify` goes through the cache to `c` again. */
    method ReadResolved(params: Value, c: Characteristic, lookupFails: bool, readReply: Reply<string>) returns (r: Promise<Value>)
      requires Linked()
      requires ResolveEndpoint(peripheral, services, characteristics, params, "notify", "startNotifications request", lookupFails)
               == Resolution(Resolved(c), [], characteristics)
      modifies this`characteristics, this`adapterLog, this`notifyCharacteristics, this`dataListeners
      ensures characteristics == old(characteristics)
      ensures r == if readReply.Fail? then Resolved(Err(ReadErrorPrefix + readReply.message)) else Resolved(Str(readReply.value))
      ensures readReply.Fail? || !Truthy(Get(params, "startNotifications")) ==>
                && adapterLog == old(adapterLog) + [ReadValue(c.handle)]
                && notifyCharacteristics == old(notifyCharacteristics) && dataListeners == old(dataListeners)
      ensures readReply.Ok? && Truthy(Get(params, "startNotifications")) ==>
                && notifyCharacteristics == Subscribed(old(notifyCharacteristics), c)
                && adapterLog == old(adapterLog) + [ReadValue(c.handle)] + SubscribeOps(old(notifyCharacteristics), c)
                && dataListeners == old(dataListeners) + {c.handle}
    {
      adapterLog := adapterLog + [ReadValue(c.handle)];
      if readReply.Fail? {
        return Resolved(Err(ReadErrorPrefix + readReply.message));
      }
      if Truthy(Get(params, "startNotifications")) {
        var started := StartNotifications(params, Some(c), lookupFails);
      }
      r := Resolved(Str(readReply.value));
    }

    /** `stopNotifications`: resolves a `notify` endpoint, unsubscribes it,
        drops its data listeners and its table entry. */
    method StopNotifications(params: Value, lookupFails: bool) returns (r: Promise<()>)
      requires Linked()
      modifies this`characteristics, this`adapterLog, this`notifyCharacteristics, this`dataListeners
      ensures var res := ResolveEndpoint(peripheral, services, old(characteristics), params, "notify", "stopNotifications request", lookupFails);
        && characteristics == res.cache
        && (res.result.Resolved? ==>
              var c := res.result.value;
              && r == Resolved(())
              && notifyCharacteristics == old(notifyCharacteristics) - {UuidOfString(c.uuid)}
              && adapterLog == old(adapterLog) + res.lookup + [Unsubscribe(c.handle)]
              && dataListeners == old(dataListeners) - {c.handle})
        && (!res.result.Resolved? ==>
              && r == (if res.result.Rejected? then Rejected(res.result.reason) else NeverSettles)
              && notifyCharacteristics == old(notifyCharacteristics) && dataListeners == old(dataListeners)
              && adapterLog == old(adapterLog) + res.lookup)
    {
      var endpoint := GetEndpoint("stopNotifications request", params, "notify", lookupFails);
      if endpoint.Rejected? {
        return Rejected(endpoint.reason);
      }
      if endpoint.NeverSettles? {
        return NeverSettles;
      }
      var c := endpoint.value;
      adapterLog := adapterLog + [Unsubscribe(c.handle)];
      dataListeners := dataListeners - {c.handle};
      notifyCharacteristics := notifyCharacteristics - {UuidOfString(c.uuid)};
      r := Resolved(());
    }

    /** `repairNotifyAfterWrite`: after a write the adapter may hold a new
        object for a subscribed characteristic; each entry, in an order the
        model leaves open, is replaced by the current object, which takes
        over the old object's listeners. An entry whose current object is
        missing throws and ends the pass. */
    method RepairNotifyAfterWrite(current: map<CharacteristicPath, Characteristic>) returns (threw: bool)
      modifies this`notifyCharacteristics, this`dataListeners
      ensures RepairOutcome(old(notifyCharacteristics), old(dataListeners), current, threw, notifyCharacteristics, dataListeners)
    {
      ghost var start, before := notifyCharacteristics, dataListeners;
      var pending := notifyCharacteristics.Keys;
      RepairProgressStart(start, current, before);
      while pending != {}
        invariant RepairProgress(start, current, pending, notifyCharacteristics, dataListeners, before)
        decreases |pending|
      {
        var id :| id in pending;
        var missing := RepairNext(id, current, start, pending, before);
        if missing {
          return true;
        }
        pending := pending - {id};
      }
      RepairProgressDone(start, current, notifyCharacteristics, dataListeners, before);
      threw := false;
    }

    /** The repair pass's loop body for the entry `id`: it either meets a
        missing current object and changes nothing, or repairs `id` and
        keeps the pass's invariant with `id` no longer pending. */
    method RepairNext(id: string, current: map<CharacteristicPath, Characteristic>,
                      ghost start: map<string, Characteristic>, ghost pending: set<string>, ghost before: set<Handle>)
      returns (missing: bool)
      requires id in pending
      requires RepairProgress(start, current, pending, notifyCharacteristics, dataListeners, before)
      modifies this`notifyCharacteristics, this`dataListeners
      ensures missing ==> id in start && PathOf(start[id]) !in current
      ensures missing ==> notifyCharacteristics == old(notifyCharacteristics) && dataListeners == old(dataListeners)
      ensures !missing ==> RepairProgress(start, current, pending - {id}, notifyCharacteristics, dataListeners, before)
    {
      ghost var c := start[id];
      ghost var prev := dataListeners;
      missing := RepairEntry(id, current);
      if missing {
        return;
      }
      assert current[PathOf(c)].handle in RepairTargets(start, current) by {
        assert id in start && PathOf(start[id]) in current;
      }
      RepairedInStep(start, pending, id, current);
      if RepairDisjoint(start, current) {
        ListenersTransferredStep(start, current, pending, id, prev, dataListeners, before);
      }
    }

    /** One step of the repair pass, for the entry `id`. */
    method RepairEntry(id: string, current: map<CharacteristicPath, Characteristic>) returns (missing: bool)
      requires id in notifyCharacteristics
      modifies this`notifyCharacteristics, this`dataListeners
      ensures var c := old(notifyCharacteristics)[id];
        && missing == (PathOf(c) !in current)
        && notifyCharacteristics == (if missing then old(notifyCharacteristics) else old(notifyCharacteristics)[id := Repaired(c, current)])
        && dataListeners == (if missing || current[PathOf(c)].handle == c.handle then old(dataListeners)
                             else TransferListeners(old(dataListeners), c.handle, current[PathOf(c)].handle))
    {
      var c := notifyCharacteristics[id];
      if PathOf(c) !in current {
        return true;
      }
      var now := current[PathOf(c)];
      if now.handle != c.handle {
        dataListeners := TransferListeners(dataListeners, c.handle, now.handle);
        notifyCharacteristics := notifyCharacteristics[id := now];
      }
      missing := false;
    }

    /** `onValueChanged`: forwards a notification to the client. */
    method OnValueChanged(c: Characteristic, data: string, encodes: bool)
      requires Valid()
      modifies session`nextId, session`handlers, session`outbox
      ensures Valid()
      ensures session.nextId == old(session.nextId) && session.handlers == old(session.handlers)
      ensures session.outbox == old(session.outbox) +
                if encodes && !session.disposed then [MakeRequest("characteristicDidChange", ChangeParams(c, data), Undefined)] else []
    {
      var _ := session.SendRemoteRequest("characteristicDidChange", ChangeParams(c, data), None, encodes);
    }

    /** `stopAllNotifications` as `dispose` runs it: the first entry is
        asked to stop notifying, and when that call answers the loop reads
        the table `dispose` has nulled in the meantime and throws. Which
        entry comes first is left open. */
    method StopAllNotifications()
      modifies this`adapterLog
      ensures exists ops :: StopsOneNotification(notifyCharacteristics, ops) && adapterLog == old(adapterLog) + ops
    {
      if notifyCharacteristics != map[] {
        var id :| id in notifyCharacteristics;
        adapterLog := adapterLog + [SetNotify(notifyCharacteristics[id].handle, false)];
        assert StopsOneNotification(notifyCharacteristics, [SetNotify(notifyCharacteristics[id].handle, false)]);
      } else {
        assert StopsOneNotification(notifyCharacteristics, []);
        assert adapterLog == old(adapterLog) + [];
      }
    }

    /** `dispose`: disconnects, disposes the session, turns off the
        notifications of one subscribed characteristic, clears the tables
        (`dispose` sets them to null) and removes the current discover
        listener. The `socket` it sets is not the session's, and a
        scheduled scan timeout stays scheduled. */
    method Dispose()
      requires Valid()
      modifies this`peripheral, this`services, this`characteristics, this`notifyCharacteristics,
               this`reportedPeripherals, this`scanningTimeId, this`listeners, this`discoverListener,
               this`adapterLog, session`handlers, session`disposed, session`socketOpen, session`socketActions
      ensures Valid()
      ensures session.disposed && session.handlers == map[]
      ensures session.outbox == old(session.outbox)
      ensures old(session.disposed) ==>
                session.socketActions == old(session.socketActions) && session.socketOpen == old(session.socketOpen)
      ensures !old(session.disposed) ==>
                && session.socketActions == old(session.socketActions) + [RemoveMessageListener] +
                                              (if old(session.socketOpen) then [CloseSocket] else [])
                && !session.socketOpen
      ensures peripheral.None? && services.None?
      ensures characteristics == map[] && notifyCharacteristics == map[] && reportedPeripherals == map[]
      ensures !scanningTimeId && timerArmed == old(timerArmed)
      ensures discoverListener.None?
      ensures listeners == if old(discoverListener).Some? then old(listeners) - {old(discoverListener).value} else old(listeners)
      ensures exists ops :: StopsOneNotification(old(notifyCharacteristics), ops) &&
                adapterLog == old(adapterLog) +
                  (if IsConnected(old(peripheral)) then [DisconnectPeripheral(old(peripheral).value.id)] else []) + ops +
                  (if old(discoverListener).Some? then [RemoveDiscoverListener] else [])
    {
      Disconnect();
      session.Dispose();
      ghost var disconnected := adapterLog;
      StopAllNotifications();
      ghost var ops :| StopsOneNotification(notifyCharacteristics, ops) && adapterLog == disconnected + ops;
      ClearTables();
    }

    /** The assignments that end `dispose`. */
    method ClearTables()
      requires Valid()
      modifies this`peripheral, this`services, this`characteristics, this`notifyCharacteristics,
               this`reportedPeripherals, this`scanningTimeId, this`listeners, this`discoverListener, this`adapterLog
      ensures Valid()
      ensures peripheral.None? && services.None?
      ensures characteristics == map[] && notifyCharacteristics == map[] && reportedPeripherals == map[]
      ensures !scanningTimeId && discoverListener.None?
      ensures listeners == if old(discoverListener).Some? then old(listeners) - {old(discoverListener).value} else old(listeners)
      ensures adapterLog == old(adapterLog) + if old(discoverListener).Some? then [RemoveDiscoverListener] else []
    {
      peripheral := None;
      services := None;
      characteristics := map[];
      scanningTimeId := false;
      reportedPeripherals := map[];
      notifyCharacteristics := map[];
      if discoverListener.Some? {
        adapterLog := adapterLog + [RemoveDiscoverListener];
        listeners := listeners - {discoverListener.value};
        discoverListener := None;
      }
    }

    // -------------------------------------------------------------------
    // didReceiveCall: one method per `case`; `completion` is the session's
    // `sendResponse` for the call's id.

    /** `case 'discover'`: a throw from `discover` rejects the call before
        any response. */
    method CallDiscover(params: Value, id: Value, encodes: bool) returns (r: Promise<()>)
      requires Valid()
      modifies this`timerArmed, this`reportedPeripherals, this`adapterLog,
               this`listeners, this`registrations, this`discoverListener, session`outbox
      ensures Valid()
      ensures r == if services.Some? then Rejected(CannotDiscover) else Resolved(())
      ensures r.Rejected? ==>
                && timerArmed == old(timerArmed) && reportedPeripherals == old(reportedPeripherals)
                && adapterLog == old(adapterLog) && listeners == old(listeners)
                && registrations == old(registrations) && discoverListener == old(discoverListener)
      ensures r.Resolved? ==>
                && timerArmed == (old(timerArmed) && !scanningTimeId)
                && reportedPeripherals == map[]
                && adapterLog == old(adapterLog) + [StartScanning(true), AddDiscoverListener]
                && listeners == old(listeners)[old(registrations) := Get(params, "filters")]
                && registrations == old(registrations) + 1
                && discoverListener == Some(old(registrations))
      ensures session.outbox == old(session.outbox) + if r.Resolved? then Answer(session.disposed, id, Null, encodes) else []
      ensures Answers(old(session.outbox), session.outbox, id)
    {
      var threw := Discover(params);
      if threw {
        return Rejected(CannotDiscover);
      }
      session.SendResponse(id, Null, Null, encodes);
      r := Resolved(());
    }

    /** `case 'connect'`: answers once the peripheral is connected. */
    method CallConnect(params: Value, id: Value, env: Env) returns (r: Promise<()>)
      requires Valid()
      modifies this`peripheral, this`services, this`scanningTimeId, this`timerArmed,
               this`adapterLog, this`disconnectListeners, session`outbox
      ensures Valid()
      ensures !r.NeverSettles?
      ensures r.Resolved? <==> !IsConnected(old(peripheral)) && IsConnected(peripheral)
      ensures r.Resolved? ==> env.discovered.Ok? && services == Some(env.discovered.value)
      ensures IsConnected(old(peripheral)) ==>
                && r == Rejected(AlreadyConnected)
                && peripheral == old(peripheral) && services == old(services)
                && scanningTimeId == old(scanningTimeId) && timerArmed == old(timerArmed)
                && adapterLog == old(adapterLog) && disconnectListeners == old(disconnectListeners)
      ensures var pid := ToJsString(Get(params, "peripheralId"));
        !IsConnected(old(peripheral)) && pid !in reportedPeripherals ==>
                && r == Rejected(Err("invalid peripheral ID: " + pid))
                && peripheral == old(peripheral) && services == old(services)
                && scanningTimeId == old(scanningTimeId) && timerArmed == old(timerArmed)
                && adapterLog == old(adapterLog) && disconnectListeners == old(disconnectListeners)
      ensures var pid := ToJsString(Get(params, "peripheralId"));
        !IsConnected(old(peripheral)) && pid in reportedPeripherals ==>
                var p := reportedPeripherals[pid];
                && !scanningTimeId && timerArmed == (old(timerArmed) && !old(scanningTimeId))
                && disconnectListeners == old(disconnectListeners) + {p.id}
                && adapterLog == old(adapterLog) + (if old(scanningTimeId) then [StopScanning] else []) +
                                 [ConnectPeripheral(p.id), AddDisconnectListener(p.id)] +
                                 (if Truthy(env.connectError) then [] else [DiscoverAll(p.id)])
                && (Truthy(env.connectError) ==>
                      r == Rejected(Err(ToJsString(env.connectError))) && peripheral == old(peripheral) && services == old(services))
                && (!Truthy(env.connectError) && env.discovered.Fail? ==>
                      r == Rejected(DiscoveryFailure(env.connectError)) && peripheral == old(peripheral) && services == old(services))
                && (!Truthy(env.connectError) && env.discovered.Ok? ==>
                      r == Resolved(()) && services == Some(env.discovered.value) && peripheral == Some(p.(state := Connected)))
      ensures session.outbox == old(session.outbox) + if r.Resolved? then Answer(session.disposed, id, Null, env.encodes) else []
      ensures Answers(old(session.outbox), session.outbox, id)
    {
      r := Connect(params, env.connectError, env.discovered);
      if r.Resolved? {
        session.SendResponse(id, Null, Null, env.encodes);
      }
    }

    /** `case 'disconnect'`. */
    method CallDisconnect(id: Value, encodes: bool) returns (r: Promise<()>)
      modifies this`peripheral, this`adapterLog, session`outbox
      ensures r == Resolved(())
      ensures peripheral == if IsConnected(old(peripheral)) then Some(old(peripheral).value.(state := Disconnecting)) else old(peripheral)
      ensures adapterLog == old(adapterLog) +
                if IsConnected(old(peripheral)) then [DisconnectPeripheral(old(peripheral).value.id)] else []
      ensures session.outbox == old(session.outbox) + Answer(session.disposed, id, Null, encodes)
      ensures Answers(old(session.outbox), session.outbox, id)
    {
      Disconnect();
      session.SendResponse(id, Null, Null, encodes);
      r := Resolved(());
    }

    /** `case 'write'`: answers with what `write` returns, then repairs the
        subscription table; a throw there rejects the call after the
        answer. */
    method CallWrite(params: Value, id: Value, env: Env) returns (r: Promise<()>)
      requires Linked()
      modifies this`characteristics, this`adapterLog, this`notifyCharacteristics, this`dataListeners, session`outbox
      ensures r.NeverSettles? ==> session.outbox == old(session.outbox) && notifyCharacteristics == old(notifyCharacteristics)
      ensures Answers(old(session.outbox), session.outbox, id)
      ensures !r.NeverSettles? ==>
                && |session.outbox| == |old(session.outbox)| + (if session.disposed then 0 else 1)
                && (r.Rejected? <==> RepairFails(old(notifyCharacteristics), env.current))
      ensures env.decoded.Fail? ==> characteristics == old(characteristics) && adapterLog == old(adapterLog) && !r.NeverSettles?
      ensures env.decoded.Ok? ==>
        var res := ResolveEndpoint(peripheral, services, old(characteristics), params, "write", "write request", env.lookupFails);
        && characteristics == res.cache
        && (r.NeverSettles? <==> res.result.NeverSettles?)
        && adapterLog == old(adapterLog) + res.lookup +
             (if res.result.Resolved?
              then IssuedWrites(res.result.value.handle, env.decoded.value, !Truthy(Get(params, "withResponse")), env.writeError)
              else [])
      ensures r.NeverSettles? ==> dataListeners == old(dataListeners)
      ensures !r.NeverSettles? ==>
                RepairOutcome(old(notifyCharacteristics), old(dataListeners), env.current, r.Rejected?,
                              notifyCharacteristics, dataListeners)
    {
      var written := Write(params, env.decoded, env.lookupFails, env.writeError);
      if written.NeverSettles? {
        return NeverSettles;
      }
      r := AnswerThenRepair(id, written.value, env);
    }

    /** The rest of `case 'write'` once `write` settled with `result`: the
        answer, then the repair of the subscription table. */
    method AnswerThenRepair(id: Value, result: Value, env: Env) returns (r: Promise<()>)
      modifies this`notifyCharacteristics, this`dataListeners, session`outbox
      ensures session.outbox == old(session.outbox) + Answer(session.disposed, id, result, env.encodes)
      ensures !r.NeverSettles?
      ensures r.Rejected? <==> RepairFails(old(notifyCharacteristics), env.current)
      ensures RepairOutcome(old(notifyCharacteristics), old(dataListeners), env.current, r.Rejected?,
                            notifyCharacteristics, dataListeners)
    {
      session.SendResponse(id, result, Null, env.encodes);
      var threw := RepairNotifyAfterWrite(env.current);
      r := if threw then Rejected(Err("Cannot set property '_events' of undefined")) else Resolved(());
    }

    /** `case 'read'`: answers with what `read` returns and, having no
        `break`, goes on into `case 'startNotifications'`, which answers a
        second time. */
    method CallRead(params: Value, id: Value, env: Env) returns (r: Promise<()>)
      requires Linked()
      modifies this`characteristics, this`adapterLog, this`notifyCharacteristics, this`dataListeners, session`outbox
      ensures Answers(old(session.outbox), session.outbox, id)
      ensures r.Resolved? ==> |session.outbox| == |old(session.outbox)| + (if session.disposed then 0 else 2)
      ensures r.Rejected? ==> |session.outbox| == |old(session.outbox)| + (if session.disposed then 0 else 1)
      ensures var res := ResolveEndpoint(peripheral, services, old(characteristics), params, "read", "read request", env.lookupFails);
        res.result.NeverSettles? ==> session.outbox == old(session.outbox)
      ensures ReadCallCase(peripheral, services, old(characteristics), params, env,
                           old(notifyCharacteristics), old(dataListeners), old(adapterLog),
                           r, characteristics, notifyCharacteristics, dataListeners, adapterLog)
    {
      ghost var cache0, notify0, listeners0, log0 := characteristics, notifyCharacteristics, dataListeners, adapterLog;
      var value := Read(params, env.lookupFails, env.readReply);
      ghost var cache1, notify1, listeners1, log1 := characteristics, notifyCharacteristics, dataListeners, adapterLog;
      r := AnswerRead(params, id, value, env);
      ReadThenStart(peripheral, services, cache0, params, env, notify0, listeners0, log0,
                    value, cache1, notify1, listeners1, log1, r, characteristics, notifyCharacteristics, dataListeners, adapterLog);
    }

    /** `case 'read'` once `read` settled as `value`; nothing happens when
        it never settles. */
    method AnswerRead(params: Value, id: Value, value: Promise<Value>, env: Env) returns (r: Promise<()>)
      requires Linked()
      modifies this`characteristics, this`adapterLog, this`notifyCharacteristics, this`dataListeners, session`outbox
      ensures value.NeverSettles? ==> r.NeverSettles? && session.outbox == old(session.outbox)
      ensures !value.Resolved? ==>
                && characteristics == old(characteristics) && adapterLog == old(adapterLog)
                && notifyCharacteristics == old(notifyCharacteristics) && dataListeners == old(dataListeners)
      ensures value.Resolved? ==>
                StartCase(peripheral, services, old(characteristics), params, env.fallThroughLookupFails,
                          old(notifyCharacteristics), old(dataListeners), old(adapterLog),
                          r, characteristics, notifyCharacteristics, dataListeners, adapterLog)
      ensures Answers(old(session.outbox), session.outbox, id)
      ensures r.Resolved? ==> |session.outbox| == |old(session.outbox)| + (if session.disposed then 0 else 2)
      ensures r.Rejected? ==> |session.outbox| == |old(session.outbox)| + (if session.disposed then 0 else 1)
    {
      if !value.Resolved? {
        return NeverSettles;
      }
      ghost var before := session.outbox;
      r := AnswerThenStart(params, id, value.value, env);
      AnswersAppend(before, Answer(session.disposed, id, value.value, env.encodes) +
                            (if r.Resolved? then Answer(session.disposed, id, Null, env.encodes) else []), id);
    }

    /** The answer to a `read` that resolved with `result`, then the whole
        of `case 'startNotifications'`. */
    method AnswerThenStart(params: Value, id: Value, result: Value, env: Env) returns (r: Promise<()>)
      requires Linked()
      modifies this`characteristics, this`adapterLog, this`notifyCharacteristics, this`dataListeners, session`outbox
      ensures session.outbox == old(session.outbox) + Answer(session.disposed, id, result, env.encodes) +
                                (if r.Resolved? then Answer(session.disposed, id, Null, env.encodes) else [])
      ensures r == Outcome(ResolveEndpoint(peripheral, services, old(characteristics), params, "notify",
                                           "startNotifications request", env.fallThroughLookupFails).result)
      ensures StartCase(peripheral, services, old(characteristics), params, env.fallThroughLookupFails,
                        old(notifyCharacteristics), old(dataListeners), old(adapterLog),
                        r, characteristics, notifyCharacteristics, dataListeners, adapterLog)
    {
      session.SendResponse(id, result, Null, env.encodes);
      r := CallStartNotifications(params, id, env.(lookupFails := env.fallThroughLookupFails));
    }

    /** `case 'startNotifications'`. */
    method CallStartNotifications(params: Value, id: Value, env: Env) returns (r: Promise<()>)
      requires Linked()
      modifies this`characteristics, this`adapterLog, this`notifyCharacteristics, this`dataListeners, session`outbox
      ensures session.outbox == old(session.outbox) + if r.Resolved? then Answer(session.disposed, id, Null, env.encodes) else []
      ensures var res := ResolveEndpoint(peripheral, services, old(characteristics), params, "notify", "startNotifications request", env.lookupFails);
        && r == Outcome(res.result)
        && (res.result.Resolved? ==> notifyCharacteristics == Subscribed(old(notifyCharacteristics), res.result.value))
      ensures StartCase(peripheral, services, old(characteristics), params, env.lookupFails,
                        old(notifyCharacteristics), old(dataListeners), old(adapterLog),
                        r, characteristics, notifyCharacteristics, dataListeners, adapterLog)
      ensures Answers(old(session.outbox), session.outbox, id)
    {
      r := StartNotifications(params, None, env.lookupFails);
      if r.Resolved? {
        session.SendResponse(id, Null, Null, env.encodes);
      }
    }

    /** `case 'stopNotifications'`. */
    method CallStopNotifications(params: Value, id: Value, env: Env) returns (r: Promise<()>)
      requires Linked()
      modifies this`characteristics, this`adapterLog, this`notifyCharacteristics, this`dataListeners, session`outbox
      ensures session.outbox == old(session.outbox) + if r.Resolved? then Answer(session.disposed, id, Null, env.encodes) else []
      ensures var res := ResolveEndpoint(peripheral, services, old(characteristics), params, "notify", "stopNotifications request", env.lookupFails);
        && r == Outcome(res.result)
        && (res.result.Resolved? ==> notifyCharacteristics == old(notifyCharacteristics) - {UuidOfString(res.result.value.uuid)})
        && characteristics == res.cache
        && (res.result.Resolved? ==>
              && adapterLog == old(adapterLog) + res.lookup + [Unsubscribe(res.result.value.handle)]
              && dataListeners == old(dataListeners) - {res.result.value.handle})
        && (!res.result.Resolved? ==>
              && notifyCharacteristics == old(notifyCharacteristics) && dataListeners == old(dataListeners)
              && adapterLog == old(adapterLog) + res.lookup)
      ensures Answers(old(session.outbox), session.outbox, id)
    {
      r := StopNotifications(params, env.lookupFails);
      if r.Resolved? {
        session.SendResponse(id, Null, Null, env.encodes);
      }
    }

    /** `case 'getServices'`: the uuids of the known services, or none. */
    method CallGetServices(id: Value, encodes: bool) returns (r: Promise<()>)
      modifies session`outbox
      ensures r == Resolved(())
      ensures session.outbox == old(session.outbox) + Answer(session.disposed, id, Arr(ServiceUuids(services)), encodes)
      ensures Answers(old(session.outbox), session.outbox, id)
    {
      session.SendResponse(id, Arr(ServiceUuids(services)), Null, encodes);
      r := Resolved(());
    }

    /** `case 'pingMe'`: answers `willPing`, then sends a `ping` request
        whose completion only logs; after `dispose` storing that completion
        throws. */
    method CallPingMe(id: Value, encodes: bool) returns (r: Promise<()>)
      requires Valid()
      modifies session`nextId, session`handlers, session`outbox
      ensures Valid()
      ensures session.nextId == old(session.nextId) + 1
      ensures session.disposed ==> r == Rejected(NullTableError) && session.outbox == old(session.outbox)
      ensures !session.disposed ==>
                && r == Resolved(())
                && session.handlers == old(session.handlers)[old(session.nextId) := PingCompletion]
                && session.outbox == old(session.outbox) + Answer(false, id, Str("willPing"), encodes) +
                     (if encodes then [MakeRequest("ping", Null, Num(old(session.nextId)))] else [])
      ensures |old(session.outbox)| <= |session.outbox| && session.outbox[..|old(session.outbox)|] == old(session.outbox)
    {
      session.SendResponse(id, Str("willPing"), Null, encodes);
      var threw := session.SendRemoteRequest("ping", Null, Some(PingCompletion), encodes);
      r := if threw then Rejected(NullTableError) else Resolved(());
    }

    /** `didReceiveCall`: dispatches on the method name; an unknown name
        throws, which rejects the call and sends nothing. Every response it
        sends carries the call's id; only `pingMe` adds a request. */
    method DidReceiveCall(name: string, params: Value, id: Value, env: Env) returns (r: Promise<()>)
      requires Valid()
      modifies this, session
      ensures Valid()
      ensures session.disposed == old(session.disposed)
      ensures |old(session.outbox)| <= |session.outbox| && session.outbox[..|old(session.outbox)|] == old(session.outbox)
      ensures name != "pingMe" ==> Answers(old(session.outbox), session.outbox, id)
      ensures name == "read" && r.Resolved? ==> |session.outbox| == |old(session.outbox)| + (if session.disposed then 0 else 2)
      ensures name !in CallNames ==> r == Rejected(MethodNotFound) && session.outbox == old(session.outbox)
      ensures name == "discover" ==> r == if old(services).Some? then Rejected(CannotDiscover) else Resolved(())
      ensures name == "connect" ==> (r.Resolved? <==> !IsConnected(old(peripheral)) && IsConnected(peripheral))
      ensures name == "disconnect" ==> r == Resolved(()) && session.outbox == old(session.outbox) + Answer(session.disposed, id, Null, env.encodes)
      ensures name == "getServices" ==>
                r == Resolved(()) && session.outbox == old(session.outbox) + Answer(session.disposed, id, Arr(ServiceUuids(services)), env.encodes)
      ensures name == "write" && !r.NeverSettles? ==> (r.Rejected? <==> RepairFails(old(notifyCharacteristics), env.current))
      ensures name == "pingMe" ==> session.nextId == old(session.nextId) + 1
    {
      var c := CallOf(name);
      if c.UnknownCall? {
        r := Rejected(MethodNotFound);
      } else if c.WriteCall? || c.ReadCall? || c.StartNotificationsCall? || c.StopNotificationsCall? {
        r := DidReceiveEndpointCall(c, params, id, env);
      } else {
        r := DidReceiveOtherCall(c, params, id, env);
      }
    }

    /** The `case`s of `didReceiveCall` that go through `getEndpoint`. */
    method DidReceiveEndpointCall(c: CallName, params: Value, id: Value, env: Env) returns (r: Promise<()>)
      requires c.WriteCall? || c.ReadCall? || c.StartNotificationsCall? || c.StopNotificationsCall?
      requires Linked()
      modifies this`characteristics, this`adapterLog, this`notifyCharacteristics, this`dataListeners, session`outbox
      ensures Answers(old(session.outbox), session.outbox, id)
      ensures c.ReadCall? && r.Resolved? ==> |session.outbox| == |old(session.outbox)| + (if session.disposed then 0 else 2)
      ensures c.ReadCall? && r.Rejected? ==> |session.outbox| == |old(session.outbox)| + (if session.disposed then 0 else 1)
      ensures c.WriteCall? && !r.NeverSettles? ==> (r.Rejected? <==> RepairFails(old(notifyCharacteristics), env.current))
      ensures c.StartNotificationsCall? ==>
                r == Outcome(ResolveEndpoint(peripheral, services, old(characteristics), params, "notify",
                                             "startNotifications request", env.lookupFails).result)
      ensures c.StopNotificationsCall? ==>
                r == Outcome(ResolveEndpoint(peripheral, services, old(characteristics), params, "notify",
                                             "stopNotifications request", env.lookupFails).result)
    {
      match c
      case WriteCall => r := CallWrite(params, id, env);
      case ReadCall => r := CallRead(params, id, env);
      case StartNotificationsCall => r := CallStartNotifications(params, id, env);
      case StopNotificationsCall => r := CallStopNotifications(params, id, env);
    }

    /** The other named `case`s of `didReceiveCall`. */
    method DidReceiveOtherCall(c: CallName, params: Value, id: Value, env: Env) returns (r: Promise<()>)
      requires c.DiscoverCall? || c.ConnectCall? || c.DisconnectCall? || c.GetServicesCall? || c.PingMeCall?
      requires Valid()
      modifies this`peripheral, this`services, this`scanningTimeId, this`timerArmed, this`reportedPeripherals,
               this`adapterLog, this`listeners, this`registrations, this`discoverListener, this`disconnectListeners,
               session`nextId, session`handlers, session`outbox
      ensures Valid()
      ensures |old(session.outbox)| <= |session.outbox| && session.outbox[..|old(session.outbox)|] == old(session.outbox)
      ensures !c.PingMeCall? ==> Answers(old(session.outbox), session.outbox, id)
      ensures c.DiscoverCall? ==> r == if old(services).Some? then Rejected(CannotDiscover) else Resolved(())
      ensures c.ConnectCall? ==> (r.Resolved? <==> !IsConnected(old(peripheral)) && IsConnected(peripheral))
      ensures c.DisconnectCall? ==> r == Resolved(()) && session.outbox == old(session.outbox) + Answer(session.disposed, id, Null, env.encodes)
      ensures c.GetServicesCall? ==>
                r == Resolved(()) && session.outbox == old(session.outbox) + Answer(session.disposed, id, Arr(ServiceUuids(services)), env.encodes)
      ensures c.PingMeCall? ==> session.nextId == old(session.nextId) + 1
    {
      match c
      case DiscoverCall => r := CallDiscover(params, id, env.encodes);
      case ConnectCall => r := CallConnect(params, id, env);
      case DisconnectCall => r := CallDisconnect(id, env.encodes);
      case GetServicesCall => r := CallGetServices(id, env.encodes);
      case PingMeCall => r := CallPingMe(id, env.encodes);
    }

    /** The socket's `message` listener: nothing after `dispose` removed
        it; otherwise `didReceiveMessage`, and a valid request goes on to
        `didReceiveCall`, whose outcome is returned. */
    method OnMessage(m: Message, env: Env) returns (r: Option<Promise<()>>)
      requires Valid()
      modifies this, session
      ensures Valid()
      ensures old(session.disposed) ==> r.None? && session.outbox == old(session.outbox)
      ensures !old(session.disposed) ==> (r.Some? <==> Classify(m).Call?)
      ensures !old(session.disposed) && !Classify(m).Call? ==>
                session.outbox == old(session.outbox) +
                  match InboundFailure(m, old(session.handlers), env.handlerThrows)
                  case None => []
                  case Some(text) => [ErrorResponse(m.id, text, env.encodes)]
    {
      if session.disposed {
        return None;
      }
      var d := session.DidReceiveMessage(m, env.encodes, env.handlerThrows);
      if d.None? {
        return None;
      }
      var p := DidReceiveCall(d.value.name, d.value.params, m.id, env);
      r := Some(p);
    }
  }
}
