/** The JSON-RPC session engine of `src/session/session.js`: envelopes,
    response construction, the classification of inbound messages, the
    correlation table of outbound requests, and the session object that owns
    them. JSON text is not modelled: a message is the record that
    `JSON.parse` produced, and the socket's `send` is an outbox of records. */
module JsonRpc {
  import opened JsValue

  /** A parsed envelope; each property the JSON text lacks is `Undefined`. */
  datatype Message = Message(jsonrpc: Value, id: Value, methodName: Value, params: Value, result: Value, error: Value)

  /** Names the completion callback that an outbound request registered. */
  datatype Token = Token(name: string)

  /** One call of a registered completion callback, as `(result, error)`. */
  datatype CompletionCall = CompletionCall(handler: Token, result: Value, error: Value)

  /** What the session does to its socket besides sending. */
  datatype SocketAction = RemoveMessageListener | CloseSocket

  /** A request accepted for dispatch to the session's call handler. */
  datatype Dispatch = Dispatch(name: string, params: Value)

  const Version: Value := Str("2.0")

  const VersionErrorText := "unrecognized JSON-RPC version string"
  const NeitherErrorText := "message is neither request nor response"
  const MethodErrorText := "methon value missing or not a string"
  const MissingIdText := "esponse ID value missing or wrong type"
  const UnknownIdText := "response ID does not correspond to any open request"
  const HandlerFailedPrefix := "exception encountered while handling response "
  const EncodeFailureText := "Could not encode response"

  /** `makeResponse`: the id and version always, then the error when it is
      truthy and the result otherwise. */
  function MakeResponse(id: Value, result: Value, error: Value): (r: Message)
    ensures r.jsonrpc == Version && r.id == id
    ensures r.methodName == Undefined && r.params == Undefined
    ensures Truthy(error) ==> r.error == error && r.result == Undefined
    ensures !Truthy(error) ==> r.result == result && r.error == Undefined
  {
    if Truthy(error) then Message(Version, id, Undefined, Undefined, Undefined, error)
    else Message(Version, id, Undefined, Undefined, result, Undefined)
  }

  /** The request record `sendRemoteRequest` sends; params only when truthy. */
  function MakeRequest(name: string, params: Value, id: Value): (r: Message)
    ensures r.jsonrpc == Version && r.methodName == Str(name) && r.id == id
    ensures r.params == (if Truthy(params) then params else Undefined)
    ensures r.result == Undefined && r.error == Undefined
  {
    Message(Version, id, Str(name), if Truthy(params) then params else Undefined, Undefined, Undefined)
  }

  /** The response the `sendResponse` closure gets onto the wire: the
      response itself when it encodes and sends, otherwise the fallback
      error response with the same id. */
  function ResponseSent(id: Value, result: Value, error: Value, encodes: bool): (r: Message)
    ensures r.jsonrpc == Version && r.id == id
    ensures !encodes ==> r.error == Str(EncodeFailureText) && r.result == Undefined
    ensures encodes ==> r == MakeResponse(id, result, error)
  {
    if encodes then MakeResponse(id, result, error) else MakeResponse(id, Null, Str(EncodeFailureText))
  }

  /** The error response `didReceiveMessage` sends for a failure with the given text. */
  function ErrorResponse(id: Value, text: string, encodes: bool): (r: Message)
    ensures r.jsonrpc == Version && r.id == id && r.result == Undefined
    ensures r.error == if encodes then Err(text) else Str(EncodeFailureText)
  {
    ResponseSent(id, Null, Err(text), encodes)
  }

  /** How `didReceiveMessage` and `didReceiveRequest` read an envelope. */
  datatype Envelope =
    | VersionError
    | BadMethod
    | Call(name: string, params: Value)
    | Response(id: Value, result: Value, error: Value)
    | Neither

  function Classify(m: Message): (e: Envelope)
    ensures e.VersionError? <==> m.jsonrpc != Version
    ensures (e.Call? || e.BadMethod?) <==> m.jsonrpc == Version && Truthy(m.methodName)
    ensures e.BadMethod? ==> !m.methodName.Str?
    ensures e.Call? ==> m.methodName == Str(e.name) && e.name != ""
    ensures e.Call? ==> e.params == if Truthy(m.params) then m.params else Obj(map[])
    ensures e.Response? <==>
              m.jsonrpc == Version && !Truthy(m.methodName) && (Truthy(m.result) || Truthy(m.error))
    ensures e.Response? ==> e == Response(m.id, m.result, m.error)
  {
    if m.jsonrpc != Version then VersionError
    else if Truthy(m.methodName) then
      if m.methodName.Str? then Call(m.methodName.s, if Truthy(m.params) then m.params else Obj(map[]))
      else BadMethod
    else if Truthy(m.result) || Truthy(m.error) then Response(m.id, m.result, m.error)
    else Neither
  }

  /** A response this engine builds is read back by the same classification
      as a response with the same id and payload, unless both the result and
      the error are falsy: then it is "neither request nor response". So the
      `(null, null)` completions of the device session produce replies that
      this engine itself would reject. */
  lemma ResponseClassifiesBack(id: Value, result: Value, error: Value)
    ensures var e := Classify(MakeResponse(id, result, error));
      && (Truthy(error) ==> e == Response(id, Undefined, error))
      && (!Truthy(error) && Truthy(result) ==> e == Response(id, result, Undefined))
      && (!Truthy(error) && !Truthy(result) ==> e == Neither)
  {
  }

  /** The entry of the correlation table that a response id reaches: the id
      must be truthy, and it is used as a property key, so a number reaches
      the entry it names and so does a string holding its decimal form. */
  function HandlerKey(id: Value): (k: Option<nat>)
    ensures k.Some? ==> Truthy(id)
  {
    if Truthy(id) then ParseCanonicalNat(ToJsString(id)) else None
  }

  /** Every issued id except 0 reaches its entry when sent back as a number;
      0, the first id issued, never does, although "0" as a string does. */
  lemma IssuedIdReachesEntry(n: nat)
    ensures HandlerKey(Num(n)) == if n == 0 then None else Some(n)
    ensures HandlerKey(Str(NatToString(n))) == Some(n)
  {
    ParseNatRoundTrip(n, "");
  }

  /** No other number reaches entry `n`. */
  lemma HandlerKeyInjective(n: nat, m: int)
    requires HandlerKey(Num(m)) == Some(n)
    ensures m == n
  {
    if m >= 0 {
      ParseNatRoundTrip(n, NatToString(m));
      ParseNatRoundTrip(m, "");
    }
  }

  /** The completion a response reaches, if any. */
  function LookupHandler(handlers: map<nat, Token>, id: Value): (r: Option<Token>)
    ensures r.Some? <==> HandlerKey(id).Some? && HandlerKey(id).value in handlers
    ensures r.Some? ==> r.value == handlers[HandlerKey(id).value]
  {
    var k := HandlerKey(id);
    if k.Some? && k.value in handlers then Some(handlers[k.value]) else None
  }

  /** The completion call `didReceiveResponse` makes: `(null, error)` when
      the error is truthy, else `(result, null)`. */
  function HandlerCall(handler: Token, result: Value, error: Value): (c: CompletionCall)
    ensures c.handler == handler
    ensures Truthy(error) ==> c.result == Null && c.error == error
    ensures !Truthy(error) ==> c.result == result && c.error == Null
  {
    if Truthy(error) then CompletionCall(handler, Null, error) else CompletionCall(handler, result, Null)
  }

  /** The failure text `didReceiveResponse` throws with, if any. */
  function ResponseFailure(handlers: map<nat, Token>, id: Value, handlerThrows: bool): (f: Option<string>)
    ensures !Truthy(id) ==> f == Some(MissingIdText)
    ensures Truthy(id) && LookupHandler(handlers, id).None? ==> f == Some(UnknownIdText)
    ensures LookupHandler(handlers, id).Some? ==>
              f == if handlerThrows then Some(HandlerFailedPrefix + ToJsString(id)) else None
  {
    if !Truthy(id) then Some(MissingIdText)
    else if LookupHandler(handlers, id).None? then Some(UnknownIdText)
    else if handlerThrows then Some(HandlerFailedPrefix + ToJsString(id))
    else None
  }

  /** The session of one socket connection. `disposed` records that
      `dispose` nulled `_socket` and `_completionHandlers`; `socketOpen` is
      the socket's ready state; `outbox` is every message handed to
      `socket.send`; `completions` is every call of a registered completion. */
  class Session {
    var nextId: nat
    var handlers: map<nat, Token>
    var socketOpen: bool
    var disposed: bool
    var outbox: seq<Message>
    var socketActions: seq<SocketAction>
    var completions: seq<CompletionCall>

    /** Every entry of the table is an id already issued, and a disposed
        session has no table. */
    ghost predicate Valid()
      reads this`nextId, this`handlers, this`disposed
    {
      && (forall k :: k in handlers ==> k < nextId)
      && (disposed ==> handlers == map[])
    }

    constructor ()
      ensures Valid()
      ensures nextId == 0 && handlers == map[]
      ensures socketOpen && !disposed
      ensures outbox == [] && socketActions == [] && completions == []
    {
      nextId := 0;
      handlers := map[];
      socketOpen := true;
      disposed := false;
      outbox := [];
      socketActions := [];
      completions := [];
    }

    /** `getNextId`: the current counter, which then grows by one; the id
        returned is in no table entry yet. */
    method GetNextId() returns (id: nat)
      requires Valid()
      modifies this`nextId
      ensures id == old(nextId) && nextId == old(nextId) + 1
      ensures id !in handlers
      ensures Valid()
    {
      id := nextId;
      nextId := nextId + 1;
    }

    /** The `sendResponse` closure of one inbound message: it reaches the
        socket only while the session holds one. */
    method SendResponse(id: Value, result: Value, error: Value, encodes: bool)
      modifies this`outbox
      ensures outbox == old(outbox) + if disposed then [] else [ResponseSent(id, result, error, encodes)]
    {
      if !disposed {
        outbox := outbox + [ResponseSent(id, result, error, encodes)];
      }
    }

    /** `didReceiveResponse`: finds the completion, calls it, and returns the
        text it throws with, if any. The table is left as it was: a matched
        entry is never removed. */
    method DidReceiveResponse(id: Value, result: Value, error: Value, handlerThrows: bool)
      returns (failure: Option<string>)
      requires Valid()
      modifies this`completions
      ensures Valid()
      ensures failure == ResponseFailure(handlers, id, handlerThrows)
      ensures completions == old(completions) +
                match LookupHandler(handlers, id)
                case None => []
                case Some(h) => [HandlerCall(h, result, error)]
    {
      if !Truthy(id) {
        return Some(MissingIdText);
      }
      var handler := LookupHandler(handlers, id);
      if handler.None? {
        return Some(UnknownIdText);
      }
      completions := completions + [HandlerCall(handler.value, result, error)];
      failure := if handlerThrows then Some(HandlerFailedPrefix + ToJsString(id)) else None;
    }

    /** `didReceiveMessage` up to the call handler: every failure becomes an
        error response with the message's id; a valid request is returned for
        dispatch with its params defaulted to `{}`. */
    method DidReceiveMessage(m: Message, encodes: bool, handlerThrows: bool)
      returns (d: Option<Dispatch>)
      requires Valid()
      modifies this`outbox, this`completions
      ensures Valid()
      ensures d.Some? <==> Classify(m).Call?
      ensures d.Some? ==> d.value == Dispatch(Classify(m).name, Classify(m).params)
      ensures !Classify(m).Response? ==> completions == old(completions)
      ensures Classify(m).Response? ==>
                completions == old(completions) +
                  match LookupHandler(handlers, m.id)
                  case None => []
                  case Some(h) => [HandlerCall(h, m.result, m.error)]
      ensures outbox == old(outbox) +
                match InboundFailure(m, handlers, handlerThrows)
                case None => []
                case Some(text) => if disposed then [] else [ErrorResponse(m.id, text, encodes)]
    {
      match Classify(m)
      case VersionError =>
        SendResponse(m.id, Null, Err(VersionErrorText), encodes);
        d := None;
      case BadMethod =>
        SendResponse(m.id, Null, Err(MethodErrorText), encodes);
        d := None;
      case Call(name, params) =>
        d := Some(Dispatch(name, params));
      case Response(id, result, error) =>
        var failure := DidReceiveResponse(id, result, error, handlerThrows);
        if failure.Some? {
          SendResponse(m.id, Null, Err(failure.value), encodes);
        }
        d := None;
      case Neither =>
        SendResponse(m.id, Null, Err(NeitherErrorText), encodes);
        d := None;
    }

    /** `sendRemoteRequest`: with a completion the request takes the next id
        and the completion is stored under exactly that id; without one the
        request has no id and neither the table nor the counter changes. A
        request that fails to encode, or finds no socket, is dropped (the
        source logs it). After `dispose` the table is null, so storing a
        completion throws: the result is then `true`. */
    method SendRemoteRequest(name: string, params: Value, completion: Option<Token>, encodes: bool)
      returns (threw: bool)
      requires Valid()
      modifies this`nextId, this`handlers, this`outbox
      ensures Valid()
      ensures completion.None? ==>
                && !threw && nextId == old(nextId) && handlers == old(handlers)
                && outbox == old(outbox) + if encodes && !disposed then [MakeRequest(name, params, Undefined)] else []
      ensures completion.Some? ==> nextId == old(nextId) + 1
      ensures completion.Some? && !disposed ==>
                && !threw
                && old(nextId) !in old(handlers)
                && handlers == old(handlers)[old(nextId) := completion.value]
                && outbox == old(outbox) + if encodes then [MakeRequest(name, params, Num(old(nextId)))] else []
      ensures completion.Some? && disposed ==> threw && handlers == old(handlers) && outbox == old(outbox)
    {
      var id := Undefined;
      if completion.Some? {
        var requestId := GetNextId();
        id := Num(requestId);
        if disposed {
          return true;
        }
        handlers := handlers[requestId := completion.value];
      }
      if encodes && !disposed {
        outbox := outbox + [MakeRequest(name, params, id)];
      }
      threw := false;
    }

    /** The socket reports that it is no longer open. */
    method OnTransportClosed()
      modifies this`socketOpen
      ensures !socketOpen
    {
      socketOpen := false;
    }

    /** `dispose`: the first call removes the message listener, closes the
        socket if it is open, and drops the socket and the table; a second
        call does nothing to the socket. */
    method Dispose()
      requires Valid()
      modifies this`handlers, this`disposed, this`socketOpen, this`socketActions
      ensures Valid()
      ensures disposed && handlers == map[]
      ensures old(disposed) ==> socketActions == old(socketActions) && socketOpen == old(socketOpen)
      ensures !old(disposed) ==>
                && socketActions == old(socketActions) + [RemoveMessageListener] +
                                      (if old(socketOpen) then [CloseSocket] else [])
                && !socketOpen
    {
      if !disposed {
        socketActions := socketActions + [RemoveMessageListener];
        if socketOpen {
          socketActions := socketActions + [CloseSocket];
          socketOpen := false;
        }
      }
      disposed := true;
      handlers := map[];
    }
  }

  /** The failure `didReceiveMessage` answers with an error response. */
  function InboundFailure(m: Message, handlers: map<nat, Token>, handlerThrows: bool): (f: Option<string>)
    ensures Classify(m).VersionError? ==> f == Some(VersionErrorText)
    ensures Classify(m).BadMethod? ==> f == Some(MethodErrorText)
    ensures Classify(m).Call? ==> f == None
    ensures Classify(m).Response? ==> f == ResponseFailure(handlers, m.id, handlerThrows)
    ensures Classify(m).Neither? ==> f == Some(NeitherErrorText)
  {
    match Classify(m)
    case VersionError => Some(VersionErrorText)
    case BadMethod => Some(MethodErrorText)
    case Call(_, _) => None
    case Response(id, _, _) => ResponseFailure(handlers, id, handlerThrows)
    case Neither => Some(NeitherErrorText)
  }

  /** A response whose id is the number 0 is always rejected as carrying no
      id, even when entry 0, the first id issued, is waiting for it. */
  lemma ZeroIdResponseRejected(m: Message, handlers: map<nat, Token>, handlerThrows: bool)
    requires m.jsonrpc == Version && !Truthy(m.methodName) && Truthy(m.result)
    requires m.id == Num(0)
    ensures InboundFailure(m, handlers, handlerThrows) == Some(MissingIdText)
    ensures LookupHandler(handlers, m.id).None?
  {
  }

  /** A response to an issued id `n > 0` reaches the completion stored under
      `n`; only a throwing completion makes it an error. */
  lemma IssuedResponseAccepted(m: Message, handlers: map<nat, Token>, n: nat)
    requires m.jsonrpc == Version && !Truthy(m.methodName) && (Truthy(m.result) || Truthy(m.error))
    requires m.id == Num(n) && n > 0 && n in handlers
    ensures LookupHandler(handlers, m.id) == Some(handlers[n])
    ensures InboundFailure(m, handlers, false) == None
  {
    IssuedIdReachesEntry(n);
  }
}
