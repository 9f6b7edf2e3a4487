/** The command channel of bio/receiver.py: one request per connection, the
    authentication gate on auth_key, dispatch on the command's type tag, and the
    fixed response shapes. Commands arrive already decoded; the socket and the
    JSON decoder are outside the model. */
module CommandReceiver {
  import opened Wrappers
  import opened Formats
  import opened AttendanceLog

  /** A JSON object as json.dumps writes the response dicts: keys in insertion
      order, each with a string value. */
  type JsonObject = seq<(string, string)>

  const InvalidAuthKey: JsonObject := [("status", "error"), ("message", "Invalid auth_key")]
  const SyncTriggered: JsonObject := [("status", "success"), ("message", "Sync triggered")]
  const UnknownCommandType: JsonObject := [("status", "error"), ("message", "Unknown command type")]
  const InvalidJson: JsonObject := [("error", "Invalid JSON")]

  /** {"status": "error", "message": str(e)} for an exception e. */
  function ErrorResponse(message: string): JsonObject {
    [("status", "error"), ("message", message)]
  }

  /** {"status": "success" if success else "error"} */
  function StatusOnly(success: bool): JsonObject {
    [("status", if success then "success" else "error")]
  }

  /** str() of the AttributeError raised when `attr` is looked up on an object of
      type `typeName` that lacks it. */
  function NoAttribute(typeName: string, attr: string): string {
    "'" + typeName + "' object has no attribute '" + attr + "'"
  }

  /** The "payload" member: absent (read as {}), a JSON object with the fields the
      registry calls read, or some other JSON value (null, a list, ...). */
  datatype Payload = NoPayload | Mapping(employeeId: Option<string>, newData: Option<string>) | NotMapping(typeName: string)

  /** A decoded request: a JSON object, whose auth_key and type are None when absent
      or not strings, or some other JSON value. */
  datatype Command = Object(authKey: Option<string>, cmdType: Option<string>, payload: Payload) | NotObject(typeName: string)

  /** What recv(4096) delivered, as far as handle_client can tell. */
  datatype Received = NoData | NotUtf8 | NotJson | Json(command: Command)

  datatype RegistryRequest = UpdateEmployee(employeeId: Option<string>, newData: Option<string>) | DeleteEmployee(employeeId: Option<string>)

  /** The truthiness of what a registry call returned, or the message of what it raised. */
  datatype RegistryReply = Returned(truthy: bool) | Threw(message: string)

  /** The employee registry behind `self.system`: absent (AttendanceSystem defines
      neither update_employee nor delete_employee), or an oracle for its calls. */
  datatype Registry = NoRegistry | Registry(call: RegistryRequest -> RegistryReply)

  /** What processing one command does: the response, the registry calls made and
      the number of batch exports started. */
  datatype Effects = Effects(response: JsonObject, registryCalls: seq<RegistryRequest>, drains: nat)

  function EmployeeIdOf(p: Payload): Option<string> {
    match p
    case Mapping(id, _) => id
    case _ => None
  }

  function NewDataOf(p: Payload): Option<string> {
    match p
    case Mapping(_, data) => data
    case _ => None
  }

  /** An update_employee or delete_employee branch: look the operation up on the
      system, read the payload's fields, call, and report the call's truthiness.
      The lookup comes first, so a missing method is reported whatever the payload. */
  function Delegate(registry: Registry, operation: string, payload: Payload, request: RegistryRequest): (e: Effects)
    ensures e.drains == 0
    ensures e.registryCalls == (if registry.Registry? && !payload.NotMapping? then [request] else [])
    ensures registry.NoRegistry? ==> e.response == ErrorResponse(NoAttribute("AttendanceSystem", operation))
    ensures registry.Registry? && payload.NotMapping? ==> e.response == ErrorResponse(NoAttribute(payload.typeName, "get"))
    ensures registry.Registry? && !payload.NotMapping? ==>
      (e.response == [("status", "success")] <==> registry.call(request) == Returned(true)) &&
      (e.response == [("status", "error")] <==> registry.call(request) == Returned(false))
    ensures registry.Registry? && !payload.NotMapping? && registry.call(request).Threw? ==>
      e.response == ErrorResponse(registry.call(request).message)
  {
    match registry
    case NoRegistry => Effects(ErrorResponse(NoAttribute("AttendanceSystem", operation)), [], 0)
    case Registry(call) =>
      match payload
      case NotMapping(t) => Effects(ErrorResponse(NoAttribute(t, "get")), [], 0)
      case _ =>
        var response := match call(request)
          case Returned(b) => StatusOnly(b)
          case Threw(m) => ErrorResponse(m);
        Effects(response, [request], 0)
  }

  /** process_command against the configured key. */
  function Process(authKey: string, cmd: Command, registry: Registry): Effects
  {
    match cmd
    case NotObject(t) => Effects(ErrorResponse(NoAttribute(t, "get")), [], 0)
    case Object(key, cmdType, payload) =>
      if key != Some(authKey) then Effects(InvalidAuthKey, [], 0)
      else if cmdType == Some("update_employee") then
        Delegate(registry, "update_employee", payload, UpdateEmployee(EmployeeIdOf(payload), NewDataOf(payload)))
      else if cmdType == Some("delete_employee") then
        Delegate(registry, "delete_employee", payload, DeleteEmployee(EmployeeIdOf(payload)))
      else if cmdType == Some("sync_now") then Effects(SyncTriggered, [], 1)
      else Effects(UnknownCommandType, [], 0)
  }

  /** A decoded command that is not a JSON object fails on `command.get`, and the
      AttributeError comes back as an error response with no effect. */
  lemma NotObjectRejected(authKey: string, typeName: string, registry: Registry)
    ensures Process(authKey, NotObject(typeName), registry) == Effects(ErrorResponse(NoAttribute(typeName, "get")), [], 0)
  {
  }

  /** A command without the configured key gets "Invalid auth_key" and reaches no
      registry call and no export; an absent key never matches, even the default
      empty key. */
  lemma AuthGate(authKey: string, cmd: Command, registry: Registry)
    requires cmd.Object? && cmd.authKey != Some(authKey)
    ensures Process(authKey, cmd, registry) == Effects(InvalidAuthKey, [], 0)
  {
  }

  /** Every effect, and every response other than the fixed errors, needs the key. */
  lemma EffectsNeedKey(authKey: string, cmd: Command, registry: Registry)
    ensures var e := Process(authKey, cmd, registry);
      (e.registryCalls != [] || e.drains != 0) ==> cmd.Object? && cmd.authKey == Some(authKey)
    ensures var e := Process(authKey, cmd, registry);
      |e.registryCalls| + e.drains <= 1
  {
  }

  /** With a registry present, update_employee and delete_employee make exactly one
      registry call and answer "success" exactly when it returned something truthy. */
  lemma RegistryVerdict(authKey: string, cmdType: string, payload: Payload, call: RegistryRequest -> RegistryReply)
    requires cmdType == "update_employee" || cmdType == "delete_employee"
    requires !payload.NotMapping?
    ensures var e := Process(authKey, Object(Some(authKey), Some(cmdType), payload), Registry(call));
      var request := if cmdType == "update_employee"
        then UpdateEmployee(EmployeeIdOf(payload), NewDataOf(payload))
        else DeleteEmployee(EmployeeIdOf(payload));
      e.registryCalls == [request] && e.drains == 0 &&
      (e.response == [("status", "success")] <==> call(request) == Returned(true)) &&
      (e.response == [("status", "error")] <==> call(request) == Returned(false))
  {
  }

  /** For the system as written, which has no registry methods, update_employee and
      delete_employee always answer with the AttributeError. */
  lemma MissingRegistryAnswersError(authKey: string, cmdType: string, payload: Payload)
    requires cmdType == "update_employee" || cmdType == "delete_employee"
    ensures Process(authKey, Object(Some(authKey), Some(cmdType), payload), NoRegistry)
         == Effects(ErrorResponse(NoAttribute("AttendanceSystem", cmdType)), [], 0)
  {
  }

  /** sync_now starts exactly one export and answers success whatever it found. */
  lemma SyncNowAlwaysSucceeds(authKey: string, payload: Payload, registry: Registry)
    ensures Process(authKey, Object(Some(authKey), Some("sync_now"), payload), registry) == Effects(SyncTriggered, [], 1)
  {
  }

  /** A missing or unrecognised type answers "Unknown command type" and does nothing. */
  lemma UnknownTypeRejected(authKey: string, cmdType: Option<string>, payload: Payload, registry: Registry)
    requires cmdType !in {Some("update_employee"), Some("delete_employee"), Some("sync_now")}
    ensures Process(authKey, Object(Some(authKey), cmdType, payload), registry) == Effects(UnknownCommandType, [], 0)
  {
  }

  /** A missing payload is read as the empty mapping {}. */
  lemma MissingPayloadIsEmptyMapping(authKey: string, key: Option<string>, cmdType: Option<string>, registry: Registry)
    ensures Process(authKey, Object(key, cmdType, NoPayload), registry)
         == Process(authKey, Object(key, cmdType, Mapping(None, None)), registry)
  {
  }

  /** handle_client's decision: nothing for empty data or for bytes that are not
      UTF-8 (that UnicodeDecodeError is not the JSONDecodeError it catches), the
      fixed {"error": ...} object for bad JSON, and process_command otherwise. */
  function Reply(authKey: string, received: Received, registry: Registry): Option<Effects>
  {
    match received
    case NoData => None
    case NotUtf8 => None
    case NotJson => Some(Effects(InvalidJson, [], 0))
    case Json(cmd) => Some(Process(authKey, cmd, registry))
  }

  /** Every reply to a decoded command is a status object ("success" or "error");
      the reply to undecodable JSON is the only one keyed "error". */
  lemma ReplyShapes(authKey: string, received: Received, registry: Registry)
    ensures var reply := Reply(authKey, received, registry);
      (reply.None? <==> received.NoData? || received.NotUtf8?) &&
      (received.NotJson? ==> reply == Some(Effects([("error", "Invalid JSON")], [], 0))) &&
      (received.Json? ==> |reply.value.response| >= 1 && reply.value.response[0].0 == "status" &&
                          (reply.value.response[0].1 == "success" || reply.value.response[0].1 == "error"))
  {
  }

  /** The total number of exports a reply started. */
  function DrainsOf(reply: Option<Effects>): nat {
    if reply.Some? then reply.value.drains else 0
  }

  class CommandReceiver {
    const authKey: string
    const system: AttendanceSystem
    var running: bool

    /** __init__: the key is config.get("auth_key", ""). */
    constructor (configAuthKey: Option<string>, system: AttendanceSystem)
      ensures authKey == (if configAuthKey.Some? then configAuthKey.value else "")
      ensures this.system == system && running
    {
      authKey := if configAuthKey.Some? then configAuthKey.value else "";
      this.system := system;
      running := true;
    }

    /** stop: clear the flag the accept loop polls. */
    method Stop()
      modifies this`running
      ensures !running
    {
      running := false;
    }

    /** process_command: the key check, then the dispatch on the type tag. */
    method ProcessCommand(cmd: Command, registry: Registry, now: DateTime, fault: ExportFault) returns (response: JsonObject)
      requires system.Valid()
      modifies system`logs, system`csvFolder
      ensures system.Valid()
      ensures response == Process(authKey, cmd, registry).response
      ensures var r := Export(old(system.logs), old(system.csvFolder), now, fault);
        if Process(authKey, cmd, registry).drains == 1
        then system.logs == r.logs && system.csvFolder == r.folder
        else system.logs == old(system.logs) && system.csvFolder == old(system.csvFolder)
    {
      match cmd {
        case NotObject(t) =>
          response := ErrorResponse(NoAttribute(t, "get"));
        case Object(key, cmdType, payload) =>
          if key != Some(authKey) {
            return InvalidAuthKey;
          }
          if cmdType == Some("update_employee") {
            var e := Delegate(registry, "update_employee", payload, UpdateEmployee(EmployeeIdOf(payload), NewDataOf(payload)));
            response := e.response;
          } else if cmdType == Some("delete_employee") {
            var e := Delegate(registry, "delete_employee", payload, DeleteEmployee(EmployeeIdOf(payload)));
            response := e.response;
          } else if cmdType == Some("sync_now") {
            var exported := system.PrepareCsvBatch(now, fault);
            response := SyncTriggered;
          } else {
            response := UnknownCommandType;
          }
      }
    }

    /** handle_client after recv: the reply sent, if any. */
    method HandleClient(received: Received, registry: Registry, now: DateTime, fault: ExportFault)
      returns (reply: Option<JsonObject>)
      requires system.Valid()
      modifies system`logs, system`csvFolder
      ensures system.Valid()
      ensures var expected := Reply(authKey, received, registry);
        reply.Some? == expected.Some? && (reply.Some? ==> reply.value == expected.value.response)
      ensures var r := Export(old(system.logs), old(system.csvFolder), now, fault);
        if DrainsOf(Reply(authKey, received, registry)) == 1
        then system.logs == r.logs && system.csvFolder == r.folder
        else system.logs == old(system.logs) && system.csvFolder == old(system.csvFolder)
    {
      match received {
        case NoData =>
          reply := None;
        case NotUtf8 =>
          reply := None;
        case NotJson =>
          reply := Some(InvalidJson);
        case Json(cmd) =>
          var response := ProcessCommand(cmd, registry, now, fault);
          reply := Some(response);
      }
    }
  }
}
