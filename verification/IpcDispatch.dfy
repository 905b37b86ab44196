// How a request is read and answered (RtpDdsGateway/src/ipc_adapter.cpp, lines 321-654).
module IpcDispatch {
  import opened Wrappers
  import opened JsonTypes
  import JsonBind
  import QosChain
  import QosStoreLaws

  // The manager calls a request can lead to.
  datatype Call =
    | Clear
    | CreateParticipant(domain: int, lib: string, profile: string)
    | CreatePublisher(domain: int, name: text, lib: string, profile: string)
    | CreateSubscriber(domain: int, name: text, lib: string, profile: string)
    | CreateWriter(domain: int, name: text, topic: text, kind: text, lib: string, profile: string)
    | CreateReader(domain: int, name: text, topic: text, kind: text, lib: string, profile: string)
    | Publish(topic: text, data: Json)
    | ListQos(builtin: bool, detail: bool)
    | UpdateQos(library: text, name: text, xml: text)

  // What came of the call.
  datatype Result = Succeeded | Failed | Raised

  datatype Response = Response(ok: bool, err: int)

  const OK := Response(true, 0)

  function Error(code: int): Response { Response(false, code) }

  // ---------- Reading the request ----------

  // json::value with a default: None when it throws.
  function ReadText(j: Json, key: text, default: text): Option<text> {
    if !j.JObj? then None
    else if key !in j.members then Some(default)
    else if j.members[key].JStr? then Some(j.members[key].js)
    else None
  }

  function ReadInt(j: Json, key: text, default: int): Option<int> {
    if !j.JObj? then None
    else if key !in j.members then Some(default)
    else JsonBind.GetInteger(W32, true, j.members[key])
  }

  function ReadBool(j: Json, key: text, default: bool): Option<bool> {
    if !j.JObj? then None
    else if key !in j.members then Some(default)
    else if j.members[key].JBool? then Some(j.members[key].jb)
    else None
  }

  // json::operator[]: a missing member reads as null.
  function Part(j: Json, key: text): Json {
    if j.JObj? && key in j.members then j.members[key] else JNull
  }

  const DEFAULT_QOS: text := "TriadQosLib::DefaultReliable"

  // What a well-formed or malformed request amounts to.
  datatype Meaning = Broken | Missing | Unsupported | Hello | Do(call: Call)

  function MeaningOfEndpoint(target: Json, writer: bool, domain: int, name: text, lib: string,
                             profile: string): Meaning {
    match (ReadText(target, "topic", ""), ReadText(target, "type", ""))
    case (Some(topic), Some(ty)) =>
      if topic == "" || ty == "" then Missing
      else if writer then Do(CreateWriter(domain, name, topic, ty, lib, profile))
      else Do(CreateReader(domain, name, topic, ty, lib, profile))
    case _ => Broken
  }

  function NameKey(kind: text): text { if kind == "publisher" || kind == "writer" then "publisher" else "subscriber" }

  function NameDefault(kind: text): text { if kind == "publisher" || kind == "writer" then "pub1" else "sub1" }

  function MeaningOfCreate(req: Json, target: Json, kind: text): Meaning {
    var args := Part(req, "args");
    if kind !in {"participant", "publisher", "subscriber", "writer", "reader"} then Unsupported
    else
      match (ReadInt(args, "domain", 0), ReadText(args, "qos", DEFAULT_QOS))
      case (Some(domain), Some(qos)) =>
        var (lib, profile) := QosChain.Split(qos);
        if kind == "participant" then Do(CreateParticipant(domain, lib, profile))
        else
          (match ReadText(args, NameKey(kind), NameDefault(kind))
           case None => Broken
           case Some(name) =>
             if kind == "publisher" then Do(CreatePublisher(domain, name, lib, profile))
             else if kind == "subscriber" then Do(CreateSubscriber(domain, name, lib, profile))
             else MeaningOfEndpoint(target, kind == "writer", domain, name, lib, profile))
      case _ => Broken
  }

  function MeaningOfWrite(req: Json, target: Json, kind: text): Meaning {
    if kind != "writer" then Unsupported
    else
      match ReadText(target, "topic", "")
      case None => Broken
      case Some(topic) =>
        if topic == "" || !Part(req, "data").JObj? then Missing else Do(Publish(topic, Part(req, "data")))
  }

  // Badly typed options are caught here, and answered like any failed listing.
  function MeaningOfGet(req: Json, kind: text): Meaning {
    var args := Part(req, "args");
    if kind != "qos" then Unsupported
    else if !args.JObj? then Do(ListQos(false, false))
    else
      match (ReadBool(args, "include_builtin", false), ReadBool(args, "detail", false))
      case (Some(builtin), Some(detail)) => Do(ListQos(builtin, detail))
      case _ => Unsupported
  }

  function MeaningOfSet(req: Json): Meaning {
    var data := Part(req, "data");
    if !data.JObj? then Missing
    else
      match (ReadText(data, "library", ""), ReadText(data, "profile", ""), ReadText(data, "xml", ""))
      case (Some(library), Some(profile), Some(xml)) =>
        if library == "" || profile == "" || xml == "" then Missing else Do(UpdateQos(library, profile, xml))
      case _ => Broken
  }

  function MeaningOf(req: Json): Meaning {
    match ReadText(req, "op", "")
    case None => Broken
    case Some(op) =>
      var target := if "target" in req.members then req.members["target"] else JObj(map[]);
      match ReadText(target, "kind", "")
      case None => Broken
      case Some(kind) =>
        if op == "clear" && kind == "dds_entities" then Do(Clear)
        else if op == "create" then MeaningOfCreate(req, target, kind)
        else if op == "write" then MeaningOfWrite(req, target, kind)
        else if op == "hello" then Hello
        else if op == "get" then MeaningOfGet(req, kind)
        else if op == "set" && kind == "qos" then MeaningOfSet(req)
        else Unsupported
  }

  // ---------- Answering it ----------

  // Only these calls report a result; the others fail by raising.
  predicate Reports(c: Call) { !c.Clear? && !c.ListQos? }

  function AnswerTo(m: Meaning, r: Result): Response {
    match m
    case Broken => Error(7)
    case Missing => Error(6)
    case Unsupported => Error(4)
    case Hello => if r == Raised then Error(7) else OK
    case Do(c) =>
      if r == Raised then Error(if c.ListQos? then 4 else 7)
      else if Reports(c) && r == Failed then Error(4)
      else OK
  }

  function Answer(body: Option<Json>, r: Result): Response {
    if body.None? then Error(7) else AnswerTo(MeaningOf(body.value), r)
  }

  // A request makes at most one manager call.
  function CallsOf(m: Meaning): seq<Call> { if m.Do? then [m.call] else [] }

  predicate Creates(c: Call) { !c.Clear? && !c.Publish? && !c.ListQos? && !c.UpdateQos? }

  // The QoS library of every creation is one that a full profile name splits back into.
  lemma CreationLibrary(req: Json)
    requires MeaningOf(req).Do? && Creates(MeaningOf(req).call)
    ensures QosStoreLaws.PlainLib(MeaningOf(req).call.lib)
  {
    hide QosChain.Split, JsonBind.GetInteger, QosStoreLaws.PlainLib, ReadInt;
    var qos := ReadText(Part(req, "args"), "qos", DEFAULT_QOS);
    if qos.Some? { QosStoreLaws.SplitPlain(qos.value); }
  }
}
