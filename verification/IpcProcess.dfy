// The consumer's side of a request, as it runs (RtpDdsGateway/src/ipc_adapter.cpp, lines 321-654).
module IpcProcess {
  import opened Wrappers
  import opened JsonTypes
  import QosChain
  import opened IpcDispatch
  import opened IpcLaws

  // ---------- process_request ----------

  // A handler throws, or leaves rsp (possibly empty) and ok behind.
  datatype Handled = Threw | Left(rsp: Option<Response>, ok: bool)

  function Closing(h: Handled): Response {
    match h
    case Threw => Error(7)
    case Left(Some(r), _) => r
    case Left(None, ok) => if ok then OK else Error(4)
  }

  // The data of a publication is printed before the call, and what cannot be printed raises.
  predicate Unprinted(m: Meaning, printable: bool) { m.Do? && m.call.Publish? && !printable }

  function CallsMade(m: Meaning, printable: bool): seq<Call> { if Unprinted(m, printable) then [] else CallsOf(m) }

  function Came(m: Meaning, printable: bool, outcome: Result): Result {
    if Unprinted(m, printable) then Raised else outcome
  }

  // The manager call, for the operations that report a result.
  method Delegate(c: Call, outcome: Result) returns (h: Handled, calls: seq<Call>)
    requires Reports(c)
    ensures Closing(h) == AnswerTo(Do(c), outcome) && calls == [c]
  {
    calls := [c];
    match outcome
    case Raised => h := Threw;
    case Succeeded => h := Left(Some(OK), true);
    case Failed => h := Left(Some(Error(4)), false);
  }

  // What a meaning's call and answer come to, given what it takes to mean a call.
  lemma OneCall(m: Meaning, outcome: Result)
    requires m != Hello
    ensures forall c :: c in CallsOf(m) <==> m == Do(c)
    ensures AnswerTo(m, outcome).ok <==> exists c :: c in CallsOf(m) && CameOut(c, outcome)
  {
    if m.Do? { assert m.call in CallsOf(m); }
  }

  lemma CallsCreated(req: Json, kind: text, outcome: Result)
    ensures var m := MeaningOfCreate(req, Target(req), kind);
            && (forall c :: c in CallsOf(m) <==> OpOf(c) == "create" && KindOf(c) == kind && Arguments(req, c))
            && (AnswerTo(m, outcome).ok <==> exists c :: c in CallsOf(m) && CameOut(c, outcome))
  {
    hide MeaningOfCreate, OpOf, KindOf, Arguments, Target, CallsOf, AnswerTo;
    NotHello(req, kind);
    OneCall(MeaningOfCreate(req, Target(req), kind), outcome);
    forall c { CreateAsked(req, kind, c); }
  }

  lemma CallsWritten(req: Json, kind: text, outcome: Result)
    ensures var m := MeaningOfWrite(req, Target(req), kind);
            && (forall c :: c in CallsOf(m) <==> OpOf(c) == "write" && KindOf(c) == kind && Arguments(req, c))
            && (AnswerTo(m, outcome).ok <==> exists c :: c in CallsOf(m) && CameOut(c, outcome))
  {
    hide MeaningOfWrite, OpOf, KindOf, Arguments, Target, CallsOf, AnswerTo;
    NotHello(req, kind);
    OneCall(MeaningOfWrite(req, Target(req), kind), outcome);
    forall c { WriteAsked(req, kind, c); }
  }

  lemma CallsGot(req: Json, kind: text, outcome: Result)
    ensures var m := MeaningOfGet(req, kind);
            && (forall c :: c in CallsOf(m) <==> OpOf(c) == "get" && KindOf(c) == kind && Arguments(req, c))
            && (AnswerTo(m, outcome).ok <==> exists c :: c in CallsOf(m) && CameOut(c, outcome))
  {
    hide MeaningOfGet, OpOf, KindOf, Arguments, CallsOf, AnswerTo;
    NotHello(req, kind);
    OneCall(MeaningOfGet(req, kind), outcome);
    forall c { GetAsked(req, kind, c); }
  }

  lemma CallsSet(req: Json, outcome: Result)
    ensures var m := MeaningOfSet(req);
            && (forall c :: c in CallsOf(m) <==> OpOf(c) == "set" && Arguments(req, c))
            && (AnswerTo(m, outcome).ok <==> exists c :: c in CallsOf(m) && CameOut(c, outcome))
  {
    hide MeaningOfSet, OpOf, Arguments, CallsOf, AnswerTo;
    NotHello(req, "qos");
    OneCall(MeaningOfSet(req), outcome);
    forall c { SetAsked(req, c); }
  }

  method HandleEndpoint(target: Json, writer: bool, domain: int, name: text, lib: string, profile: string,
                        outcome: Result)
    returns (h: Handled, calls: seq<Call>)
    ensures var m := MeaningOfEndpoint(target, writer, domain, name, lib, profile);
            Closing(h) == AnswerTo(m, outcome) && calls == CallsOf(m)
  {
    var topic, ty := ReadText(target, "topic", ""), ReadText(target, "type", "");
    if topic.None? || ty.None? { return Threw, []; }
    if topic.value == "" || ty.value == "" { return Left(Some(Error(6)), false), []; }
    if writer {
      h, calls := Delegate(CreateWriter(domain, name, topic.value, ty.value, lib, profile), outcome);
    } else {
      h, calls := Delegate(CreateReader(domain, name, topic.value, ty.value, lib, profile), outcome);
    }
  }

  // A call is made exactly when the request's fields ask for it, and the reply is ok exactly when it
  // came out well; the same for the handlers below.
  method HandleCreate(req: Json, target: Json, kind: text, outcome: Result) returns (h: Handled, calls: seq<Call>)
    requires target == Target(req)
    ensures var m := MeaningOfCreate(req, target, kind); Closing(h) == AnswerTo(m, outcome) && calls == CallsOf(m)
    ensures forall c :: c in calls <==> OpOf(c) == "create" && KindOf(c) == kind && Arguments(req, c)
    ensures Closing(h).ok <==> exists c :: c in calls && CameOut(c, outcome)
  {
    hide QosChain.Split, ReadText, ReadInt, MeaningOfEndpoint, Part, NameKey, NameDefault, OpOf, KindOf, Arguments,
         Target;
    CallsCreated(req, kind, outcome);
    if kind != "participant" && kind != "publisher" && kind != "subscriber" && kind != "writer" && kind != "reader" {
      return Left(None, false), [];
    }
    var args := Part(req, "args");
    var domain := ReadInt(args, "domain", 0);
    if domain.None? { return Threw, []; }
    var qos := ReadText(args, "qos", DEFAULT_QOS);
    if qos.None? { return Threw, []; }
    var (lib, profile) := QosChain.Split(qos.value);
    if kind == "participant" {
      h, calls := Delegate(CreateParticipant(domain.value, lib, profile), outcome);
      return;
    }
    var name := ReadText(args, NameKey(kind), NameDefault(kind));
    if name.None? { return Threw, []; }
    if kind == "publisher" {
      h, calls := Delegate(CreatePublisher(domain.value, name.value, lib, profile), outcome);
    } else if kind == "subscriber" {
      h, calls := Delegate(CreateSubscriber(domain.value, name.value, lib, profile), outcome);
    } else {
      h, calls := HandleEndpoint(target, kind == "writer", domain.value, name.value, lib, profile, outcome);
    }
  }

  // printable: whether the data can be printed, which its strings decide.
  method HandleWrite(req: Json, target: Json, kind: text, printable: bool, outcome: Result)
    returns (h: Handled, calls: seq<Call>)
    requires target == Target(req)
    ensures var m := MeaningOfWrite(req, target, kind);
            Closing(h) == AnswerTo(m, Came(m, printable, outcome)) && calls == CallsMade(m, printable)
    ensures forall c :: c in calls <==> printable && OpOf(c) == "write" && KindOf(c) == kind && Arguments(req, c)
    ensures Closing(h).ok <==> exists c :: c in calls && CameOut(c, outcome)
  {
    hide OpOf, KindOf, Arguments, Target, ReadText, Part;
    CallsWritten(req, kind, outcome);
    if kind != "writer" { return Left(None, false), []; }
    var topic := ReadText(target, "topic", "");
    if topic.None? { return Threw, []; }
    if topic.value == "" || !Part(req, "data").JObj? { return Left(Some(Error(6)), false), []; }
    if !printable { return Threw, []; }
    h, calls := Delegate(Publish(topic.value, Part(req, "data")), outcome);
  }

  method HandleGet(req: Json, kind: text, outcome: Result) returns (h: Handled, calls: seq<Call>)
    ensures var m := MeaningOfGet(req, kind); Closing(h) == AnswerTo(m, outcome) && calls == CallsOf(m)
    ensures forall c :: c in calls <==> OpOf(c) == "get" && KindOf(c) == kind && Arguments(req, c)
    ensures Closing(h).ok <==> exists c :: c in calls && CameOut(c, outcome)
  {
    hide OpOf, KindOf, Arguments, ReadBool, Part;
    CallsGot(req, kind, outcome);
    if kind != "qos" { return Left(None, false), []; }
    var builtin, detail := Some(false), Some(false);
    var args := Part(req, "args");
    if args.JObj? { builtin, detail := ReadBool(args, "include_builtin", false), ReadBool(args, "detail", false); }
    if builtin.None? || detail.None? { return Left(Some(Error(4)), false), []; }
    calls := [ListQos(builtin.value, detail.value)];
    if outcome == Raised { return Left(Some(Error(4)), false), calls; }
    return Left(Some(OK), true), calls;
  }

  method HandleSet(req: Json, outcome: Result) returns (h: Handled, calls: seq<Call>)
    ensures Closing(h) == AnswerTo(MeaningOfSet(req), outcome) && calls == CallsOf(MeaningOfSet(req))
    ensures forall c :: c in calls <==> OpOf(c) == "set" && Arguments(req, c)
    ensures Closing(h).ok <==> exists c :: c in calls && CameOut(c, outcome)
  {
    hide OpOf, Arguments, ReadText, Part;
    CallsSet(req, outcome);
    var data := Part(req, "data");
    if !data.JObj? { return Left(Some(Error(6)), false), []; }
    var library, profile, xml := ReadText(data, "library", ""), ReadText(data, "profile", ""),
                                 ReadText(data, "xml", "");
    if library.None? || profile.None? || xml.None? { return Threw, []; }
    if library.value == "" || profile.value == "" || xml.value == "" { return Left(Some(Error(6)), false), []; }
    h, calls := Delegate(UpdateQos(library.value, profile.value, xml.value), outcome);
  }

  // Whether data can be printed matters to publications alone.
  lemma Unaffected(req: Json, op: text, kind: text, printable: bool, outcome: Result)
    requires Header(req, op, kind) && op != "write"
    ensures var m := MeaningOf(req); Came(m, printable, outcome) == outcome && CallsMade(m, printable) == CallsOf(m)
  {
    hide MeaningOf, Header, Arguments;
    var m := MeaningOf(req);
    if m.Do? && m.call.Publish? {
      AsksExactly(req, m.call);
      OneHeader(req, op, kind, "write", "writer");
    }
  }

  lemma BrokenUnaffected(printable: bool, outcome: Result)
    ensures Came(Broken, printable, outcome) == outcome && CallsMade(Broken, printable) == []
  {
  }

  lemma MadeAsked(body: Option<Json>, printable: bool)
    ensures forall c :: c in (if body.None? then [] else CallsMade(MeaningOf(body.value), printable)) <==>
            body.Some? && Asks(body.value, c) && (c.Publish? ==> printable)
  {
    hide MeaningOf, Asks;
    CallsAsked(body);
  }

  // The consumer's side of a request: what goes back, and what was asked of the manager.
  method ProcessRequest(body: Option<Json>, printable: bool, outcome: Result) returns (rsp: Response, calls: seq<Call>)
    ensures var r := if body.None? then outcome else Came(MeaningOf(body.value), printable, outcome);
            rsp == Answer(body, r) && (rsp.ok <==> Achieved(body, r))
    ensures calls == if body.None? then [] else CallsMade(MeaningOf(body.value), printable)
    ensures forall c :: c in calls <==> body.Some? && Asks(body.value, c) && (c.Publish? ==> printable)
  {
    hide MeaningOfCreate, MeaningOfWrite, MeaningOfGet, MeaningOfSet, Achieved, Asks, Came, CallsMade, Unprinted;
    OkMeansAchieved(body, if body.None? then outcome else Came(MeaningOf(body.value), printable, outcome));
    MadeAsked(body, printable);
    BrokenUnaffected(printable, outcome);
    calls := [];
    if body.None? { return Error(7), []; }
    var req := body.value;
    var h := Left(None, false);
    var op := ReadText(req, "op", "");
    if op.None? { return Error(7), []; }
    var target := if "target" in req.members then req.members["target"] else JObj(map[]);
    var kind := ReadText(target, "kind", "");
    if kind.None? { return Error(7), []; }
    if op.value != "write" { Unaffected(req, op.value, kind.value, printable, outcome); }
    if op.value == "clear" && kind.value == "dds_entities" {
      calls := [Clear];
      h := if outcome == Raised then Threw else Left(Some(OK), true);
    } else if op.value == "create" {
      h, calls := HandleCreate(req, target, kind.value, outcome);
    } else if op.value == "write" {
      h, calls := HandleWrite(req, target, kind.value, printable, outcome);
    } else if op.value == "hello" {
      h := if outcome == Raised then Threw else Left(Some(OK), true);
    } else if op.value == "get" {
      h, calls := HandleGet(req, kind.value, outcome);
    } else if op.value == "set" && kind.value == "qos" {
      h, calls := HandleSet(req, outcome);
    }
    return Closing(h), calls;
  }
}
