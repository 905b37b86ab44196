// What a request asks for, told from its fields, and that it is read that way
// (RtpDdsGateway/src/ipc_adapter.cpp, lines 355-618).
module IpcLaws {
  import opened Wrappers
  import opened JsonTypes
  import JsonBind
  import QosChain
  import opened IpcDispatch

  // ---------- What a request asks for ----------

  predicate TextAt(j: Json, key: text, default: text, v: text) {
    j.JObj? && if key in j.members then j.members[key] == JStr(v) else v == default
  }

  predicate IntAt(j: Json, key: text, default: int, n: int) {
    j.JObj? && if key in j.members then JsonBind.GetInteger(W32, true, j.members[key]) == Some(n) else n == default
  }

  predicate BoolAt(j: Json, key: text, b: bool) {
    j.JObj? && if key in j.members then j.members[key] == JBool(b) else !b
  }

  function Target(req: Json): Json {
    if req.JObj? && "target" in req.members then req.members["target"] else JObj(map[])
  }

  predicate Header(req: Json, op: text, kind: text) {
    TextAt(req, "op", "", op) && TextAt(Target(req), "kind", "", kind)
  }

  ghost predicate QosAt(req: Json, lib: string, profile: string) {
    exists qos: text ::
      TextAt(Part(req, "args"), "qos", "TriadQosLib::DefaultReliable", qos) && QosChain.Split(qos) == (lib, profile)
  }

  function OpOf(c: Call): text {
    match c
    case Clear => "clear"
    case Publish(_, _) => "write"
    case ListQos(_, _) => "get"
    case UpdateQos(_, _, _) => "set"
    case _ => "create"
  }

  function KindOf(c: Call): text {
    match c
    case Clear => "dds_entities"
    case CreateParticipant(_, _, _) => "participant"
    case CreatePublisher(_, _, _, _) => "publisher"
    case CreateSubscriber(_, _, _, _) => "subscriber"
    case CreateWriter(_, _, _, _, _, _) => "writer"
    case CreateReader(_, _, _, _, _, _) => "reader"
    case Publish(_, _) => "writer"
    case ListQos(_, _) => "qos"
    case UpdateQos(_, _, _) => "qos"
  }

  // The call's arguments are the request's fields, or their defaults.
  ghost predicate Arguments(req: Json, c: Call) {
    var args, target, data := Part(req, "args"), Target(req), Part(req, "data");
    match c
    case Clear => true
    case CreateParticipant(d, lib, profile) => IntAt(args, "domain", 0, d) && QosAt(req, lib, profile)
    case CreatePublisher(d, n, lib, profile) =>
      IntAt(args, "domain", 0, d) && TextAt(args, "publisher", "pub1", n) && QosAt(req, lib, profile)
    case CreateSubscriber(d, n, lib, profile) =>
      IntAt(args, "domain", 0, d) && TextAt(args, "subscriber", "sub1", n) && QosAt(req, lib, profile)
    case CreateWriter(d, n, topic, ty, lib, profile) =>
      && IntAt(args, "domain", 0, d) && TextAt(args, "publisher", "pub1", n) && QosAt(req, lib, profile)
      && TextAt(target, "topic", "", topic) && TextAt(target, "type", "", ty) && topic != "" && ty != ""
    case CreateReader(d, n, topic, ty, lib, profile) =>
      && IntAt(args, "domain", 0, d) && TextAt(args, "subscriber", "sub1", n) && QosAt(req, lib, profile)
      && TextAt(target, "topic", "", topic) && TextAt(target, "type", "", ty) && topic != "" && ty != ""
    case Publish(topic, d) => TextAt(target, "topic", "", topic) && topic != "" && d == data && data.JObj?
    case ListQos(builtin, detail) =>
      if args.JObj? then BoolAt(args, "include_builtin", builtin) && BoolAt(args, "detail", detail)
      else !builtin && !detail
    case UpdateQos(library, profile, xml) =>
      && TextAt(data, "library", "", library) && TextAt(data, "profile", "", profile) && TextAt(data, "xml", "", xml)
      && library != "" && profile != "" && xml != ""
  }

  ghost predicate Asks(req: Json, c: Call) {
    Header(req, OpOf(c), KindOf(c)) && Arguments(req, c)
  }

  // ---------- It is read that way ----------

  lemma TextRead(j: Json, key: text, default: text, v: text)
    ensures ReadText(j, key, default) == Some(v) <==> TextAt(j, key, default, v)
  {
  }

  lemma HeaderRead(req: Json, op: text, kind: text)
    requires Header(req, op, kind)
    ensures MeaningOf(req) ==
            if op == "clear" && kind == "dds_entities" then Do(Clear)
            else if op == "create" then MeaningOfCreate(req, Target(req), kind)
            else if op == "write" then MeaningOfWrite(req, Target(req), kind)
            else if op == "hello" then Hello
            else if op == "get" then MeaningOfGet(req, kind)
            else if op == "set" && kind == "qos" then MeaningOfSet(req)
            else Unsupported
  {
    hide MeaningOfCreate, MeaningOfWrite, MeaningOfGet, MeaningOfSet;
  }

  lemma NoHeader(req: Json)
    ensures (exists op, kind :: Header(req, op, kind)) <==>
            ReadText(req, "op", "").Some? && ReadText(Target(req), "kind", "").Some?
    ensures (forall op, kind :: !Header(req, op, kind)) ==> MeaningOf(req) == Broken
  {
    hide MeaningOfCreate, MeaningOfWrite, MeaningOfGet, MeaningOfSet;
    var op, kind := ReadText(req, "op", ""), ReadText(Target(req), "kind", "");
    if op.Some? && kind.Some? { assert Header(req, op.value, kind.value); }
  }

  lemma OneHeader(req: Json, op: text, kind: text, op': text, kind': text)
    requires Header(req, op, kind) && Header(req, op', kind')
    ensures op == op' && kind == kind'
  {
  }

  lemma IntRead(j: Json, key: text, default: int, n: int)
    ensures ReadInt(j, key, default) == Some(n) <==> IntAt(j, key, default, n)
  {
    hide JsonBind.GetInteger;
  }

  lemma BoolRead(j: Json, key: text, b: bool)
    ensures ReadBool(j, key, false) == Some(b) <==> BoolAt(j, key, b)
  {
  }

  lemma QosRead(req: Json, lib: string, profile: string)
    ensures QosAt(req, lib, profile) <==>
            var qos := ReadText(Part(req, "args"), "qos", DEFAULT_QOS);
            qos.Some? && QosChain.Split(qos.value) == (lib, profile)
  {
    hide QosChain.Split, ReadText, TextAt;
    var args := Part(req, "args");
    forall qos: text
      ensures ReadText(args, "qos", DEFAULT_QOS) == Some(qos) <==> TextAt(args, "qos", DEFAULT_QOS, qos)
    {
      TextRead(args, "qos", DEFAULT_QOS, qos);
    }
  }

  lemma EndpointAsked(req: Json, writer: bool, d: int, n: text, lib: string, profile: string, c: Call)
    ensures MeaningOfEndpoint(Target(req), writer, d, n, lib, profile) == Do(c) <==>
            && (if writer then c.CreateWriter? else c.CreateReader?)
            && c.domain == d && c.name == n && c.lib == lib && c.profile == profile
            && TextAt(Target(req), "topic", "", c.topic) && TextAt(Target(req), "type", "", c.kind)
            && c.topic != "" && c.kind != ""
  {
  }

  // The fields every creation has.
  lemma CommonAsked(req: Json, c: Call)
    requires OpOf(c) == "create"
    ensures IntAt(Part(req, "args"), "domain", 0, c.domain) && QosAt(req, c.lib, c.profile) <==>
            var domain, qos := ReadInt(Part(req, "args"), "domain", 0), ReadText(Part(req, "args"), "qos", DEFAULT_QOS);
            domain == Some(c.domain) && qos.Some? && QosChain.Split(qos.value) == (c.lib, c.profile)
  {
    hide ReadText, ReadInt, IntAt, QosAt, Part, QosChain.Split, DEFAULT_QOS;
    IntRead(Part(req, "args"), "domain", 0, c.domain);
    QosRead(req, c.lib, c.profile);
  }

  lemma NameAsked(req: Json, c: Call)
    requires OpOf(c) == "create" && !c.CreateParticipant?
    ensures ReadText(Part(req, "args"), NameKey(KindOf(c)), NameDefault(KindOf(c))) == Some(c.name) <==>
            if c.CreatePublisher? || c.CreateWriter? then TextAt(Part(req, "args"), "publisher", "pub1", c.name)
            else TextAt(Part(req, "args"), "subscriber", "sub1", c.name)
  {
    hide ReadText, TextAt, Part;
    TextRead(Part(req, "args"), NameKey(KindOf(c)), NameDefault(KindOf(c)), c.name);
  }

  predicate EndpointAt(req: Json, c: Call)
    requires c.CreateWriter? || c.CreateReader?
  {
    && TextAt(Target(req), "topic", "", c.topic) && TextAt(Target(req), "type", "", c.kind)
    && c.topic != "" && c.kind != ""
  }

  lemma KindOfCreation(c: Call, kind: text)
    ensures OpOf(c) == "create" && KindOf(c) == kind <==>
            || (c.CreateParticipant? && kind == "participant")
            || (c.CreatePublisher? && kind == "publisher")
            || (c.CreateSubscriber? && kind == "subscriber")
            || (c.CreateWriter? && kind == "writer")
            || (c.CreateReader? && kind == "reader")
  {
  }

  // A creation, by what is read of the request.
  predicate Reads(req: Json, kind: text, c: Call) {
    var args := Part(req, "args");
    var domain, qos := ReadInt(args, "domain", 0), ReadText(args, "qos", DEFAULT_QOS);
    && OpOf(c) == "create" && KindOf(c) == kind
    && domain == Some(c.domain) && qos.Some? && QosChain.Split(qos.value) == (c.lib, c.profile)
    && (!c.CreateParticipant? ==> ReadText(args, NameKey(kind), NameDefault(kind)) == Some(c.name))
    && (c.CreateWriter? || c.CreateReader? ==> EndpointAt(req, c))
  }

  lemma EndpointCreation(req: Json, kind: text)
    requires kind == "writer" || kind == "reader"
    ensures var args := Part(req, "args");
            var domain, qos := ReadInt(args, "domain", 0), ReadText(args, "qos", DEFAULT_QOS);
            var name := ReadText(args, NameKey(kind), NameDefault(kind));
            MeaningOfCreate(req, Target(req), kind) ==
            if domain.Some? && qos.Some? && name.Some? then
              MeaningOfEndpoint(Target(req), kind == "writer", domain.value, name.value,
                                QosChain.Split(qos.value).0, QosChain.Split(qos.value).1)
            else Broken
  {
    hide ReadText, ReadInt, QosChain.Split, Target, Part, MeaningOfEndpoint, DEFAULT_QOS, NameKey, NameDefault;
  }

  lemma EndpointRead(req: Json, kind: text, c: Call)
    requires kind == "writer" || kind == "reader"
    ensures MeaningOfCreate(req, Target(req), kind) == Do(c) <==> Reads(req, kind, c)
  {
    hide ReadText, ReadInt, TextAt, QosChain.Split, Target, Part, MeaningOfEndpoint, DEFAULT_QOS, NameKey,
         NameDefault, OpOf, KindOf,
         MeaningOfCreate;
    KindOfCreation(c, kind);
    EndpointCreation(req, kind);
    var args := Part(req, "args");
    var domain, qos := ReadInt(args, "domain", 0), ReadText(args, "qos", DEFAULT_QOS);
    var name := ReadText(args, NameKey(kind), NameDefault(kind));
    if domain.Some? && qos.Some? && name.Some? {
      var (lib, profile) := QosChain.Split(qos.value);
      EndpointAsked(req, kind == "writer", domain.value, name.value, lib, profile, c);
    }
  }

  lemma OtherRead(req: Json, kind: text, c: Call)
    requires kind != "writer" && kind != "reader"
    ensures MeaningOfCreate(req, Target(req), kind) == Do(c) <==> Reads(req, kind, c)
  {
    hide ReadText, ReadInt, QosChain.Split, Target, Part, MeaningOfEndpoint, DEFAULT_QOS, NameKey, NameDefault, OpOf,
         KindOf,
         EndpointAt;
    KindOfCreation(c, kind);
  }

  lemma CreateAsked(req: Json, kind: text, c: Call)
    ensures MeaningOfCreate(req, Target(req), kind) == Do(c) <==>
            OpOf(c) == "create" && KindOf(c) == kind && Arguments(req, c)
  {
    hide ReadText, ReadInt, TextAt, IntAt, QosChain.Split, QosAt, Target, Part, DEFAULT_QOS, NameKey, NameDefault,
         MeaningOfCreate;
    if kind == "writer" || kind == "reader" { EndpointRead(req, kind, c); } else { OtherRead(req, kind, c); }
    if OpOf(c) == "create" && KindOf(c) == kind {
      CommonAsked(req, c);
      if !c.CreateParticipant? { NameAsked(req, c); }
    }
  }

  lemma WriteAsked(req: Json, kind: text, c: Call)
    ensures MeaningOfWrite(req, Target(req), kind) == Do(c) <==>
            OpOf(c) == "write" && KindOf(c) == kind && Arguments(req, c)
  {
  }

  lemma GetAsked(req: Json, kind: text, c: Call)
    ensures MeaningOfGet(req, kind) == Do(c) <==> OpOf(c) == "get" && KindOf(c) == kind && Arguments(req, c)
  {
    hide ReadBool, BoolAt, Part;
    if c.ListQos? {
      BoolRead(Part(req, "args"), "include_builtin", c.builtin);
      BoolRead(Part(req, "args"), "detail", c.detail);
    }
  }

  lemma SetAsked(req: Json, c: Call)
    ensures MeaningOfSet(req) == Do(c) <==> OpOf(c) == "set" && Arguments(req, c)
  {
  }

  lemma KindsOfCalls(c: Call)
    ensures OpOf(c) in ["clear", "create", "write", "get", "set"]
    ensures OpOf(c) == "clear" <==> c.Clear?
    ensures OpOf(c) == "clear" ==> KindOf(c) == "dds_entities"
    ensures OpOf(c) == "set" ==> KindOf(c) == "qos"
  {
  }

  // A request means a call exactly when its fields ask for it.
  lemma AsksExactly(req: Json, c: Call)
    ensures MeaningOf(req) == Do(c) <==> Asks(req, c)
  {
    hide MeaningOf, MeaningOfCreate, MeaningOfWrite, MeaningOfGet, MeaningOfSet, Arguments, OpOf, KindOf, Target,
         ReadText,
         TextAt, Header;
    NoHeader(req);
    KindsOfCalls(c);
    ClearAsks(req);
    if op, kind :| Header(req, op, kind) {
      HeaderRead(req, op, kind);
      CreateAsked(req, kind, c);
      WriteAsked(req, kind, c);
      GetAsked(req, kind, c);
      SetAsked(req, c);
      assert Header(req, OpOf(c), KindOf(c)) <==> op == OpOf(c) && kind == KindOf(c) by {
        if Header(req, OpOf(c), KindOf(c)) { OneHeader(req, op, kind, OpOf(c), KindOf(c)); }
      }
    }
  }

  lemma ClearAsks(req: Json)
    ensures Arguments(req, Clear)
  {
  }

  // And a greeting exactly when it says so, whatever its kind.
  lemma HelloExactly(req: Json)
    ensures MeaningOf(req) == Hello <==> exists kind :: Header(req, "hello", kind)
  {
    hide MeaningOf, MeaningOfCreate, MeaningOfWrite, MeaningOfGet, MeaningOfSet, Target, ReadText, TextAt, Header;
    NoHeader(req);
    if op, kind :| Header(req, op, kind) {
      HeaderRead(req, op, kind);
      NotHello(req, kind);
      forall kind' | Header(req, "hello", kind') ensures op == "hello" { OneHeader(req, op, kind, "hello", kind'); }
    }
  }

  lemma NotHello(req: Json, kind: text)
    ensures MeaningOfCreate(req, Target(req), kind) != Hello && MeaningOfWrite(req, Target(req), kind) != Hello
    ensures MeaningOfGet(req, kind) != Hello && MeaningOfSet(req) != Hello
  {
    hide QosChain.Split, ReadText, ReadInt, ReadBool, Part, Target;
  }

  // ---------- Answers ----------

  // What was asked for has been carried out: a greeting, or a call that came out well.
  ghost predicate Achieved(body: Option<Json>, r: Result) {
    body.Some? &&
    ((r != Raised && exists kind :: Header(body.value, "hello", kind)) ||
     (exists c :: Asks(body.value, c) && CameOut(c, r)))
  }

  predicate CameOut(c: Call, r: Result) { r == Succeeded || (r == Failed && !Reports(c)) }

  // The answer says ok exactly when what was asked for has been carried out.
  lemma OkMeansAchieved(body: Option<Json>, r: Result)
    ensures Answer(body, r).ok <==> Achieved(body, r)
  {
    hide MeaningOf, Asks, Header;
    if body.Some? {
      HelloExactly(body.value);
      forall c ensures MeaningOf(body.value) == Do(c) <==> Asks(body.value, c) { AsksExactly(body.value, c); }
    }
  }

  // The calls made for a request are the one it asks for, if it asks for one.
  lemma CallsAsked(body: Option<Json>)
    ensures forall c :: c in (if body.None? then [] else CallsOf(MeaningOf(body.value))) <==>
            body.Some? && Asks(body.value, c)
  {
    hide MeaningOf, Asks;
    if body.Some? {
      forall c ensures MeaningOf(body.value) == Do(c) <==> Asks(body.value, c) { AsksExactly(body.value, c); }
    }
  }
}
