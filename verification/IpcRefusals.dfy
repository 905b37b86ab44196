// Which requests are refused, and with which error, and that every sound call can be asked for
// (RtpDdsGateway/src/ipc_adapter.cpp, lines 355-654).
module IpcRefusals {
  import opened Wrappers
  import opened JsonTypes
  import JsonBind
  import QosChain
  import QosStore
  import QosStoreLaws
  import opened IpcDispatch
  import opened IpcLaws

  // ---------- The fields an operation reads ----------

  // required: the operation does nothing with an empty text here.
  datatype Field = Field(holder: Json, key: text, number: bool, required: bool)

  // A field that is there has the type the operation reads it at.
  predicate Typed(f: Field) {
    && f.holder.JObj?
    && (f.key in f.holder.members ==>
          var v := f.holder.members[f.key];
          if f.number then JsonBind.GetInteger(W32, true, v).Some? else v.JStr?)
  }

  predicate Blank(f: Field) {
    f.required && f.holder.JObj? && (f.key in f.holder.members ==> f.holder.members[f.key] == JStr(""))
  }

  function Common(args: Json): set<Field> {
    {Field(args, "domain", true, false), Field(args, "qos", false, false)}
  }

  function Endpoint(target: Json): set<Field> {
    {Field(target, "topic", false, true), Field(target, "type", false, true)}
  }

  function FieldsOf(req: Json, op: text, kind: text): set<Field> {
    var args, target, data := Part(req, "args"), Target(req), Part(req, "data");
    if op == "create" then
      if kind == "participant" then Common(args)
      else if kind == "publisher" then Common(args) + {Field(args, "publisher", false, false)}
      else if kind == "subscriber" then Common(args) + {Field(args, "subscriber", false, false)}
      else if kind == "writer" then Common(args) + {Field(args, "publisher", false, false)} + Endpoint(target)
      else if kind == "reader" then Common(args) + {Field(args, "subscriber", false, false)} + Endpoint(target)
      else {}
    else if op == "write" && kind == "writer" then {Field(target, "topic", false, true)}
    else if op == "set" && kind == "qos" && data.JObj? then
      {Field(data, "library", false, true), Field(data, "profile", false, true), Field(data, "xml", false, true)}
    else {}
  }

  predicate NeedsData(op: text, kind: text) { (op == "write" && kind == "writer") || (op == "set" && kind == "qos") }

  predicate Supported(op: text, kind: text) {
    || op == "hello"
    || (op == "clear" && kind == "dds_entities")
    || (op == "create" && kind in {"participant", "publisher", "subscriber", "writer", "reader"})
    || (op == "write" && kind == "writer")
    || (op == "get" && kind == "qos")
    || (op == "set" && kind == "qos")
  }

  // The options of a listing are read inside the listing's own handler.
  predicate BadOptions(req: Json, op: text, kind: text) {
    var args := Part(req, "args");
    && op == "get" && kind == "qos" && args.JObj?
    && !(("include_builtin" in args.members ==> args.members["include_builtin"].JBool?) &&
         ("detail" in args.members ==> args.members["detail"].JBool?))
  }

  ghost predicate AllTyped(fields: set<Field>) { forall f :: f in fields ==> Typed(f) }

  ghost predicate SomeBlank(fields: set<Field>) { exists f :: f in fields && Blank(f) }

  // What is asked for is not all there.
  ghost predicate Lacking(req: Json, op: text, kind: text) {
    var fields := FieldsOf(req, op, kind);
    AllTyped(fields) && ((NeedsData(op, kind) && !Part(req, "data").JObj?) || SomeBlank(fields))
  }

  ghost predicate Refusals(req: Json, op: text, kind: text, m: Meaning) {
    && (m == Broken <==> !AllTyped(FieldsOf(req, op, kind)))
    && (m == Missing <==> Lacking(req, op, kind))
    && (m == Unsupported <==> !Supported(op, kind) || BadOptions(req, op, kind))
  }

  // ---------- They are told apart that way ----------

  lemma TextField(j: Json, key: text, default: text, required: bool)
    ensures var f := Field(j, key, false, required);
            && ReadText(j, key, default).Some? == Typed(f)
            && (default == "" && required ==> (ReadText(j, key, default) == Some("") <==> Typed(f) && Blank(f)))
  {
  }

  lemma NumberField(j: Json, key: text, default: int)
    ensures ReadInt(j, key, default).Some? == Typed(Field(j, key, true, false))
  {
    hide JsonBind.GetInteger;
  }

  lemma OptionField(j: Json, key: text)
    requires j.JObj?
    ensures ReadBool(j, key, false).Some? <==> (key in j.members ==> j.members[key].JBool?)
  {
  }

  lemma Joined(a: set<Field>, b: set<Field>)
    ensures AllTyped(a + b) <==> AllTyped(a) && AllTyped(b)
    ensures SomeBlank(a + b) <==> SomeBlank(a) || SomeBlank(b)
  {
    hide Typed, Blank;
    if SomeBlank(a) { var f :| f in a && Blank(f); assert f in a + b; }
    if SomeBlank(b) { var f :| f in b && Blank(f); assert f in a + b; }
    if AllTyped(a + b) {
      forall f | f in a ensures Typed(f) { assert f in a + b; }
      forall f | f in b ensures Typed(f) { assert f in a + b; }
    }
  }

  lemma NoFields()
    ensures AllTyped({}) && !SomeBlank({})
  {
  }

  lemma CommonRead(args: Json)
    ensures AllTyped(Common(args)) <==> ReadInt(args, "domain", 0).Some? && ReadText(args, "qos", DEFAULT_QOS).Some?
    ensures !SomeBlank(Common(args))
  {
    hide ReadText, ReadInt, Typed;
    NumberField(args, "domain", 0);
    TextField(args, "qos", DEFAULT_QOS, false);
  }

  lemma NameRead(args: Json, kind: text)
    ensures var name := {Field(args, NameKey(kind), false, false)};
            !SomeBlank(name) && (AllTyped(name) <==> ReadText(args, NameKey(kind), NameDefault(kind)).Some?)
  {
    hide ReadText, Typed, NameKey, NameDefault;
    TextField(args, NameKey(kind), NameDefault(kind), false);
  }

  lemma EndpointRefused(target: Json, writer: bool, domain: int, name: text, lib: string, profile: string)
    ensures var m := MeaningOfEndpoint(target, writer, domain, name, lib, profile);
            && (m == Broken <==> !AllTyped(Endpoint(target)))
            && (m == Missing <==> AllTyped(Endpoint(target)) && SomeBlank(Endpoint(target)))
            && m != Unsupported
  {
    hide ReadText, Typed;
    TextField(target, "topic", "", true);
    TextField(target, "type", "", true);
  }

  lemma CreateFields(req: Json, kind: text)
    ensures var args := Part(req, "args");
            var name := {Field(args, NameKey(kind), false, false)};
            FieldsOf(req, "create", kind) ==
            if kind == "participant" then Common(args)
            else if kind in {"publisher", "subscriber"} then Common(args) + name
            else if kind in {"writer", "reader"} then Common(args) + name + Endpoint(Target(req))
            else {}
  {
    hide Common, Endpoint, Part, Target;
  }

  lemma CreateRefused(req: Json, kind: text)
    ensures Refusals(req, "create", kind, MeaningOfCreate(req, Target(req), kind))
  {
    hide ReadText, ReadInt, Part, Target, QosChain.Split, DEFAULT_QOS, FieldsOf, Common, Endpoint, NameKey, NameDefault,
         MeaningOfEndpoint, AllTyped, SomeBlank;
    var args, target := Part(req, "args"), Target(req);
    CreateFields(req, kind);
    NoFields();
    CommonRead(args);
    NameRead(args, kind);
    var name := {Field(args, NameKey(kind), false, false)};
    Joined(Common(args), name);
    Joined(Common(args) + name, Endpoint(target));
    var domain, qos := ReadInt(args, "domain", 0), ReadText(args, "qos", DEFAULT_QOS);
    var n := ReadText(args, NameKey(kind), NameDefault(kind));
    if domain.Some? && qos.Some? && n.Some? {
      var (lib, profile) := QosChain.Split(qos.value);
      EndpointRefused(target, kind == "writer", domain.value, n.value, lib, profile);
    }
  }

  lemma WriteRefused(req: Json, kind: text)
    ensures Refusals(req, "write", kind, MeaningOfWrite(req, Target(req), kind))
  {
    hide ReadText, Part, Target, Typed;
    TextField(Target(req), "topic", "", true);
  }

  lemma GetRefused(req: Json, kind: text)
    ensures Refusals(req, "get", kind, MeaningOfGet(req, kind))
  {
    hide ReadBool, Part;
    var args := Part(req, "args");
    if args.JObj? {
      OptionField(args, "include_builtin");
      OptionField(args, "detail");
    }
  }

  lemma SetRefused(req: Json)
    ensures Refusals(req, "set", "qos", MeaningOfSet(req))
  {
    hide ReadText, Part, Typed;
    var data := Part(req, "data");
    TextField(data, "library", "", true);
    TextField(data, "profile", "", true);
    TextField(data, "xml", "", true);
  }

  // A request without a readable header is refused with error 7; of any other it is known which
  // of its fields make it error 7, 6 or 4.
  lemma RefusedExactly(req: Json)
    ensures (forall op, kind :: !Header(req, op, kind)) ==> MeaningOf(req) == Broken
    ensures forall op, kind :: Header(req, op, kind) ==> Refusals(req, op, kind, MeaningOf(req))
  {
    hide MeaningOf, MeaningOfCreate, MeaningOfWrite, MeaningOfGet, MeaningOfSet, Target, ReadText, TextAt, Header,
         Refusals;
    NoHeader(req);
    forall op, kind | Header(req, op, kind) ensures Refusals(req, op, kind, MeaningOf(req)) {
      HeaderRead(req, op, kind);
      if op == "create" {
        CreateRefused(req, kind);
      } else if op == "write" {
        WriteRefused(req, kind);
      } else if op == "get" {
        GetRefused(req, kind);
      } else if op == "set" && kind == "qos" {
        SetRefused(req);
      } else {
        OtherRefused(req, op, kind);
      }
    }
  }

  lemma OtherRefused(req: Json, op: text, kind: text)
    requires op != "create" && op != "write" && op != "get" && !(op == "set" && kind == "qos")
    ensures Refusals(req, op, kind,
                     if op == "clear" && kind == "dds_entities" then Do(Clear)
                     else if op == "hello" then Hello
                     else Unsupported)
  {
  }

  // ---------- The error of an answer ----------

  // A field of the request is missing or empty.
  ghost predicate Incomplete(req: Json) { exists op, kind :: Header(req, op, kind) && Lacking(req, op, kind) }

  // The request cannot be read.
  ghost predicate Unreadable(req: Json) {
    forall op, kind :: Header(req, op, kind) ==> !AllTyped(FieldsOf(req, op, kind))
  }

  ghost predicate Unknown(req: Json) {
    exists op, kind :: Header(req, op, kind) && (!Supported(op, kind) || BadOptions(req, op, kind))
  }

  lemma RefusalOf(req: Json)
    ensures MeaningOf(req) == Missing <==> Incomplete(req)
    ensures MeaningOf(req) == Broken <==> Unreadable(req)
    ensures MeaningOf(req) == Unsupported <==> Unknown(req)
  {
    hide MeaningOf, Header, Lacking, AllTyped, FieldsOf, Supported, BadOptions;
    RefusedExactly(req);
    if op, kind :| Header(req, op, kind) {
      forall op', kind' | Header(req, op', kind') ensures op' == op && kind' == kind {
        OneHeader(req, op, kind, op', kind');
      }
    }
  }

  // The exception that a listing does not catch.
  ghost predicate Escapes(req: Json, r: Result) {
    r == Raised && ((exists kind :: Header(req, "hello", kind)) || (exists c :: Asks(req, c) && !c.ListQos?))
  }

  ghost predicate Fails(req: Json, r: Result) {
    exists c :: Asks(req, c) && if c.ListQos? then r == Raised else r == Failed && Reports(c)
  }

  // Error 6 is a request with something missing; error 7 one that cannot be read, or an exception;
  // error 4 one that is not known, or a call that failed; and there is no other.
  lemma ErrorsExactly(body: Option<Json>, r: Result)
    ensures Answer(body, r).err == 6 <==> body.Some? && Incomplete(body.value)
    ensures Answer(body, r).err == 7 <==> body.None? || Unreadable(body.value) || Escapes(body.value, r)
    ensures Answer(body, r).err == 4 <==> body.Some? && (Unknown(body.value) || Fails(body.value, r))
    ensures Answer(body, r).err == 0 <==> Achieved(body, r)
    ensures Answer(body, r).err in {0, 4, 6, 7}
  {
    hide MeaningOf, Asks, Header, Incomplete, Unreadable, Unknown;
    OkMeansAchieved(body, r);
    if body.Some? {
      RefusalOf(body.value);
      HelloExactly(body.value);
      forall c ensures MeaningOf(body.value) == Do(c) <==> Asks(body.value, c) { AsksExactly(body.value, c); }
    }
  }

  // ---------- Every sound call can be asked for ----------

  predicate Octets(s: string) { forall i :: 0 <= i < |s| ==> s[i] as int < 256 }

  function AsText(s: string): text requires Octets(s) { s }

  // The calls that some request leads to.
  predicate Sound(c: Call) {
    && (Creates(c) ==>
          InRange(W32, true, c.domain) && QosStoreLaws.PlainLib(c.lib) && Octets(c.lib) && Octets(c.profile))
    && (c.CreateWriter? || c.CreateReader? ==> c.topic != "" && c.kind != "")
    && (c.Publish? ==> c.topic != "" && c.data.JObj?)
    && (c.UpdateQos? ==> c.library != "" && c.name != "" && c.xml != "")
  }

  function Body(op: text, aim: map<text, Json>, args: map<text, Json>, data: Json): Json {
    JObj(map["op" := JStr(op), "target" := JObj(aim), "args" := JObj(args), "data" := data])
  }

  function AimOf(c: Call): map<text, Json> {
    match c
    case CreateWriter(_, _, topic, ty, _, _) =>
      map["kind" := JStr("writer"), "topic" := JStr(topic), "type" := JStr(ty)]
    case CreateReader(_, _, topic, ty, _, _) =>
      map["kind" := JStr("reader"), "topic" := JStr(topic), "type" := JStr(ty)]
    case Publish(topic, _) => map["kind" := JStr("writer"), "topic" := JStr(topic)]
    case _ => map["kind" := JStr(KindOf(c))]
  }

  function ArgsOf(c: Call): map<text, Json>
    requires Sound(c)
  {
    if c.ListQos? then map["include_builtin" := JBool(c.builtin), "detail" := JBool(c.detail)]
    else if !Creates(c) then map[]
    else
      var domain, qos := JInt(c.domain), JStr(AsText(QosStore.Key(c.lib, c.profile)));
      if c.CreateParticipant? then map["domain" := domain, "qos" := qos]
      else if c.CreatePublisher? || c.CreateWriter? then
        map["domain" := domain, "qos" := qos, "publisher" := JStr(c.name)]
      else map["domain" := domain, "qos" := qos, "subscriber" := JStr(c.name)]
  }

  function DataOf(c: Call): Json {
    match c
    case Publish(_, data) => data
    case UpdateQos(library, profile, xml) =>
      JObj(map["library" := JStr(library), "profile" := JStr(profile), "xml" := JStr(xml)])
    case _ => JNull
  }

  function RequestFor(c: Call): Json requires Sound(c) { Body(OpOf(c), AimOf(c), ArgsOf(c), DataOf(c)) }

  lemma BodyParts(op: text, kind: text, aim: map<text, Json>, args: map<text, Json>, data: Json)
    requires "kind" in aim && aim["kind"] == JStr(kind)
    ensures var req := Body(op, aim, args, data);
            && Header(req, op, kind) && Target(req) == JObj(aim)
            && Part(req, "args") == JObj(args) && Part(req, "data") == data
  {
  }

  lemma AimParts(c: Call)
    ensures "kind" in AimOf(c) && AimOf(c)["kind"] == JStr(KindOf(c))
    ensures c.CreateWriter? || c.CreateReader? || c.Publish? ==> TextAt(JObj(AimOf(c)), "topic", "", c.topic)
    ensures c.CreateWriter? || c.CreateReader? ==> TextAt(JObj(AimOf(c)), "type", "", c.kind)
  {
  }

  lemma ArgsParts(c: Call)
    requires Sound(c) && Creates(c)
    ensures var args := JObj(ArgsOf(c));
            && IntAt(args, "domain", 0, c.domain)
            && TextAt(args, "qos", DEFAULT_QOS, AsText(QosStore.Key(c.lib, c.profile)))
            && (c.CreatePublisher? || c.CreateWriter? ==> TextAt(args, "publisher", "pub1", c.name))
            && (c.CreateSubscriber? || c.CreateReader? ==> TextAt(args, "subscriber", "sub1", c.name))
  {
    hide QosStoreLaws.PlainLib, QosStore.Key, AsText;
  }

  lemma KeyAsked(req: Json, c: Call)
    requires Sound(c) && Creates(c)
             && TextAt(Part(req, "args"), "qos", DEFAULT_QOS, AsText(QosStore.Key(c.lib, c.profile)))
    ensures QosAt(req, c.lib, c.profile)
  {
    hide TextAt, Part, QosChain.Split;
    QosStoreLaws.SplitKey(c.lib, c.profile);
  }

  lemma CreationAsked(c: Call)
    requires Sound(c) && Creates(c)
    ensures Arguments(RequestFor(c), c)
  {
    hide AimOf, ArgsOf, Body, Target, Part, TextAt, IntAt, QosAt, QosChain.Split, QosStore.Key, AsText, OpOf, KindOf;
    AimParts(c);
    BodyParts(OpOf(c), KindOf(c), AimOf(c), ArgsOf(c), DataOf(c));
    ArgsParts(c);
    KeyAsked(RequestFor(c), c);
  }

  lemma OtherAsked(c: Call)
    requires Sound(c) && !Creates(c)
    ensures Arguments(RequestFor(c), c)
  {
    hide Body, Target, Part;
    AimParts(c);
    BodyParts(OpOf(c), KindOf(c), AimOf(c), ArgsOf(c), DataOf(c));
  }

  // A sound call is what its own request means,
  lemma RequestMeans(c: Call)
    requires Sound(c)
    ensures MeaningOf(RequestFor(c)) == Do(c)
  {
    hide MeaningOf, Header, Arguments, AimOf, ArgsOf, Body, Target, Part, Sound, OpOf, KindOf, Creates;
    AimParts(c);
    BodyParts(OpOf(c), KindOf(c), AimOf(c), ArgsOf(c), DataOf(c));
    if Creates(c) { CreationAsked(c); } else { OtherAsked(c); }
    AsksExactly(RequestFor(c), c);
  }

  // and no request means any other.
  lemma OnlySound(req: Json, c: Call)
    requires MeaningOf(req) == Do(c)
    ensures Sound(c)
  {
    hide MeaningOf, Header, QosStoreLaws.PlainLib, QosChain.Split, JsonBind.GetInteger, Target, Part;
    AsksExactly(req, c);
    if Creates(c) {
      IntegerInRange(Part(req, "args"), c);
      var qos: text :| TextAt(Part(req, "args"), "qos", DEFAULT_QOS, qos) && QosChain.Split(qos) == (c.lib, c.profile);
      QosStoreLaws.SplitPlain(qos);
      SplitOctets(qos);
    }
  }

  lemma IntegerInRange(args: Json, c: Call)
    requires Creates(c) && IntAt(args, "domain", 0, c.domain)
    ensures InRange(W32, true, c.domain)
  {
  }

  lemma SplitOctets(qos: text)
    ensures Octets(QosChain.Split(qos).0) && Octets(QosChain.Split(qos).1)
  {
  }
}
