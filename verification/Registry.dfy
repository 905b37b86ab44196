// The entity registry of the DDS manager (RtpDdsGateway/src/dds_manager_entities.cpp,
// dds_manager_cleanup.cpp and dds_manager_io.cpp): what each operation does to the nested maps.
module Registry {
  import opened Wrappers

  // A holder: its id, and the type it was built for.
  datatype Entry = Entry(id: nat, kind: string)

  type Inner = map<string, seq<Entry>>
  type Nest = map<int, map<string, Inner>>
  type Table = map<int, map<string, string>>

  // Publishers and writers, or subscribers and readers.
  datatype Half = Half(owners: map<int, set<string>>, entries: Nest)

  datatype Side = Writing | Reading

  // topics: the type of each topic holder; types: topic_to_type_.
  datatype Registry = Registry(
    participants: set<int>, writing: Half, reading: Half, topics: Table, types: Table, nextId: nat)
  {
    function On(side: Side): Half { if side == Writing then writing else reading }

    function With(side: Side, h: Half): Registry {
      if side == Writing then this.(writing := h) else this.(reading := h)
    }
  }

  datatype Category = Logic | Resource
  datatype Outcome = Done(id: nat) | Refused(category: Category) | Threw

  // Whether each call into the DDS library succeeds, listen being the last one, which sets the sample
  // callback and registers the holder for events. The factories also check the topic's type.
  datatype Faults = Faults(owner: bool, topic: bool, topicQos: bool, firstTry: bool, secondTry: bool, listen: bool)

  // ---------- Nested maps ----------

  predicate HasKey(m: Nest, d: int, p: string, t: string) {
    d in m && p in m[d] && t in m[d][p]
  }

  function At(m: Nest, d: int, p: string, t: string): seq<Entry> {
    if HasKey(m, d, p, t) then m[d][p][t] else []
  }

  function Put(m: Nest, d: int, p: string, t: string, v: seq<Entry>): Nest {
    var byOwner := if d in m then m[d] else map[];
    var byTopic := if p in byOwner then byOwner[p] else map[];
    m[d := byOwner[p := byTopic[t := v]]]
  }

  // Drops a topic, and its owner once that has no topic left.
  function Drop(m: Nest, d: int, p: string, t: string): Nest
    requires HasKey(m, d, p, t)
  {
    var byTopic := m[d][p] - {t};
    m[d := if byTopic == map[] then m[d] - {p} else m[d][p := byTopic]]
  }

  function Get(m: Table, d: int, t: string): Option<string> {
    if d in m && t in m[d] then Some(m[d][t]) else None
  }

  function Row(m: Table, d: int): map<string, string> { if d in m then m[d] else map[] }

  function Owners(m: map<int, set<string>>, d: int): set<string> { if d in m then m[d] else {} }

  lemma PutAt(m: Nest, d: int, p: string, t: string, v: seq<Entry>)
    ensures forall d', p', t' :: At(Put(m, d, p, t, v), d', p', t') ==
              if (d', p', t') == (d, p, t) then v else At(m, d', p', t')
    ensures forall d', p', t' :: HasKey(Put(m, d, p, t, v), d', p', t') <==>
            (d', p', t') == (d, p, t) || HasKey(m, d', p', t')
  {
  }

  lemma DropAt(m: Nest, d: int, p: string, t: string)
    requires HasKey(m, d, p, t)
    ensures forall d', p', t' :: At(Drop(m, d, p, t), d', p', t') ==
              if (d', p', t') == (d, p, t) then [] else At(m, d', p', t')
    ensures forall d', p', t' :: HasKey(Drop(m, d, p, t), d', p', t') <==>
            (d', p', t') != (d, p, t) && HasKey(m, d', p', t')
  {
    forall d', p', t'
      ensures HasKey(Drop(m, d, p, t), d', p', t') <==> (d', p', t') != (d, p, t) && HasKey(m, d', p', t')
    {
      if (d', p') == (d, p) && t' in m[d][p] && t' != t { assert t' in m[d][p] - {t}; }
    }
  }

  // ---------- Creation ----------

  function CreateParticipant(r: Registry, d: int, f: Faults): (Registry, Outcome) {
    if d in r.participants then (r, Refused(Logic))
    else if !f.owner then (r, Threw)
    else (r.(participants := r.participants + {d}), Done(0))
  }

  function AddOwner(h: Half, d: int, p: string): Half { h.(owners := h.owners[d := Owners(h.owners, d) + {p}]) }

  // Looking a domain up creates its row.
  function TouchOwners(h: Half, d: int): Half { h.(owners := h.owners[d := Owners(h.owners, d)]) }

  // create_publisher_locked and create_subscriber_locked.
  function CreateOwner(r: Registry, side: Side, d: int, p: string, f: Faults): (Registry, Outcome) {
    var h := r.On(side);
    if d !in r.participants then (r, Refused(Logic))
    else if p in Owners(h.owners, d) then (r.With(side, TouchOwners(h, d)), Refused(Logic))
    else if !f.owner then (r.With(side, TouchOwners(h, d)), Threw)
    else (r.With(side, AddOwner(h, d, p)), Done(0))
  }

  // create_writer and create_reader. Only the reader lets a failing topic QoS escape.
  function Create(r: Registry, known: set<string>, side: Side, d: int, p: string, t: string, kind: string, f: Faults)
    : (Registry, Outcome)
  {
    var existing := Get(r.types, d, t);
    if kind !in known || (existing.Some? && existing.value != kind) || d !in r.participants then (r, Refused(Logic))
    else if p !in Owners(r.On(side).owners, d) && !f.owner then (r.With(side, TouchOwners(r.On(side), d)), Threw)
    else
      var h := AddOwner(r.On(side), d, p);
      var slot := At(h.entries, d, p, t);
      CreateAt(r.With(side, h.(entries := Put(h.entries, d, p, t, slot))), side, d, p, t, kind, f)
  }

  // The rest, once the owner exists and the slot has been looked up. By the time the holder is
  // registered for events its endpoint has been recorded, and stays.
  function CreateAt(r: Registry, side: Side, d: int, p: string, t: string, kind: string, f: Faults)
    : (Registry, Outcome)
  {
    var h, topics := r.On(side), Row(r.topics, d);
    var r1 := r.(topics := r.topics[d := topics]);
    if At(h.entries, d, p, t) != [] then (r, Refused(Logic))
    else if t !in topics && !f.topic then (r1, Threw)
    else
      var held := if t in topics then topics[t] else kind;
      var r2 := r.(topics := r.topics[d := topics[t := held]]);
      if side == Reading && !f.topicQos then (r2, Threw)
      else if held != kind || !(f.firstTry || f.secondTry) then (r2, Refused(Resource))
      else
        var h' := h.(entries := Put(h.entries, d, p, t, [Entry(r.nextId, kind)]));
        (r2.With(side, h').(types := r.types[d := Row(r.types, d)[t := kind]], nextId := r.nextId + 1),
         if f.listen then Done(r.nextId) else Threw)
  }

  // ---------- Removal ----------

  ghost predicate Holds(m: Nest, id: nat) {
    exists d, p, t :: InSlot(m, d, p, t, id)
  }

  predicate HasId(s: seq<Entry>, id: nat) {
    exists e :: e in s && e.id == id
  }

  predicate InSlot(m: Nest, d: int, p: string, t: string, id: nat) {
    HasId(At(m, d, p, t), id)
  }

  function Without(s: seq<Entry>, id: nat): seq<Entry> {
    if s == [] then [] else if s[0].id == id then s[1..] else [s[0]] + Without(s[1..], id)
  }

  function Take(m: Nest, d: int, p: string, t: string, id: nat): Nest
    requires HasKey(m, d, p, t)
  {
    var rest := Without(m[d][p][t], id);
    if rest == [] then Drop(m, d, p, t) else Put(m, d, p, t, rest)
  }

  predicate Used(m: Nest, d: int, t: string) {
    d in m && exists p :: p in m[d] && t in m[d][p]
  }

  // The slot is where the id was found. Removing a writer also forgets the type of a topic nobody uses.
  function Remove(r: Registry, side: Side, d: int, p: string, t: string, id: nat): Registry
    requires HasKey(r.On(side).entries, d, p, t)
  {
    var h := r.On(side);
    var r' := r.With(side, h.(entries := Take(h.entries, d, p, t, id)));
    if side == Reading || Used(r'.writing.entries, d, t) || Used(r'.reading.entries, d, t) || d !in r'.types then r'
    else r'.(types := r'.types[d := r'.types[d] - {t}])
  }

  function Clear(r: Registry): Registry {
    Registry({}, Half(map[], map[]), Half(map[], map[]), map[], map[], r.nextId)
  }

  // ---------- Publishing ----------

  // One call of write_any: the type of the sample, and the type the holder casts it to.
  datatype Write = Write(domain: int, owner: string, id: nat, sample: string, holder: string)

  // Whether the JSON can be printed, which its strings decide; types a sample can be made of, types the
  // JSON converts to, and writers whose write throws.
  datatype Samples = Samples(printable: bool, made: set<string>, converted: set<string>, failing: set<nat>)

  // What publishing to a topic has to write.
  predicate Due(r: Registry, topic: string, s: Samples, w: Write) {
    && Get(r.types, w.domain, topic) == Some(w.sample)
    && w.sample in s.made && w.sample in s.converted
    && Entry(w.id, w.holder) in At(r.writing.entries, w.domain, w.owner, topic)
  }
}
