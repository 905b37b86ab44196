// What holds of the registry in every reachable state.
module RegistryLaws {
  import opened Wrappers
  import opened Registry

  // ---------- The invariant ----------

  // Endpoints have their owners, owners their participant.
  ghost predicate Housed(h: Half, participants: set<int>) {
    && (forall d, p :: p in Owners(h.owners, d) ==> d in participants)
    && (forall d, p, t :: HasKey(h.entries, d, p, t) ==> p in Owners(h.owners, d))
  }

  // At most one endpoint in a slot.
  ghost predicate Single(m: Nest) {
    forall d, p, t :: |At(m, d, p, t)| <= 1
  }

  // Every endpoint was built for the recorded type of its topic.
  ghost predicate Typed(m: Nest, types: Table) {
    forall d, p, t, e :: e in At(m, d, p, t) ==> Get(types, d, t) == Some(e.kind)
  }

  ghost predicate Numbered(m: Nest, next: nat) {
    forall d, p, t, e :: e in At(m, d, p, t) ==> 0 < e.id < next
  }

  // No id twice on one side, or on both.
  ghost predicate Distinct(m: Nest) {
    forall d, p, t, e, d', p', t', e' :: e in At(m, d, p, t) && e' in At(m, d', p', t') && e.id == e'.id ==>
      (d, p, t) == (d', p', t')
  }

  ghost predicate Apart(m: Nest, m': Nest) {
    forall d, p, t, e, d', p', t', e' :: e in At(m, d, p, t) && e' in At(m', d', p', t') ==> e.id != e'.id
  }

  ghost predicate HalfOk(h: Half, participants: set<int>, types: Table, next: nat) {
    Housed(h, participants) && Single(h.entries) && Typed(h.entries, types) && Numbered(h.entries, next)
    && Distinct(h.entries)
  }

  // A recorded type is the type of the topic itself.
  ghost predicate TopicsAgree(types: Table, topics: Table) {
    forall d, t :: Get(types, d, t).Some? ==> Get(topics, d, t) == Get(types, d, t)
  }

  ghost predicate Inv(r: Registry) {
    && r.nextId > 0
    && HalfOk(r.writing, r.participants, r.types, r.nextId)
    && HalfOk(r.reading, r.participants, r.types, r.nextId)
    && Apart(r.writing.entries, r.reading.entries)
    && TopicsAgree(r.types, r.topics)
  }

  // ---------- Small steps ----------

  lemma OwnerAdded(h: Half, d: int, p: string)
    ensures forall d', q :: q in Owners(AddOwner(h, d, p).owners, d') <==>
            q in Owners(h.owners, d') || (d', q) == (d, p)
    ensures forall d', q :: q in Owners(TouchOwners(h, d).owners, d') <==> q in Owners(h.owners, d')
  {
  }

  lemma OwnerHoused(h: Half, parts: set<int>, d: int, p: string)
    requires Housed(h, parts) && d in parts
    ensures Housed(AddOwner(h, d, p), parts) && Housed(TouchOwners(h, d), parts)
  {
    OwnerAdded(h, d, p);
    hide HasKey, Owners;
    assert AddOwner(h, d, p).entries == h.entries && TouchOwners(h, d).entries == h.entries;
    hide AddOwner, TouchOwners;
  }

  // Entries seen through At are all that the invariant speaks of.
  lemma SameEntries(m: Nest, m': Nest, types: Table, next: nat)
    requires forall d, p, t :: At(m', d, p, t) == At(m, d, p, t)
    requires Single(m) && Typed(m, types) && Numbered(m, next) && Distinct(m)
    ensures Single(m') && Typed(m', types) && Numbered(m', next) && Distinct(m')
  {
    hide At;
  }

  lemma SameApart(m: Nest, m': Nest, n: Nest)
    requires forall d, p, t :: At(m', d, p, t) == At(m, d, p, t)
    ensures Apart(m, n) ==> Apart(m', n)
    ensures Apart(n, m) ==> Apart(n, m')
  {
    hide At;
  }

  lemma RowsKept(m: Table, d: int, t: string, k: string)
    ensures var m' := m[d := Row(m, d)[t := k]];
            forall d', t' :: Get(m', d', t') == if (d', t') == (d, t) then Some(k) else Get(m, d', t')
    ensures forall d', t' :: Get(m[d := Row(m, d)], d', t') == Get(m, d', t')
  {
  }

  // A new endpoint of the topic's type, with a fresh id.
  lemma PushedOk(m: Nest, d: int, p: string, t: string, e: Entry, types: Table, types': Table)
    requires Single(m) && Typed(m, types) && Numbered(m, e.id) && Distinct(m) && e.id > 0
    requires Get(types, d, t).Some? ==> Get(types, d, t) == Some(e.kind)
    requires forall d', t' :: Get(types', d', t') == if (d', t') == (d, t) then Some(e.kind) else Get(types, d', t')
    ensures var m' := Put(m, d, p, t, [e]); Single(m') && Typed(m', types') && Numbered(m', e.id + 1) && Distinct(m')
  {
    PutAt(m, d, p, t, [e]);
    hide At, Put, Get;
  }

  lemma PushedApart(m: Nest, n: Nest, d: int, p: string, t: string, e: Entry)
    requires Apart(m, n) && Numbered(n, e.id)
    ensures Apart(Put(m, d, p, t, [e]), n)
  {
    PutAt(m, d, p, t, [e]);
    hide At, Put;
  }

  lemma ApartSwap(m: Nest, n: Nest)
    requires Apart(m, n)
    ensures Apart(n, m)
  {
    hide At;
  }

  // Other endpoints keep their types and their numbers.
  lemma OthersOk(m: Nest, d: int, t: string, k: string, types: Table, types': Table, next: nat)
    requires Typed(m, types) && Numbered(m, next)
    requires Get(types, d, t).Some? ==> Get(types, d, t) == Some(k)
    requires forall d', t' :: Get(types', d', t') == if (d', t') == (d, t) then Some(k) else Get(types, d', t')
    ensures Typed(m, types') && Numbered(m, next + 1)
  {
    hide At, Get;
  }

  // ---------- Operations keep the invariant ----------

  // The invariant with the two sides named the other way round.
  ghost predicate InvOf(h: Half, other: Half, r: Registry) {
    && r.nextId > 0
    && HalfOk(h, r.participants, r.types, r.nextId) && HalfOk(other, r.participants, r.types, r.nextId)
    && Apart(h.entries, other.entries) && TopicsAgree(r.types, r.topics)
  }

  function Other(side: Side): Side { if side == Writing then Reading else Writing }

  lemma InvSides(r: Registry, side: Side)
    ensures Inv(r) <==> InvOf(r.On(side), r.On(Other(side)), r)
  {
    hide HalfOk, Apart, TopicsAgree;
    if Apart(r.writing.entries, r.reading.entries) { ApartSwap(r.writing.entries, r.reading.entries); }
    if Apart(r.reading.entries, r.writing.entries) { ApartSwap(r.reading.entries, r.writing.entries); }
  }

  lemma OwnerKeeps(r: Registry, side: Side, d: int, p: string)
    requires Inv(r) && d in r.participants
    ensures Inv(r.With(side, AddOwner(r.On(side), d, p))) && Inv(r.With(side, TouchOwners(r.On(side), d)))
  {
    OwnerHoused(r.On(side), r.participants, d, p);
    hide Housed, Single, Typed, Numbered, Distinct, Apart, TopicsAgree, Owners;
  }

  lemma SlotKeeps(r: Registry, side: Side, d: int, p: string, t: string)
    requires Inv(r) && p in Owners(r.On(side).owners, d)
    ensures var h := r.On(side); Inv(r.With(side, h.(entries := Put(h.entries, d, p, t, At(h.entries, d, p, t)))))
  {
    hide At, HasKey, Put, Single, Typed, Numbered, Distinct, Apart, TopicsAgree, Owners;
    var h, o := r.On(side), r.On(Other(side));
    var m := Put(h.entries, d, p, t, At(h.entries, d, p, t));
    InvSides(r, side);
    PutAt(h.entries, d, p, t, At(h.entries, d, p, t));
    SameEntries(h.entries, m, r.types, r.nextId);
    SameApart(h.entries, m, o.entries);
    InvSides(r.With(side, h.(entries := m)), side);
  }

  lemma TopicKeeps(r: Registry, d: int, topics: map<string, string>)
    requires Inv(r) && forall t :: t in Row(r.topics, d) ==> t in topics && topics[t] == Row(r.topics, d)[t]
    ensures Inv(r.(topics := r.topics[d := topics]))
  {
    hide HalfOk, Apart;
  }

  lemma PushKeeps(r: Registry, side: Side, d: int, p: string, t: string, kind: string)
    requires Inv(r) && p in Owners(r.On(side).owners, d)
    requires Get(r.topics, d, t) == Some(kind)
    ensures var h := r.On(side);
            var h' := h.(entries := Put(h.entries, d, p, t, [Entry(r.nextId, kind)]));
            Inv(r.With(side, h').(types := r.types[d := Row(r.types, d)[t := kind]], nextId := r.nextId + 1))
  {
    hide At, HasKey, Put, Get, Single, Typed, Numbered, Distinct, Apart, Owners;
    var h, o, e := r.On(side), r.On(Other(side)), Entry(r.nextId, kind);
    var types' := r.types[d := Row(r.types, d)[t := kind]];
    InvSides(r, side);
    RowsKept(r.types, d, t, kind);
    PushedOk(h.entries, d, p, t, e, r.types, types');
    OthersOk(o.entries, d, t, kind, r.types, types', r.nextId);
    PushedApart(h.entries, o.entries, d, p, t, e);
    PutAt(h.entries, d, p, t, [e]);
    var h' := h.(entries := Put(h.entries, d, p, t, [e]));
    InvSides(r.With(side, h').(types := types', nextId := r.nextId + 1), side);
  }

  lemma CreateAtKeeps(r: Registry, side: Side, d: int, p: string, t: string, kind: string, f: Faults)
    requires Inv(r) && p in Owners(r.On(side).owners, d)
    requires Get(r.types, d, t).Some? ==> Get(r.types, d, t) == Some(kind)
    ensures Inv(CreateAt(r, side, d, p, t, kind, f).0)
  {
    hide At, Put, HalfOk, Apart, Owners, TopicsAgree, Inv;
    var topics := Row(r.topics, d);
    var held := if t in topics then topics[t] else kind;
    TopicKeeps(r, d, topics);
    TopicKeeps(r, d, topics[t := held]);
    RowsKept(r.topics, d, t, held);
    var r2 := r.(topics := r.topics[d := topics[t := held]]);
    if held == kind { PushKeeps(r2, side, d, p, t, kind); }
  }

  lemma CreateKeeps(r: Registry, known: set<string>, side: Side, d: int, p: string, t: string, kind: string, f: Faults)
    requires Inv(r)
    ensures Inv(Create(r, known, side, d, p, t, kind, f).0)
  {
    hide At, Put, Get, CreateAt, Inv, TouchOwners;
    if d in r.participants {
      OwnerKeeps(r, side, d, p);
      var r1 := r.With(side, AddOwner(r.On(side), d, p));
      SlotKeeps(r1, side, d, p, t);
      var h := r1.On(side);
      var r2 := r1.With(side, h.(entries := Put(h.entries, d, p, t, At(h.entries, d, p, t))));
      if Get(r.types, d, t).Some? ==> Get(r.types, d, t) == Some(kind) {
        CreateAtKeeps(r2, side, d, p, t, kind, f);
      }
    }
  }

  // ---------- What a creation does ----------

  // An endpoint has been made: an id has been used up.
  predicate Makes(r: Registry, r': Registry) { r'.nextId != r.nextId }

  // A creation that makes an endpoint fills the slot alone, and succeeds unless registering the holder
  // for events raises; one that makes none does not succeed and leaves every endpoint where it was.
  ghost predicate Created(r: Registry, side: Side, d: int, p: string, t: string, kind: string, f: Faults, r': Registry,
                          o: Outcome)
  {
    && r'.On(Other(side)).entries == r.On(Other(side)).entries
    && r'.participants == r.participants
    && (forall d', t' :: Get(r.topics, d', t').Some? ==> Get(r'.topics, d', t') == Get(r.topics, d', t'))
    && (Makes(r, r') ==>
          && o == (if f.listen then Done(r.nextId) else Threw) && r'.nextId == r.nextId + 1
          && At(r.On(side).entries, d, p, t) == []
          && Get(r'.topics, d, t) == Some(kind) && Get(r'.types, d, t) == Some(kind)
          && forall d', p', t' :: At(r'.On(side).entries, d', p', t') ==
               if (d', p', t') == (d, p, t) then [Entry(r.nextId, kind)] else At(r.On(side).entries, d', p', t'))
    && (!Makes(r, r') ==>
          && !o.Done? && r'.types == r.types
          && forall d', p', t' :: At(r'.On(side).entries, d', p', t') == At(r.On(side).entries, d', p', t'))
  }

  lemma CreateAtDoes(r: Registry, side: Side, d: int, p: string, t: string, kind: string, f: Faults)
    ensures var (r', o) := CreateAt(r, side, d, p, t, kind, f); Created(r, side, d, p, t, kind, f, r', o)
  {
    hide At, Put, Get, Row;
    var topics := Row(r.topics, d);
    var held := if t in topics then topics[t] else kind;
    RowsKept(r.topics, d, t, held);
    RowsKept(r.types, d, t, kind);
    RowGet(r.topics, d, t);
    PutAt(r.On(side).entries, d, p, t, [Entry(r.nextId, kind)]);
  }

  lemma RowGet(m: Table, d: int, t: string)
    ensures Get(m, d, t) == if t in Row(m, d) then Some(Row(m, d)[t]) else None
  {
  }

  lemma OwnerEntries(h: Half, d: int, p: string)
    ensures AddOwner(h, d, p).entries == h.entries && TouchOwners(h, d).entries == h.entries
  {
  }

  // The type is known and not another than the one recorded for the topic, and the domain is there.
  predicate Acceptable(r: Registry, known: set<string>, d: int, t: string, kind: string) {
    kind in known && (Get(r.types, d, t).Some? ==> Get(r.types, d, t).value == kind) && d in r.participants
  }

  // A creation gets as far as its slot: its owner, too, exists or can be made.
  predicate Admitted(r: Registry, known: set<string>, side: Side, d: int, p: string, t: string, kind: string,
                     f: Faults)
  {
    Acceptable(r, known, d, t, kind) && (p in Owners(r.On(side).owners, d) || f.owner)
  }

  function AtSlot(r: Registry, side: Side, d: int, p: string, t: string): Registry {
    var h := AddOwner(r.On(side), d, p);
    r.With(side, h.(entries := Put(h.entries, d, p, t, At(h.entries, d, p, t))))
  }

  // Creating the owner and looking the slot up move no endpoint.
  lemma SlotMoves(r: Registry, side: Side, d: int, p: string, t: string)
    ensures var r' := AtSlot(r, side, d, p, t);
            && r'.On(Other(side)) == r.On(Other(side)) && r'.participants == r.participants && r'.topics == r.topics
            && r'.types == r.types && r'.nextId == r.nextId
            && p in Owners(r'.On(side).owners, d)
            && forall d', p', t' :: At(r'.On(side).entries, d', p', t') == At(r.On(side).entries, d', p', t')
  {
    var h := AddOwner(r.On(side), d, p);
    PutAt(h.entries, d, p, t, At(h.entries, d, p, t));
    hide At, Put;
  }

  lemma CreateAdmitted(r: Registry, known: set<string>, side: Side, d: int, p: string, t: string, kind: string,
                       f: Faults)
    ensures var (r', o) := Create(r, known, side, d, p, t, kind, f);
            if Admitted(r, known, side, d, p, t, kind, f) then
              (r', o) == CreateAt(AtSlot(r, side, d, p, t), side, d, p, t, kind, f)
            else
              && o == (if Acceptable(r, known, d, t, kind) then Threw else Refused(Logic))
              && r'.On(side).entries == r.On(side).entries && r'.On(Other(side)) == r.On(Other(side))
              && r'.participants == r.participants && r'.topics == r.topics && r'.types == r.types
              && r'.nextId == r.nextId
  {
    hide At, Put, Get, CreateAt, AddOwner, TouchOwners;
    OwnerEntries(r.On(side), d, p);
  }

  lemma CreateDoes(r: Registry, known: set<string>, side: Side, d: int, p: string, t: string, kind: string, f: Faults)
    ensures var (r', o) := Create(r, known, side, d, p, t, kind, f); Created(r, side, d, p, t, kind, f, r', o)
  {
    hide At, Get, Create, CreateAt, AtSlot, Owners, Admitted;
    CreateAdmitted(r, known, side, d, p, t, kind, f);
    SlotMoves(r, side, d, p, t);
    CreateAtDoes(AtSlot(r, side, d, p, t), side, d, p, t, kind, f);
  }

  // Exactly these creations succeed, whatever trouble the DDS library makes: the type that counts is the
  // topic's own, whatever removals have done to the recorded one.
  lemma CreateSucceeds(r: Registry, known: set<string>, side: Side, d: int, p: string, t: string, kind: string,
                       f: Faults)
    requires Inv(r)
    ensures Create(r, known, side, d, p, t, kind, f).1.Done? <==>
            && kind in known && d in r.participants && At(r.On(side).entries, d, p, t) == []
            && (if Get(r.topics, d, t).Some? then Get(r.topics, d, t).value == kind else f.topic)
            && (p in Owners(r.On(side).owners, d) || f.owner)
            && (side == Reading ==> f.topicQos) && (f.firstTry || f.secondTry) && f.listen
  {
    hide HalfOk, Apart, At, AtSlot, Get, Create;
    CreateAdmitted(r, known, side, d, p, t, kind, f);
    SlotMoves(r, side, d, p, t);
    RowGet(r.topics, d, t);
  }

  // A creation of another type on an existing topic makes no endpoint. When nothing raises before, it is
  // refused: by the recorded type while there is one, and by the factory once a removal has forgotten it.
  lemma CreateMismatch(r: Registry, known: set<string>, side: Side, d: int, p: string, t: string, kind: string,
                       f: Faults)
    requires Inv(r) && kind in known && d in r.participants && At(r.On(side).entries, d, p, t) == []
    requires Get(r.topics, d, t).Some? && Get(r.topics, d, t).value != kind
    ensures var (r', o) := Create(r, known, side, d, p, t, kind, f);
            var raises := !(p in Owners(r.On(side).owners, d) || f.owner) || (side == Reading && !f.topicQos);
            && !Makes(r, r')
            && o == if Get(r.types, d, t).Some? then Refused(Logic) else if raises then Threw else Refused(Resource)
  {
    hide HalfOk, Apart, At, AtSlot, Get, Create;
    CreateAdmitted(r, known, side, d, p, t, kind, f);
    SlotMoves(r, side, d, p, t);
    RowGet(r.topics, d, t);
  }

  // ---------- Removal ----------

  lemma SlotIs(m: Nest, d: int, p: string, t: string, id: nat)
    requires Single(m) && InSlot(m, d, p, t, id)
    ensures HasKey(m, d, p, t) && m[d][p][t] == At(m, d, p, t)
    ensures exists e :: At(m, d, p, t) == [e] && e.id == id
    ensures Take(m, d, p, t, id) == Drop(m, d, p, t)
  {
    var e :| e in At(m, d, p, t) && e.id == id;
    assert At(m, d, p, t) == [e];
    assert Without([e], id) == [e][1..];
  }

  lemma DroppedOk(m: Nest, d: int, p: string, t: string, types: Table, next: nat)
    requires HasKey(m, d, p, t) && Single(m) && Typed(m, types) && Numbered(m, next) && Distinct(m)
    ensures var m' := Drop(m, d, p, t); Single(m') && Typed(m', types) && Numbered(m', next) && Distinct(m')
    ensures forall n :: Apart(m, n) ==> Apart(Drop(m, d, p, t), n)
  {
    DropAt(m, d, p, t);
    hide At, Drop, Get;
  }

  lemma UnusedEmpty(m: Nest, d: int, t: string)
    requires !Used(m, d, t)
    ensures forall p :: At(m, d, p, t) == []
  {
  }

  // Forgetting the type of a topic no endpoint uses.
  lemma ForgetOk(m: Nest, d: int, t: string, types: Table, topics: Table)
    requires Typed(m, types) && TopicsAgree(types, topics) && !Used(m, d, t) && d in types
    ensures Typed(m, types[d := types[d] - {t}]) && TopicsAgree(types[d := types[d] - {t}], topics)
  {
    UnusedEmpty(m, d, t);
    var types' := types[d := types[d] - {t}];
    assert forall d', t' :: Get(types', d', t') == if (d', t') == (d, t) then None else Get(types, d', t');
    hide At, Get, Used;
  }

  lemma DropKeeps(r: Registry, side: Side, d: int, p: string, t: string)
    requires Inv(r) && HasKey(r.On(side).entries, d, p, t)
    ensures var h := r.On(side); Inv(r.With(side, h.(entries := Drop(h.entries, d, p, t))))
  {
    hide At, HasKey, Drop, Single, Typed, Numbered, Distinct, Apart, TopicsAgree, Owners;
    var h, o := r.On(side), r.On(Other(side));
    InvSides(r, side);
    DropAt(h.entries, d, p, t);
    DroppedOk(h.entries, d, p, t, r.types, r.nextId);
    InvSides(r.With(side, h.(entries := Drop(h.entries, d, p, t))), side);
  }

  lemma ForgetKeeps(r: Registry, d: int, t: string)
    requires Inv(r) && !Used(r.writing.entries, d, t) && !Used(r.reading.entries, d, t) && d in r.types
    ensures Inv(r.(types := r.types[d := r.types[d] - {t}]))
  {
    hide Housed, Single, Typed, Numbered, Distinct, Apart, TopicsAgree, Used;
    ForgetOk(r.writing.entries, d, t, r.types, r.topics);
    ForgetOk(r.reading.entries, d, t, r.types, r.topics);
  }

  lemma RemoveKeeps(r: Registry, side: Side, d: int, p: string, t: string, id: nat)
    requires Inv(r) && InSlot(r.On(side).entries, d, p, t, id)
    ensures HasKey(r.On(side).entries, d, p, t)
    ensures Inv(Remove(r, side, d, p, t, id))
  {
    hide At, Drop, Take, Single, Typed, Numbered, Distinct, Apart, TopicsAgree, Used, InSlot, HasKey, Housed;
    var h := r.On(side);
    SlotIs(h.entries, d, p, t, id);
    DropKeeps(r, side, d, p, t);
    var r' := r.With(side, h.(entries := Drop(h.entries, d, p, t)));
    hide Inv;
    if side == Writing && !Used(r'.writing.entries, d, t) && !Used(r'.reading.entries, d, t) && d in r'.types {
      ForgetKeeps(r', d, t);
    }
  }

  lemma SameSlot(m: Nest, d: int, p: string, t: string, d': int, p': string, t': string, id: nat)
    requires Distinct(m) && InSlot(m, d, p, t, id) && InSlot(m, d', p', t', id)
    ensures (d, p, t) == (d', p', t')
  {
    hide At;
  }

  // A removal takes out exactly the endpoint of that id, and its topic keeps its type.
  lemma RemoveExact(r: Registry, side: Side, d: int, p: string, t: string, id: nat)
    requires Inv(r) && InSlot(r.On(side).entries, d, p, t, id)
    ensures HasKey(r.On(side).entries, d, p, t)
    ensures var r' := Remove(r, side, d, p, t, id);
            && !Holds(r'.On(side).entries, id)
            && (forall d', p', t' :: At(r'.On(side).entries, d', p', t') ==
                  if (d', p', t') == (d, p, t) then [] else At(r.On(side).entries, d', p', t'))
            && r'.On(Other(side)) == r.On(Other(side)) && r'.On(side).owners == r.On(side).owners
            && r'.participants == r.participants && r'.topics == r.topics && r'.nextId == r.nextId
  {
    var m := r.On(side).entries;
    SlotIs(m, d, p, t, id);
    DropAt(m, d, p, t);
    var r' := Remove(r, side, d, p, t, id);
    hide Drop, Take, At, Used, Housed, Typed, Numbered, Apart, TopicsAgree, HasKey, Single;
    assert r'.On(side).entries == Drop(m, d, p, t);
    forall d', p', t' ensures !InSlot(r'.On(side).entries, d', p', t', id) {
      if InSlot(m, d', p', t', id) { SameSlot(m, d, p, t, d', p', t', id); }
    }
  }

  // ---------- Runs ----------

  datatype Op =
    | NewParticipant(d: int, f: Faults)
    | NewOwner(side: Side, d: int, p: string, f: Faults)
    | NewEndpoint(side: Side, d: int, p: string, t: string, kind: string, f: Faults)
    | RemoveId(side: Side, id: nat)
    | ClearAll

  // remove_writer and remove_reader, by id.
  ghost function RemoveById(r: Registry, side: Side, id: nat): (Registry, Outcome) {
    if !Holds(r.On(side).entries, id) then (r, Refused(Logic))
    else
      var d, p, t :| InSlot(r.On(side).entries, d, p, t, id);
      assert HasKey(r.On(side).entries, d, p, t);
      (Remove(r, side, d, p, t, id), Done(id))
  }

  ghost function Step(r: Registry, known: set<string>, op: Op): (Registry, Outcome) {
    match op
    case NewParticipant(d, f) => CreateParticipant(r, d, f)
    case NewOwner(side, d, p, f) => CreateOwner(r, side, d, p, f)
    case NewEndpoint(side, d, p, t, kind, f) => Create(r, known, side, d, p, t, kind, f)
    case RemoveId(side, id) => RemoveById(r, side, id)
    case ClearAll => (Clear(r), Done(0))
  }

  ghost function Run(r: Registry, known: set<string>, ops: seq<Op>): Registry
    decreases |ops|
  {
    if ops == [] then r else Run(Step(r, known, ops[0]).0, known, ops[1..])
  }

  const EMPTY := Registry({}, Half(map[], map[]), Half(map[], map[]), map[], map[], 1)

  lemma EmptyHalfOk(types: Table, next: nat)
    ensures HalfOk(Half(map[], map[]), {}, types, next) && Apart(map[], map[])
  {
    var m: Nest := map[];
    assert forall d, p, t :: At(m, d, p, t) == [] && !HasKey(m, d, p, t);
    hide At, HasKey, Get;
  }

  lemma EmptyOk(next: nat)
    requires next > 0
    ensures Inv(Registry({}, Half(map[], map[]), Half(map[], map[]), map[], map[], next))
  {
    EmptyHalfOk(map[], next);
    hide HalfOk, Apart;
  }

  lemma StepKeeps(r: Registry, known: set<string>, op: Op)
    requires Inv(r)
    ensures Inv(Step(r, known, op).0)
  {
    hide At, Put, Get, Create, Remove, Take, HasKey, HalfOk, Apart, TopicsAgree, InSlot, AddOwner, TouchOwners;
    match op
    case NewParticipant(d, f) => MoreParticipants(r, d);
    case NewOwner(side, d, p, f) =>
      if d in r.participants { OwnerKeeps(r, side, d, p); }
    case NewEndpoint(side, d, p, t, kind, f) => CreateKeeps(r, known, side, d, p, t, kind, f);
    case RemoveId(side, id) =>
      if Holds(r.On(side).entries, id) {
        var d, p, t := SlotById(r, side, id);
        RemoveKeeps(r, side, d, p, t, id);
      }
    case ClearAll => EmptyOk(r.nextId);
  }

  lemma MoreParticipants(r: Registry, d: int)
    requires Inv(r)
    ensures Inv(r.(participants := r.participants + {d}))
  {
    hide Single, Typed, Numbered, Distinct, Apart, TopicsAgree, HasKey, Owners;
  }

  lemma SlotById(r: Registry, side: Side, id: nat) returns (d: int, p: string, t: string)
    requires Holds(r.On(side).entries, id)
    ensures InSlot(r.On(side).entries, d, p, t, id) && HasKey(r.On(side).entries, d, p, t)
    ensures RemoveById(r, side, id) == (Remove(r, side, d, p, t, id), Done(id))
  {
    hide Remove;
    d, p, t :| InSlot(r.On(side).entries, d, p, t, id) &&
      RemoveById(r, side, id) == (Remove(r, side, d, p, t, id), Done(id));
  }

  // Every reachable state.
  lemma {:induction false} RunKeeps(r: Registry, known: set<string>, ops: seq<Op>)
    requires Inv(r)
    ensures Inv(Run(r, known, ops))
    decreases |ops|
  {
    hide Inv, Step;
    if ops != [] {
      StepKeeps(r, known, ops[0]);
      RunKeeps(Step(r, known, ops[0]).0, known, ops[1..]);
    }
  }

  // In every state reached from the start an endpoint has its owner and its participant, is alone in
  // its slot, and is of the recorded type of its topic, which is the topic's own.
  lemma EndpointsInPlace(known: set<string>, ops: seq<Op>, side: Side, d: int, p: string, t: string, e: Entry)
    requires e in At(Run(EMPTY, known, ops).On(side).entries, d, p, t)
    ensures var r := Run(EMPTY, known, ops);
            && d in r.participants && p in Owners(r.On(side).owners, d)
            && At(r.On(side).entries, d, p, t) == [e] && 0 < e.id < r.nextId
            && Get(r.types, d, t) == Some(e.kind) && Get(r.topics, d, t) == Some(e.kind)
  {
    EmptyOk(1);
    RunKeeps(EMPTY, known, ops);
    var r := Run(EMPTY, known, ops);
    hide Run, Apart, Distinct, Owners, Get;
    assert HalfOk(r.On(side), r.participants, r.types, r.nextId);
    assert |At(r.On(side).entries, d, p, t)| <= 1;
    assert HasKey(r.On(side).entries, d, p, t);
    assert Get(r.types, d, t).Some?;
  }

  // A step other than clear keeps every topic's type; every step keeps the counter or moves it up.
  lemma StepTopics(r: Registry, known: set<string>, op: Op)
    requires Inv(r)
    ensures Step(r, known, op).0.nextId >= r.nextId
    ensures !op.ClearAll? ==>
              forall d, t :: Get(r.topics, d, t).Some? ==> Get(Step(r, known, op).0.topics, d, t) == Get(r.topics, d, t)
  {
    hide At, Put, Get, Create, Remove, Take, HasKey, InSlot, AddOwner, TouchOwners, Inv;
    match op
    case NewEndpoint(side, d, p, t, kind, f) => CreateDoes(r, known, side, d, p, t, kind, f);
    case RemoveId(side, id) =>
      if Holds(r.On(side).entries, id) {
        var d, p, t := SlotById(r, side, id);
        RemoveExact(r, side, d, p, t, id);
      }
    case _ =>
  }

  // Between clears a topic keeps its type, through removals and failed creations.
  lemma {:induction false} TopicStable(r: Registry, known: set<string>, ops: seq<Op>, d: int, t: string)
    requires Inv(r) && Get(r.topics, d, t).Some? && forall i :: 0 <= i < |ops| ==> !ops[i].ClearAll?
    ensures Get(Run(r, known, ops).topics, d, t) == Get(r.topics, d, t)
    decreases |ops|
  {
    hide Inv, Step, Get;
    if ops != [] {
      StepKeeps(r, known, ops[0]);
      StepTopics(r, known, ops[0]);
      TopicStable(Step(r, known, ops[0]).0, known, ops[1..], d, t);
    }
  }

  // So every creation that makes an endpoint later on that topic is of that type.
  lemma LaterCreations(r: Registry, known: set<string>, ops: seq<Op>, side: Side, d: int, p: string, t: string,
                                          kind: string, f: Faults)
    requires Inv(r) && Get(r.topics, d, t).Some? && forall i :: 0 <= i < |ops| ==> !ops[i].ClearAll?
    requires Makes(Run(r, known, ops), Create(Run(r, known, ops), known, side, d, p, t, kind, f).0)
    ensures Get(r.topics, d, t) == Some(kind)
  {
    hide Inv, Create, Get, Run, At;
    TopicStable(r, known, ops, d, t);
    CreateDoes(Run(r, known, ops), known, side, d, p, t, kind, f);
  }

  // The ids given to endpoints over a run.
  ghost function Given(r: Registry, known: set<string>, ops: seq<Op>): seq<nat>
    decreases |ops|
  {
    if ops == [] then []
    else
      var (r', o) := Step(r, known, ops[0]);
      (if ops[0].NewEndpoint? && Makes(r, r') then [r.nextId] else []) + Given(r', known, ops[1..])
  }

  predicate Increasing(g: seq<nat>, low: nat) {
    (forall i :: 0 <= i < |g| ==> g[i] >= low) && (forall i, j :: 0 <= i < j < |g| ==> g[i] < g[j])
  }

  // They only go up, so none is ever given twice, even across clears.
  lemma {:induction false} IdsIncrease(r: Registry, known: set<string>, ops: seq<Op>)
    requires Inv(r)
    ensures Increasing(Given(r, known, ops), r.nextId)
    decreases |ops|
  {
    hide Inv, Step, At, Get, Create, Increasing;
    if ops == [] {
      NoneIncrease(r.nextId);
    } else {
      var (r', o) := Step(r, known, ops[0]);
      StepKeeps(r, known, ops[0]);
      StepTopics(r, known, ops[0]);
      IdsIncrease(r', known, ops[1..]);
      var rest := Given(r', known, ops[1..]);
      if ops[0].NewEndpoint? && Makes(r, r') {
        StepCreates(r, known, ops[0]);
        assert r'.nextId == r.nextId + 1;
        PrependLess(r.nextId, rest);
      } else {
        assert Given(r, known, ops) == [] + rest == rest;
        Lower(rest, r'.nextId, r.nextId);
      }
    }
  }

  lemma NoneIncrease(low: nat)
    ensures Increasing([], low)
  {
  }

  lemma Lower(g: seq<nat>, low: nat, low': nat)
    requires Increasing(g, low) && low' <= low
    ensures Increasing(g, low')
  {
  }

  lemma PrependLess(id: nat, rest: seq<nat>)
    requires Increasing(rest, id + 1)
    ensures Increasing([id] + rest, id)
  {
  }

  lemma StepCreates(r: Registry, known: set<string>, op: Op)
    requires op.NewEndpoint?
    ensures var (r', o) := Step(r, known, op); Created(r, op.side, op.d, op.p, op.t, op.kind, op.f, r', o)
  {
    hide Create, Created;
    CreateDoes(r, known, op.side, op.d, op.p, op.t, op.kind, op.f);
  }

  // Removal by id succeeds exactly when the id is there, and then it is gone.
  lemma RemoveByIdExact(r: Registry, side: Side, id: nat)
    requires Inv(r)
    ensures var (r', o) := RemoveById(r, side, id);
            && (o.Done? <==> Holds(r.On(side).entries, id))
            && !Holds(r'.On(side).entries, id)
            && (forall d, p, t :: !InSlot(r.On(side).entries, d, p, t, id) ==>
                  At(r'.On(side).entries, d, p, t) == At(r.On(side).entries, d, p, t))
            && r'.On(Other(side)) == r.On(Other(side))
  {
    hide At, Remove, HasKey, InSlot, Inv;
    if Holds(r.On(side).entries, id) {
      var d, p, t := SlotById(r, side, id);
      RemoveExact(r, side, d, p, t, id);
    }
  }

  // ---------- Empty slots ----------

  // Looking a slot up makes its key, so a creation that gets that far and makes no endpoint in a free slot
  // leaves an empty one behind.
  lemma FailedLeavesKey(r: Registry, known: set<string>, side: Side, d: int, p: string, t: string, kind: string,
                        f: Faults)
    ensures var r' := Create(r, known, side, d, p, t, kind, f).0;
            && (HasKey(r'.On(side).entries, d, p, t) <==>
                  HasKey(r.On(side).entries, d, p, t) || Admitted(r, known, side, d, p, t, kind, f))
            && (At(r'.On(side).entries, d, p, t) == [] <==> At(r.On(side).entries, d, p, t) == [] && !Makes(r, r'))
  {
    var h := AddOwner(r.On(side), d, p);
    var r1 := AtSlot(r, side, d, p, t);
    PutAt(h.entries, d, p, t, At(h.entries, d, p, t));
    hide At, Put, Get, HasKey, AddOwner, Create, CreateAt, Admitted;
    CreateAdmitted(r, known, side, d, p, t, kind, f);
    CreateDoes(r, known, side, d, p, t, kind, f);
    KeyStays(r1, side, d, p, t, kind, f);
  }

  lemma KeyStays(r: Registry, side: Side, d: int, p: string, t: string, kind: string, f: Faults)
    ensures HasKey(r.On(side).entries, d, p, t) ==>
              HasKey(CreateAt(r, side, d, p, t, kind, f).0.On(side).entries, d, p, t)
  {
    PutAt(r.On(side).entries, d, p, t, [Entry(r.nextId, kind)]);
    hide At, Put, HasKey;
  }
}
