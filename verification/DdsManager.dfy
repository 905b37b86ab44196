// The DDS manager as an object whose methods update its nested maps
// (RtpDdsGateway/src/dds_manager_entities.cpp, dds_manager_cleanup.cpp, dds_manager_io.cpp and
// dds_manager.cpp, lines 68-79). Calls hold the manager's mutex, so each runs alone.
module DdsManager {
  import opened Wrappers
  import opened Registry
  import opened RegistryLaws
  import Dispatcher

  class DdsManager {
    const knownTypes: set<string>
    var participants: set<int>
    var publishers: map<int, set<string>>
    var subscribers: map<int, set<string>>
    var topics: Table
    var topicToType: Table
    var writers: Nest
    var readers: Nest
    var nextHolderId: nat
    var eventMode: Dispatcher.Mode

    function Contents(): Registry
      reads this
    {
      Registry(participants, Half(publishers, writers), Half(subscribers, readers), topics, topicToType, nextHolderId)
    }

    constructor (known: set<string>, mode: Dispatcher.Mode)
      ensures Contents() == EMPTY && knownTypes == known && eventMode == mode
    {
      knownTypes := known;
      participants, publishers, subscribers, topics, topicToType := {}, map[], map[], map[], map[];
      writers, readers, nextHolderId, eventMode := map[], map[], 1, mode;
    }

    method CreateParticipantIn(d: int, f: Faults) returns (o: Outcome)
      modifies this
      ensures (Contents(), o) == CreateParticipant(old(Contents()), d, f)
      ensures eventMode == old(eventMode)
    {
      if d in participants { return Refused(Logic); }
      if !f.owner { return Threw; }
      participants := participants + {d};
      return Done(0);
    }

    method CreatePublisherLocked(d: int, p: string, f: Faults) returns (o: Outcome)
      modifies this
      ensures (Contents(), o) == CreateOwner(old(Contents()), Writing, d, p, f)
      ensures eventMode == old(eventMode)
    {
      if d !in participants { return Refused(Logic); }
      publishers := publishers[d := Owners(publishers, d)];
      if p in publishers[d] { return Refused(Logic); }
      if !f.owner { return Threw; }
      publishers := publishers[d := publishers[d] + {p}];
      assert publishers == old(publishers)[d := Owners(old(publishers), d) + {p}];
      return Done(0);
    }

    method CreateSubscriberLocked(d: int, p: string, f: Faults) returns (o: Outcome)
      modifies this
      ensures (Contents(), o) == CreateOwner(old(Contents()), Reading, d, p, f)
      ensures eventMode == old(eventMode)
    {
      if d !in participants { return Refused(Logic); }
      subscribers := subscribers[d := Owners(subscribers, d)];
      if p in subscribers[d] { return Refused(Logic); }
      if !f.owner { return Threw; }
      subscribers := subscribers[d := subscribers[d] + {p}];
      assert subscribers == old(subscribers)[d := Owners(old(subscribers), d) + {p}];
      return Done(0);
    }

    // The topic holder: reused, or made by the type's factory.
    method TopicFor(d: int, t: string, kind: string, f: Faults) returns (held: Option<string>)
      modifies this`topics
      ensures var row := Row(old(topics), d);
              if t in row then held == Some(row[t]) && topics == old(topics)[d := row[t := row[t]]]
              else if f.topic then held == Some(kind) && topics == old(topics)[d := row[t := kind]]
              else held == None && topics == old(topics)[d := row]
    {
      var row := Row(topics, d);
      topics := topics[d := row];
      if t in row {
        held := Some(row[t]);
        assert row == row[t := row[t]];
      } else if f.topic {
        held := Some(kind);
        topics := topics[d := row[t := kind]];
      } else {
        held := None;
      }
    }

    // The factory checks the topic's type; when it fails it is tried again without QoS.
    static method Build(held: string, kind: string, f: Faults) returns (built: bool)
      ensures built <==> held == kind && (f.firstTry || f.secondTry)
    {
      built := held == kind && f.firstTry;
      if !built { built := held == kind && f.secondTry; }
    }

    // The part of CreateWriter after the slot has been looked up.
    method FillWriterSlot(d: int, p: string, t: string, kind: string, f: Faults) returns (o: Outcome)
      modifies this
      ensures (Contents(), o) == CreateAt(old(Contents()), Writing, d, p, t, kind, f)
      ensures eventMode == old(eventMode)
    {
      hide At, Put, Get, Row;
      var slot := At(writers, d, p, t);
      if slot != [] { return Refused(Logic); }
      var held := TopicFor(d, t, kind, f);
      if held.None? { return Threw; }
      // A failing topic QoS is caught.
      var built := Build(held.value, kind, f);
      if !built { return Refused(Resource); }
      var id := nextHolderId;
      nextHolderId := nextHolderId + 1;
      assert slot + [Entry(id, kind)] == [Entry(id, kind)];
      writers := Put(writers, d, p, t, slot + [Entry(id, kind)]);
      topicToType := topicToType[d := Row(topicToType, d)[t := kind]];
      // The event registration.
      if !f.listen { return Threw; }
      return Done(id);
    }

    method CreateWriter(d: int, p: string, t: string, kind: string, f: Faults) returns (o: Outcome)
      modifies this
      ensures (Contents(), o) == Create(old(Contents()), knownTypes, Writing, d, p, t, kind, f)
      ensures eventMode == old(eventMode)
    {
      hide At, Put, Get, Row, Owners, CreateAt;
      if kind !in knownTypes { return Refused(Logic); }
      var existing := Get(topicToType, d, t);
      if existing.Some? && existing.value != kind { return Refused(Logic); }
      if d !in participants { return Refused(Logic); }
      if p !in Owners(publishers, d) {
        var made := CreatePublisherLocked(d, p, f);
        if !made.Done? { return made; }
      } else {
        assert publishers[d := Owners(publishers, d) + {p}] == publishers by { OwnerThere(publishers, d, p); }
      }
      writers := Put(writers, d, p, t, At(writers, d, p, t));
      o := FillWriterSlot(d, p, t, kind, f);
    }

    // The part of CreateReader after the slot has been looked up.
    method FillReaderSlot(d: int, p: string, t: string, kind: string, f: Faults) returns (o: Outcome)
      modifies this
      ensures (Contents(), o) == CreateAt(old(Contents()), Reading, d, p, t, kind, f)
      ensures eventMode == old(eventMode)
    {
      hide At, Put, Get, Row;
      var slot := At(readers, d, p, t);
      if slot != [] { return Refused(Logic); }
      var held := TopicFor(d, t, kind, f);
      if held.None? { return Threw; }
      if !f.topicQos { return Threw; }
      var built := Build(held.value, kind, f);
      if !built { return Refused(Resource); }
      var id := nextHolderId;
      nextHolderId := nextHolderId + 1;
      assert slot + [Entry(id, kind)] == [Entry(id, kind)];
      readers := Put(readers, d, p, t, slot + [Entry(id, kind)]);
      topicToType := topicToType[d := Row(topicToType, d)[t := kind]];
      // The sample callback and the event registration.
      if !f.listen { return Threw; }
      return Done(id);
    }

    method CreateReader(d: int, p: string, t: string, kind: string, f: Faults) returns (o: Outcome)
      modifies this
      ensures (Contents(), o) == Create(old(Contents()), knownTypes, Reading, d, p, t, kind, f)
      ensures eventMode == old(eventMode)
    {
      hide At, Put, Get, Row, Owners, CreateAt;
      if kind !in knownTypes { return Refused(Logic); }
      var existing := Get(topicToType, d, t);
      if existing.Some? && existing.value != kind { return Refused(Logic); }
      if d !in participants { return Refused(Logic); }
      if p !in Owners(subscribers, d) {
        var made := CreateSubscriberLocked(d, p, f);
        if !made.Done? { return made; }
      } else {
        assert subscribers[d := Owners(subscribers, d) + {p}] == subscribers by { OwnerThere(subscribers, d, p); }
      }
      readers := Put(readers, d, p, t, At(readers, d, p, t));
      o := FillReaderSlot(d, p, t, kind, f);
    }

    // The nested search both removals make: domains, owners, topics.
    static method FindTopic(inner: Inner, id: nat) returns (r: Option<string>)
      ensures r.Some? ==> r.value in inner && HasId(inner[r.value], id)
      ensures r.None? ==> forall t :: t in inner ==> !HasId(inner[t], id)
    {
      var left := inner.Keys;
      while left != {}
        invariant left <= inner.Keys
        invariant forall t :: t in inner && t !in left ==> !HasId(inner[t], id)
        decreases |left|
      {
        var t :| t in left;
        if HasId(inner[t], id) { return Some(t); }
        left := left - {t};
      }
      return None;
    }

    static method FindOwner(byOwner: map<string, Inner>, id: nat) returns (r: Option<(string, string)>)
      ensures r.Some? ==>
                r.value.0 in byOwner && r.value.1 in byOwner[r.value.0] && HasId(byOwner[r.value.0][r.value.1], id)
      ensures r.None? ==> forall p, t :: p in byOwner && t in byOwner[p] ==> !HasId(byOwner[p][t], id)
    {
      hide HasId;
      var left := byOwner.Keys;
      while left != {}
        invariant left <= byOwner.Keys
        invariant forall p, t :: p in byOwner && p !in left && t in byOwner[p] ==> !HasId(byOwner[p][t], id)
        decreases |left|
      {
        var p :| p in left;
        var t := FindTopic(byOwner[p], id);
        if t.Some? { return Some((p, t.value)); }
        left := left - {p};
      }
      return None;
    }

    static method FindId(m: Nest, id: nat) returns (r: Option<(int, string, string)>)
      ensures r.Some? ==> HasKey(m, r.value.0, r.value.1, r.value.2) && InSlot(m, r.value.0, r.value.1, r.value.2, id)
      ensures r.None? ==> !Holds(m, id)
    {
      hide Holds;
      var left := m.Keys;
      while left != {}
        invariant left <= m.Keys
        invariant forall d, p, t {:trigger InSlot(m, d, p, t, id)} :: d !in left ==> !InSlot(m, d, p, t, id)
        decreases |left|
      {
        SomeDomain(left);
        var d :| d in left;
        var found := FindOwner(m[d], id);
        if found.Some? { return Some((d, found.value.0, found.value.1)); }
        forall p, t ensures !InSlot(m, d, p, t, id) {}
        left := left - {d};
      }
      NobodyHolds(m, id);
      return None;
    }

    // Does any owner of the domain still have the topic?
    static method TopicUsed(m: Nest, d: int, t: string) returns (used: bool)
      ensures used <==> Used(m, d, t)
    {
      if d !in m { return false; }
      var left := m[d].Keys;
      while left != {}
        invariant left <= m[d].Keys
        invariant forall p :: p in m[d] && p !in left ==> t !in m[d][p]
        decreases |left|
      {
        var p :| p in left;
        if t in m[d][p] { return true; }
        left := left - {p};
      }
      return false;
    }

    method RemoveWriter(id: nat) returns (o: Outcome)
      requires Inv(Contents())
      modifies this
      ensures (Contents(), o) == RemoveById(old(Contents()), Writing, id)
      ensures eventMode == old(eventMode)
    {
      hide Inv, InSlot, Holds, Used, Drop, Put;
      var found := FindId(writers, id);
      if found.None? { return Refused(Logic); }
      var (d, p, t) := found.value;
      Removes(Contents(), Writing, d, p, t, id);
      var rest := Without(writers[d][p][t], id);
      writers := if rest == [] then Drop(writers, d, p, t) else Put(writers, d, p, t, rest);
      var any := TopicUsed(writers, d, t);
      if !any { any := TopicUsed(readers, d, t); }
      if !any && d in topicToType { topicToType := topicToType[d := topicToType[d] - {t}]; }
      return Done(id);
    }

    // Leaves the recorded type of the topic alone.
    method RemoveReader(id: nat) returns (o: Outcome)
      requires Inv(Contents())
      modifies this
      ensures (Contents(), o) == RemoveById(old(Contents()), Reading, id)
      ensures eventMode == old(eventMode)
    {
      hide Inv, InSlot, Holds, Used, Drop, Put;
      var found := FindId(readers, id);
      if found.None? { return Refused(Logic); }
      var (d, p, t) := found.value;
      Removes(Contents(), Reading, d, p, t, id);
      var rest := Without(readers[d][p][t], id);
      readers := if rest == [] then Drop(readers, d, p, t) else Put(readers, d, p, t, rest);
      return Done(id);
    }

    // Writes one sample, of the topic's recorded type, to every writer of a slot.
    method PublishSlot(d: int, p: string, t: string, s: Samples) returns (threw: bool, log: seq<Write>)
      requires Inv(Contents()) && HasKey(writers, d, p, t)
      ensures forall w :: w in log ==> Due(Contents(), t, s, w) && w.domain == d && w.owner == p
      ensures !threw ==> forall w :: Due(Contents(), t, s, w) && w.domain == d && w.owner == p ==> w in log
      ensures |log| <= 1
      ensures threw ==> exists w :: Due(Contents(), t, s, w) && w.id in s.failing
    {
      log := [];
      if d !in topicToType || t !in topicToType[d] { return false, []; }
      var kind := topicToType[d][t];
      if kind !in s.made { return false, []; }
      if kind !in s.converted { return false, []; }
      var entries := writers[d][p][t];
      SlotSingle(Contents(), d, p, t);
      hide Inv;
      for i := 0 to |entries|
        invariant |log| == i
        invariant forall j :: 0 <= j < i ==> log[j] == Write(d, p, entries[j].id, kind, entries[j].kind)
      {
        var e := entries[i];
        if e.id in s.failing {
          assert Due(Contents(), t, s, Write(d, p, e.id, kind, e.kind));
          return true, log;
        }
        log := log + [Write(d, p, e.id, kind, e.kind)];
      }
      return false, log;
    }

    method PublishDomain(d: int, t: string, s: Samples) returns (threw: bool, log: seq<Write>)
      requires Inv(Contents()) && d in writers
      ensures forall w :: w in log ==> Due(Contents(), t, s, w) && w.domain == d
      ensures !threw ==> forall w :: Due(Contents(), t, s, w) && w.domain == d ==> w in log
      ensures NoneTwice(log)
      ensures threw ==> exists w :: Due(Contents(), t, s, w) && w.id in s.failing
    {
      hide Inv, Due;
      log := [];
      DueThere(Contents(), t, s);
      var left := writers[d].Keys;
      while left != {}
        invariant left <= writers[d].Keys
        invariant forall w :: w in log ==> Due(Contents(), t, s, w) && w.domain == d && w.owner !in left
        invariant forall w :: Due(Contents(), t, s, w) && w.domain == d && w.owner !in left ==> w in log
        invariant NoneTwice(log)
        decreases |left|
      {
        var p :| p in left;
        left := left - {p};
        if t in writers[d][p] {
          var failed, part := PublishSlot(d, p, t, s);
          forall i, j | 0 <= i < |log| && 0 <= j < |part| ensures log[i] != part[j] {
            assert log[i] in log && part[j] in part;
          }
          log := log + part;
          if failed { return true, log; }
        } else {
          NothingDue(Contents(), d, p, t, s);
        }
      }
      forall w | Due(Contents(), t, s, w) && w.domain == d ensures w in log {}
      return false, log;
    }

    // Publishes to every writer of a topic, in every domain and publisher.
    method PublishToTopic(t: string, isObject: bool, s: Samples) returns (o: Outcome, log: seq<Write>)
      requires Inv(Contents())
      ensures !s.printable ==> o == Threw && log == []
      ensures s.printable && !isObject ==> o == Refused(Logic) && log == []
      ensures forall w :: w in log ==> Due(Contents(), t, s, w) && w.sample == w.holder
      ensures isObject && !o.Threw? ==> forall w :: Due(Contents(), t, s, w) ==> w in log
      ensures NoneTwice(log)
      ensures o.Done? ==> o.id == |log| > 0
      ensures isObject && !o.Done? && !o.Threw? ==> o == Refused(Logic) && log == []
      ensures o.Threw? && s.printable ==> exists w :: Due(Contents(), t, s, w) && w.id in s.failing
    {
      hide Inv, Due;
      log := [];
      // The JSON is printed before anything is looked at.
      if !s.printable { return Threw, []; }
      if !isObject { return Refused(Logic), []; }
      DueThere(Contents(), t, s);
      var left := writers.Keys;
      while left != {}
        invariant left <= writers.Keys
        invariant forall w :: w in log ==> Due(Contents(), t, s, w) && w.domain !in left
        invariant forall w :: Due(Contents(), t, s, w) && w.domain !in left ==> w in log
        invariant NoneTwice(log)
        decreases |left|
      {
        SomeDomain(left);
        var d :| d in left;
        left := left - {d};
        var failed, part := PublishDomain(d, t, s);
        forall i, j | 0 <= i < |log| && 0 <= j < |part| ensures log[i] != part[j] {
          assert log[i] in log && part[j] in part;
        }
        log := log + part;
        if failed {
          forall w | w in log ensures w.sample == w.holder { DueTyped(Contents(), t, s, w); }
          return Threw, log;
        }
      }
      forall w | w in log ensures w.sample == w.holder { DueTyped(Contents(), t, s, w); }
      if log == [] { return Refused(Logic), []; }
      return Done(|log|), log;
    }

    // Publishes to the writers of one slot. Success here does not mean that anything was written.
    method PublishToWriter(d: int, p: string, t: string, isObject: bool, s: Samples)
      returns (o: Outcome, log: seq<Write>)
      requires Inv(Contents())
      ensures !s.printable ==> o == Threw && log == []
      ensures !o.Refused? <==>
                || !s.printable
                || (isObject && HasKey(writers, d, p, t)
                    && Get(topicToType, d, t).Some? && Get(topicToType, d, t).value != ""
                    && Get(topicToType, d, t).value in s.made * s.converted)
      ensures forall w :: w in log ==> Due(Contents(), t, s, w) && w.domain == d && w.owner == p && w.sample == w.holder
      ensures o.Done? ==>
                o.id == |log| && forall e :: e in At(writers, d, p, t) ==> Write(d, p, e.id, e.kind, e.kind) in log
      ensures o.Done? ==> (log == [] <==> At(writers, d, p, t) == [])
      ensures o.Refused? ==> o == Refused(Logic) && log == []
      ensures o.Threw? && s.printable ==> exists w :: Due(Contents(), t, s, w) && w.id in s.failing
    {
      hide Inv;
      log := [];
      if !s.printable { return Threw, []; }
      if !isObject || d !in writers || p !in writers[d] || t !in writers[d][p] { return Refused(Logic), []; }
      var kind := Get(topicToType, d, t);
      if kind.None? || kind.value == "" { return Refused(Logic), []; }
      if kind.value !in s.made { return Refused(Logic), []; }
      if kind.value !in s.converted { return Refused(Logic), []; }
      var failed, part := PublishSlot(d, p, t, s);
      forall w | w in part ensures w.sample == w.holder { DueTyped(Contents(), t, s, w); }
      if failed { return Threw, part; }
      forall e | e in At(writers, d, p, t) ensures Write(d, p, e.id, e.kind, e.kind) in part {
        var w := Write(d, p, e.id, kind.value, e.kind);
        DueTyped(Contents(), t, s, w);
      }
      assert part != [] ==> part[0] in part;
      assert At(writers, d, p, t) != [] ==> At(writers, d, p, t)[0] in At(writers, d, p, t);
      return Done(|part|), part;
    }

    method ClearEntities()
      modifies this
      ensures Contents() == Clear(old(Contents())) && eventMode == old(eventMode)
    {
      readers, writers := map[], map[];
      topics, topicToType := map[], map[];
      subscribers, publishers, participants := map[], map[], {};
    }

    // Refused (by an exception) as soon as any entity exists.
    method SetEventMode(mode: Dispatcher.Mode) returns (ok: bool)
      modifies this`eventMode
      ensures ok <==>
              participants == {} && publishers == map[] && subscribers == map[] && writers == map[] && readers == map[]
      ensures eventMode == if ok then mode else old(eventMode)
    {
      if participants != {} || publishers != map[] || subscribers != map[] || writers != map[] || readers != map[] {
        return false;
      }
      eventMode := mode;
      return true;
    }
  }

  lemma OwnerThere(m: map<int, set<string>>, d: int, p: string)
    requires p in Owners(m, d)
    ensures m[d := Owners(m, d) + {p}] == m
  {
    assert Owners(m, d) + {p} == Owners(m, d);
  }

  lemma SomeDomain(s: set<int>)
    ensures s == {} || exists d :: d in s
  {
    assert (forall d :: d !in s) ==> s == {};
  }

  lemma NobodyHolds(m: Nest, id: nat)
    requires forall d, p, t :: !InSlot(m, d, p, t, id)
    ensures !Holds(m, id)
  {
    hide InSlot;
  }

  // Wherever the id is found, that is the slot the removal is about.
  lemma Removes(r: Registry, side: Side, d: int, p: string, t: string, id: nat)
    requires Inv(r) && HasKey(r.On(side).entries, d, p, t) && InSlot(r.On(side).entries, d, p, t, id)
    ensures RemoveById(r, side, id) == (Remove(r, side, d, p, t, id), Done(id))
    ensures At(r.On(side).entries, d, p, t) == r.On(side).entries[d][p][t]
  {
    hide InSlot, Remove, Housed, Single, Typed, Numbered, Distinct, Apart, TopicsAgree;
    assert Holds(r.On(side).entries, id);
    var d', p', t' := SlotById(r, side, id);
    SameSlot(r.On(side).entries, d, p, t, d', p', t', id);
  }

  lemma SlotSingle(r: Registry, d: int, p: string, t: string)
    requires Inv(r) && HasKey(r.writing.entries, d, p, t)
    ensures |r.writing.entries[d][p][t]| <= 1 && At(r.writing.entries, d, p, t) == r.writing.entries[d][p][t]
  {
    hide Housed, Typed, Numbered, Distinct, Apart, TopicsAgree;
    assert |At(r.writing.entries, d, p, t)| <= 1;
  }

  ghost predicate NoneTwice(log: seq<Write>) {
    forall i, j :: 0 <= i < j < |log| ==> log[i] != log[j]
  }

  lemma NothingDue(r: Registry, d: int, p: string, t: string, s: Samples)
    requires !HasKey(r.writing.entries, d, p, t)
    ensures forall w :: Due(r, t, s, w) && w.domain == d ==> w.owner != p
  {
  }

  lemma DueThere(r: Registry, t: string, s: Samples)
    ensures forall w :: Due(r, t, s, w) ==> w.domain in r.writing.entries && w.owner in r.writing.entries[w.domain]
  {
  }

  // Every sample is of exactly the type its writer's holder casts it to.
  lemma DueTyped(r: Registry, t: string, s: Samples, w: Write)
    requires Inv(r) && Due(r, t, s, w)
    ensures w.sample == w.holder
  {
    hide Housed, Single, Numbered, Distinct, Apart, TopicsAgree, Get;
  }

  // On every run from the start: whatever is published later goes out as the type of its topic,
  // its record and its writer alike.
  lemma PublishTypedOnRuns(known: set<string>, ops: seq<Op>, t: string, s: Samples, w: Write)
    requires Due(Run(EMPTY, known, ops), t, s, w)
    ensures w.sample == w.holder && Get(Run(EMPTY, known, ops).topics, w.domain, t) == Some(w.holder)
  {
    EmptyOk(1);
    RunKeeps(EMPTY, known, ops);
    DueTyped(Run(EMPTY, known, ops), t, s, w);
    hide Run, HalfOk, Apart, Get, At;
  }
}
