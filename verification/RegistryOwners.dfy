// Which participants, publishers and subscribers there are: what each call does to them, and which
// there are after any run (RtpDdsGateway/src/dds_manager_entities.cpp and dds_manager_cleanup.cpp).
module RegistryOwners {
  import opened Wrappers
  import opened Registry
  import opened RegistryLaws

  // ---------- Single calls ----------

  // A participant is made exactly in a domain without one, unless the library raises.
  lemma ParticipantExactly(r: Registry, d: int, f: Faults)
    ensures var (r', o) := CreateParticipant(r, d, f);
            && (o == Refused(Logic) <==> d in r.participants)
            && (o == Threw <==> d !in r.participants && !f.owner)
            && (o == Done(0) <==> d !in r.participants && f.owner)
            && (forall d' :: d' in r'.participants <==> d' in r.participants || (d' == d && o == Done(0)))
            && r' == r.(participants := r'.participants)
  {
  }

  // A publisher or subscriber is made exactly in a domain with a participant and no other of its name.
  lemma OwnerExactly(r: Registry, side: Side, d: int, p: string, f: Faults)
    ensures var (r', o) := CreateOwner(r, side, d, p, f);
            && (o == Refused(Logic) <==> d !in r.participants || p in Owners(r.On(side).owners, d))
            && (o == Threw <==> d in r.participants && p !in Owners(r.On(side).owners, d) && !f.owner)
            && (o == Done(0) <==> d in r.participants && p !in Owners(r.On(side).owners, d) && f.owner)
            && (forall d', q :: q in Owners(r'.On(side).owners, d') <==>
                  q in Owners(r.On(side).owners, d') || ((d', q) == (d, p) && o == Done(0)))
            && r'.On(side).entries == r.On(side).entries && r'.On(Other(side)) == r.On(Other(side))
            && r'.participants == r.participants && r'.topics == r.topics && r'.types == r.types
            && r'.nextId == r.nextId
  {
    OwnerAdded(r.On(side), d, p);
    hide Owners;
  }

  // A creation of an endpoint makes its owner on the way whenever it gets that far.
  lemma EndpointOwner(r: Registry, known: set<string>, side: Side, d: int, p: string, t: string, kind: string,
                      f: Faults)
    ensures var r' := Create(r, known, side, d, p, t, kind, f).0;
            && (forall d', q :: q in Owners(r'.On(side).owners, d') <==>
                  || q in Owners(r.On(side).owners, d')
                  || ((d', q) == (d, p) && Acceptable(r, known, d, t, kind) && f.owner))
            && r'.On(Other(side)).owners == r.On(Other(side)).owners && r'.participants == r.participants
  {
    hide At, Put, Get, CreateAt, Acceptable;
    CreateAdmitted(r, known, side, d, p, t, kind, f);
    CreateAtOwners(AtSlot(r, side, d, p, t), side, d, p, t, kind, f);
    OwnerAdded(r.On(side), d, p);
    RefusedOwners(r, known, side, d, p, t, kind, f);
    hide Owners, Create, AddOwner;
  }

  lemma CreateAtOwners(r: Registry, side: Side, d: int, p: string, t: string, kind: string, f: Faults)
    ensures var r' := CreateAt(r, side, d, p, t, kind, f).0;
            && r'.On(side).owners == r.On(side).owners && r'.On(Other(side)).owners == r.On(Other(side)).owners
            && r'.participants == r.participants
  {
    hide At, Put, Row;
  }

  lemma RefusedOwners(r: Registry, known: set<string>, side: Side, d: int, p: string, t: string, kind: string,
                      f: Faults)
    ensures !Admitted(r, known, side, d, p, t, kind, f) ==>
              var r' := Create(r, known, side, d, p, t, kind, f).0;
              forall d', q :: q in Owners(r'.On(side).owners, d') <==> q in Owners(r.On(side).owners, d')
  {
    OwnerAdded(r.On(side), d, p);
    hide Owners, At, Put, Get, CreateAt, AddOwner, TouchOwners;
  }

  // A removal takes the slot's key, and its owner's when that has no other topic; a writer's removal forgets
  // the type of a topic that no publisher or subscriber of the domain has a slot for any more.
  lemma RemovalExactly(r: Registry, side: Side, d: int, p: string, t: string, id: nat)
    requires Inv(r) && InSlot(r.On(side).entries, d, p, t, id)
    ensures HasKey(r.On(side).entries, d, p, t)
    ensures var r' := Remove(r, side, d, p, t, id);
            var unused := forall q :: !HasKey(r'.writing.entries, d, q, t) && !HasKey(r'.reading.entries, d, q, t);
            && (forall d', p', t' :: HasKey(r'.On(side).entries, d', p', t') <==>
                  (d', p', t') != (d, p, t) && HasKey(r.On(side).entries, d', p', t'))
            && d in r'.On(side).entries
            && (p in r'.On(side).entries[d] <==> exists t' :: HasKey(r'.On(side).entries, d, p, t'))
            && forall d', t' :: Get(r'.types, d', t') ==
                 if side == Writing && unused && (d', t') == (d, t) then None else Get(r.types, d', t')
  {
    hide Inv;
    RemovedSlot(r, side, d, p, t, id);
    DropAt(r.On(side).entries, d, p, t);
    OwnerDropped(r.On(side).entries, d, p, t);
    var r' := Remove(r, side, d, p, t, id);
    UsedExactly(r'.writing.entries, d, t);
    UsedExactly(r'.reading.entries, d, t);
    RemovedTypes(r, side, d, p, t, id);
    hide Remove, Drop, Used, HasKey, Get;
  }

  lemma RemovedSlot(r: Registry, side: Side, d: int, p: string, t: string, id: nat)
    requires Inv(r) && InSlot(r.On(side).entries, d, p, t, id)
    ensures HasKey(r.On(side).entries, d, p, t)
    ensures Remove(r, side, d, p, t, id).On(side).entries == Drop(r.On(side).entries, d, p, t)
  {
    hide Housed, Typed, Numbered, Distinct, Apart, TopicsAgree, Single, Drop, Take, InSlot;
    SlotIs(r.On(side).entries, d, p, t, id);
  }

  lemma OwnerDropped(m: Nest, d: int, p: string, t: string)
    requires HasKey(m, d, p, t)
    ensures var m' := Drop(m, d, p, t); d in m' && (p in m'[d] <==> exists t' :: HasKey(m', d, p, t'))
  {
    var m' := Drop(m, d, p, t);
    if p in m'[d] {
      var rest := m[d][p] - {t};
      assert m'[d][p] == rest;
      if t' :| t' in rest { assert HasKey(m', d, p, t'); }
    }
  }

  lemma UsedExactly(m: Nest, d: int, t: string)
    ensures Used(m, d, t) <==> exists p :: HasKey(m, d, p, t)
  {
    if p :| HasKey(m, d, p, t) { assert t in m[d][p]; }
    if Used(m, d, t) {
      var p :| p in m[d] && t in m[d][p];
      assert HasKey(m, d, p, t);
    }
  }

  lemma RemovedTypes(r: Registry, side: Side, d: int, p: string, t: string, id: nat)
    requires HasKey(r.On(side).entries, d, p, t)
    ensures var r' := Remove(r, side, d, p, t, id);
            forall d', t' :: Get(r'.types, d', t') ==
              if side == Writing && !Used(r'.writing.entries, d, t) && !Used(r'.reading.entries, d, t)
                 && (d', t') == (d, t) then None
              else Get(r.types, d', t')
  {
    hide Used, Take;
  }

  // A clear leaves nothing but the counter.
  lemma NothingLeft(r: Registry)
    ensures var r' := Clear(r);
            && (forall d :: d !in r'.participants)
            && (forall side: Side, d :: Owners(r'.On(side).owners, d) == {})
            && (forall side: Side, d, p, t :: !HasKey(r'.On(side).entries, d, p, t))
            && (forall d, t :: Get(r'.topics, d, t) == None && Get(r'.types, d, t) == None)
            && r'.nextId == r.nextId
  {
  }

  // ---------- Runs ----------

  lemma {:induction false} RunLast(r: Registry, known: set<string>, ops: seq<Op>, op: Op)
    ensures Run(r, known, ops + [op]) == Step(Run(r, known, ops), known, op).0
    decreases |ops|
  {
    hide Step;
    if ops == [] {
      assert [] + [op] == [op] && [op][1..] == [];
      assert Run(Step(r, known, op).0, known, []) == Step(r, known, op).0;
    } else {
      assert (ops + [op])[1..] == ops[1..] + [op];
      RunLast(Step(r, known, ops[0]).0, known, ops[1..], op);
    }
  }

  // After the first i operations.
  ghost function Before(known: set<string>, ops: seq<Op>, i: nat): Registry
    requires i <= |ops|
  {
    Run(EMPTY, known, ops[..i])
  }

  lemma BeforeNext(known: set<string>, ops: seq<Op>, i: nat)
    requires i < |ops|
    ensures Before(known, ops, i + 1) == Step(Before(known, ops, i), known, ops[i]).0
  {
    assert ops[..i + 1] == ops[..i] + [ops[i]];
    RunLast(EMPTY, known, ops[..i], ops[i]);
    hide Run, Step;
  }

  // Since the last clear before n, operation i.
  predicate Since(ops: seq<Op>, i: int, n: nat)
    requires n <= |ops|
  {
    0 <= i < n && forall j :: i < j < n ==> !ops[j].ClearAll?
  }

  predicate MakesParticipant(op: Op, d: int) { op.NewParticipant? && op.d == d && op.f.owner }

  // The call makes the owner if it is not there.
  ghost predicate MakesOwner(r: Registry, known: set<string>, op: Op, side: Side, d: int, p: string) {
    match op
    case NewOwner(s, e, q, f) => (s, e, q) == (side, d, p) && d in r.participants && f.owner
    case NewEndpoint(s, e, q, t, kind, f) => (s, e, q) == (side, d, p) && Acceptable(r, known, d, t, kind) && f.owner
    case _ => false
  }

  ghost predicate OwnerMadeAt(known: set<string>, ops: seq<Op>, i: int, side: Side, d: int, p: string) {
    0 <= i < |ops| && MakesOwner(Before(known, ops, i), known, ops[i], side, d, p)
  }

  lemma StepOwners(r: Registry, known: set<string>, op: Op, side: Side, d: int, p: string)
    requires Inv(r)
    ensures var r' := Step(r, known, op).0;
            && (d in r'.participants <==> !op.ClearAll? && (d in r.participants || MakesParticipant(op, d)))
            && (p in Owners(r'.On(side).owners, d) <==>
                  !op.ClearAll? && (p in Owners(r.On(side).owners, d) || MakesOwner(r, known, op, side, d, p)))
  {
    hide Create, CreateOwner, Owners, Acceptable, Inv, Remove, InSlot, CreateParticipant, Clear, HasKey, Get;
    match op
    case NewParticipant(e, f) => ParticipantExactly(r, e, f);
    case NewOwner(s, e, q, f) => OwnerExactly(r, s, e, q, f);
    case NewEndpoint(s, e, q, t, kind, f) => EndpointOwner(r, known, s, e, q, t, kind, f);
    case RemoveId(s, id) =>
      if Holds(r.On(s).entries, id) {
        var e, q, t := SlotById(r, s, id);
        RemoveExact(r, s, e, q, t, id);
      }
    case ClearAll => NothingLeft(r);
  }

  // After any run a domain has a participant exactly when one was made there since the last clear, and a
  // publisher or subscriber is there exactly when it was.
  lemma {:induction false} OwnersExactly(known: set<string>, ops: seq<Op>, n: nat, side: Side, d: int, p: string)
    requires n <= |ops|
    ensures d in Before(known, ops, n).participants <==> exists i :: Since(ops, i, n) && MakesParticipant(ops[i], d)
    ensures p in Owners(Before(known, ops, n).On(side).owners, d) <==>
            exists i :: Since(ops, i, n) && OwnerMadeAt(known, ops, i, side, d, p)
  {
    hide Step, Owners, Before, Acceptable, Inv, Run;
    if n == 0 {
      AtStart(known, ops, side, d);
    } else {
      var r, op := Before(known, ops, n - 1), ops[n - 1];
      OwnersExactly(known, ops, n - 1, side, d, p);
      BeforeNext(known, ops, n - 1);
      BeforeInv(known, ops, n - 1);
      StepOwners(r, known, op, side, d, p);
      assert OwnerMadeAt(known, ops, n - 1, side, d, p) <==> MakesOwner(r, known, op, side, d, p);
      forall i ensures Since(ops, i, n) <==> i == n - 1 || (Since(ops, i, n - 1) && !op.ClearAll?) {
        SinceMore(ops, i, n);
      }
      if i :| Since(ops, i, n - 1) && OwnerMadeAt(known, ops, i, side, d, p) {
        assert Since(ops, i, n) <==> !op.ClearAll?;
      }
      assert Since(ops, n - 1, n);
    }
  }

  lemma SinceMore(ops: seq<Op>, i: int, n: nat)
    requires 0 < n <= |ops|
    ensures Since(ops, i, n) <==> i == n - 1 || (Since(ops, i, n - 1) && !ops[n - 1].ClearAll?)
  {
  }

  lemma BeforeInv(known: set<string>, ops: seq<Op>, i: nat)
    requires i <= |ops|
    ensures Inv(Before(known, ops, i))
  {
    EmptyOk(1);
    hide Inv, Run;
    RunKeeps(EMPTY, known, ops[..i]);
  }

  lemma AtStart(known: set<string>, ops: seq<Op>, side: Side, d: int)
    ensures d !in Before(known, ops, 0).participants && Owners(Before(known, ops, 0).On(side).owners, d) == {}
  {
    assert ops[..0] == [];
  }
}
