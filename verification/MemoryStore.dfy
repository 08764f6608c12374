/** The in-memory store of observer/live-adoption-store.ts, and its agreement with the tables. */
module MemoryStore {
  import opened Contracts
  import opened AdoptionTables
  import opened RetirementGuarantees

  datatype Memory = Memory(committed: seq<Run>, cursor: nat, events: seq<AdoptionEvent>, takeovers: set<string>)

  predicate SomeRole(committed: seq<Run>, role: Role) {
    exists i :: 0 <= i < |committed| && RoleOf(committed[i]) == role
  }

  predicate SomeBinding(committed: seq<Run>, binding: Binding) {
    exists i :: 0 <= i < |committed| && committed[i].proposal.binding == binding
  }

  predicate SomeRun(committed: seq<Run>, agentRun: string) {
    exists i :: 0 <= i < |committed| && committed[i].agentRun == agentRun
  }

  function RunsWithout(committed: seq<Run>, agentRun: string): seq<Run> {
    if committed == [] then []
    else (if committed[0].agentRun == agentRun then [] else [committed[0]]) + RunsWithout(committed[1..], agentRun)
  }

  function EventsAfter(events: seq<AdoptionEvent>, after: nat): seq<AdoptionEvent> {
    if events == [] then []
    else (if events[0].sequence > after then [events[0]] else []) + EventsAfter(events[1..], after)
  }

  /** The operations of a memory transaction; the retirement tables have no in-memory counterpart. */
  predicate InMemory(op: Op) {
    op.Adopt? || op.Purge? || op.Takeover?
  }

  function MemoryApply(m: Memory, op: Op): (Memory, Outcome)
    requires InMemory(op)
  {
    match op
    case Adopt(p, agentRun) =>
      if SomeRole(m.committed, (p.goal, p.role)) then (m, Failed(RoleOccupied))
      else if SomeBinding(m.committed, p.binding) then (m, Failed(AlreadyManaged))
      else
        (m.(committed := m.committed + [Run(p, agentRun)], cursor := m.cursor + 1,
            events := m.events + [AdoptionEvent(m.cursor + 1, p.id, p.session, agentRun, p.goal, p.role)]), Done)
    case Purge(agentRun) =>
      (m.(committed := RunsWithout(m.committed, agentRun), events := EventsWithout(m.events, agentRun),
          takeovers := m.takeovers - {agentRun}), Done)
    case Takeover(agentRun) =>
      if !SomeRun(m.committed, agentRun) then (m, Failed(UnknownAgentRun)) else (m.(takeovers := m.takeovers + {agentRun}), Done)
  }

  function MemoryApplyAll(m: Memory, ops: seq<Op>): (Memory, bool)
    requires forall i :: 0 <= i < |ops| ==> InMemory(ops[i])
    decreases |ops|
  {
    if ops == [] then (m, true)
    else
      var (next, outcome) := MemoryApply(m, ops[0]);
      if outcome.Failed? then (next, false) else MemoryApplyAll(next, ops[1..])
  }

  class InMemoryAdoptionStore {
    var committed: seq<Run>
    var cursor: nat
    var events: seq<AdoptionEvent>
    var takeovers: set<string>

    function Contents(): Memory
      reads this
    {
      Memory(committed, cursor, events, takeovers)
    }

    constructor ()
      ensures Contents() == Memory([], 0, [], {})
    {
      committed, cursor, events, takeovers := [], 0, [], {};
    }

    method CommitAdoption(p: Proposal, agentRun: string) returns (outcome: Outcome)
      modifies this
      ensures (Contents(), outcome) == MemoryApply(old(Contents()), Adopt(p, agentRun))
    {
      if SomeRole(committed, (p.goal, p.role)) { return Failed(RoleOccupied); }
      if SomeBinding(committed, p.binding) { return Failed(AlreadyManaged); }
      committed := committed + [Run(p, agentRun)];
      cursor := cursor + 1;
      events := events + [AdoptionEvent(cursor, p.id, p.session, agentRun, p.goal, p.role)];
      outcome := Done;
    }

    method PurgeCommittedRun(agentRun: string)
      modifies this
      ensures Contents() == MemoryApply(old(Contents()), Purge(agentRun)).0
    {
      committed := RunsWithout(committed, agentRun);
      events := EventsWithout(events, agentRun);
      takeovers := takeovers - {agentRun};
    }

    method RecordManualTakeover(agentRun: string) returns (outcome: Outcome)
      modifies this
      ensures (Contents(), outcome) == MemoryApply(old(Contents()), Takeover(agentRun))
    {
      if !SomeRun(committed, agentRun) { return Failed(UnknownAgentRun); }
      takeovers := takeovers + {agentRun};
      outcome := Done;
    }

    method Execute(op: Op) returns (outcome: Outcome)
      requires InMemory(op)
      modifies this
      ensures (Contents(), outcome) == MemoryApply(old(Contents()), op)
    {
      match op
      case Adopt(p, agentRun) => outcome := CommitAdoption(p, agentRun);
      case Purge(agentRun) => PurgeCommittedRun(agentRun); outcome := Done;
      case Takeover(agentRun) => outcome := RecordManualTakeover(agentRun);
    }

    /** A callback that throws or returns a promise changes nothing; otherwise all of it stands. */
    method Transaction(ops: seq<Op>, ending: Ending) returns (returned: bool)
      requires forall i :: 0 <= i < |ops| ==> InMemory(ops[i])
      modifies this
      ensures returned <==> MemoryApplyAll(old(Contents()), ops).1 && ending == Returns
      ensures Contents() == if returned then MemoryApplyAll(old(Contents()), ops).0 else old(Contents())
    {
      var committedSnapshot, cursorSnapshot, eventsSnapshot, takeoversSnapshot := committed, cursor, events, takeovers;
      var thrown := false;
      var i := 0;
      assert ops[0..] == ops;
      while i < |ops| && !thrown
        invariant 0 <= i <= |ops|
        invariant !thrown ==> MemoryApplyAll(old(Contents()), ops) == MemoryApplyAll(Contents(), ops[i..])
        invariant thrown ==> !MemoryApplyAll(old(Contents()), ops).1
        decreases |ops| - i, !thrown
      {
        assert ops[i..][0] == ops[i] && ops[i..][1..] == ops[i + 1..];
        var outcome := Execute(ops[i]);
        if outcome.Failed? {
          thrown := true;
        } else {
          i := i + 1;
        }
      }
      assert !thrown ==> ops[i..] == [];
      if thrown || ending != Returns {
        committed, cursor, events, takeovers := committedSnapshot, cursorSnapshot, eventsSnapshot, takeoversSnapshot;
        return false;
      }
      returned := true;
    }

    method ReadEventsAfter(after: nat) returns (found: seq<AdoptionEvent>)
      ensures found == EventsAfter(events, after)
    {
      found := [];
      var i := 0;
      assert events[0..] == events;
      while i < |events|
        invariant 0 <= i <= |events| && EventsAfter(events, after) == found + EventsAfter(events[i..], after)
      {
        assert events[i..][0] == events[i] && events[i..][1..] == events[i + 1..];
        if events[i].sequence > after {
          found := found + [events[i]];
        }
        i := i + 1;
      }
      assert events[i..] == [];
    }
  }

  // ---- Invariants. ----

  ghost predicate RunsApart(committed: seq<Run>) {
    forall i, j :: 0 <= i < j < |committed| ==>
      RoleOf(committed[i]) != RoleOf(committed[j]) && committed[i].proposal.binding != committed[j].proposal.binding
  }

  ghost predicate MemoryValid(m: Memory) {
    RunsApart(m.committed) && AdoptionSequenced(m.events, m.cursor, m.cursor)
  }

  lemma {:induction false} RunsFiltered(committed: seq<Run>, agentRun: string)
    ensures forall r :: r in RunsWithout(committed, agentRun) <==> r in committed && r.agentRun != agentRun
    ensures RunsApart(committed) ==> RunsApart(RunsWithout(committed, agentRun))
  {
    if committed != [] {
      RunsFiltered(committed[1..], agentRun);
      assert forall r :: r in committed <==> r == committed[0] || r in committed[1..];
      if RunsApart(committed) {
        assert RunsApart(committed[1..]);
        assert forall r :: r in committed[1..] ==> RoleOf(r) != RoleOf(committed[0]) && r.proposal.binding != committed[0].proposal.binding;
      }
    }
  }

  /** Committed runs never share a role or a binding, and retained events increase up to the cursor. */
  lemma MemoryApplyValid(m: Memory, op: Op)
    requires MemoryValid(m) && InMemory(op)
    ensures MemoryValid(MemoryApply(m, op).0)
  {
    if op.Purge? {
      RunsFiltered(m.committed, op.agentRun);
      EventsFiltered(m.events, op.agentRun, m.cursor);
    }
  }

  /** One event in front of a filtered list, taken or skipped. */
  lemma EventInFront(first: AdoptionEvent, rest: seq<AdoptionEvent>, later: seq<AdoptionEvent>, after: nat, top: nat)
    requires AdoptionSequenced([first] + rest, top, top) && AdoptionSequenced(later, top, top)
    requires forall e :: e in later <==> e in rest && e.sequence > after
    ensures AdoptionSequenced([first] + later, top, top)
    ensures forall e :: e in [first] + rest <==> e == first || e in rest
  {
    assert ([first] + rest)[0] == first;
    forall j | 0 <= j < |later| ensures first.sequence < later[j].sequence {
      assert later[j] in later && later[j] in rest;
      var k :| 0 <= k < |rest| && rest[k] == later[j];
      assert ([first] + rest)[k + 1] == later[j];
    }
  }

  /** Reading after a cursor yields exactly the later events, in order. */
  lemma {:induction false} EventsAfterExact(events: seq<AdoptionEvent>, after: nat, top: nat)
    requires AdoptionSequenced(events, top, top)
    ensures forall e :: e in EventsAfter(events, after) <==> e in events && e.sequence > after
    ensures AdoptionSequenced(EventsAfter(events, after), top, top)
  {
    if events != [] {
      var first, rest := events[0], events[1..];
      assert events == [first] + rest && AdoptionSequenced(rest, top, top);
      EventsAfterExact(rest, after, top);
      EventInFront(first, rest, EventsAfter(rest, after), after, top);
      hide AdoptionSequenced;
    }
  }

  // ---- Agreement with the tables. ----

  /** The same runs, events, cursor and takeovers, whatever order the rows are in. */
  ghost predicate Agrees(m: Memory, db: Db) {
    && (forall r :: r in m.committed ==> r.proposal.id in db.adopted && db.adopted[r.proposal.id] == r)
    && (forall id :: id in db.adopted ==> db.adopted[id] in m.committed)
    && m.events == db.adoptionEvents && m.cursor == db.adoptionSequence == db.adoptionCursor
    && m.takeovers == db.takeovers && db.replacements == map[]
  }

  /** New commits bring identities no row has. */
  predicate Fresh(db: Db, op: Op) {
    op.Adopt? ==> op.proposal.id !in db.adopted && !AdoptedRun(db, op.agentRun)
  }

  lemma SameTaken(m: Memory, db: Db, role: Role, binding: Binding, agentRun: string)
    requires Agrees(m, db)
    ensures SomeRole(m.committed, role) == RoleTaken(db, role)
    ensures SomeBinding(m.committed, binding) == BindingTaken(db, binding)
    ensures SomeRun(m.committed, agentRun) == AdoptedRun(db, agentRun)
  {
    if SomeRole(m.committed, role) {
      var i :| 0 <= i < |m.committed| && RoleOf(m.committed[i]) == role;
      assert m.committed[i] in m.committed;
    }
    if SomeBinding(m.committed, binding) {
      var i :| 0 <= i < |m.committed| && m.committed[i].proposal.binding == binding;
      assert m.committed[i] in m.committed;
    }
    if SomeRun(m.committed, agentRun) {
      var i :| 0 <= i < |m.committed| && m.committed[i].agentRun == agentRun;
      assert m.committed[i] in m.committed;
    }
    assert forall id :: id in db.adopted ==> exists i :: 0 <= i < |m.committed| && m.committed[i] == db.adopted[id];
  }

  /** With fresh identities both stores accept the same operations and stay in agreement. */
  lemma StoresAgree(m: Memory, db: Db, op: Op)
    requires Agrees(m, db) && InMemory(op) && Fresh(db, op)
    ensures MemoryApply(m, op).1.Failed? == Apply(db, op).1.Failed?
    ensures Agrees(MemoryApply(m, op).0, Apply(db, op).0)
  {
    match op
    case Adopt(p, agentRun) => SameTaken(m, db, (p.goal, p.role), p.binding, agentRun);
    case Purge(agentRun) => RunsFiltered(m.committed, agentRun);
    case Takeover(agentRun) => SameTaken(m, db, ("", ""), Binding("", "", "", ""), agentRun);
  }

  /** So whole transactions commit or roll back together. */
  lemma {:induction false} TransactionsAgree(m: Memory, db: Db, ops: seq<Op>)
    requires Agrees(m, db) && forall i :: 0 <= i < |ops| ==> InMemory(ops[i])
    requires FreshAll(db, ops)
    ensures MemoryApplyAll(m, ops).1 == ApplyAll(db, ops).1
    ensures Agrees(MemoryApplyAll(m, ops).0, ApplyAll(db, ops).0)
    decreases |ops|
  {
    if ops != [] {
      StoresAgree(m, db, ops[0]);
      if !Apply(db, ops[0]).1.Failed? {
        TransactionsAgree(MemoryApply(m, ops[0]).0, Apply(db, ops[0]).0, ops[1..]);
      }
    }
  }

  predicate FreshAll(db: Db, ops: seq<Op>)
    decreases |ops|
  {
    ops != [] ==> Fresh(db, ops[0]) && (!Apply(db, ops[0]).1.Failed? ==> FreshAll(Apply(db, ops[0]).0, ops[1..]))
  }

  /**
   * Without that the stores answer an operation differently exactly when it is a commit to a free role and binding that reuses a
   * proposal or run identity: memory accepts it, the tables refuse it, and only then do they stop agreeing.
   */
  lemma StoresDifferExactly(m: Memory, db: Db, op: Op)
    requires Agrees(m, db) && InMemory(op)
    ensures var reused := op.Adopt? && !SomeRole(m.committed, (op.proposal.goal, op.proposal.role))
              && !SomeBinding(m.committed, op.proposal.binding) && !Fresh(db, op);
      && (MemoryApply(m, op).1.Failed? != Apply(db, op).1.Failed? <==> reused)
      && (reused ==> MemoryApply(m, op).1 == Done && Apply(db, op).1 == Failed(ConstraintViolated))
      && (Agrees(MemoryApply(m, op).0, Apply(db, op).0) <==> !reused)
  {
    if op.Adopt? {
      SameTaken(m, db, (op.proposal.goal, op.proposal.role), op.proposal.binding, op.agentRun);
    }
    if Fresh(db, op) {
      StoresAgree(m, db, op);
    } else if SomeRole(m.committed, (op.proposal.goal, op.proposal.role)) || SomeBinding(m.committed, op.proposal.binding) {
      assert MemoryApply(m, op).0 == m && Apply(db, op).0 == db;
    } else {
      assert MemoryApply(m, op).0.cursor == m.cursor + 1 && Apply(db, op).0 == db;
    }
  }

  /** On an empty store already: a second commit that reuses the first one's proposal or run identity. */
  lemma ReusedIdentityDiffers(p: Proposal, q: Proposal, r: string, s: string)
    requires (p.id == q.id || r == s) && (p.goal, p.role) != (q.goal, q.role) && p.binding != q.binding
    ensures var m := MemoryApply(Memory([], 0, [], {}), Adopt(p, r)).0;
      var db := Apply(EMPTY, Adopt(p, r)).0;
      Agrees(m, db) && MemoryApply(m, Adopt(q, s)).1 == Done && Apply(db, Adopt(q, s)).1 == Failed(ConstraintViolated)
  {
    var m := MemoryApply(Memory([], 0, [], {}), Adopt(p, r)).0;
    var db := Apply(EMPTY, Adopt(p, r)).0;
    StoresAgree(Memory([], 0, [], {}), EMPTY, Adopt(p, r));
    assert db.adopted[p.id] == Run(p, r);
    StoresDifferExactly(m, db, Adopt(q, s));
  }
}
